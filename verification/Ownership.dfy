/** Who holds the reserved bytes of a connection: the decoder, its flows, and charges in transit (src/recovery.rs). */
module Ownership {
  import opened Results
  import opened Budget
  import opened Chunks
  import opened Charges

  ghost function TokensOf(charges: multiset<Charge>): set<object> {
    set c | c in charges :: c.token
  }

  /** Different charges, each for the bytes that the budget has it down for. */
  ghost predicate Held(ledger: map<object, nat>, charges: multiset<Charge>) {
    && (forall c :: c in charges ==> charges[c] == 1 && c.token in ledger && ledger[c.token] == c.bytes)
    && forall c, d :: c in charges && d in charges && c.token == d.token ==> c == d
  }

  ghost function StoreTokens<K>(stores: map<K, seq<BufferedChunk>>): set<object> {
    set f, t | f in stores && t in Tokens(stores[f]) :: t
  }

  /** No byte has two holders: not two flows, not a flow and a charge in transit, not the decoder and another. */
  ghost predicate Parted<K>(ledger: map<object, nat>, decoder: object, stores: map<K, seq<BufferedChunk>>,
                            charges: multiset<Charge>)
  {
    && decoder !in StoreTokens(stores) && decoder !in TokensOf(charges)
    && (forall f :: f in stores ==> Owned(ledger, stores[f]))
    && (forall f, g :: f in stores && g in stores && f != g ==> Tokens(stores[f]) !! Tokens(stores[g]))
    && Held(ledger, charges)
    && StoreTokens(stores) !! TokensOf(charges)
  }

  /** What nobody in this connection holds. */
  ghost function Foreign<K>(ledger: map<object, nat>, decoder: object, stores: map<K, seq<BufferedChunk>>,
                            charges: multiset<Charge>)
    : map<object, nat>
  {
    ledger - ({decoder} + StoreTokens(stores) + TokensOf(charges))
  }

  lemma OwnedInStores<K>(stores: map<K, seq<BufferedChunk>>, f: K, ledger: map<object, nat>)
    requires f in stores && Owned(ledger, stores[f])
    ensures Tokens(stores[f]) <= StoreTokens(stores) && Tokens(stores[f]) <= ledger.Keys
  {
  }

  lemma TokensWith(charges: multiset<Charge>, c: Charge)
    ensures TokensOf(charges + multiset{c}) == TokensOf(charges) + {c.token}
  {
    assert c in charges + multiset{c};
    forall t | t in TokensOf(charges) ensures t in TokensOf(charges + multiset{c}) {
      var d :| d in charges && d.token == t;
      assert d in charges + multiset{c};
    }
  }

  /** The budget and its holders after the ledger changed outside the stores only. */
  lemma StoresKeep<K>(ledger: map<object, nat>, ledger': map<object, nat>, stores: map<K, seq<BufferedChunk>>)
    requires forall f :: f in stores ==> Owned(ledger, stores[f])
    requires forall t :: t in StoreTokens(stores) && t in ledger ==> t in ledger' && ledger'[t] == ledger[t]
    ensures forall f :: f in stores ==> Owned(ledger', stores[f])
  {
    forall f | f in stores ensures Owned(ledger', stores[f]) {
      OwnedInStores(stores, f, ledger);
      OwnedKeeps(ledger, ledger', stores[f]);
    }
  }

  /** A new reservation comes into the connection. */
  lemma Reserved<K>(ledger: map<object, nat>, decoder: object, stores: map<K, seq<BufferedChunk>>,
                    charges: multiset<Charge>, c: Charge)
    requires Parted(ledger, decoder, stores, charges) && c.token !in ledger && c.token != decoder
    ensures Parted(ledger[c.token := c.bytes], decoder, stores, charges + multiset{c})
    ensures Foreign(ledger[c.token := c.bytes], decoder, stores, charges + multiset{c}) ==
        Foreign(ledger, decoder, stores, charges)
  {
    TokensWith(charges, c);
    StoresKeep(ledger, ledger[c.token := c.bytes], stores);
    forall t | t in StoreTokens(stores) ensures t in ledger {
      var f :| f in stores && t in Tokens(stores[f]);
      OwnedInStores(stores, f, ledger);
    }
    hide StoreTokens, Tokens, Owned;
    assert forall d :: d in charges ==> d.token != c.token;
  }

  lemma TokensWithout(ledger: map<object, nat>, charges: multiset<Charge>, c: Charge)
    requires Held(ledger, charges) && c in charges
    ensures TokensOf(charges - multiset{c}) == TokensOf(charges) - {c.token}
    ensures Held(ledger - {c.token}, charges - multiset{c})
  {
    forall d | d in charges && d != c ensures d in charges - multiset{c} {
    }
  }

  /** A charge goes back to the budget. */
  lemma Returned<K>(ledger: map<object, nat>, decoder: object, stores: map<K, seq<BufferedChunk>>,
                    charges: multiset<Charge>, c: Charge)
    requires Parted(ledger, decoder, stores, charges) && c in charges
    ensures Parted(ledger - {c.token}, decoder, stores, charges - multiset{c})
    ensures Foreign(ledger - {c.token}, decoder, stores, charges - multiset{c}) ==
        Foreign(ledger, decoder, stores, charges)
  {
    TokensWithout(ledger, charges, c);
    assert c.token in TokensOf(charges);
    StoresKeep(ledger, ledger - {c.token}, stores);
    hide StoreTokens, Tokens, Owned, Held;
  }

  /** The decoder's own share changes. */
  lemma Decoded<K>(ledger: map<object, nat>, decoder: object, stores: map<K, seq<BufferedChunk>>,
                   charges: multiset<Charge>, n: nat)
    requires Parted(ledger, decoder, stores, charges)
    ensures Parted(ledger[decoder := n], decoder, stores, charges)
    ensures Foreign(ledger[decoder := n], decoder, stores, charges) == Foreign(ledger, decoder, stores, charges)
  {
    StoresKeep(ledger, ledger[decoder := n], stores);
    hide StoreTokens, Tokens, Owned;
    assert forall c :: c in charges ==> c.token in TokensOf(charges);
  }

  /** A charge is resized, or keeps less because a part was split off. */
  lemma Resized<K>(ledger: map<object, nat>, decoder: object, stores: map<K, seq<BufferedChunk>>,
                   charges: multiset<Charge>, c: Charge, n: nat)
    requires Parted(ledger, decoder, stores, charges) && c in charges
    ensures Parted(ledger[c.token := n], decoder, stores, charges - multiset{c} + multiset{Charge(c.token, n)})
    ensures Foreign(ledger[c.token := n], decoder, stores, charges - multiset{c} + multiset{Charge(c.token, n)})
      == Foreign(ledger, decoder, stores, charges)
  {
    assert c.token in TokensOf(charges) && c.token != decoder;
    Returned(ledger, decoder, stores, charges, c);
    Reserved(ledger - {c.token}, decoder, stores, charges - multiset{c}, Charge(c.token, n));
    assert (ledger - {c.token})[c.token := n] == ledger[c.token := n];
  }

  lemma StoreTokensWith<K>(stores: map<K, seq<BufferedChunk>>, f: K, after: seq<BufferedChunk>)
    requires f in stores && forall g :: g in stores && g != f ==> Tokens(stores[f]) !! Tokens(stores[g])
    ensures StoreTokens(stores[f := after]) == StoreTokens(stores) - Tokens(stores[f]) + Tokens(after)
  {
    var stores' := stores[f := after];
    hide Tokens;
    forall t | t in StoreTokens(stores) - Tokens(stores[f]) + Tokens(after) ensures t in StoreTokens(stores') {
      if t in Tokens(after) {
        assert f in stores' && t in Tokens(stores'[f]);
      } else {
        var g :| g in stores && t in Tokens(stores[g]);
        assert g in stores' && t in Tokens(stores'[g]);
      }
    }
    forall t | t in StoreTokens(stores') ensures t in StoreTokens(stores) - Tokens(stores[f]) + Tokens(after) {
      var g :| g in stores' && t in Tokens(stores'[g]);
      if g != f {
        assert g in stores && t in Tokens(stores[g]);
      }
    }
  }

  /** A flow takes a charge and keeps, for its own chunks, what it needs of it. */
  lemma Consigned<K>(ledger: map<object, nat>, ledger': map<object, nat>, decoder: object,
                     stores: map<K, seq<BufferedChunk>>, charges: multiset<Charge>, f: K, after: seq<BufferedChunk>,
                     c: Charge)
    requires Parted(ledger, decoder, stores, charges) && f in stores && c in charges && decoder in ledger
    requires Owned(ledger', after) && Others(ledger', after) == Others(ledger, stores[f]) - {c.token}
    ensures Parted(ledger', decoder, stores[f := after], charges - multiset{c})
    ensures Foreign(ledger', decoder, stores[f := after], charges - multiset{c}) ==
        Foreign(ledger, decoder, stores, charges)
    ensures decoder in ledger' && ledger'[decoder] == ledger[decoder]
  {
    PartedIs(ledger, decoder, stores, charges, f, c);
    StoreTokensWith(stores, f, after);
    TokensWithout(ledger, charges, c);
    hide Tokens, Owned, StoreTokens, Held, TokensOf, Others;
    var stores', charges' := stores[f := after], charges - multiset{c};
    assert Rests(ledger, ledger', Tokens(stores[f]), Tokens(after), c.token) by {
      ConsignedRest(ledger, ledger', decoder, stores, charges, f, after, c);
    }
    SameRest(ledger, ledger', decoder, Tokens(stores[f]), Tokens(after), c.token, StoreTokens(stores),
             TokensOf(charges));
    assert Parted(ledger', decoder, stores', charges') by {
      ConsignedStores(ledger, ledger', decoder, stores, charges, f, after, c);
      ConsignedCharges(ledger, ledger', decoder, stores, charges, f, after, c);
    }
  }

  /** Outside the two sets of tokens, `c` is all that the ledger lost. */
  ghost predicate Rests(ledger: map<object, nat>, ledger': map<object, nat>, mine: set<object>, mine': set<object>,
                        c: object)
  {
    && (forall t :: t in ledger && t !in mine && t != c ==> t in ledger' && ledger'[t] == ledger[t] && t !in mine')
    && (forall t :: t in ledger' && t !in mine' ==> t in ledger && t !in mine && t != c)
  }

  lemma PartedIs<K>(ledger: map<object, nat>, decoder: object, stores: map<K, seq<BufferedChunk>>,
                    charges: multiset<Charge>, f: K, c: Charge)
    requires Parted(ledger, decoder, stores, charges) && f in stores && c in charges
    ensures decoder !in StoreTokens(stores) && decoder !in TokensOf(charges) && decoder !in Tokens(stores[f])
    ensures c.token in ledger && ledger[c.token] == c.bytes && c.token in TokensOf(charges)
    ensures c.token !in Tokens(stores[f])
    ensures Owned(ledger, stores[f]) && Tokens(stores[f]) <= StoreTokens(stores) && Held(ledger, charges)
    ensures TokensOf(charges) <= ledger.Keys && TokensOf(charges) !! StoreTokens(stores) && decoder != c.token
    ensures forall g :: g in stores && g != f ==> Tokens(stores[f]) !! Tokens(stores[g])
  {
    OwnedInStores(stores, f, ledger);
    HeldTokens(ledger, charges);
    assert c.token in TokensOf(charges);
    hide Tokens, StoreTokens;
  }

  lemma SameRest(ledger: map<object, nat>, ledger': map<object, nat>, decoder: object, mine: set<object>,
                 mine': set<object>, c: object, stored: set<object>, charged: set<object>)
    requires Rests(ledger, ledger', mine, mine', c)
    requires mine <= stored && c in charged && charged !! stored && charged <= ledger.Keys
    requires decoder in ledger && decoder !in stored && decoder !in charged
    ensures ledger' - ({decoder} + (stored - mine + mine') + (charged - {c})) == ledger - ({decoder} + stored + charged)
    ensures charged - {c} !! stored - mine + mine'
    ensures decoder !in stored - mine + mine' && decoder in ledger' && ledger'[decoder] == ledger[decoder]
  {
  }

  lemma ConsignedStores<K>(ledger: map<object, nat>, ledger': map<object, nat>, decoder: object,
                           stores: map<K, seq<BufferedChunk>>, charges: multiset<Charge>, f: K,
                           after: seq<BufferedChunk>, c: Charge)
    requires Parted(ledger, decoder, stores, charges) && f in stores && c in charges && decoder in ledger
    requires Owned(ledger', after) && Others(ledger', after) == Others(ledger, stores[f]) - {c.token}
    ensures var stores' := stores[f := after];
      && (forall g :: g in stores' ==> Owned(ledger', stores'[g]))
      && (forall g, h :: g in stores' && h in stores' && g != h ==> Tokens(stores'[g]) !! Tokens(stores'[h]))
  {
    ConsignedRest(ledger, ledger', decoder, stores, charges, f, after, c);
    assert c.token in TokensOf(charges);
    forall g | g in stores && g != f ensures Owned(ledger', stores[g]) && Tokens(stores[g]) !! Tokens(after) {
      OwnedInStores(stores, g, ledger);
      OwnedKeeps(ledger, ledger', stores[g]);
    }
    hide Tokens, Owned, StoreTokens, TokensOf;
  }

  lemma ConsignedCharges<K>(ledger: map<object, nat>, ledger': map<object, nat>, decoder: object,
                            stores: map<K, seq<BufferedChunk>>, charges: multiset<Charge>, f: K,
                            after: seq<BufferedChunk>, c: Charge)
    requires Parted(ledger, decoder, stores, charges) && f in stores && c in charges && decoder in ledger
    requires Others(ledger', after) == Others(ledger, stores[f]) - {c.token}
    ensures Held(ledger', charges - multiset{c}) && Tokens(after) !! TokensOf(charges - multiset{c})
  {
    ConsignedRest(ledger, ledger', decoder, stores, charges, f, after, c);
    OwnedInStores(stores, f, ledger);
    TokensWithout(ledger, charges, c);
    hide Tokens, Owned, StoreTokens;
    var rest := charges - multiset{c};
    HeldTokens(ledger - {c.token}, rest);
    hide Held, TokensOf;
    HeldKeeps(ledger - {c.token}, ledger', rest);
  }

  lemma HeldTokens(ledger: map<object, nat>, charges: multiset<Charge>)
    requires Held(ledger, charges)
    ensures TokensOf(charges) <= ledger.Keys
  {
  }

  lemma HeldKeeps(ledger: map<object, nat>, ledger': map<object, nat>, charges: multiset<Charge>)
    requires Held(ledger, charges)
    requires forall t :: t in TokensOf(charges) && t in ledger ==> t in ledger' && ledger'[t] == ledger[t]
    ensures Held(ledger', charges)
  {
    forall c | c in charges ensures c.token in ledger' && ledger'[c.token] == c.bytes {
      assert c.token in TokensOf(charges);
    }
  }

  lemma ConsignedRest<K>(ledger: map<object, nat>, ledger': map<object, nat>, decoder: object,
                         stores: map<K, seq<BufferedChunk>>, charges: multiset<Charge>, f: K, after: seq<BufferedChunk>,
                         c: Charge)
    requires Parted(ledger, decoder, stores, charges) && f in stores && c in charges && decoder in ledger
    requires Others(ledger', after) == Others(ledger, stores[f]) - {c.token}
    ensures Rests(ledger, ledger', Tokens(stores[f]), Tokens(after), c.token)
  {
    hide Tokens, Owned, StoreTokens;
    forall t | t in ledger && t !in Tokens(stores[f]) && t != c.token
      ensures t in ledger' && ledger'[t] == ledger[t] && t !in Tokens(after)
    {
      assert t in Others(ledger, stores[f]) - {c.token};
      assert t in Others(ledger', after);
    }
    forall t | t in ledger' && t !in Tokens(after) ensures t in ledger && t !in Tokens(stores[f]) && t != c.token {
      assert t in Others(ledger', after);
      assert t in Others(ledger, stores[f]) - {c.token};
    }
  }

  /** A flow without data joins. */
  lemma Joined<K>(ledger: map<object, nat>, decoder: object, stores: map<K, seq<BufferedChunk>>,
                  charges: multiset<Charge>, f: K)
    requires Parted(ledger, decoder, stores, charges) && f !in stores
    ensures Parted(ledger, decoder, stores[f := []], charges)
    ensures Foreign(ledger, decoder, stores[f := []], charges) == Foreign(ledger, decoder, stores, charges)
  {
    var stores' := stores[f := []];
    assert Tokens([]) == {};
    forall t | t in StoreTokens(stores) ensures t in StoreTokens(stores') {
      var g :| g in stores && t in Tokens(stores[g]);
      assert g in stores' && t in Tokens(stores'[g]);
    }
    assert StoreTokens(stores') == StoreTokens(stores);
    hide StoreTokens, Tokens;
    assert Owned(ledger, []);
  }

  /** A flow leaves, and its chunks with it. */
  lemma Left<K>(ledger: map<object, nat>, decoder: object, stores: map<K, seq<BufferedChunk>>,
                charges: multiset<Charge>, f: K)
    requires Parted(ledger, decoder, stores, charges) && f in stores
    ensures Parted(Others(ledger, stores[f]), decoder, stores - {f}, charges)
    ensures Foreign(Others(ledger, stores[f]), decoder, stores - {f}, charges) ==
        Foreign(ledger, decoder, stores, charges)
  {
    var stores' := stores - {f};
    LeftTokens(stores, f);
    OwnedInStores(stores, f, ledger);
    assert StoreTokens(stores') !! Tokens(stores[f]) by {
      forall t | t in StoreTokens(stores') ensures t !in Tokens(stores[f]) {
        var g :| g in stores' && t in Tokens(stores'[g]);
      }
    }
    StoresKeep(ledger, Others(ledger, stores[f]), stores');
    hide StoreTokens, Tokens, Owned;
    HeldKeeps(ledger, Others(ledger, stores[f]), charges);
  }

  lemma LeftTokens<K>(stores: map<K, seq<BufferedChunk>>, f: K)
    requires f in stores
    ensures StoreTokens(stores) == StoreTokens(stores - {f}) + Tokens(stores[f])
  {
    hide Tokens;
    forall t | t in StoreTokens(stores) ensures t in StoreTokens(stores - {f}) + Tokens(stores[f]) {
      var g :| g in stores && t in Tokens(stores[g]);
      if g != f {
        assert g in stores - {f} && t in Tokens((stores - {f})[g]);
      }
    }
  }

  // ----- adding up

  lemma {:induction false} TotalParts(ledger: map<object, nat>, part: set<object>)
    ensures Total(ledger) == Total(ledger - part) + Total(ledger - (ledger.Keys - part))
    decreases |part|
  {
    if part * ledger.Keys == {} {
      assert ledger - part == ledger;
      assert ledger - (ledger.Keys - part) == map[];
    } else {
      var k :| k in part && k in ledger;
      var less := part - {k};
      TotalParts(ledger, less);
      TotalWithout(ledger - less, k);
      assert ledger - less - {k} == ledger - part;
      var taken := ledger - (ledger.Keys - part);
      TotalWithout(taken, k);
      assert taken - {k} == ledger - (ledger.Keys - less);
    }
  }

  /** The reserved bytes that these holders have between them. */
  ghost function Share(ledger: map<object, nat>, holders: set<object>): nat {
    Total(ledger - (ledger.Keys - holders))
  }

  lemma ShareApart(ledger: map<object, nat>, a: set<object>, b: set<object>)
    requires a !! b
    ensures Total(ledger - a) == Total(ledger - (a + b)) + Share(ledger, b)
  {
    TotalParts(ledger - a, b);
    assert ledger - a - b == ledger - (a + b);
    assert ledger - a - ((ledger - a).Keys - b) == ledger - (ledger.Keys - b);
  }

  /** Nothing is counted twice and nothing is forgotten. */
  lemma Adds<K>(ledger: map<object, nat>, decoder: object, stores: map<K, seq<BufferedChunk>>,
                charges: multiset<Charge>)
    requires Parted(ledger, decoder, stores, charges) && decoder in ledger
    ensures Total(ledger) == ledger[decoder] + Share(ledger, StoreTokens(stores)) + Share(ledger, TokensOf(charges))
      + Total(Foreign(ledger, decoder, stores, charges))
  {
    TotalWithout(ledger, decoder);
    ShareApart(ledger, {decoder}, StoreTokens(stores));
    ShareApart(ledger, {decoder} + StoreTokens(stores), TokensOf(charges));
  }

  lemma ShareNone(ledger: map<object, nat>)
    ensures Share(ledger, {}) == 0
  {
    assert ledger - (ledger.Keys - {}) == map[];
  }
}

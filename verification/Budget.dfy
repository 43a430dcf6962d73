/** The endpoint's shared recovery memory and the linear charges drawn on it (src/recovery.rs). */
module Budget {
  import opened Results

  // ----- sums over a ledger

  ghost function Total(ledger: map<object, nat>): nat
    decreases |ledger|
  {
    if ledger == map[] then 0
    else
      var k :| k in ledger;
      ledger[k] + Total(ledger - {k})
  }

  // The sum does not depend on the order in which entries are taken.
  lemma {:induction false} TotalWithout(ledger: map<object, nat>, k: object)
    requires k in ledger
    ensures Total(ledger) == ledger[k] + Total(ledger - {k})
    decreases |ledger|
  {
    var p :| p in ledger && Total(ledger) == ledger[p] + Total(ledger - {p});
    if p != k {
      TotalWithout(ledger - {p}, k);
      TotalWithout(ledger - {k}, p);
      assert ledger - {p} - {k} == ledger - {k} - {p};
    }
  }

  ghost function Entry(ledger: map<object, nat>, k: object): nat {
    if k in ledger then ledger[k] else 0
  }

  lemma TotalUpdate(ledger: map<object, nat>, k: object, v: nat)
    ensures Total(ledger[k := v]) == Total(ledger) - Entry(ledger, k) + v
    ensures Total(ledger - {k}) == Total(ledger) - Entry(ledger, k)
    ensures Entry(ledger, k) <= Total(ledger)
  {
    TotalWithout(ledger[k := v], k);
    assert ledger[k := v] - {k} == ledger - {k};
    if k in ledger {
      TotalWithout(ledger, k);
    } else {
      assert ledger - {k} == ledger;
    }
  }

  // ----- charges

  /** The identity of one live charge. */
  class Token {
    constructor () {
    }
  }

  datatype Charge = Charge(token: Token, bytes: nat)

  class MemoryBudget {
    var used: nat
    const limit: nat

    // Who holds how many of the reserved bytes: charges by their token, decoders by themselves.
    ghost var ledger: map<object, nat>

    /** Every reserved byte has exactly one holder, and the limit is respected. */
    ghost predicate Valid()
      reads this
    {
      used == Total(ledger) && used <= limit
    }

    ghost predicate Holds(charge: Charge)
      reads this
    {
      charge.token in ledger && ledger[charge.token] == charge.bytes
    }

    constructor (limit: nat)
      ensures Valid() && used == 0 && ledger == map[] && this.limit == limit
    {
      this.limit := limit;
      used := 0;
      ledger := map[];
    }

    /** src/recovery.rs, `try_reserve`. The caller says who will hold the bytes. */
    method TryReserve(bytes: nat, ghost holder: object) returns (ok: bool)
      requires Valid()
      modifies this
      ensures Valid()
      ensures ok <==> old(used) + bytes <= limit
      ensures ok ==> used == old(used) + bytes && ledger == old(ledger)[holder := Entry(old(ledger), holder) + bytes]
      ensures !ok ==> used == old(used) && ledger == old(ledger)
    {
      TotalUpdate(ledger, holder, Entry(ledger, holder) + bytes);
      ok := used + bytes <= limit;
      if ok {
        used := used + bytes;
        ledger := ledger[holder := Entry(ledger, holder) + bytes];
      }
    }

    /** src/recovery.rs, `release`: never takes the counter below zero. */
    method Release(bytes: nat, ghost holder: object)
      requires Valid() && holder in ledger && bytes <= ledger[holder]
      modifies this
      ensures Valid() && used == old(used) - bytes
      ensures ledger == old(ledger)[holder := old(ledger)[holder] - bytes]
    {
      TotalUpdate(ledger, holder, ledger[holder] - bytes);
      used := used - bytes;
      ledger := ledger[holder := ledger[holder] - bytes];
    }

    /** src/recovery.rs, `RecoveryCharge::reserve`. */
    method Reserve(bytes: nat) returns (res: Option<Charge>)
      requires Valid()
      modifies this
      ensures Valid()
      ensures res.Some? <==> old(used) + bytes <= limit
      ensures res.Some? ==> fresh(res.value.token) && res.value.bytes == bytes
      ensures res.Some? ==> used == old(used) + bytes && ledger == old(ledger)[res.value.token := bytes]
      ensures res.None? ==> used == old(used) && ledger == old(ledger)
    {
      var token := new Token();
      assert token !in ledger;
      var ok := TryReserve(bytes, token);
      if ok {
        res := Some(Charge(token, bytes));
      } else {
        res := None;
      }
    }
  
    /** src/recovery.rs, `grow`. */
    method Grow(charge: Charge, bytes: nat) returns (ok: bool, r: Charge)
      requires Valid() && Holds(charge)
      modifies this
      ensures Valid() && Holds(r) && r.token == charge.token
      ensures ok <==> bytes <= charge.bytes || old(used) + bytes - charge.bytes <= limit
      ensures r.bytes == if ok && charge.bytes < bytes then bytes else charge.bytes
      ensures used == old(used) + r.bytes - charge.bytes && ledger == old(ledger)[charge.token := r.bytes]
    {
      r, ok := charge, true;
      if charge.bytes < bytes {
        ok := TryReserve(bytes - charge.bytes, charge.token);
        if ok {
          r := charge.(bytes := bytes);
        }
      }
      assert ledger == old(ledger)[charge.token := r.bytes];
    }

    /** src/recovery.rs, `shrink`. */
    method Shrink(charge: Charge, bytes: nat) returns (r: Charge)
      requires Valid() && Holds(charge) && bytes <= charge.bytes
      modifies this
      ensures Valid() && Holds(r) && r == Charge(charge.token, bytes)
      ensures used == old(used) + bytes - charge.bytes && ledger == old(ledger)[charge.token := bytes]
    {
      Release(charge.bytes - bytes, charge.token);
      r := charge.(bytes := bytes);
    }

    /** src/recovery.rs, `split`: divides a charge in two without touching the counter. */
    method Split(charge: Charge, bytes: nat) returns (part: Option<Charge>, r: Charge)
      requires Valid() && Holds(charge)
      modifies this`ledger
      ensures Valid() && Holds(r) && r.token == charge.token
      ensures part.Some? <==> bytes <= charge.bytes
      ensures part.None? ==> r == charge && ledger == old(ledger)
      ensures part.Some? ==> fresh(part.value.token) && part.value.bytes == bytes && r.bytes == charge.bytes - bytes
      ensures part.Some? ==> ledger == old(ledger)[charge.token := r.bytes][part.value.token := bytes]
    {
      if bytes > charge.bytes {
        return None, charge;
      }
      var token := new Token();
      assert token !in ledger;
      r := charge.(bytes := charge.bytes - bytes);
      part := Some(Charge(token, bytes));
      TotalUpdate(ledger, charge.token, r.bytes);
      TotalUpdate(ledger[charge.token := r.bytes], token, bytes);
      ledger := ledger[charge.token := r.bytes][token := bytes];
    }

    /** src/recovery.rs, `transfer`: hands bytes to a holder that accounts for them itself. */
    method Transfer(charge: Charge, bytes: nat, ghost to: object) returns (r: Charge)
      requires Valid() && Holds(charge) && bytes <= charge.bytes && to != charge.token
      modifies this`ledger
      ensures Valid() && Holds(r) && r == Charge(charge.token, charge.bytes - bytes)
      ensures ledger == old(ledger)[charge.token := r.bytes][to := Entry(old(ledger), to) + bytes]
    {
      r := charge.(bytes := charge.bytes - bytes);
      TotalUpdate(ledger, charge.token, r.bytes);
      TotalUpdate(ledger[charge.token := r.bytes], to, Entry(ledger, to) + bytes);
      ledger := ledger[charge.token := r.bytes][to := Entry(ledger, to) + bytes];
    }

    /** Dropping a charge returns all of its bytes. */
    method Drop(charge: Charge)
      requires Valid() && Holds(charge)
      modifies this
      ensures Valid() && used == old(used) - charge.bytes && ledger == old(ledger) - {charge.token}
    {
      TotalUpdate(ledger, charge.token, 0);
      used := used - charge.bytes;
      ledger := ledger - {charge.token};
    }
  }

  /** When every holder is gone, no byte is left reserved. */
  lemma NothingHeld(ledger: map<object, nat>)
    requires forall k :: k in ledger ==> ledger[k] == 0
    ensures Total(ledger) == 0
    decreases |ledger|
  {
    if ledger != map[] {
      var k :| k in ledger;
      TotalWithout(ledger, k);
      NothingHeld(ledger - {k});
    }
  }
}

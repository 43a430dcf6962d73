/** Replay admission: a bounded cache that agrees with the whole history (src/session.rs). */
module Admission {
  import opened Sets
  import opened Results
  import opened Galois
  import opened Varint

  const TOKEN_VERSION: byte := 1
  const MAX_REPLAY_ATTEMPTS: nat := 65_536

  datatype TokenError = Malformed | InvalidMac | WrongEpoch | Expired | CapabilitiesChanged | Replayed | Capacity

  /** One use of a token: its identity and the nonce of the use. */
  datatype Attempt = Attempt(identity: Bytes, nonce: nat)

  /** The fields of a token; the tag authenticates all others. */
  datatype Token = Token(epoch: nat, expiry: nat, fingerprint: nat, identity: Bytes, tag: Bytes)

  /** The layout that `issue` writes. */
  function EncodeToken(t: Token): Bytes {
    [TOKEN_VERSION] +
      (ToBytes(t.epoch, 8) + (ToBytes(t.expiry, 8) + (ToBytes(t.fingerprint, 8) + (t.identity + t.tag))))
  }

  function Parse(input: Bytes): Result<Token, CodecError> {
    var (version, i1) :- ParseByte(input);
    var (epoch, i2) :- ParseNumber(i1, 8);
    var (expiry, i3) :- ParseNumber(i2, 8);
    var (fingerprint, i4) :- ParseNumber(i3, 8);
    var (identity, i5) :- ParseTake(i4, 16);
    var (tag, rest) :- ParseTake(i5, 32);
    if version != TOKEN_VERSION || rest != [] then Err(InvalidField)
    else Ok(Token(epoch, expiry, fingerprint, identity, tag))
  }

  /** src/session.rs, `from_bytes` and the field reads of `admit`: only the exact length and version are accepted. */
  function ReadToken(input: Bytes): Option<Token> {
    if Parse(input).Ok? then Some(Parse(input).value) else None
  }

  predicate ValidToken(t: Token) {
    t.epoch <= MAX_U64 && t.expiry <= MAX_U64 && t.fingerprint <= MAX_U64 && |t.identity| == 16 && |t.tag| == 32
  }

  /** Tokens are read as they were issued. */
  lemma TokenRoundTrip(t: Token)
    requires ValidToken(t)
    ensures ReadToken(EncodeToken(t)) == Some(t)
  {
    Powers();
    var a, b, c, d := ToBytes(t.epoch, 8), ToBytes(t.expiry, 8), ToBytes(t.fingerprint, 8), t.identity + t.tag;
    hide ToBytes, FromBytes, Power256, ParseNumber, ParseByte, ParseTake;
    ParseByteOk(TOKEN_VERSION, a + (b + (c + d)));
    ParseNumberOk(t.epoch, 8, b + (c + d));
    ParseNumberOk(t.expiry, 8, c + d);
    ParseNumberOk(t.fingerprint, 8, d);
    ParseTakeOk(t.identity, t.tag);
    ParseTakeOk(t.tag, []);
    assert t.tag + [] == t.tag;
  }

  /** The admitted attempts whose tokens are still good at `now`. */
  ghost function Unexpired(admitted: set<Attempt>, expiryOf: Bytes -> nat, now: nat): set<Attempt> {
    set a | a in admitted && expiryOf(a.identity) >= now
  }

  /** The cache holds only admitted attempts, and all of them that can still be presented. */
  ghost predicate Remembers(attempts: map<Attempt, nat>, admitted: set<Attempt>, expiryOf: Bytes -> nat, now: nat) {
    && (forall a :: a in attempts ==> a in admitted && attempts[a] == expiryOf(a.identity))
    && forall a :: a in admitted && expiryOf(a.identity) >= now ==> a in attempts
  }

  lemma RemembersMore(attempts: map<Attempt, nat>, admitted: set<Attempt>, expiryOf: Bytes -> nat, now: nat,
                      attempt: Attempt, expiry: nat)
    requires Remembers(attempts, admitted, expiryOf, now) && expiry == expiryOf(attempt.identity)
    ensures Remembers(attempts[attempt := expiry], admitted + {attempt}, expiryOf, now)
    ensures |attempts[attempt := expiry]| <= |attempts| + 1
  {
    assert attempts[attempt := expiry].Keys == attempts.Keys + {attempt};
  }

  /** The eviction inside `admit`: expired attempts go only when the cache is full, and nothing else ever goes. */
  method MakeRoom(attempts: map<Attempt, nat>, now: nat, max: nat, ghost admitted: set<Attempt>,
                  ghost expiryOf: Bytes -> nat)
    returns (ok: bool, kept: map<Attempt, nat>)
    requires |attempts| <= max && Remembers(attempts, admitted, expiryOf, now)
    ensures ok <==> |Unexpired(admitted, expiryOf, now)| < max
    ensures |Unexpired(admitted, expiryOf, now)| <= max
    ensures ok ==> |kept| < max && Remembers(kept, admitted, expiryOf, now)
  {
    kept := attempts;
    if |attempts| == max {
      kept := map a | a in attempts && attempts[a] >= now :: attempts[a];
      assert kept.Keys == Unexpired(admitted, expiryOf, now);
      SubsetSize(kept.Keys, attempts.Keys);
    } else {
      SubsetSize(Unexpired(admitted, expiryOf, now), attempts.Keys);
    }
    ok := |kept| != max;
  }

  class ReplayAdmission {
    const epoch: nat
    const maxAttempts: nat

    /** The authentication code, as a predicate on a token. */
    const verifies: Token -> bool

    var attempts: map<Attempt, nat>

    /** Every attempt ever admitted, and the latest time at which a decision was made. */
    ghost var admitted: set<Attempt>
    ghost var clock: nat

    /** An authentic identity was issued once, with one expiry. */
    ghost const expiryOf: Bytes -> nat

    ghost predicate Valid()
      reads this
    {
      |attempts| <= maxAttempts && 1 <= maxAttempts && Remembers(attempts, admitted, expiryOf, clock)
    }

    constructor (epoch: nat, maxAttempts: nat, verifies: Token -> bool, ghost expiryOf: Bytes -> nat)
      requires 1 <= maxAttempts <= MAX_REPLAY_ATTEMPTS
      ensures Valid() && admitted == {} && clock == 0 && this.maxAttempts == maxAttempts && this.epoch == epoch
      ensures this.verifies == verifies && this.expiryOf == expiryOf
    {
      this.epoch, this.maxAttempts, this.verifies, this.expiryOf := epoch, maxAttempts, verifies, expiryOf;
      attempts, admitted, clock := map[], {}, 0;
    }

    /** Why a token is refused whatever was admitted before. */
    function Refusal(token: Token, now: nat, fingerprint: nat): Option<TokenError> {
      if !verifies(token) then Some(InvalidMac)
      else if token.epoch != epoch then Some(WrongEpoch)
      else if token.expiry < now then Some(Expired)
      else if token.fingerprint != fingerprint then Some(CapabilitiesChanged)
      else None
    }

    /** What the whole history would decide: refused for itself, replayed, no room among the good ones, or admitted. */
    ghost function Verdict(history: set<Attempt>, token: Token, nonce: nat, now: nat, fingerprint: nat)
      : Option<TokenError>
    {
      if Refusal(token, now, fingerprint).Some? then Refusal(token, now, fingerprint)
      else if Attempt(token.identity, nonce) in history then Some(Replayed)
      else if |Unexpired(history, expiryOf, now)| == maxAttempts then Some(Capacity)
      else None
    }

    /** src/session.rs, `admit`: the cache decides exactly as the whole history would. */
    method Admit(token: Token, nonce: nat, now: nat, fingerprint: nat) returns (error: Option<TokenError>)
      requires Valid() && clock <= now && (verifies(token) ==> token.expiry == expiryOf(token.identity))
      modifies this
      ensures Valid() && clock == now
      ensures error == Verdict(old(admitted), token, nonce, now, fingerprint)
      ensures admitted == old(admitted) + if error.None? then {Attempt(token.identity, nonce)} else {}
      ensures error.Some? ==> attempts == old(attempts)
    {
      clock := now;
      error := Refusal(token, now, fingerprint);
      if error.Some? {
        return;
      }
      var attempt := Attempt(token.identity, nonce);
      if attempt in attempts && attempts[attempt] >= now {
        return Some(Replayed);
      }
      assert attempt !in admitted;
      hide Remembers, Unexpired;
      var ok, kept := MakeRoom(attempts, now, maxAttempts, admitted, expiryOf);
      if !ok {
        return Some(Capacity);
      }
      RemembersMore(kept, admitted, expiryOf, now, attempt, token.expiry);
      attempts, admitted := kept[attempt := token.expiry], admitted + {attempt};
      return None;
    }
  }

  datatype Request = Request(token: Token, nonce: nat, now: nat, fingerprint: nat) {
    function Use(): Attempt {
      Attempt(token.identity, nonce)
    }
  }

  /** Requests in the order of their times, with tokens that an issuer could have made. */
  ghost predicate Plausible(admission: ReplayAdmission, requests: seq<Request>)
    reads admission
  {
    && (forall i :: 0 <= i < |requests| ==> admission.clock <= requests[i].now)
    && (forall i, j :: 0 <= i < j < |requests| ==> requests[i].now <= requests[j].now)
    && forall i :: 0 <= i < |requests| && admission.verifies(requests[i].token) ==>
      requests[i].token.expiry == admission.expiryOf(requests[i].token.identity)
  }

  /** Everything admitted so far, by the answers that were given. */
  ghost function History(before: set<Attempt>, requests: seq<Request>, errors: seq<Option<TokenError>>): set<Attempt>
    requires |errors| == |requests|
  {
    before + set i | 0 <= i < |requests| && errors[i].None? :: requests[i].Use()
  }

  lemma HistoryNext(before: set<Attempt>, requests: seq<Request>, errors: seq<Option<TokenError>>, r: Request,
                    error: Option<TokenError>)
    requires |errors| == |requests|
    ensures History(before, requests + [r], errors + [error])
      == History(before, requests, errors) + if error.None? then {r.Use()} else {}
  {
    var all, answers := requests + [r], errors + [error];
    forall i | 0 <= i < |requests| ensures all[i] == requests[i] && answers[i] == errors[i] {}
    assert all[|requests|] == r && answers[|requests|] == error;
    var now, next := History(before, requests, errors), History(before, all, answers);
    forall a | a in now ensures a in next {
      if a !in before {
        var i :| 0 <= i < |requests| && errors[i].None? && a == requests[i].Use();
        assert answers[i].None? && a == all[i].Use();
      }
    }
    forall a | a in next && a !in before ensures a in now + if error.None? then {r.Use()} else {} {
      var i :| 0 <= i < |all| && answers[i].None? && a == all[i].Use();
    }
  }

  /**
   * Whole runs with a clock that never goes back: every request is answered exactly as an unbounded record of all the
   * earlier answers would have it, so no attempt is admitted twice and room is refused only when it is needed; and the
   * cache never overflows.
   */
  method AdmitAll(admission: ReplayAdmission, requests: seq<Request>) returns (errors: seq<Option<TokenError>>)
    requires admission.Valid() && Plausible(admission, requests)
    modifies admission
    ensures admission.Valid() && |errors| == |requests| && |admission.attempts| <= admission.maxAttempts
    ensures admission.admitted == History(old(admission.admitted), requests, errors)
    ensures forall i :: 0 <= i < |requests| ==>
      var r, history := requests[i], History(old(admission.admitted), requests[..i], errors[..i]);
      errors[i] == admission.Verdict(history, r.token, r.nonce, r.now, r.fingerprint)
    ensures forall i, j :: 0 <= i < j < |requests| && errors[i].None? && errors[j].None? ==>
      requests[i].Use() != requests[j].Use()
  {
    hide ReplayAdmission.Refusal, Remembers, Unexpired, History;
    errors := [];
    var n := 0;
    HistoryNone(admission.admitted);
    assert requests[..0] == [];
    while n < |requests|
      invariant 0 <= n <= |requests| && admission.Valid() && |errors| == n
      invariant n < |requests| ==> admission.clock <= requests[n].now
      invariant admission.admitted == History(old(admission.admitted), requests[..n], errors)
      invariant forall i :: 0 <= i < n ==>
        var r, history := requests[i], History(old(admission.admitted), requests[..i], errors[..i]);
        errors[i] == admission.Verdict(history, r.token, r.nonce, r.now, r.fingerprint)
      invariant forall i :: 0 <= i < n && errors[i].None? ==> requests[i].Use() in admission.admitted
      invariant forall i, j :: 0 <= i < j < n && errors[i].None? && errors[j].None? ==>
        requests[i].Use() != requests[j].Use()
    {
      var r := requests[n];
      var error := admission.Admit(r.token, r.nonce, r.now, r.fingerprint);
      HistoryNext(old(admission.admitted), requests[..n], errors, r, error);
      assert requests[..n] + [r] == requests[..n + 1];
      ghost var was := errors;
      errors, n := errors + [error], n + 1;
      assert errors[..n - 1] == was;
      assert forall i :: 0 <= i < n - 1 ==> errors[..i] == was[..i];
    }
    assert requests[..n] == requests;
  }

  lemma HistoryNone(before: set<Attempt>)
    ensures History(before, [], []) == before
  {
  }
}

/** The sliding-window repair decoder (src/fec.rs): state, memory and whole runs. */
module Decoder {
  import opened Results
  import opened Galois
  import opened Rows
  import opened Elimination
  import opened Course
  import opened Storage
  import opened Reduction
  import opened Determination
  import opened Repair
  import opened Substitution
  import opened SourceCodec
  import opened Harvest
  import opened Decoding
  import opened Budget

  /** A received buffer; `unique` means that its storage of `capacity` bytes can be taken over. */
  datatype Buffer = Buffer(bytes: Bytes, capacity: nat, unique: bool) {
    ghost predicate Valid() {
      |bytes| <= capacity
    }

    /** src/fec.rs, `normalize_source_storage`: the bytes that keeping this buffer occupies. */
    function Retained(): nat {
      if unique then capacity else |bytes|
    }
  }

  datatype Batch = Batch(items: seq<Recovered>, retained: nat, charge: Charge)

  datatype Status = New | Duplicate

  function KnownBytes(known: seq<KnownSource>): nat {
    if known == [] then 0 else KnownBytes(known[..|known| - 1]) + known[|known| - 1].retained
  }

  lemma {:induction false} KnownBytesFront(known: seq<KnownSource>)
    requires known != []
    ensures KnownBytes(known) == known[0].retained + KnownBytes(known[1..])
  {
    if |known| > 1 {
      var n := |known| - 1;
      KnownBytesFront(known[..n]);
      assert known[1..][..n - 1] == known[..n][1..];
    }
  }

  lemma KnownBytesPush(known: seq<KnownSource>, source: KnownSource)
    ensures KnownBytes(known + [source]) == KnownBytes(known) + source.retained
  {
    assert (known + [source])[..|known|] == known;
  }

  /** What a new source asks of the budget; `retained` is the storage that keeping it takes. */
  function SourceReserve(rows: seq<Row>, retained: nat, max: nat): nat {
    if rows == [] then retained else ScratchBytes(|rows|, CoefficientCount(rows), retained, max)
  }

  /** The most that a source stores at once beside what is owned: matrix, reduction and its own copy. */
  function SourcePeak(rows: seq<Row>, id: Id, source: Buffer, items: seq<Recovered>, max: nat): nat {
    |rows| * RowBytes(CoefficientCount(rows), max) + SettleBytes(SubstitutedAll(rows, id, source.bytes), items, max)
    + if source.unique then 0 else |source.bytes|
  }

  /** The most that a repair stores at once beside what is owned. */
  function RepairPeak(rows: seq<Row>, row: Row, span: nat, items: seq<Recovered>, max: nat): nat {
    (|rows| + 1) * RowBytes(CoefficientCount(rows) + span, max) + SettleBytes(rows + [row], items, max)
  }

  /** What a repair asks of the budget. */
  function RepairReserve(rows: seq<Row>, span: nat, max: nat): nat {
    ScratchBytes(|rows| + 1, CoefficientCount(rows) + span, 0, max)
  }

  ghost predicate UniqueIds(known: seq<KnownSource>) {
    forall i, j :: 0 <= i < j < |known| ==> known[i].symbolId != known[j].symbolId
  }

  function KnownIds(known: seq<KnownSource>): set<Id> {
    set i | 0 <= i < |known| :: known[i].symbolId
  }

  ghost predicate KnownFits(known: seq<KnownSource>, max: nat) {
    forall i :: 0 <= i < |known| ==> |known[i].bytes| <= max
  }

  class Decoder {
    var known: seq<KnownSource>
    var knownIds: set<Id>
    var rows: seq<Row>
    var rowBytes: nat
    const maxSymbols: nat
    const maxRows: nat
    const maxBytes: nat
    const budget: MemoryBudget

    ghost function Owned(): nat
      reads this
    {
      KnownBytes(known) + rowBytes
    }

    ghost predicate Shape()
      reads this
    {
      && 1 <= maxSymbols && |known| <= maxSymbols && |rows| <= maxRows
      && UniqueIds(known) && knownIds == KnownIds(known) && KnownFits(known, maxBytes)
      && Pending(rows) && Within(rows, AllIds(rows), maxBytes)
    }

    ghost predicate Valid()
      reads this, budget
    {
      && Shape()
      && budget.Valid() && this in budget.ledger && budget.ledger[this] == Owned()
    }

    /** No row mentions a known symbol. */
    ghost predicate Settled()
      reads this
    {
      AllIds(rows) !! knownIds
    }

    /** The decoder holds only true statements about the symbols x. */
    ghost predicate Explained(x: Assignment)
      reads this
    {
      Explain(x, rows, known, maxBytes)
    }

    /** Neither the decoder nor the budget moved. */
    twostate predicate Untouched()
      reads this, budget
    {
      && known == old(known) && knownIds == old(knownIds) && rows == old(rows) && rowBytes == old(rowBytes)
      && budget.used == old(budget.used) && budget.ledger == old(budget.ledger)
    }

    /** Of the bytes reserved since `before`, the decoder owns its own and the batch exactly its storage. */
    ghost predicate Accounted(before: map<object, nat>, batch: Batch)
      reads this, budget
    {
      && batch.charge.bytes == batch.retained == BatchBytes(batch.items)
      && budget.ledger == before[this := Owned()][batch.charge.token := batch.charge.bytes]
    }

    constructor (maxSymbols: nat, maxRows: nat, maxBytes: nat, budget: MemoryBudget)
      requires 1 <= maxSymbols && budget.Valid()
      modifies budget
      ensures Valid() && Settled()
      ensures known == [] && rows == []
      ensures this.maxSymbols == maxSymbols && this.maxRows == maxRows && this.maxBytes == maxBytes
      ensures this.budget == budget && budget.ledger == old(budget.ledger)[this := 0] && budget.used == old(budget.used)
      ensures forall x :: Genuine(x, maxBytes) ==> Explained(x)
    {
      known, knownIds, rows, rowBytes := [], {}, [], 0;
      this.maxSymbols, this.maxRows, this.maxBytes, this.budget := maxSymbols, maxRows, maxBytes, budget;
      new;
      TotalUpdate(budget.ledger, this, 0);
      assert this !in old(budget.ledger);
      budget.ledger := budget.ledger[this := 0];
    }

    /** src/fec.rs, `source_status`. */
    method SourceStatus(id: Id, source: Bytes) returns (res: Result<Status, FecError>)
      requires Shape()
      ensures res == Ok(New) <==> Lookup(known, id).None?
      ensures res == Ok(Duplicate) <==> Lookup(known, id) == Some(source)
      ensures res.Err? ==> res.error == ContradictoryRepair
    {
      if id !in knownIds {
        return Ok(New);
      }
      var existing := Lookup(known, id);
      if existing.value == source {
        return Ok(Duplicate);
      }
      return Err(ContradictoryRepair);
    }

    /** src/fec.rs, `evicted_known_bytes`. */
    function EvictedBytes(): nat
      reads this
    {
      if |known| >= maxSymbols && known != [] then known[0].retained else 0
    }

    /** src/fec.rs, `insert_known`: the oldest source leaves a full window. */
    method InsertKnown(source: KnownSource, released: nat)
      requires Shape() && Lookup(known, source.symbolId).None? && |source.bytes| <= maxBytes
      requires budget.Valid() && this in budget.ledger
      requires budget.ledger[this] == Owned() + source.retained - EvictedBytes() + released
      modifies this`known, this`knownIds, budget
      ensures Valid()
      ensures known == Window(old(known), maxSymbols) + [source]
      ensures budget.used == old(budget.used) - released
      ensures budget.ledger == old(budget.ledger)[this := Owned()]
    {
      hide Pending, Within, KnownFits, AllIds, UniqueIds, KnownIds, KnownBytes, Lookup;
      knownIds := knownIds + {source.symbolId};
      KnownBytesPush(known, source);
      known := known + [source];
      WindowIds(old(known), source, maxSymbols);
      FitsWindow(old(known), source, maxBytes);
      // The window was within its limit, so at most one source leaves.
      if |known| > maxSymbols {
        KnownBytesFront(known);
        var oldest := known[0];
        known := known[1..];
        knownIds := knownIds - {oldest.symbolId};
      }
      budget.Release(released, this);
    }

    /** src/fec.rs, `try_reuse_oldest_source`: a full window may rewrite its oldest storage in place. */
    method TryReuseOldest(id: Id, source: Bytes, oldestUnique: bool) returns (reused: bool)
      requires Valid() && Lookup(known, id).None? && |source| <= maxBytes
      modifies this`known, this`knownIds
      ensures Valid()
      ensures reused <==> |old(known)| >= maxSymbols && old(known)[0].retained >= |source| && oldestUnique
      ensures reused ==> known == old(known)[1..] + [KnownSource(id, source, old(known)[0].retained)]
      ensures !reused ==> known == old(known)
    {
      hide Pending, Within, KnownFits, AllIds, UniqueIds, KnownIds, KnownBytes, Lookup;
      if |known| < maxSymbols || known[0].retained < |source| || !oldestUnique {
        return false;
      }
      var oldest := known[0];
      var renewed := KnownSource(id, source, oldest.retained);
      KnownBytesFront(known);
      KnownBytesPush(known[1..], renewed);
      WindowIds(known, renewed, maxSymbols);
      FitsWindow(known, renewed, maxBytes);
      knownIds := knownIds - {oldest.symbolId} + {id};
      known := known[1..] + [renewed];
      return true;
    }

    /** src/fec.rs, `RecoveredBatch::empty`. */
    method EmptyBatch() returns (batch: Batch)
      requires Valid()
      modifies budget
      ensures Valid() && batch.items == [] && batch.retained == 0 && batch.charge.bytes == 0
      ensures fresh(batch.charge.token) && budget.used == old(budget.used)
      ensures budget.ledger == old(budget.ledger)[batch.charge.token := 0]
    {
      var charge := budget.Reserve(0);
      batch := Batch([], 0, charge.value);
    }

    /** Charges for one more known source and admits it; the scratch charge is gone afterwards. */
    method Admit(source: KnownSource) returns (ok: bool)
      requires Valid() && Lookup(known, source.symbolId).None? && |source.bytes| <= maxBytes
      modifies this`known, this`knownIds, budget
      ensures Valid()
      ensures ok ==> known == Window(old(known), maxSymbols) + [source]
      ensures ok ==>
        budget.ledger == old(budget.ledger)[this := Owned()] && old(budget.used) + |source.bytes| <= budget.limit
      ensures !ok ==> known == old(known) && budget.used == old(budget.used) && budget.ledger == old(budget.ledger)
      ensures !ok ==> old(budget.used) + Max(|source.bytes|, source.retained) > budget.limit
    {
      hide Pending, Within, KnownFits, AllIds, UniqueIds, KnownIds, KnownBytes, Lookup;
      var reserved := budget.Reserve(|source.bytes|);
      if reserved.None? {
        return false;
      }
      var scratch := reserved.value;
      var evicted := EvictedBytes();
      var growth := if source.retained > evicted then source.retained - evicted else 0;
      var release := if evicted > source.retained then evicted - source.retained else 0;
      ok, scratch := budget.Grow(scratch, growth);
      if !ok {
        budget.Drop(scratch);
        assert budget.ledger == old(budget.ledger);
        return;
      }
      scratch := budget.Transfer(scratch, growth, this);
      InsertKnown(source, release);
      Settlement(old(budget.ledger), budget.ledger, scratch.token, this);
      budget.Drop(scratch);
    }

    /** src/fec.rs, `add_source` while no repair is pending. */
    method AddToWindow(id: Id, source: Buffer, oldestUnique: bool)
      returns (res: Result<Batch, FecError>, ghost peak: nat)
      requires Valid() && source.Valid() && Lookup(known, id).None? && |source.bytes| <= maxBytes
      modifies this`known, this`knownIds, budget
      ensures Valid()
      ensures res.Err? ==> res.error == MemoryCapacity && Untouched()
      ensures res.Err? ==> old(budget.used) + source.Retained() > budget.limit
      ensures old(budget.used) + peak <= budget.limit
      ensures res.Ok? ==>
        fresh(res.value.charge.token) && Accounted(old(budget.ledger), res.value) && res.value.items == []
      ensures res.Ok? ==> exists r: nat :: known == Window(old(known), maxSymbols) + [KnownSource(id, source.bytes, r)]
    {
      hide Pending, Within, KnownFits, AllIds, UniqueIds, KnownIds, KnownBytes, Lookup;
      var done := false;
      peak := 0;
      if !source.unique {
        done := TryReuseOldest(id, source.bytes, oldestUnique);
        assert done ==>
            known == Window(old(known), maxSymbols) + [KnownSource(id, source.bytes, old(known)[0].retained)];
      }
      if !done {
        done := Admit(KnownSource(id, source.bytes, source.Retained()));
        peak := if done && !source.unique then |source.bytes| else 0;
      }
      assert done ==> budget.ledger == old(budget.ledger)[this := Owned()];
      if !done {
        return Err(MemoryCapacity), peak;
      }
      var batch := EmptyBatch();
      return Ok(batch), peak;
    }

    /** src/fec.rs, `RecoveredBatch::new`: enough for the batch and the committed bytes, or nothing. */
    method Fund(scratch: Charge, retained: nat, committed: nat) returns (ok: bool, r: Charge)
      requires budget.Valid() && budget.Holds(scratch) && this in budget.ledger
      modifies budget
      ensures budget.Valid() && r.token == scratch.token
      ensures ok <==> retained + committed <= scratch.bytes
                      || old(budget.used) + retained + committed - scratch.bytes <= budget.limit
      ensures ok ==> budget.Holds(r) && retained <= r.bytes
      ensures ok ==>
        budget.ledger == old(budget.ledger)[scratch.token := r.bytes][this := old(budget.ledger)[this] + committed]
      ensures !ok ==>
        budget.ledger == old(budget.ledger) - {scratch.token} && budget.used == old(budget.used) - scratch.bytes
    {
      ok, r := budget.Grow(scratch, retained + committed);
      if !ok {
        budget.Drop(r);
        assert budget.ledger == old(budget.ledger) - {scratch.token};
        return;
      }
      r := budget.Transfer(r, committed, this);
    }

    /** Replaces the matrix and its storage charge; growth was transferred beforehand. */
    method InstallRows(next: seq<Row>, nextBytes: nat)
      requires budget.Valid() && this in budget.ledger
      requires rowBytes <= budget.ledger[this] && nextBytes <= budget.ledger[this]
      requires Pending(next) && |next| <= maxRows && Within(next, AllIds(next), maxBytes)
      modifies this`rows, this`rowBytes, budget
      ensures rows == next && rowBytes == nextBytes && budget.Valid()
      ensures budget.ledger == old(budget.ledger)[this := old(budget.ledger)[this] - Excess(old(rowBytes), nextBytes)]
    {
      var released := Excess(rowBytes, nextBytes);
      rows, rowBytes := next, nextBytes;
      budget.Release(released, this);
    }

    /** src/fec.rs, `add_source` with repairs pending. At no moment is more than `peak` stored beside what is owned. */
    method AddToMatrix(id: Id, source: Buffer, workBudget: nat) returns (res: Result<Batch, FecError>, ghost peak: nat)
      requires Valid() && source.Valid() && Lookup(known, id).None? && |source.bytes| <= maxBytes && rows != []
      modifies this`known, this`knownIds, this`rows, this`rowBytes, budget
      ensures Valid()
      ensures res.Err? ==> Untouched()
      ensures res.Err? && res.error != WorkBudget && res.error != MemoryCapacity ==>
        forall x :: old(Explained(x)) && id in x ==> x[id] != source.bytes
      ensures res.Ok? ==> fresh(res.value.charge.token) && Accounted(old(budget.ledger), res.value)
      ensures res.Ok? ==> known == Window(old(known), maxSymbols) + [KnownSource(id, source.bytes, source.Retained())]
      ensures res.Ok? ==>
        Harvested(SubstitutedAll(old(rows), id, source.bytes), old(known), maxBytes, Outcome(res.value.items, rows))
      // Work and memory fail for want of work and memory only.
      ensures res.Ok? ==> SourceWork(old(rows), id, source.bytes) <= workBudget
      ensures res == Err(WorkBudget) ==> SourceWork(old(rows), id, source.bytes) > workBudget
      ensures res == Err(MemoryCapacity) ==>
        old(budget.used) + SourceReserve(old(rows), source.Retained(), maxBytes) > budget.limit
      // Everything that is stored on the way was reserved.
      ensures old(budget.used) + peak <= budget.limit
      ensures res.Ok? ==> peak == SourcePeak(old(rows), id, source, res.value.items, maxBytes)
    {
      hide Pending, Within, KnownFits, AllIds, UniqueIds, KnownIds, KnownBytes, Lookup, Explain, SubstitutedAll;
      hide Harvested, Window;
      hide CloneWork, CoefficientCount, SourceWork, SettleBytes, RowBytes, ScratchBytes, SpareBytes, BatchBytes;
      hide RowStorage;
      peak := 0;
      ShapeFits(rows, maxBytes);
      WorkIs(rows, id, source.bytes);
      var work := CloneWork(rows);
      if work > workBudget {
        return Err(WorkBudget), peak;
      }
      var columns := CoefficientCount(rows);
      ScratchIs(|rows|, columns, |source.bytes|, maxBytes);
      ScratchIs(|rows|, columns, source.Retained(), maxBytes);
      var reserved := budget.Reserve(ScratchBytes(|rows|, columns, |source.bytes|, maxBytes));
      if reserved.None? {
        return Err(MemoryCapacity), peak;
      }
      var scratch := reserved.value;
      var resolved, spent;
      resolved, spent, peak := ResolveSource(rows, known, id, source.bytes, columns, maxBytes, workBudget);
      if resolved.Err? {
        budget.Drop(scratch);
        assert budget.ledger == old(budget.ledger);
        return Err(resolved.error), peak;
      }
      peak := peak + if source.unique then 0 else |source.bytes|;
      HarvestedFits(SubstitutedAll(rows, id, source.bytes), known, maxBytes, resolved.value);
      var next := RowStorage(|rows|, |resolved.value.rows|, columns, maxBytes);
      CommitFits(SubstitutedAll(rows, id, source.bytes), known, resolved.value, columns, maxBytes, source.Retained());
      var known' := KnownSource(id, source.bytes, source.Retained());
      var ok;
      ok, scratch := CommitSource(scratch, resolved.value, next, known', old(budget.ledger));
      if !ok {
        return Err(MemoryCapacity), peak;
      }
      return Ok(Batch(resolved.value.recovered, scratch.bytes, scratch)), peak;
    }

    /** The closing transaction of `add_source`: fund, install rows, admit the source, keep the batch's charge. */
    method CommitSource(scratch: Charge, out: Outcome, next: nat, source: KnownSource, ghost base: map<object, nat>)
      returns (ok: bool, r: Charge)
      requires Shape() && Lookup(known, source.symbolId).None? && |source.bytes| <= maxBytes
      requires budget.Valid() && scratch.token !in base && budget.ledger == base[scratch.token := scratch.bytes]
      requires this in base && base[this] == Owned()
      requires Pending(out.rows) && |out.rows| <= maxRows && Within(out.rows, AllIds(out.rows), maxBytes)
      modifies this`known, this`knownIds, this`rows, this`rowBytes, budget
      ensures r.token == scratch.token
      ensures !ok ==> known == old(known) && knownIds == old(knownIds) && rows == old(rows) && rowBytes == old(rowBytes)
      ensures !ok ==> budget.Valid() && budget.ledger == base && budget.used == old(budget.used) - scratch.bytes
      ensures !ok ==>
        old(budget.used) - scratch.bytes + BatchBytes(out.recovered) + source.retained + next > budget.limit
      ensures ok ==> Valid() && rows == out.rows && known == Window(old(known), maxSymbols) + [source]
      ensures ok ==> r.bytes == BatchBytes(out.recovered)
      ensures ok ==> budget.ledger == base[this := Owned()][r.token := r.bytes]
    {
      hide Pending, Within, KnownFits, AllIds, UniqueIds, KnownIds, KnownBytes, Lookup;
      var evicted := EvictedBytes();
      var retained := BatchBytes(out.recovered);
      var committed := Excess(source.retained, evicted) + Excess(next, rowBytes);
      ok, r := Fund(scratch, retained, committed);
      if !ok {
        assert budget.ledger == base;
        return;
      }
      InstallRows(out.rows, next);
      InsertKnown(source, Excess(evicted, source.retained));
      r := budget.Shrink(r, retained);
      Settlement(base, budget.ledger, r.token, this);
    }

    /** src/fec.rs, `add_source` for a symbol that is not known yet. */
    method AddNew(id: Id, source: Buffer, oldestUnique: bool, workBudget: nat)
      returns (res: Result<Batch, FecError>, ghost peak: nat)
      requires Valid() && source.Valid() && Lookup(known, id).None? && |source.bytes| <= maxBytes
      modifies this`known, this`knownIds, this`rows, this`rowBytes, budget
      ensures Valid()
      ensures res.Err? ==> Untouched()
      ensures res.Err? && res.error != WorkBudget && res.error != MemoryCapacity ==>
        forall x :: old(Explained(x)) && id in x ==> x[id] != source.bytes
      ensures res.Ok? ==> fresh(res.value.charge.token) && Accounted(old(budget.ledger), res.value)
      ensures res.Ok? ==> exists r: nat :: known == Window(old(known), maxSymbols) + [KnownSource(id, source.bytes, r)]
      ensures res.Ok? ==>
        Harvested(SubstitutedAll(old(rows), id, source.bytes), old(known), maxBytes, Outcome(res.value.items, rows))
      ensures res == Err(WorkBudget) ==> SourceWork(old(rows), id, source.bytes) > workBudget
      ensures res == Err(MemoryCapacity) ==>
        old(budget.used) + SourceReserve(old(rows), source.Retained(), maxBytes) > budget.limit
      ensures old(budget.used) + peak <= budget.limit
      ensures res.Ok? && old(rows) != [] ==> peak == SourcePeak(old(rows), id, source, res.value.items, maxBytes)
    {
      hide SourcePeak;
      hide Shape, KnownBytes, Explain, SubstitutedAll, Harvested, Lookup, BatchBytes, Window, SourceWork, ScratchBytes;
      hide SettleBytes;
      if |rows| == 0 {
        res, peak := AddToWindow(id, source, oldestUnique);
        SubstitutedNone(id, source.bytes);
        EmptyHarvest(old(known), maxBytes);
      } else {
        res, peak := AddToMatrix(id, source, workBudget);
      }
    }

    /** src/fec.rs, `add_source`. */
    method AddSource(id: Id, source: Buffer, oldestUnique: bool, workBudget: nat)
      returns (res: Result<Batch, FecError>, ghost peak: nat)
      requires Valid() && source.Valid()
      modifies this`known, this`knownIds, this`rows, this`rowBytes, budget
      ensures Valid() && (old(Settled()) ==> Settled())
      // A failed call changes nothing; after a successful one every reserved byte has its owner.
      ensures res.Err? ==> Untouched()
      ensures res.Ok? ==> fresh(res.value.charge.token) && Accounted(old(budget.ledger), res.value)
      // The equations after the call say what they and the source said before, and everything determined is returned.
      ensures res.Ok? && old(Lookup(known, id)).Some? ==>
        old(Lookup(known, id)) == Some(source.bytes) && res.value.items == [] && known == old(known) &&
          rows == old(rows)
      ensures res.Ok? && old(Lookup(known, id)).None? ==>
        exists r: nat :: known == Window(old(known), maxSymbols) + [KnownSource(id, source.bytes, r)]
      ensures res.Ok? && old(Lookup(known, id)).None? ==>
        Harvested(SubstitutedAll(old(rows), id, source.bytes), old(known), maxBytes, Outcome(res.value.items, rows))
      // Genuine sources are never refused as contradictory or mis-sized, and recover only genuine sources.
      ensures forall x :: old(Explained(x)) && id in x && x[id] == source.bytes ==>
        if res.Ok? then Explained(x) && RecoveredTrue(x, res.value.items)
        else res.error == WorkBudget || res.error == MemoryCapacity
      // Work and memory fail for want of work and memory only, and everything stored on the way was reserved.
      ensures !(0 < |source.bytes| <= maxBytes) ==> res == Err(InvalidSymbolSize)
      ensures res == Err(WorkBudget) ==> SourceWork(old(rows), id, source.bytes) > workBudget
      ensures res == Err(WorkBudget) ==> SourceBound(|old(rows)|, CoefficientCount(old(rows)), maxBytes) > workBudget
      ensures res == Err(MemoryCapacity) ==>
        old(budget.used) + SourceReserve(old(rows), source.Retained(), maxBytes) > budget.limit
      ensures old(budget.used) + peak <= budget.limit
      ensures res.Ok? && old(Lookup(known, id)).None? && old(rows) != [] ==>
        peak == SourcePeak(old(rows), id, source, res.value.items, maxBytes)
    {
      hide SourcePeak;
      hide Within, UniqueIds, KnownBytes, Explain, SubstitutedAll, AllIds, KnownIds, Harvested, RecoveredTrue, Lookup;
      hide BatchBytes, Window, SourceWork, SourceReserve, SourceBound, KnownFits, Pending, AllNormal, CoefficientCount;
      peak := 0;
      GenuineSourceFits(rows, known, maxBytes, id, source.bytes);
      NoBatchBytes();
      ShapeFits(rows, maxBytes);
      if |source.bytes| == 0 || |source.bytes| > maxBytes {
        return Err(InvalidSymbolSize), peak;
      }
      SourceWorkBound(rows, id, source.bytes, maxBytes);
      var status := SourceStatus(id, source.bytes);
      if status.Err? {
        return Err(status.error), peak;
      }
      if status.value == Duplicate {
        var batch := EmptyBatch();
        assert budget.ledger == old(budget.ledger)[this := Owned()][batch.charge.token := 0];
        return Ok(batch), peak;
      }
      res, peak := AddNew(id, source, oldestUnique, workBudget);
      if res.Ok? {
        AfterSource(old(rows), old(known), maxBytes, id, source.bytes, Outcome(res.value.items, rows), known,
                    maxSymbols);
      }
    }

    /** The closing transaction of `add_repair`. */
    method CommitRepair(scratch: Charge, out: Outcome, next: nat, ghost base: map<object, nat>)
      returns (ok: bool, r: Charge)
      requires Shape()
      requires budget.Valid() && scratch.token !in base && budget.ledger == base[scratch.token := scratch.bytes]
      requires this in base && base[this] == Owned()
      requires Pending(out.rows) && |out.rows| <= maxRows && Within(out.rows, AllIds(out.rows), maxBytes)
      modifies this`rows, this`rowBytes, budget
      ensures r.token == scratch.token
      ensures !ok ==> rows == old(rows) && rowBytes == old(rowBytes)
      ensures !ok ==> budget.Valid() && budget.ledger == base && budget.used == old(budget.used) - scratch.bytes
      ensures BatchBytes(out.recovered) + next <= scratch.bytes ==> ok
      ensures ok ==> Valid() && rows == out.rows && r.bytes == BatchBytes(out.recovered)
      ensures ok ==> budget.ledger == base[this := Owned()][r.token := r.bytes]
    {
      hide Pending, Within, KnownFits, AllIds, UniqueIds, KnownIds, KnownBytes;
      var retained := BatchBytes(out.recovered);
      ok, r := Fund(scratch, retained, Excess(next, rowBytes));
      if !ok {
        assert budget.ledger == base;
        return;
      }
      InstallRows(out.rows, next);
      r := budget.Shrink(r, retained);
      Settlement(base, budget.ledger, r.token, this);
    }

    /** src/fec.rs, `add_repair`. `row` is the equation that the repair contributes. */
    method AddRepair(first: Id, span: nat, repairId: Id, seed: Id, coded: Bytes, workBudget: nat)
      returns (res: Result<Batch, FecError>, ghost row: Row, ghost peak: nat)
      requires Valid()
      modifies this`rows, this`rowBytes, budget
      ensures Valid() && (old(Settled()) ==> Settled())
      ensures res == Err(InvalidSpan) <==> span == 0 || span > MAX_REPAIR_SPAN
      ensures res == Err(RowCapacity) <==>
        1 <= span <= MAX_REPAIR_SPAN && 1 <= |coded| <= maxBytes && |old(rows)| == maxRows
      // A failed call changes nothing; after a successful one every reserved byte has its owner.
      ensures res.Err? ==> Untouched()
      ensures res.Ok? ==> fresh(res.value.charge.token) && Accounted(old(budget.ledger), res.value)
      // The equations gain exactly the repair's equation, and everything determined is returned.
      ensures res.Ok? ==> RowOfRepair(row, known, first, span, repairId, seed, coded)
      ensures res.Ok? ==> Harvested(old(rows) + [row], known, maxBytes, Outcome(res.value.items, rows))
      // Genuine repairs are never refused as contradictory or mis-sized, and recover only genuine sources.
      ensures forall x :: old(Explained(x)) && GenuineRepair(x, first, span, repairId, seed, coded) ==>
        if res.Ok? then Explained(x) && RecoveredTrue(x, res.value.items)
        else res.error in {WorkBudget, MemoryCapacity, RowCapacity}
      // Work and memory fail for want of work and memory only, and everything stored on the way was reserved.
      ensures res == Err(WorkBudget) ==> RepairWork(old(rows), known, first, span, coded, row) > workBudget
      ensures res == Err(WorkBudget) ==>
        RepairBound(|old(rows)|, CoefficientCount(old(rows)) + span, span, maxBytes) > workBudget
      ensures res.Ok? ==> RepairWork(old(rows), known, first, span, coded, row) <= workBudget
      ensures res == Err(MemoryCapacity) <==>
        && 1 <= span <= MAX_REPAIR_SPAN && 1 <= |coded| <= maxBytes && |old(rows)| < maxRows
        && CloneWork(old(rows)) + |coded| + span <= workBudget
        && old(budget.used) + RepairReserve(old(rows), span, maxBytes) > budget.limit
      ensures old(budget.used) + peak <= budget.limit
      ensures res.Ok? && row.coefficients != [] ==> peak == RepairPeak(old(rows), row, span, res.value.items, maxBytes)
    {
      hide RepairPeak;
      hide UniqueIds, KnownBytes, Explain, AllIds, KnownIds, Harvested, RecoveredTrue, Lookup, GenuineRepair, Pending;
      hide Within;
      hide RepairWork, RepairReserve, CloneWork, RepairBound, RowOfRepair, KnownFits, BatchBytes, CoefficientCount;
      row, peak := Row([], []), 0;
      forall x | Explained(x) && GenuineRepair(x, first, span, repairId, seed, coded)
        ensures 1 <= span <= MAX_REPAIR_SPAN && 0 < |coded| <= maxBytes
      {
        GenuineRepairFits(x, rows, known, maxBytes, first, span, repairId, seed, coded);
      }
      if span == 0 || span > MAX_REPAIR_SPAN {
        return Err(InvalidSpan), row, peak;
      }
      if |coded| == 0 || |coded| > maxBytes {
        return Err(InvalidSymbolSize), row, peak;
      }
      if |rows| == maxRows {
        return Err(RowCapacity), row, peak;
      }
      res, row, peak := AddEquation(first, span, repairId, seed, coded, workBudget);
      AnyRepairWork(old(rows), known, first, span, repairId, seed, coded, row, maxBytes);
      if res.Ok? {
        AfterRepair(old(rows), row, known, maxBytes, first, span, repairId, seed, coded,
                    Outcome(res.value.items, rows));
      }
    }

    /** A repair that says nothing new: the scratch charge goes back and the batch is empty. */
    method Discard(scratch: Charge, ghost base: map<object, nat>) returns (batch: Batch)
      requires Shape() && budget.Valid() && scratch.token !in base
      requires budget.ledger == base[scratch.token := scratch.bytes] && this in base && base[this] == Owned()
      modifies budget
      ensures Valid() && batch.items == [] && fresh(batch.charge.token) && Accounted(base, batch)
    {
      hide Pending, Within, KnownFits, AllIds, UniqueIds, KnownIds, KnownBytes, BatchBytes;
      budget.Drop(scratch);
      assert budget.ledger == base;
      NoBatchBytes();
      batch := EmptyBatch();
      assert budget.ledger == base[this := Owned()][batch.charge.token := 0];
    }

    /** src/fec.rs, `add_repair` once its arguments are checked and a row is free. */
    method AddEquation(first: Id, span: nat, repairId: Id, seed: Id, coded: Bytes, workBudget: nat)
      returns (res: Result<Batch, FecError>, ghost row: Row, ghost peak: nat)
      requires Valid() && |rows| < maxRows
      requires 1 <= span <= MAX_REPAIR_SPAN && 1 <= |coded| <= maxBytes
      modifies this`rows, this`rowBytes, budget
      ensures Valid()
      ensures res.Err? ==> Untouched() && res.error != InvalidSpan && res.error != RowCapacity
      ensures res.Err? && res.error != WorkBudget && res.error != MemoryCapacity ==>
        forall x :: old(Explained(x)) ==> !GenuineRepair(x, first, span, repairId, seed, coded)
      ensures res.Ok? ==> fresh(res.value.charge.token) && Accounted(old(budget.ledger), res.value)
      ensures res.Ok? || row.coefficients != [] ==> RowOfRepair(row, known, first, span, repairId, seed, coded)
      ensures res.Ok? ==> Harvested(old(rows) + [row], known, maxBytes, Outcome(res.value.items, rows))
      ensures res == Err(WorkBudget) ==> RepairWork(old(rows), known, first, span, coded, row) > workBudget
      ensures res.Ok? ==> RepairWork(old(rows), known, first, span, coded, row) <= workBudget
      ensures res == Err(MemoryCapacity) <==>
        && CloneWork(old(rows)) + |coded| + span <= workBudget
        && old(budget.used) + RepairReserve(old(rows), span, maxBytes) > budget.limit
      ensures old(budget.used) + peak <= budget.limit
      ensures res.Ok? && row.coefficients != [] ==> peak == RepairPeak(old(rows), row, span, res.value.items, maxBytes)
    {
      hide UniqueIds, KnownBytes, Explain, AllIds, KnownIds, Harvested, Lookup, GenuineRepair, Pending, Within;
      hide BatchBytes;
      hide RowOfRepair, CloneWork, CoefficientCount, RepairWork, SettleBytes, RowBytes, ScratchBytes, SpareBytes;
      hide RowStorage;
      hide KnownFits, RecoveredTrue;
      row, peak := Row([], []), 0;
      RepairWorkIs(rows, known, first, span, coded, row);
      var work := CloneWork(rows) + |coded| + span;
      if work > workBudget {
        return Err(WorkBudget), row, peak;
      }
      var columns := CoefficientCount(rows) + span;
      ScratchIs(|rows| + 1, columns, 0, maxBytes);
      var reserved := budget.Reserve(ScratchBytes(|rows| + 1, columns, 0, maxBytes));
      if reserved.None? {
        return Err(MemoryCapacity), row, peak;
      }
      var scratch := reserved.value;
      var resolved, redundant, spent;
      ghost var equation;
      resolved, redundant, equation, spent, peak :=
        ResolveRepair(rows, known, first, span, repairId, seed, coded, columns, maxBytes, workBudget);
      row := equation;
      if resolved.Err? {
        budget.Drop(scratch);
        assert budget.ledger == old(budget.ledger);
        return Err(resolved.error), row, peak;
      }
      if redundant {
        var batch := Discard(scratch, old(budget.ledger));
        return Ok(batch), row, peak;
      }
      HarvestedFits(rows + [row], known, maxBytes, resolved.value);
      var next := RowStorage(|rows| + 1, |resolved.value.rows|, columns, maxBytes);
      CommitFits(rows + [row], known, resolved.value, columns, maxBytes, 0);
      var ok;
      ok, scratch := CommitRepair(scratch, resolved.value, next, old(budget.ledger));
      return Ok(Batch(resolved.value.recovered, scratch.bytes, scratch)), row, peak;
    }

    /** src/fec.rs, `commit_recovered_precharged`: the charge is consumed whatever happens. */
    method CommitRecovered(id: Id, source: Buffer, charge: Charge) returns (res: Result<(), FecError>)
      requires Valid() && source.Valid() && budget.Holds(charge)
      modifies this`known, this`knownIds, budget
      ensures Valid() && (old(Settled()) && id !in AllIds(rows) ==> Settled())
      ensures res == Err(InvalidSymbolSize) <==> |source.bytes| == 0 || |source.bytes| > maxBytes
      ensures res.Ok? ==> old(Lookup(known, id)) in {None, Some(source.bytes)}
      ensures res.Ok? && old(Lookup(known, id)).None? ==>
        known == Window(old(known), maxSymbols) + [KnownSource(id, source.bytes, source.Retained())]
      ensures res.Err? || old(Lookup(known, id)).Some? ==> known == old(known) && knownIds == old(knownIds)
      ensures budget.ledger == (old(budget.ledger) - {charge.token})[this := Owned()]
      ensures 0 < |source.bytes| <= maxBytes && source.Retained() <= charge.bytes ==>
        res == if old(Lookup(known, id)) in {None, Some(source.bytes)} then Ok(()) else Err(ContradictoryRepair)
      ensures forall x :: old(Explained(x)) && id in x && x[id] == source.bytes ==>
        Explained(x) && (res.Ok? || res.error == MemoryCapacity)
    {
      forall x | Explained(x) && id in x && x[id] == source.bytes
        ensures 0 < |source.bytes| <= maxBytes && Lookup(known, id) in {None, Some(source.bytes)}
      {
        GenuineFits(x, rows, known, maxBytes, id);
      }
      CommitKeeps(rows, known, maxBytes, id, source.bytes, source.Retained(), maxSymbols);
      hide Pending, Within, KnownFits, UniqueIds, KnownBytes, KnownIds, AllIds, Explain;
      if |source.bytes| == 0 || |source.bytes| > maxBytes {
        budget.Drop(charge);
        return Err(InvalidSymbolSize);
      }
      if charge.bytes < |source.bytes| {
        budget.Drop(charge);
        return Err(MemoryCapacity);
      }
      var existing := Lookup(known, id);
      if existing.Some? {
        budget.Drop(charge);
        return if existing.value == source.bytes then Ok(()) else Err(ContradictoryRepair);
      }
      hide Lookup, Window;
      var ok := AdmitCharged(KnownSource(id, source.bytes, source.Retained()), charge);
      return if ok then Ok(()) else Err(MemoryCapacity);
    }

    /** Admits a source against an existing charge, which is gone afterwards. */
    method AdmitCharged(source: KnownSource, charge: Charge) returns (ok: bool)
      requires Valid() && Lookup(known, source.symbolId).None? && |source.bytes| <= maxBytes && budget.Holds(charge)
      modifies this`known, this`knownIds, budget
      ensures Valid() && budget.ledger == (old(budget.ledger) - {charge.token})[this := Owned()]
      ensures ok <== source.retained <= charge.bytes
      ensures ok ==> known == Window(old(known), maxSymbols) + [source]
      ensures !ok ==> known == old(known) && knownIds == old(knownIds)
    {
      hide Pending, Within, KnownFits, UniqueIds, KnownBytes, KnownIds, AllIds, Lookup, Window;
      var c;
      ok, c := budget.Grow(charge, source.retained);
      if ok {
        c := budget.Transfer(c, source.retained, this);
        var released := EvictedBytes();
        InsertKnown(source, released);
      }
      budget.Drop(c);
      assert budget.ledger == (old(budget.ledger) - {charge.token})[this := Owned()];
    }

    /** src/fec.rs, `drop`: everything the decoder owns goes back. */
    method Drop()
      requires Valid()
      modifies budget
      ensures budget.Valid() && budget.used == old(budget.used) - Owned()
      ensures budget.ledger == old(budget.ledger)[this := 0]
    {
      budget.Release(KnownBytes(known) + rowBytes, this);
    }
  }

  lemma CommitKeeps(rows: seq<Row>, known: seq<KnownSource>, max: nat, id: Id, source: Bytes, retained: nat,
                    maxSymbols: nat)
    ensures var known' := Window(known, maxSymbols) + [KnownSource(id, source, retained)];
      && (AllIds(rows) !! KnownIds(known) && id !in AllIds(rows) ==> AllIds(rows) !! KnownIds(known'))
      && forall x :: Explain(x, rows, known, max) && id in x && x[id] == source ==> Explain(x, rows, known', max)
  {
    hide AllIds, Genuine, SatAll, Covers;
    var known' := Window(known, maxSymbols) + [KnownSource(id, source, retained)];
    forall k | k in KnownIds(known') ensures k == id || k in KnownIds(known) {
      var i :| 0 <= i < |known'| && known'[i].symbolId == k;
      if i < |known'| - 1 {
        assert known'[i] == known[i] || known'[i] == known[i + 1];
      }
    }
  }

  lemma GenuineRepairFits(x: Assignment, rows: seq<Row>, known: seq<KnownSource>, max: nat, first: Id, span: nat,
                          repairId: Id, seed: Id, coded: Bytes)
    requires Explain(x, rows, known, max) && GenuineRepair(x, first, span, repairId, seed, coded)
    ensures 1 <= span <= MAX_REPAIR_SPAN && 0 < |coded| <= max
  {
    var i :| 0 <= i < span && |x[SymbolId(first, i)]| == |coded|;
    GenuineFits(x, rows, known, max, SymbolId(first, i));
  }

  lemma AfterRepair(rows: seq<Row>, row: Row, known: seq<KnownSource>, max: nat, first: Id, span: nat, repairId: Id,
                    seed: Id, coded: Bytes, out: Outcome)
    requires RowOfRepair(row, known, first, span, repairId, seed, coded)
    requires Harvested(rows + [row], known, max, out)
    ensures AllIds(rows) !! KnownIds(known) ==> AllIds(out.rows) !! KnownIds(known)
    ensures forall x :: Explain(x, rows, known, max) && GenuineRepair(x, first, span, repairId, seed, coded) ==>
      Explain(x, out.rows, known, max) && RecoveredTrue(x, out.recovered)
  {
    forall id | id in Ids(row.coefficients) ensures id !in KnownIds(known) {
      assert Lookup(known, id).None?;
    }
    var all := rows + [row];
    IdsOfAll(rows); IdsOfAll(all); IdsOfAll(out.rows);
    forall id | id in AllIds(out.rows) ensures id in AllIds(rows) || id in Ids(row.coefficients) {
      hide Pending, Determined, Explain, SatAll, RecoveredAgree, RowOfRepair;
      var o :| 0 <= o < |out.rows| && id in Ids(out.rows[o].coefficients);
      assert id in AllIds(all);
      var i :| 0 <= i < |all| && id in Ids(all[i].coefficients);
      if i < |rows| {
        assert all[i] == rows[i];
      }
    }
    forall x | Explain(x, rows, known, max) && GenuineRepair(x, first, span, repairId, seed, coded)
      ensures Explain(x, out.rows, known, max) && RecoveredTrue(x, out.recovered)
    {
      RepairExplain(x, rows, row, known, max, first, span, repairId, seed, coded);
    }
  }

  lemma NoBatchBytes()
    ensures BatchBytes([]) == 0 && forall x :: RecoveredTrue(x, [])
  {
  }

  lemma SubstitutedNone(id: Id, source: Bytes)
    ensures SubstitutedAll([], id, source) == []
  {
  }

  // A genuine source has an acceptable size and never clashes with a known one.
  lemma GenuineSourceFits(rows: seq<Row>, known: seq<KnownSource>, max: nat, id: Id, source: Bytes)
    ensures forall x :: Explain(x, rows, known, max) && id in x && x[id] == source ==>
      0 < |source| <= max && Lookup(known, id) in {None, Some(source)}
  {
    hide Explain, Lookup;
    forall x | Explain(x, rows, known, max) && id in x && x[id] == source
      ensures 0 < |source| <= max && Lookup(known, id) in {None, Some(source)}
    {
      GenuineFits(x, rows, known, max, id);
    }
  }

  lemma GenuineFits(x: Assignment, rows: seq<Row>, known: seq<KnownSource>, max: nat, id: Id)
    requires Explain(x, rows, known, max) && id in x
    ensures 0 < |x[id]| <= max && Lookup(known, id) in {None, Some(x[id])}
  {
    assert GenuineSource(id, x[id], max);
  }

  lemma AfterSource(rows: seq<Row>, known: seq<KnownSource>, max: nat, id: Id, source: Bytes, out: Outcome,
                    known': seq<KnownSource>, maxSymbols: nat)
    requires AllNormal(rows) && Harvested(SubstitutedAll(rows, id, source), known, max, out)
    requires exists r: nat :: known' == Window(known, maxSymbols) + [KnownSource(id, source, r)]
    ensures AllIds(rows) !! KnownIds(known) ==> AllIds(out.rows) !! KnownIds(known')
    ensures forall x :: Explain(x, rows, known, max) && id in x && x[id] == source ==>
      Explain(x, out.rows, known', max) && RecoveredTrue(x, out.recovered)
  {
    hide *;
    SettledAfterSource(rows, known, max, id, source, out, known', maxSymbols);
    forall x | Explain(x, rows, known, max) && id in x && x[id] == source
      ensures Explain(x, out.rows, known', max) && RecoveredTrue(x, out.recovered)
    {
      ExplainedAfterSource(x, rows, known, max, id, source, out, known', maxSymbols);
    }
  }

  lemma SettledAfterSource(rows: seq<Row>, known: seq<KnownSource>, max: nat, id: Id, source: Bytes, out: Outcome,
                           known': seq<KnownSource>, maxSymbols: nat)
    requires AllNormal(rows) && Harvested(SubstitutedAll(rows, id, source), known, max, out)
    requires exists r: nat :: known' == Window(known, maxSymbols) + [KnownSource(id, source, r)]
    ensures AllIds(rows) !! KnownIds(known) ==> AllIds(out.rows) !! KnownIds(known')
  {
    SubstitutedAllFacts(rows, id, source);
    IdsOfAll(out.rows);
    hide SubstitutedAll, Substituted, Pending, Determined, Explain, RecoveredAgree, SatAll;
    forall k | k in KnownIds(known') ensures k == id || k in KnownIds(known) {
      var i :| 0 <= i < |known'| && known'[i].symbolId == k;
      if i < |known'| - 1 {
        assert known'[i] == known[i] || known'[i] == known[i + 1];
      }
    }
    assert AllIds(out.rows) <= AllIds(rows) - {id};
  }

  lemma ExplainedAfterSource(x: Assignment, rows: seq<Row>, known: seq<KnownSource>, max: nat, id: Id, source: Bytes,
                             out: Outcome, known': seq<KnownSource>, maxSymbols: nat)
    requires AllNormal(rows) && Harvested(SubstitutedAll(rows, id, source), known, max, out)
    requires exists r: nat :: known' == Window(known, maxSymbols) + [KnownSource(id, source, r)]
    requires Explain(x, rows, known, max) && id in x && x[id] == source
    ensures Explain(x, out.rows, known', max) && RecoveredTrue(x, out.recovered)
  {
    SubstitutedExplain(x, rows, known, max, id, source);
    hide SubstitutedAll, Pending, Determined, SatAll, AllIds, Covers, Within, Genuine;
    assert KnownIn(known', x);
  }

  function Excess(a: nat, b: nat): nat {
    if a > b then a - b else 0
  }

  /** src/fec.rs, the storage that a batch of recovered sources occupies. */
  function BatchBytes(items: seq<Recovered>): nat {
    |items| * SIZE_RECOVERED + RecoveredBytes(items)
  }

  lemma HarvestedFits(rows: seq<Row>, known: seq<KnownSource>, max: nat, out: Outcome)
    requires Harvested(rows, known, max, out)
    ensures Pending(out.rows) && Within(out.rows, AllIds(out.rows), max) && |out.rows| <= |rows|
  {
    forall i | 0 <= i < |out.rows| ensures Ids(out.rows[i].coefficients) <= AllIds(out.rows) {
    }
  }

  lemma ShapeFits(rows: seq<Row>, max: nat)
    requires Pending(rows) && Within(rows, AllIds(rows), max)
    ensures AllNormal(rows) && forall i :: 0 <= i < |rows| ==> |rows[i].data| <= max
  {
    hide AllIds, Normal, Ids;
  }

  lemma WorkIs(rows: seq<Row>, id: Id, source: Bytes)
    ensures CloneWork(rows) <= SourceWork(rows, id, source)
  {
  }

  lemma AnyRepairWork(rows: seq<Row>, known: seq<KnownSource>, first: Id, span: nat, repairId: Id, seed: Id,
                      coded: Bytes, row: Row, max: nat)
    requires Pending(rows) && Within(rows, AllIds(rows), max) && KnownFits(known, max) && |coded| <= max
    requires row.coefficients != [] ==> RowOfRepair(row, known, first, span, repairId, seed, coded)
    ensures RepairWork(rows, known, first, span, coded, row)
      <= RepairBound(|rows|, CoefficientCount(rows) + span, span, max)
  {
    hide RepairWork, RepairBound, Pending, Within, AllIds, RowOfRepair, CoefficientCount;
    RepairWorkBound(rows, known, first, span, repairId, seed, coded, row, max);
  }

  lemma RepairWorkIs(rows: seq<Row>, known: seq<KnownSource>, first: Id, span: nat, coded: Bytes, row: Row)
    ensures CloneWork(rows) + |coded| + span <= RepairWork(rows, known, first, span, coded, row)
  {
  }

  lemma ScratchIs(n: nat, columns: nat, source: nat, max: nat)
    ensures ScratchBytes(n, columns, source, max) == n * RowBytes(columns, max) + SpareBytes(n, columns, max) + source
  {
  }

  /** The scratch reservation is enough for everything that an add commits. */
  lemma CommitFits(rows: seq<Row>, known: seq<KnownSource>, out: Outcome, columns: nat, max: nat, retained: nat)
    requires Harvested(rows, known, max, out) && |out.recovered| <= |rows|
    ensures BatchBytes(out.recovered) + retained + RowStorage(|rows|, |out.rows|, columns, max)
      <= ScratchBytes(|rows|, columns, retained, max)
  {
    hide Harvested, ScratchBytes, RecoveredBytes, SpareBytes;
    var items, n, kept := out.recovered, |rows|, |out.rows|;
    HarvestedSizes(rows, known, out, max);
    HarvestedCount(rows, known, out, max);
    RecoveredFits(items, max);
    ScratchIs(n, columns, retained, max);
    RowStorageFits(n, kept, columns, max);
    BatchSpare(n, |items|, RecoveredBytes(items), columns, max);
  }

  lemma HarvestedCount(rows: seq<Row>, known: seq<KnownSource>, out: Outcome, max: nat)
    requires Harvested(rows, known, max, out)
    ensures |out.rows| <= |rows|
  {
  }

  lemma RowStorageFits(n: nat, kept: nat, columns: nat, max: nat)
    requires kept <= n
    ensures RowStorage(n, kept, columns, max) <= n * RowBytes(columns, max)
  {
    var size := max + columns * SIZE_TERM;
    Product(kept, n, size, size);
    assert n * (SIZE_ROW + size) == n * SIZE_ROW + n * size;
  }

  lemma BatchSpare(n: nat, k: nat, bytes: nat, columns: nat, max: nat)
    requires k <= n && bytes <= k * max
    ensures k * SIZE_RECOVERED + bytes <= SpareBytes(n, columns, max)
  {
    hide RowBytes;
    var size := 2 * max + SIZE_VALUE + SIZE_RECOVERED;
    Product(k, n, max + SIZE_RECOVERED, size);
    assert k * (max + SIZE_RECOVERED) == k * max + k * SIZE_RECOVERED;
  }

  // Two ledgers that differ in a passing charge and one holder agree once the charge is gone.
  lemma Settlement(before: map<object, nat>, after: map<object, nat>, token: object, holder: object)
    requires token !in before && holder in after && holder != token
    requires forall k :: k != token && k != holder ==> (k in before <==> k in after)
    requires forall k :: k != token && k != holder && k in before ==> after[k] == before[k]
    ensures after - {token} == before[holder := after[holder]]
    ensures token in after ==> after == before[holder := after[holder]][token := after[token]]
  {
  }

  lemma AppendIds(known: seq<KnownSource>, source: KnownSource)
    requires UniqueIds(known) && Lookup(known, source.symbolId).None?
    ensures UniqueIds(known + [source]) && KnownIds(known + [source]) == KnownIds(known) + {source.symbolId}
    ensures source.symbolId !in KnownIds(known)
  {
    var all := known + [source];
    forall id | id in KnownIds(known) + {source.symbolId} ensures id in KnownIds(all) {
      if id in KnownIds(known) {
        var i :| 0 <= i < |known| && known[i].symbolId == id;
        assert all[i].symbolId == id;
      } else {
        assert all[|known|].symbolId == id;
      }
    }
  }

  lemma FitsWindow(known: seq<KnownSource>, source: KnownSource, max: nat)
    requires KnownFits(known, max) && |source.bytes| <= max
    ensures KnownFits(known + [source], max)
    ensures known != [] ==> KnownFits(known[1..] + [source], max) && KnownFits((known + [source])[1..], max)
  {
  }

  lemma WindowIds(known: seq<KnownSource>, source: KnownSource, max: nat)
    requires UniqueIds(known) && Lookup(known, source.symbolId).None?
    ensures UniqueIds(known + [source]) && KnownIds(known + [source]) == KnownIds(known) + {source.symbolId}
    ensures known != [] ==>
      && known[1..] + [source] == (known + [source])[1..]
      && UniqueIds(known[1..] + [source])
      && KnownIds(known[1..] + [source]) == KnownIds(known) + {source.symbolId} - {known[0].symbolId}
      && KnownIds(known[1..] + [source]) == KnownIds(known) - {known[0].symbolId} + {source.symbolId}
  {
    AppendIds(known, source);
    if known != [] {
      assert known[0].symbolId in KnownIds(known);
      var all := known + [source];
      assert all[0] == known[0] && all[1..] == known[1..] + [source];
      hide *;
      TailIds(all);
      Exchange(KnownIds(known), known[0].symbolId, source.symbolId);
    }
  }

  lemma Exchange(ids: set<Id>, removed: Id, added: Id)
    requires added != removed
    ensures ids + {added} - {removed} == ids - {removed} + {added}
  {
  }

  lemma TailIds(all: seq<KnownSource>)
    requires UniqueIds(all) && all != []
    ensures UniqueIds(all[1..]) && KnownIds(all[1..]) == KnownIds(all) - {all[0].symbolId}
  {
    var rest := all[1..];
    forall id | id in KnownIds(all) && id != all[0].symbolId ensures id in KnownIds(rest) {
      var i :| 0 <= i < |all| && all[i].symbolId == id;
      assert rest[i - 1].symbolId == id;
    }
  }

  /** What remains of a full window when one more source is admitted. */
  function Window(known: seq<KnownSource>, max: nat): seq<KnownSource> {
    if |known| >= max && known != [] then known[1..] else known
  }
}

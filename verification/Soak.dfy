/** The accounting of the operational soak (benchmarks/benchmark_operational_soak.py): the observation
    ledger and the loop that drives it.
 */
module Soak {
  import opened Util

  /** The ledger's counters; counts passed to it are arbitrary integers. */
  datatype Counts = Counts(generated: int, persisted: int, rejected: int, dropped: int, inFlight: int) {
    /** max(0, generated - everything accounted for). */
    function SilentDataLoss(): int {
      MaxInt(0, generated - (persisted + rejected + dropped + inFlight))
    }
  }

  datatype Record = Generated(n: int) | Persisted(n: int) | Rejected(n: int) | Dropped(n: int)

  function Recorded(c: Counts, r: Record): Counts {
    match r
    case Generated(n) => c.(generated := c.generated + n, inFlight := c.inFlight + n)
    case Persisted(n) => c.(persisted := c.persisted + n, inFlight := c.inFlight - n)
    case Rejected(n) => c.(rejected := c.rejected + n, inFlight := c.inFlight - n)
    case Dropped(n) => c.(dropped := c.dropped + n, inFlight := c.inFlight - n)
  }

  const ZERO := Counts(0, 0, 0, 0, 0)

  function RecordAll(rs: seq<Record>): Counts {
    if rs == [] then ZERO else Recorded(RecordAll(rs[..|rs| - 1]), rs[|rs| - 1])
  }

  /** The loss figure cannot show a loss: after every sequence of records it is 0, also when generated
      observations are never recorded again, because those stay in flight; the figure that does show
      them is in_flight. */
  lemma {:induction false} SilentLossIsAlwaysZero(rs: seq<Record>)
    ensures RecordAll(rs).SilentDataLoss() == 0
    ensures var c := RecordAll(rs); c.inFlight == c.generated - (c.persisted + c.rejected + c.dropped)
  {
    if rs != [] {
      SilentLossIsAlwaysZero(rs[..|rs| - 1]);
    }
  }

  /** On counters of any other origin the figure does show what is missing. */
  lemma SilentLossShowsGap(c: Counts)
    ensures var accounted := c.persisted + c.rejected + c.dropped + c.inFlight;
      && (c.SilentDataLoss() > 0 <==> c.generated > accounted)
      && (c.generated >= accounted ==> accounted + c.SilentDataLoss() == c.generated)
      && c.SilentDataLoss() >= 0
  {
  }

  // ---- the loop ----

  /** What becomes of a written observation: the write raises, succeeds, or reports something else. */
  datatype WriteResult = Raised | Success | Other

  /** Everything the run cannot decide: which items the rate-limit storm drops and how writes end. */
  datatype World = World(drops: nat -> bool, writes: nat -> WriteResult)

  datatype Fate = IsDropped | IsRejected | IsPersisted

  /** The fate of item number i; every twentieth item not dropped is rejected by design. */
  function FateOf(w: World, i: nat): Fate {
    if w.drops(i) then IsDropped
    else if i % 20 == 0 then IsRejected
    else if w.writes(i) == Success then IsPersisted
    else IsRejected
  }

  /** How many of the items 1, ..., n meet the given fate. */
  function Tally(w: World, n: nat, fate: Fate): nat {
    if n == 0 then 0 else Tally(w, n - 1, fate) + if FateOf(w, n) == fate then 1 else 0
  }

  /** The counters when the first n items are settled. */
  function Settled(w: World, n: nat): Counts {
    Counts(n, Tally(w, n, IsPersisted), Tally(w, n, IsRejected), Tally(w, n, IsDropped), 0)
  }

  lemma {:induction false} FatesAddUp(w: World, n: nat)
    ensures Tally(w, n, IsPersisted) + Tally(w, n, IsRejected) + Tally(w, n, IsDropped) == n
  {
    if n > 0 {
      FatesAddUp(w, n - 1);
    }
  }

  /** A checkpoint is conserved by count: nothing in flight, nothing negative, and what was generated
      is exactly what was persisted, rejected or dropped. */
  predicate Conserved(c: Counts) {
    && c.inFlight == 0 && c.generated == c.persisted + c.rejected + c.dropped
    && 0 <= c.persisted && 0 <= c.rejected && 0 <= c.dropped
  }

  lemma SettledIsConserved(w: World, n: nat)
    ensures Conserved(Settled(w, n)) && Settled(w, n).SilentDataLoss() == 0
    ensures Settled(w, 0) == ZERO
  {
    FatesAddUp(w, n);
  }

  /** The items among (from, upto] that reach the writer, in order. */
  function ToWrite(w: World, from: nat, upto: nat): seq<nat>
    decreases upto - from
  {
    if upto <= from then []
    else ToWrite(w, from, upto - 1) + if w.drops(upto) || upto % 20 == 0 then [] else [upto]
  }

  /** The counters half way through a batch: items up to `upto` generated, and those still to be written
      from `from` on in flight. */
  function Between(w: World, from: nat, upto: nat): Counts
    requires from <= upto
  {
    var inFlight := |ToWrite(w, from, upto)|;
    var dropped := Tally(w, upto, IsDropped) - Tally(w, from, IsDropped);
    Counts(upto,
           Tally(w, from, IsPersisted),
           Tally(w, from, IsRejected) + (upto - from - inFlight - dropped),
           Tally(w, upto, IsDropped),
           inFlight)
  }

  /** Successful writes among the given items. */
  function Successes(w: World, items: seq<nat>): nat {
    if items == [] then 0
    else Successes(w, items[..|items| - 1]) + if w.writes(items[|items| - 1]) == Success then 1 else 0
  }

  lemma SuccessesAppend(w: World, items: seq<nat>, i: nat)
    ensures Successes(w, items + [i]) == Successes(w, items) + if w.writes(i) == Success then 1 else 0
    ensures Successes(w, items + []) == Successes(w, items)
  {
    assert (items + [i])[..|items|] == items && items + [] == items;
  }

  lemma {:induction false} BatchTotals(w: World, from: nat, upto: nat)
    requires from <= upto
    ensures Tally(w, upto, IsPersisted) == Tally(w, from, IsPersisted) + Successes(w, ToWrite(w, from, upto))
    decreases upto - from
  {
    if from == upto {
      assert ToWrite(w, from, upto) == [];
    } else {
      hide Successes;
      BatchTotals(w, from, upto - 1);
      SuccessesAppend(w, ToWrite(w, from, upto - 1), upto);
    }
  }

  // ---- the counts, item by item ----

  function WithFate(w: World, n: nat, fate: Fate): set<nat> {
    set i: nat | 1 <= i <= n && FateOf(w, i) == fate
  }

  lemma WithFateGrows(w: World, n: nat, fate: Fate)
    requires n > 0
    ensures FateOf(w, n) == fate ==> |WithFate(w, n, fate)| == |WithFate(w, n - 1, fate)| + 1
    ensures FateOf(w, n) != fate ==> WithFate(w, n, fate) == WithFate(w, n - 1, fate)
  {
    hide FateOf;
    if FateOf(w, n) == fate {
      assert WithFate(w, n, fate) == WithFate(w, n - 1, fate) + {n};
    }
  }

  lemma {:induction false} TallySize(w: World, n: nat, fate: Fate)
    ensures Tally(w, n, fate) == |WithFate(w, n, fate)|
  {
    if n == 0 {
      assert WithFate(w, n, fate) == {};
    } else {
      hide FateOf, WithFate;
      TallySize(w, n - 1, fate);
      WithFateGrows(w, n, fate);
    }
  }

  /** What the settled counters count: the items the storm drops; of the others those that are a multiple of
      twenty or whose write does not succeed; and the rest. */
  lemma SettledCounts(w: World, n: nat)
    ensures var c := Settled(w, n);
      && c.generated == n && c.inFlight == 0
      && c.dropped == |set i: nat | 1 <= i <= n && w.drops(i)|
      && c.rejected == |set i: nat | 1 <= i <= n && !w.drops(i) && (i % 20 == 0 || w.writes(i) != Success)|
      && c.persisted == |set i: nat | 1 <= i <= n && !w.drops(i) && i % 20 != 0 && w.writes(i) == Success|
  {
    TallySize(w, n, IsDropped);
    TallySize(w, n, IsRejected);
    TallySize(w, n, IsPersisted);
    assert WithFate(w, n, IsDropped) == set i: nat | 1 <= i <= n && w.drops(i);
    assert WithFate(w, n, IsRejected)
        == set i: nat | 1 <= i <= n && !w.drops(i) && (i % 20 == 0 || w.writes(i) != Success);
    assert WithFate(w, n, IsPersisted)
        == set i: nat | 1 <= i <= n && !w.drops(i) && i % 20 != 0 && w.writes(i) == Success;
  }

  /** What goes to the writer: the items of the batch that are neither dropped nor a multiple of twenty, in
      order. */
  lemma {:induction false} WrittenAre(w: World, from: nat, upto: nat)
    ensures var r := ToWrite(w, from, upto);
      && (forall i, j :: 0 <= i < j < |r| ==> r[i] < r[j])
      && (forall i: nat :: i in r <==> from < i <= upto && !w.drops(i) && i % 20 != 0)
    decreases upto - from
  {
    if from < upto {
      WrittenAre(w, from, upto - 1);
      var r := ToWrite(w, from, upto - 1);
      if !w.drops(upto) && upto % 20 != 0 {
        LastOne(r, upto);
        assert ToWrite(w, from, upto) == r + [upto];
      } else {
        assert ToWrite(w, from, upto) == r + [] == r;
      }
    }
  }

  lemma LastOne(r: seq<nat>, x: nat)
    requires (forall i, j :: 0 <= i < j < |r| ==> r[i] < r[j]) && forall i :: i in r ==> i < x
    ensures forall i, j :: 0 <= i < j < |r + [x]| ==> (r + [x])[i] < (r + [x])[j]
    ensures forall i: nat :: i in r + [x] <==> i in r || i == x
  {
    assert forall i :: 0 <= i < |r| ==> r[i] in r;
  }

  function SuccessPlaces(w: World, items: seq<nat>): set<nat> {
    set k: nat | k < |items| && w.writes(items[k]) == Success
  }

  lemma {:induction false} SuccessesAre(w: World, items: seq<nat>)
    ensures Successes(w, items) == |set k: nat | k < |items| && w.writes(items[k]) == Success|
  {
    if items == [] {
      assert SuccessPlaces(w, items) == {};
    } else {
      var n := |items| - 1;
      SuccessesAre(w, items[..n]);
      if w.writes(items[n]) == Success {
        assert SuccessPlaces(w, items) == SuccessPlaces(w, items[..n]) + {n};
      } else {
        assert SuccessPlaces(w, items) == SuccessPlaces(w, items[..n]);
      }
    }
  }

  class ObservationLedger {
    var counts: Counts

    constructor ()
      ensures counts == ZERO
    {
      counts := ZERO;
    }

    method RecordGenerated(n: int)
      modifies this
      ensures counts == Recorded(old(counts), Generated(n))
      ensures counts.generated == old(counts).generated + n && counts.inFlight == old(counts).inFlight + n
      ensures counts == old(counts).(generated := counts.generated, inFlight := counts.inFlight)
    {
      counts := counts.(generated := counts.generated + n, inFlight := counts.inFlight + n);
    }

    method RecordPersisted(n: int)
      modifies this
      ensures counts == Recorded(old(counts), Persisted(n))
      ensures counts.persisted == old(counts).persisted + n && counts.inFlight == old(counts).inFlight - n
      ensures counts == old(counts).(persisted := counts.persisted, inFlight := counts.inFlight)
    {
      counts := counts.(persisted := counts.persisted + n, inFlight := counts.inFlight - n);
    }

    method RecordRejected(n: int)
      modifies this
      ensures counts == Recorded(old(counts), Rejected(n))
      ensures counts.rejected == old(counts).rejected + n && counts.inFlight == old(counts).inFlight - n
      ensures counts == old(counts).(rejected := counts.rejected, inFlight := counts.inFlight)
    {
      counts := counts.(rejected := counts.rejected + n, inFlight := counts.inFlight - n);
    }

    method RecordDropped(n: int)
      modifies this
      ensures counts == Recorded(old(counts), Dropped(n))
      ensures counts.dropped == old(counts).dropped + n && counts.inFlight == old(counts).inFlight - n
      ensures counts == old(counts).(dropped := counts.dropped, inFlight := counts.inFlight)
    {
      counts := counts.(dropped := counts.dropped + n, inFlight := counts.inFlight - n);
    }
  }

  /** Generate a batch: count every item, and settle at once those dropped or rejected. */
  method GenerateBatch(ledger: ObservationLedger, w: World, itemCounter: nat, batchSize: nat)
    returns (counter: nat, batch: seq<nat>)
    requires ledger.counts == Settled(w, itemCounter)
    modifies ledger
    ensures counter == itemCounter + batchSize
    ensures batch == ToWrite(w, itemCounter, counter) && ledger.counts == Between(w, itemCounter, counter)
  {
    counter, batch := itemCounter, [];
    while counter < itemCounter + batchSize
      invariant itemCounter <= counter <= itemCounter + batchSize
      invariant batch == ToWrite(w, itemCounter, counter)
      invariant ledger.counts == Between(w, itemCounter, counter)
    {
      counter := counter + 1;
      ledger.RecordGenerated(1);
      if w.drops(counter) {
        ledger.RecordDropped(1);
        continue;
      }
      if counter % 20 == 0 {
        ledger.RecordRejected(1);
        continue;
      }
      batch := batch + [counter];
    }
  }

  /** Settle each written item by its result. */
  method SettleWrites(ledger: ObservationLedger, w: World, batch: seq<nat>)
    modifies ledger
    ensures var saved := Successes(w, batch);
      ledger.counts == old(ledger.counts).(persisted := old(ledger.counts.persisted) + saved,
                                           rejected := old(ledger.counts.rejected) + |batch| - saved,
                                           inFlight := old(ledger.counts.inFlight) - |batch|)
  {
    for i := 0 to |batch|
      invariant var saved := Successes(w, batch[..i]);
        ledger.counts == old(ledger.counts).(persisted := old(ledger.counts.persisted) + saved,
                                             rejected := old(ledger.counts.rejected) + i - saved,
                                             inFlight := old(ledger.counts.inFlight) - i)
    {
      assert batch[..i + 1][..i] == batch[..i];
      match w.writes(batch[i]) {
        case Raised => ledger.RecordRejected(1);
        case Success => ledger.RecordPersisted(1);
        case Other => ledger.RecordRejected(1);
      }
    }
    assert batch[..|batch|] == batch;
  }

  /** One turn of the loop. */
  method RunBatch(ledger: ObservationLedger, w: World, itemCounter: nat, batchSize: nat) returns (counter: nat)
    requires ledger.counts == Settled(w, itemCounter)
    modifies ledger
    ensures counter == itemCounter + batchSize
    ensures ledger.counts == Settled(w, counter)
  {
    hide Tally, Successes, ToWrite;
    var batch;
    counter, batch := GenerateBatch(ledger, w, itemCounter, batchSize);
    SettleWrites(ledger, w, batch);
    BatchTotals(w, itemCounter, counter);
    FatesAddUp(w, itemCounter);
    FatesAddUp(w, counter);
  }

  /** The whole regime: batches of any sizes, with a checkpoint after those that ask for one and a
      final one.  Whatever the world does, every checkpoint is conserved, and the last one shows each
      item generated under its own fate. */
  method ExecuteRegime(w: World, batches: seq<(nat, bool)>)
    returns (ledger: ObservationLedger, checkpoints: seq<Counts>)
    ensures forall c :: c in checkpoints ==>
      c.SilentDataLoss() == c.inFlight == 0 && c.generated == c.persisted + c.rejected + c.dropped
      && 0 <= c.persisted && 0 <= c.rejected && 0 <= c.dropped
    ensures checkpoints != [] && checkpoints[|checkpoints| - 1] == ledger.counts
    ensures ledger.counts == Settled(w, Total(batches))
  {
    hide Settled, Conserved, Counts.SilentDataLoss, Total;
    ledger := new ObservationLedger();
    checkpoints := [ZERO];
    var itemCounter := 0;
    SettledIsConserved(w, 0);
    TotalSteps(batches, 0);
    for k := 0 to |batches|
      invariant itemCounter == Total(batches[..k]) && ledger.counts == Settled(w, itemCounter) && fresh(ledger)
      invariant forall c :: c in checkpoints ==> Conserved(c) && c.SilentDataLoss() == 0
    {
      TotalSteps(batches, k);
      itemCounter := RunBatch(ledger, w, itemCounter, batches[k].0);
      SettledIsConserved(w, itemCounter);
      if batches[k].1 {
        checkpoints := checkpoints + [ledger.counts];
      }
    }
    assert batches[..|batches|] == batches;
    SettledIsConserved(w, itemCounter);
    checkpoints := checkpoints + [ledger.counts];
    ConservedMeans(checkpoints);
  }

  lemma ConservedMeans(cs: seq<Counts>)
    requires forall c :: c in cs ==> Conserved(c)
    ensures forall c :: c in cs ==>
      c.inFlight == 0 && c.generated == c.persisted + c.rejected + c.dropped
      && 0 <= c.persisted && 0 <= c.rejected && 0 <= c.dropped
  {
  }

  lemma TotalSteps(batches: seq<(nat, bool)>, k: nat)
    ensures Total(batches[..0]) == 0
    ensures k < |batches| ==> Total(batches[..k + 1]) == Total(batches[..k]) + batches[k].0
  {
    if k < |batches| {
      assert batches[..k + 1][..k] == batches[..k];
    }
  }

  function Total(batches: seq<(nat, bool)>): nat {
    if batches == [] then 0 else Total(batches[..|batches| - 1]) + batches[|batches| - 1].0
  }
}

/** The GUI event manager (gui_qt/event_manager.py): a priority queue with sequence numbers, drained a
    bounded amount at a time.
 */
module EventQueue {
  import opened Util

  datatype Kind =
    | MetricsUpdate | SystemAlert | AiProcessing | BypassResult | ResilienceEvent
    | NewsUpdate | ConfigChange | ModeSwitch | ServiceStatus

  /** An entry of an event's data: not there, a text, or something that is not a text. */
  datatype Entry = Absent | Text | NotText

  /** What matters of an event's data: whether it is a dictionary, and its two alert entries. */
  datatype Data = NotADict | Dict(severity: Entry, message: Entry)

  /** Exceptions of handlers are caught, but the signals sent after them check their arguments:
      `event_dispatched` wants a dictionary, `system_alert` two texts, with texts for defaults. */
  predicate Raises(kind: Kind, data: Data) {
    data.NotADict? || (kind.SystemAlert? && (data.severity.NotText? || data.message.NotText?))
  }

  /** Well-formed events never fail; only alerts mind what is in the dictionary. */
  lemma OnlyMalformedFails(kind: Kind, data: Data)
    ensures data == NotADict ==> Raises(kind, data)
    ensures kind != SystemAlert ==> (Raises(kind, data) <==> data == NotADict)
    ensures !Raises(SystemAlert, Dict(Text, Text)) && !Raises(SystemAlert, Dict(Absent, Absent))
    ensures !Raises(SystemAlert, Dict(Text, Absent)) && !Raises(SystemAlert, Dict(Absent, Text))
    ensures forall e :: Raises(SystemAlert, Dict(NotText, e)) && Raises(SystemAlert, Dict(e, NotText))
  {
  }

  /** A queued event. */
  datatype Item = Item(priority: int, no: nat, kind: Kind, data: Data) {
    predicate Fails() {
      Raises(kind, data)
    }
  }

  predicate Before(a: Item, b: Item) {
    a.priority < b.priority || (a.priority == b.priority && a.no < b.no)
  }

  /** The pending events in the order the priority queue hands them out. */
  ghost predicate InOrder(q: seq<Item>) {
    forall i, j :: 0 <= i < j < |q| ==> Before(q[i], q[j])
  }

  function Put(q: seq<Item>, x: Item): seq<Item> {
    if q == [] || Before(x, q[0]) then [x] + q else [q[0]] + Put(q[1..], x)
  }

  lemma {:induction false} PutKeepsOrder(q: seq<Item>, x: Item)
    requires InOrder(q) && forall y :: y in q ==> y.no != x.no
    ensures InOrder(Put(q, x))
    ensures forall y :: y in Put(q, x) <==> y == x || y in q
  {
    if q != [] && !Before(x, q[0]) {
      assert q == [q[0]] + q[1..];
      PutKeepsOrder(q[1..], x);
      var rest := Put(q[1..], x);
      forall j | 0 <= j < |rest| ensures Before(q[0], rest[j]) {
        assert rest[j] in rest;
        assert q[0] in q;
        if rest[j] != x {
          var i :| 0 <= i < |q[1..]| && q[1..][i] == rest[j];
          assert q[i + 1] == rest[j];
        }
      }
    }
  }

  lemma {:induction false} PutAddsOne(q: seq<Item>, x: Item)
    ensures multiset(Nos(Put(q, x))) == multiset(Nos(q)) + multiset{x.no}
  {
    hide Nos;
    if q == [] || Before(x, q[0]) {
      NosCons(x, q);
    } else {
      assert q == [q[0]] + q[1..];
      PutAddsOne(q[1..], x);
      NosCons(q[0], Put(q[1..], x));
      NosCons(q[0], q[1..]);
    }
  }

  function Nos(s: seq<Item>): (r: seq<nat>)
    ensures |r| == |s| && forall i :: 0 <= i < |s| ==> r[i] == s[i].no
  {
    Numbers(s, (x: Item) => x.no)
  }

  lemma NosCons(x: Item, s: seq<Item>)
    ensures Nos([x] + s) == [x.no] + Nos(s)
  {
  }

  lemma NosConcat(s: seq<Item>, t: seq<Item>)
    ensures Nos(s + t) == Nos(s) + Nos(t)
  {
  }

  // ---- whole runs, whatever publishes, ticks and clears are interleaved ----

  const MAX_PER_CYCLE := 20

  /** A tick is a start, dispatches and an end.  Handlers run inside dispatches, so what they publish and
      clear may come anywhere in between. */
  datatype Event = Publish(priority: int, kind: Kind, data: Data) | Clear | TickStart | Dispatch | TickEnd

  /** A tick: where its dispatches begin in the record, where they end, whether it found the queue empty
      at its end, and how many failing events were pending at its start or published during it. */
  datatype Tick = Tick(from: nat, to: nat, drained: bool, failing: nat)

  function Failing(q: seq<Item>): nat {
    if q == [] then 0 else (if q[0].Fails() then 1 else 0) + Failing(q[1..])
  }

  /** The manager, the successes counted by the tick under way, and a record of what was dispatched, in
      order, what was cleared, where the tick under way began, the failing events it has had to do with,
      and the ticks that ended. */
  datatype Manager =
    Manager(counter: nat, pending: seq<Item>, processed: Option<nat>,
            dispatched: seq<Item>, cleared: seq<Item>, begun: nat, failing: nat, ticks: seq<Tick>)
  {
    predicate GoesOn() {
      processed.Some? && pending != [] && processed.value < MAX_PER_CYCLE
    }

    function Step(e: Event): Manager {
      match e
      case Publish(priority, kind, data) =>
        var x := Item(priority, counter + 1, kind, data);
        this.(counter := counter + 1, pending := Put(pending, x), failing := failing + if x.Fails() then 1 else 0)
      case Clear => this.(pending := [], cleared := cleared + pending)
      case TickStart =>
        if processed.Some? then this
        else this.(processed := Some(0), begun := |dispatched|, failing := Failing(pending))
      case Dispatch =>
        if !GoesOn() then this
        else
          var n := if pending[0].Fails() then processed.value else processed.value + 1;
          this.(pending := pending[1..], processed := Some(n), dispatched := dispatched + [pending[0]])
      case TickEnd =>
        if processed.None? || GoesOn() then this
        else this.(processed := None, ticks := ticks + [Tick(begun, |dispatched|, pending == [], failing)])
    }
  }

  function Run(m: Manager, es: seq<Event>): Manager
    decreases |es|
  {
    if es == [] then m else Run(m, es[..|es| - 1]).Step(es[|es| - 1])
  }

  const START := Manager(0, [], None, [], [], 0, 0, [])

  /** Among events of one priority, dispatched ones come in publishing order and before pending ones. */
  ghost predicate Fifo(m: Manager) {
    && (forall i, j :: 0 <= i < j < |m.dispatched| && m.dispatched[i].priority == m.dispatched[j].priority ==>
          m.dispatched[i].no < m.dispatched[j].no)
    && (forall i, y :: 0 <= i < |m.dispatched| && y in m.pending && m.dispatched[i].priority == y.priority ==>
          m.dispatched[i].no < y.no)
  }

  /** Every event published (they are numbered from 1) is dispatched, pending or cleared: in one of
      these, and once. */
  ghost predicate Accounted(m: Manager) {
    multiset{0} + multiset(Nos(m.dispatched)) + multiset(Nos(m.pending)) + multiset(Nos(m.cleared))
    == Upto(m.counter + 1)
  }

  ghost predicate Valid(m: Manager) {
    InOrder(m.pending) && Fifo(m) && Accounted(m)
  }

  lemma NumberCounts(s: seq<Item>, x: Item)
    requires x in s
    ensures x.no in multiset(Nos(s))
  {
    var i :| 0 <= i < |s| && s[i] == x;
    assert Nos(s)[i] == x.no;
  }

  lemma NumbersBelow(m: Manager)
    requires Accounted(m)
    ensures forall x :: x in m.pending || x in m.dispatched ==> x.no <= m.counter
  {
    hide Nos;
    forall x | x in m.pending || x in m.dispatched ensures x.no <= m.counter {
      if x in m.pending {
        NumberCounts(m.pending, x);
      } else {
        NumberCounts(m.dispatched, x);
      }
      UptoMembers(m.counter + 1, x.no);
    }
  }

  lemma PublishKeepsValid(m: Manager, priority: int, kind: Kind, data: Data)
    requires Valid(m)
    ensures Valid(m.Step(Publish(priority, kind, data)))
  {
    hide InOrder, Put, Nos, Fifo;
    var x := Item(priority, m.counter + 1, kind, data);
    NumbersBelow(m);
    PutKeepsOrder(m.pending, x);
    PutAddsOne(m.pending, x);
    NewestKeepsFifo(m, x, m.Step(Publish(priority, kind, data)));
  }

  lemma NewestKeepsFifo(m: Manager, x: Item, m': Manager)
    requires Fifo(m) && (forall y :: y in m.dispatched ==> y.no < x.no)
    requires m'.pending == Put(m.pending, x) && m'.dispatched == m.dispatched
    requires forall y :: y in Put(m.pending, x) <==> y == x || y in m.pending
    ensures Fifo(m')
  {
    hide Put;
  }

  lemma HeadIsLeast(q: seq<Item>)
    requires InOrder(q) && q != []
    ensures InOrder(q[1..]) && q == [q[0]] + q[1..]
    ensures forall y :: y in q[1..] ==> Before(q[0], y)
    ensures forall y :: y in q[1..] ==> y in q
  {
    forall y | y in q[1..] ensures Before(q[0], y) {
      var i :| 0 <= i < |q[1..]| && q[1..][i] == y;
      assert q[i + 1] == y;
    }
  }

  lemma DispatchKeepsValid(m: Manager)
    requires Valid(m)
    ensures Valid(m.Step(Dispatch))
  {
    hide InOrder, Nos, Fifo, Accounted;
    if m.GoesOn() {
      HeadIsLeast(m.pending);
      HeadMoves(m);
      HeadKeepsFifo(m);
    }
  }

  lemma HeadKeepsFifo(m: Manager)
    requires Fifo(m) && InOrder(m.pending) && m.GoesOn()
    ensures Fifo(m.Step(Dispatch))
  {
    hide InOrder;
    HeadIsLeast(m.pending);
    assert m.pending[0] in m.pending;
  }

  lemma HeadMoves(m: Manager)
    requires Accounted(m) && m.GoesOn()
    ensures Accounted(m.Step(Dispatch))
  {
    hide Nos, Upto;
    FirstCounts(m.pending);
    LastCounts(m.dispatched, m.pending[0]);
  }

  lemma FirstCounts(s: seq<Item>)
    requires s != []
    ensures multiset(Nos(s)) == multiset{s[0].no} + multiset(Nos(s[1..]))
  {
    hide Nos;
    assert s == [s[0]] + s[1..];
    NosCons(s[0], s[1..]);
  }

  lemma LastCounts(s: seq<Item>, x: Item)
    ensures multiset(Nos(s + [x])) == multiset(Nos(s)) + multiset{x.no}
  {
    assert Nos(s + [x]) == Nos(s) + [x.no];
  }

  lemma ClearKeepsValid(m: Manager)
    requires Valid(m)
    ensures Valid(m.Step(Clear))
  {
    NosConcat(m.cleared, m.pending);
  }

  /** The edges of a tick move no event. */
  lemma TickEdgesKeepValid(m: Manager, m': Manager)
    requires Valid(m) && m'.counter == m.counter && m'.pending == m.pending
    requires m'.dispatched == m.dispatched && m'.cleared == m.cleared
    ensures Valid(m')
  {
    hide InOrder, Nos, Upto;
  }

  lemma {:induction false} RunKeepsValid(es: seq<Event>)
    ensures Valid(Run(START, es))
    decreases |es|
  {
    if es != [] {
      hide Valid, Put;
      var m, e := Run(START, es[..|es| - 1]), es[|es| - 1];
      RunKeepsValid(es[..|es| - 1]);
      match e {
        case Publish(priority, kind, data) => PublishKeepsValid(m, priority, kind, data);
        case Clear => ClearKeepsValid(m);
        case TickStart => TickEdgesKeepValid(m, m.Step(e));
        case Dispatch => DispatchKeepsValid(m);
        case TickEnd => TickEdgesKeepValid(m, m.Step(e));
      }
    }
  }

  /** Event order over whole runs: what is pending waits in order of priority, the smallest number first,
      and of sequence number; equal priorities have left first in, first out, whatever happened in between;
      and every event is dispatched at most once, and never once cleared. */
  lemma DispatchOrder(es: seq<Event>)
    ensures var m := Run(START, es);
      && (forall i, j :: 0 <= i < j < |m.pending| ==>
            || m.pending[i].priority < m.pending[j].priority
            || (m.pending[i].priority == m.pending[j].priority && m.pending[i].no < m.pending[j].no))
      && (forall i, j :: 0 <= i < j < |m.dispatched| ==>
            && m.dispatched[i].no != m.dispatched[j].no
            && (m.dispatched[i].priority == m.dispatched[j].priority ==> m.dispatched[i].no < m.dispatched[j].no))
      && (forall no: nat ::
            multiset(Nos(m.dispatched))[no] + multiset(Nos(m.pending))[no] + multiset(Nos(m.cleared))[no]
            == if 1 <= no <= m.counter then 1 else 0)
  {
    hide Run, Accounted, Nos;
    var m := Run(START, es);
    RunKeepsValid(es);
    forall no: nat
      ensures multiset(Nos(m.dispatched))[no] + multiset(Nos(m.pending))[no] + multiset(Nos(m.cleared))[no]
           == if 1 <= no <= m.counter then 1 else 0
    {
      PlacesAddUp(m, no);
    }
    forall i, j | 0 <= i < j < |m.dispatched| ensures m.dispatched[i].no != m.dispatched[j].no {
      NeverTwice(m, i, j);
    }
  }

  /** Every dispatch of every run hands out the most urgent event: nothing left pending has a smaller
      priority number, nor the same one and a smaller sequence number. */
  lemma DispatchTakesMostUrgent(es: seq<Event>, k: nat) returns (x: Item)
    requires k < |es| && es[k] == Dispatch
    requires var m := Run(START, es[..k]);
      m.processed.Some? && m.processed.value < 20 && m.pending != []
    ensures var m, m' := Run(START, es[..k]), Run(START, es[..k + 1]);
      && m'.dispatched == m.dispatched + [x]
      && multiset(m.pending) == multiset(m'.pending) + multiset{x}
      && forall y :: y in m'.pending ==> x.priority < y.priority || (x.priority == y.priority && x.no < y.no)
  {
    hide Run, Accounted, Nos, Fifo;
    var m := Run(START, es[..k]);
    RunKeepsValid(es[..k]);
    assert es[..k + 1] == es[..k] + [Dispatch];
    RunOne(START, es[..k], Dispatch);
    x := m.pending[0];
    HeadIsLeast(m.pending);
  }

  /** The events published in a run, as they were published. */
  function Published(es: seq<Event>): seq<Item>
    decreases |es|
  {
    if es == [] then []
    else
      var before, e := Published(es[..|es| - 1]), es[|es| - 1];
      if e.Publish? then before + [Item(e.priority, |before| + 1, e.kind, e.data)] else before
  }

  ghost predicate Genuine(m: Manager, published: seq<Item>) {
    && m.counter == |published|
    && forall x :: x in m.pending || x in m.dispatched || x in m.cleared ==>
      1 <= x.no <= |published| && published[x.no - 1] == x
  }

  lemma {:induction false} PutMembers(q: seq<Item>, x: Item)
    ensures forall y :: y in Put(q, x) <==> y == x || y in q
  {
    if q != [] && !Before(x, q[0]) {
      assert q == [q[0]] + q[1..];
      PutMembers(q[1..], x);
    }
  }

  /** Nothing is altered on the way: whatever is pending, dispatched or cleared under number n is the n-th
      event published. */
  lemma {:induction false} EventsAreGenuine(es: seq<Event>)
    ensures Genuine(Run(START, es), Published(es))
    decreases |es|
  {
    if es != [] {
      hide Put;
      var m, e := Run(START, es[..|es| - 1]), es[|es| - 1];
      EventsAreGenuine(es[..|es| - 1]);
      if e.Publish? {
        PutMembers(m.pending, Item(e.priority, m.counter + 1, e.kind, e.data));
      }
    }
  }

  lemma PlacesAddUp(m: Manager, no: nat)
    requires Accounted(m)
    ensures multiset(Nos(m.dispatched))[no] + multiset(Nos(m.pending))[no] + multiset(Nos(m.cleared))[no]
         == if 1 <= no <= m.counter then 1 else 0
  {
    hide Nos;
    UptoMembers(m.counter + 1, no);
  }

  lemma NeverTwice(m: Manager, i: nat, j: nat)
    requires Accounted(m) && i < j < |m.dispatched|
    ensures m.dispatched[i].no != m.dispatched[j].no
  {
    var nos := Nos(m.dispatched);
    PlacesAddUp(m, nos[i]);
    if nos[i] == nos[j] {
      Twice(nos, i, j);
    }
  }

  lemma Twice(s: seq<nat>, i: nat, j: nat)
    requires i < j < |s| && s[i] == s[j]
    ensures multiset(s)[s[i]] >= 2
  {
    assert s == s[..j] + s[j..];
    assert s[..j][i] == s[i] && s[j..][0] == s[i];
    assert s[i] in multiset(s[..j]) && s[i] in multiset(s[j..]);
  }

  // ---- ticks ----

  function Successes(q: seq<Item>): nat {
    if q == [] then 0 else (if q[0].Fails() then 0 else 1) + Successes(q[1..])
  }

  lemma {:induction false} SuccessesConcat(a: seq<Item>, b: seq<Item>)
    ensures Successes(a + b) == Successes(a) + Successes(b)
  {
    if a == [] {
      assert a + b == b;
    } else {
      assert (a + b)[1..] == a[1..] + b;
      SuccessesConcat(a[1..], b);
    }
  }

  lemma {:induction false} FailingConcat(a: seq<Item>, b: seq<Item>)
    ensures Failing(a + b) == Failing(a) + Failing(b)
  {
    if a == [] {
      assert a + b == b;
    } else {
      assert (a + b)[1..] == a[1..] + b;
      FailingConcat(a[1..], b);
    }
  }

  lemma {:induction false} FailingPut(q: seq<Item>, x: Item)
    ensures Failing(Put(q, x)) == Failing(q) + if x.Fails() then 1 else 0
  {
    if q == [] || Before(x, q[0]) {
      assert ([x] + q)[1..] == q;
    } else {
      FailingPut(q[1..], x);
      assert ([q[0]] + Put(q[1..], x))[1..] == Put(q[1..], x);
    }
  }

  lemma {:induction false} SucceedOrFail(q: seq<Item>)
    ensures |q| == Successes(q) + Failing(q)
  {
    if q != [] {
      SucceedOrFail(q[1..]);
    }
  }

  /** A tick that ended: at most 20 successes, and either exactly 20 or an empty queue behind it; and no
      more failures than there were failing events for it to meet, which bounds its length. */
  ghost predicate TickOk(t: Tick, dispatched: seq<Item>) {
    && t.from <= t.to <= |dispatched|
    && Successes(dispatched[t.from..t.to]) <= MAX_PER_CYCLE
    && (t.drained || Successes(dispatched[t.from..t.to]) == MAX_PER_CYCLE)
    && Failing(dispatched[t.from..t.to]) <= t.failing
    && t.to - t.from <= MAX_PER_CYCLE + t.failing
  }

  /** How much of the record the first n ticks cover. */
  function Covered(ticks: seq<Tick>, n: nat): nat
    requires n <= |ticks|
  {
    if n == 0 then 0 else ticks[n - 1].to
  }

  ghost predicate EndedTicksOk(ticks: seq<Tick>, dispatched: seq<Item>) {
    && (forall i :: 0 <= i < |ticks| ==> TickOk(ticks[i], dispatched))
    && (forall i :: 0 <= i < |ticks| ==> ticks[i].from == Covered(ticks, i))
  }

  /** Ended ticks are as they should be and cover the record, and the tick under way counts right. */
  ghost predicate TicksOk(m: Manager) {
    && EndedTicksOk(m.ticks, m.dispatched)
    && var covered := Covered(m.ticks, |m.ticks|);
    if m.processed.None? then covered == |m.dispatched|
    else
      && covered == m.begun <= |m.dispatched|
      && m.processed.value == Successes(m.dispatched[m.begun..]) <= MAX_PER_CYCLE
      && Failing(m.dispatched[m.begun..]) + Failing(m.pending) <= m.failing
      && |m.dispatched| - m.begun <= MAX_PER_CYCLE + m.failing
  }

  lemma EndedStayOk(ticks: seq<Tick>, dispatched: seq<Item>, x: Item)
    requires EndedTicksOk(ticks, dispatched)
    ensures EndedTicksOk(ticks, dispatched + [x])
  {
    hide Successes, Failing;
    forall i | 0 <= i < |ticks| ensures TickOk(ticks[i], dispatched + [x]) {
      assert TickOk(ticks[i], dispatched);
      assert (dispatched + [x])[ticks[i].from..ticks[i].to] == dispatched[ticks[i].from..ticks[i].to];
    }
  }

  lemma SuccessCounts(dispatched: seq<Item>, begun: nat, x: Item)
    requires begun <= |dispatched|
    ensures Successes((dispatched + [x])[begun..]) == Successes(dispatched[begun..]) + if x.Fails() then 0 else 1
    ensures Failing((dispatched + [x])[begun..]) == Failing(dispatched[begun..]) + if x.Fails() then 1 else 0
    ensures |dispatched| - begun == Successes(dispatched[begun..]) + Failing(dispatched[begun..])
  {
    assert (dispatched + [x])[begun..] == dispatched[begun..] + [x];
    SuccessesConcat(dispatched[begun..], [x]);
    FailingConcat(dispatched[begun..], [x]);
    SucceedOrFail(dispatched[begun..]);
    assert [x][1..] == [];
  }

  lemma FailingFirst(q: seq<Item>)
    requires q != []
    ensures Failing(q) == Failing(q[1..]) + if q[0].Fails() then 1 else 0
  {
  }

  lemma DispatchKeepsTicks(m: Manager)
    requires TicksOk(m) && m.GoesOn()
    ensures TicksOk(m.Step(Dispatch))
  {
    hide Successes, Failing, EndedTicksOk, Item.Fails;
    EndedStayOk(m.ticks, m.dispatched, m.pending[0]);
    SuccessCounts(m.dispatched, m.begun, m.pending[0]);
    FailingFirst(m.pending);
  }

  lemma StepKeepsTicks(m: Manager, e: Event)
    requires TicksOk(m)
    ensures TicksOk(m.Step(e))
  {
    hide EndedTicksOk, Put, Successes, Failing, Item.Fails;
    match e {
      case Publish(priority, kind, data) => FailingPut(m.pending, Item(priority, m.counter + 1, kind, data));
      case Clear => NoneYet([]);
      case TickStart => NoneYet(m.dispatched);
      case Dispatch =>
        if m.GoesOn() {
          DispatchKeepsTicks(m);
        }
      case TickEnd =>
        if m.processed.Some? && !m.GoesOn() {
          TickEndIsOk(m);
        }
    }
  }

  lemma NoneYet(s: seq<Item>)
    ensures Successes(s[|s|..]) == Failing(s[|s|..]) == Failing([]) == 0
  {
  }

  lemma EndedGrow(ticks: seq<Tick>, t: Tick, dispatched: seq<Item>)
    requires EndedTicksOk(ticks, dispatched) && TickOk(t, dispatched)
    requires t.from == Covered(ticks, |ticks|)
    ensures EndedTicksOk(ticks + [t], dispatched)
  {
    hide TickOk;
    var all := ticks + [t];
    forall i | 0 <= i < |all| ensures TickOk(all[i], dispatched) {
      assert i < |ticks| ==> all[i] == ticks[i];
    }
    forall i | 0 <= i < |all| ensures all[i].from == Covered(all, i) {
      assert Covered(all, i) == Covered(ticks, i);
      assert i < |ticks| ==> all[i] == ticks[i];
    }
  }

  lemma TickEndIsOk(m: Manager)
    requires TicksOk(m) && m.processed.Some? && !m.GoesOn()
    ensures TicksOk(m.Step(TickEnd))
  {
    hide Successes, Failing, Item.Fails;
    assert m.dispatched[m.begun..|m.dispatched|] == m.dispatched[m.begun..];
    var t := Tick(m.begun, |m.dispatched|, m.pending == [], m.failing);
    assert TickOk(t, m.dispatched);
    EndedGrow(m.ticks, t, m.dispatched);
  }

  /** Ticks are bounded in every run, whatever handlers publish or clear meanwhile: each tick, ended or
      under way, dispatches at most 20 events successfully, and no more than 20 and the failing events
      pending at its start or published during it altogether; one that ended dispatched exactly 20
      successfully or left the queue empty; and every dispatch belongs to one of them. */
  lemma {:induction false} TicksAreBounded(es: seq<Event>)
    ensures TicksOk(Run(START, es))
    decreases |es|
  {
    if es != [] {
      hide TicksOk, Manager.Step;
      TicksAreBounded(es[..|es| - 1]);
      StepKeepsTicks(Run(START, es[..|es| - 1]), es[|es| - 1]);
    }
  }

  // ---- one tick on its own ----

  /** How many events a tick takes off the queue: it stops when the queue is empty or when `budget`
      dispatches have succeeded; a dispatch that raises does not count. */
  function TickLength(q: seq<Item>, budget: nat): (n: nat)
    ensures n <= |q|
  {
    if q == [] || budget == 0 then 0
    else 1 + TickLength(q[1..], if q[0].Fails() then budget else budget - 1)
  }

  /** A tick dispatches at most 20 events successfully, and leaves events behind only when it has
      dispatched exactly 20. */
  lemma {:induction false} TickSuccesses(q: seq<Item>, budget: nat)
    ensures var n := TickLength(q, budget);
      Successes(q[..n]) <= budget && (n < |q| ==> Successes(q[..n]) == budget) && n >= MinInt(budget, |q|)
  {
    if q != [] && budget > 0 {
      var next := if q[0].Fails() then budget else budget - 1;
      TickSuccesses(q[1..], next);
      var n := TickLength(q[1..], next);
      assert q[..n + 1] == [q[0]] + q[1..][..n];
    }
  }

  ghost predicate NoneFails(q: seq<Item>, n: nat)
    requires n <= |q|
  {
    forall i :: 0 <= i < n ==> !q[i].Fails()
  }

  lemma NoneFailsTail(q: seq<Item>, n: nat)
    requires 0 < n <= |q|
    ensures NoneFails(q, n) <==> !q[0].Fails() && NoneFails(q[1..], n - 1)
  {
    if !q[0].Fails() && NoneFails(q[1..], n - 1) {
      assert forall i :: 1 <= i < n ==> q[i] == q[1..][i - 1];
    }
  }

  /** The bound of 20 events per tick holds exactly when no failing event is among the first 20, or
      nothing lies behind them. */
  lemma {:induction false} TickIsBoundedIff(q: seq<Item>, budget: nat)
    ensures TickLength(q, budget) <= budget <==> |q| <= budget || NoneFails(q, budget)
  {
    hide NoneFails;
    if q == [] || budget == 0 {
      NoneFailsNone(q);
    } else {
      if |q| > budget {
        NoneFailsTail(q, budget);
      }
      if q[0].Fails() {
        TickSuccesses(q[1..], budget);
      } else {
        TickIsBoundedIff(q[1..], budget - 1);
      }
    }
  }

  lemma NoneFailsNone(q: seq<Item>)
    ensures NoneFails(q, 0)
  {
  }

  lemma {:induction false} FailuresDoNotCount(q: seq<Item>, budget: nat)
    requires budget > 0 && forall x :: x in q ==> x.Fails()
    ensures TickLength(q, budget) == |q|
  {
    if q != [] {
      assert q[0] in q && forall x :: x in q[1..] ==> x in q;
      FailuresDoNotCount(q[1..], budget);
    }
  }

  /** 21 alerts published in a row whose message is not a text: one tick takes them all. */
  lemma TickTakesTwentyOne()
    ensures var q := seq(21, i requires 0 <= i < 21 => Item(5, i + 1, SystemAlert, Dict(Absent, NotText)));
      InOrder(q) && TickLength(q, MAX_PER_CYCLE) == 21
  {
    var q := seq(21, i requires 0 <= i < 21 => Item(5, i + 1, SystemAlert, Dict(Absent, NotText)));
    FailuresDoNotCount(q, MAX_PER_CYCLE);
  }

  /** The queue after a number of ticks with nothing published in between. */
  function AfterTicks(q: seq<Item>, ticks: nat): seq<Item> {
    if ticks == 0 then q else AfterTicks(q[TickLength(q, MAX_PER_CYCLE)..], ticks - 1)
  }

  /** n pending events are gone after ceil(n / 20) ticks; when none fails it takes exactly that many. */
  lemma {:induction false} DrainTime(q: seq<Item>, ticks: nat)
    ensures |AfterTicks(q, ticks)| <= MaxInt(0, |q| - MAX_PER_CYCLE * ticks)
    ensures (forall x :: x in q ==> !x.Fails()) ==> |AfterTicks(q, ticks)| == MaxInt(0, |q| - MAX_PER_CYCLE * ticks)
  {
    if ticks > 0 {
      var n := TickLength(q, MAX_PER_CYCLE);
      TickSuccesses(q, MAX_PER_CYCLE);
      if forall x :: x in q ==> !x.Fails() {
        TickIsBoundedIff(q, MAX_PER_CYCLE);
        assert forall x :: x in q[n..] ==> x in q;
      }
      DrainTime(q[n..], ticks - 1);
    }
  }

  lemma {:induction false} RunConcat(m: Manager, a: seq<Event>, b: seq<Event>)
    ensures Run(m, a + b) == Run(Run(m, a), b)
    decreases |b|
  {
    if b == [] {
      assert a + b == a;
    } else {
      var n := |b| - 1;
      assert (a + b)[..|a| + n] == a + b[..n];
      RunConcat(m, a, b[..n]);
    }
  }

  lemma RunOne(m: Manager, es: seq<Event>, e: Event)
    ensures Run(m, es + [e]) == Run(m, es).Step(e)
  {
    assert (es + [e])[..|es|] == es;
  }

  lemma RunNone(m: Manager)
    ensures Run(m, []) == m
  {
  }

  lemma TickRuns(m: Manager, es: seq<Event>)
    ensures Run(m, [TickStart] + es + [TickEnd]) == Run(m.Step(TickStart), es).Step(TickEnd)
  {
    hide Manager.Step;
    RunOne(m, [TickStart] + es, TickEnd);
    RunConcat(m, [TickStart], es);
    RunOne(m, [], TickStart);
    assert [] + [TickStart] == [TickStart];
  }

  /** What is left of a tick, for a manager within one. */
  function Rest(m: Manager): (n: nat)
    requires m.processed.Some? && m.processed.value <= MAX_PER_CYCLE
    ensures n <= |m.pending|
  {
    TickLength(m.pending, MAX_PER_CYCLE - m.processed.value)
  }

  lemma RestAfterDispatch(m: Manager)
    requires m.processed.Some? && m.processed.value <= MAX_PER_CYCLE
    ensures var m1 := m.Step(Dispatch);
      && m1.processed.Some? && m1.processed.value <= MAX_PER_CYCLE && m1.counter == m.counter
      && (if m.GoesOn() then m1.pending == m.pending[1..] && m1.dispatched == m.dispatched + [m.pending[0]]
                             && Rest(m) == 1 + Rest(m1)
          else m1 == m && Rest(m) == 0)
  {
  }

  lemma RunFirst(m: Manager, es: seq<Event>)
    requires es != []
    ensures Run(m, es) == Run(m.Step(es[0]), es[1..])
  {
    hide Manager.Step;
    assert es == [es[0]] + es[1..] && [] + [es[0]] == [es[0]];
    RunConcat(m, [es[0]], es[1..]);
    RunOne(m, [], es[0]);
    RunNone(m);
  }

  lemma TakeOneMore<T>(done: seq<T>, q: seq<T>, n: nat)
    requires q != [] && n <= |q[1..]|
    ensures (done + [q[0]]) + q[1..][..n] == done + q[..n + 1] && q[1..][n..] == q[n + 1..]
  {
  }

  /** A tick in which no handler touches the queue takes the first TickLength events. */
  lemma {:induction false} TickAlone(m: Manager, es: seq<Event>)
    requires m.processed.Some? && m.processed.value <= MAX_PER_CYCLE
    requires (forall i :: 0 <= i < |es| ==> es[i].Dispatch?) && !Run(m, es).GoesOn()
    ensures var m', n := Run(m, es), Rest(m);
      && m'.counter == m.counter && m'.pending == m.pending[n..]
      && m'.dispatched == m.dispatched + m.pending[..n]
    decreases |es|
  {
    hide Manager.Step, Rest, Manager.GoesOn, Run;
    RestAfterDispatch(m);
    if es == [] {
      RunNone(m);
    } else {
      var m1 := m.Step(Dispatch);
      RunFirst(m, es);
      TickAlone(m1, es[1..]);
      if m.GoesOn() {
        OnlyThen(m);
        TakeOneMore(m.dispatched, m.pending, Rest(m1));
      }
    }
  }

  lemma OnlyThen(m: Manager)
    requires m.GoesOn()
    ensures m.pending != []
  {
  }

  /** What a handler may do to the queue. */
  predicate IsReaction(e: Event) {
    e.Publish? || e.Clear?
  }

  // ---- ticks with handlers that publish and clear ----

  /** What the handlers do, given for the k-th event a tick hands out: any number of events may have them
      publish and clear. */
  ghost predicate OnlyReact(reactions: nat -> seq<Event>) {
    forall k, i :: 0 <= k && 0 <= i < |reactions(k)| ==> IsReaction(reactions(k)[i])
  }

  /** A tick under way after n turns of its loop, or after its last one. */
  function Looped(m: Manager, reactions: nat -> seq<Event>, n: nat): Manager {
    if n == 0 then m
    else
      var p := Looped(m, reactions, n - 1);
      if p.GoesOn() then Run(p.Step(Dispatch), reactions(n - 1)) else p
  }

  function FailingIn(es: seq<Event>): nat {
    if es == [] then 0
    else
      var e := es[|es| - 1];
      FailingIn(es[..|es| - 1]) + if e.Publish? && Raises(e.kind, e.data) then 1 else 0
  }

  function FailingPlaces(q: seq<Item>): set<nat> {
    set i: nat | i < |q| && Raises(q[i].kind, q[i].data)
  }

  lemma FailingAppend(q: seq<Item>, x: Item)
    ensures Failing(q + [x]) == Failing(q) + if x.Fails() then 1 else 0
  {
    FailingConcat(q, [x]);
    assert Failing([x]) == (if x.Fails() then 1 else 0) + Failing([x][1..]);
  }

  /** What is counted as failing: the items, or the events published, whose dispatch raises. */
  lemma {:induction false} FailingIsCounted(q: seq<Item>)
    ensures Failing(q) == |set i: nat | i < |q| && Raises(q[i].kind, q[i].data)|
  {
    if q == [] {
      assert FailingPlaces(q) == {};
    } else {
      var n := |q| - 1;
      FailingIsCounted(q[..n]);
      FailingAppend(q[..n], q[n]);
      assert q == q[..n] + [q[n]];
      if q[n].Fails() {
        assert FailingPlaces(q) == FailingPlaces(q[..n]) + {n};
      } else {
        assert FailingPlaces(q) == FailingPlaces(q[..n]);
      }
    }
  }

  function FailingPublishes(es: seq<Event>): set<nat> {
    set i: nat | i < |es| && es[i].Publish? && Raises(es[i].kind, es[i].data)
  }

  lemma {:induction false} FailingInIsCounted(es: seq<Event>)
    ensures FailingIn(es) == |set i: nat | i < |es| && es[i].Publish? && Raises(es[i].kind, es[i].data)|
  {
    if es == [] {
      assert FailingPublishes(es) == {};
    } else {
      var n := |es| - 1;
      FailingInIsCounted(es[..n]);
      if es[n].Publish? && Raises(es[n].kind, es[n].data) {
        assert FailingPublishes(es) == FailingPublishes(es[..n]) + {n};
      } else {
        assert FailingPublishes(es) == FailingPublishes(es[..n]);
      }
    }
  }

  /** The failing events a tick has had to do with: those pending at its start, and from then on those
      published. */
  lemma {:induction false} FailingIsRecorded(m: Manager, es: seq<Event>)
    requires m.processed.None? && forall i :: 0 <= i < |es| ==> !es[i].TickStart? && !es[i].TickEnd?
    ensures var m' := Run(m.Step(TickStart), es);
      && m'.processed.Some?
      && m'.failing == |set i: nat | i < |m.pending| && Raises(m.pending[i].kind, m.pending[i].data)|
                       + |set i: nat | i < |es| && es[i].Publish? && Raises(es[i].kind, es[i].data)|
    decreases |es|
  {
    hide Put;
    FailingIsCounted(m.pending);
    FailingInIsCounted(es);
    if es != [] {
      FailingIsRecorded(m, es[..|es| - 1]);
      FailingInIsCounted(es[..|es| - 1]);
    }
  }

  /** How many failing events the handlers have published in the first n turns. */
  function FailingPublished(m: Manager, reactions: nat -> seq<Event>, n: nat): nat {
    if n == 0 then 0
    else
      FailingPublished(m, reactions, n - 1)
      + if Looped(m, reactions, n - 1).GoesOn() then FailingIn(reactions(n - 1)) else 0
  }

  predicate InTick(m: Manager) {
    m.processed.Some? && m.processed.value <= MAX_PER_CYCLE
  }

  lemma {:induction false} ReactionsAdd(m: Manager, es: seq<Event>)
    requires InTick(m) && forall i :: 0 <= i < |es| ==> IsReaction(es[i])
    ensures var m' := Run(m, es);
      && m'.processed == m.processed && m'.dispatched == m.dispatched && m'.ticks == m.ticks && m'.begun == m.begun
      && Failing(m'.pending) <= Failing(m.pending) + FailingIn(es)
    decreases |es|
  {
    if es != [] {
      hide Put, Failing, Raises;
      var n := |es| - 1;
      var m1 := Run(m, es[..n]);
      ReactionsAdd(m, es[..n]);
      match es[n] {
        case Publish(priority, kind, data) => FailingPut(m1.pending, Item(priority, m1.counter + 1, kind, data));
        case Clear => NoneYet([]);
        case _ =>
          assert false;
      }
    }
  }

  /** What a tick can still do: its successes left, and the failing events it may meet. */
  function Left(m: Manager): int
    requires InTick(m)
  {
    MAX_PER_CYCLE - m.processed.value + Failing(m.pending)
  }

  lemma TurnUsesUp(m: Manager, es: seq<Event>)
    requires InTick(m) && m.GoesOn() && forall i :: 0 <= i < |es| ==> IsReaction(es[i])
    ensures var m' := Run(m.Step(Dispatch), es);
      && InTick(m') && |m'.dispatched| == |m.dispatched| + 1
      && Left(m') + 1 <= Left(m) + FailingIn(es)
  {
    hide Run, FailingIn, Failing, Item.Fails;
    FailingFirst(m.pending);
    ReactionsAdd(m.Step(Dispatch), es);
  }

  /** After n turns: every turn has dispatched one event, and used up one of what was left. */
  lemma {:induction false} TurnsUseUp(m: Manager, reactions: nat -> seq<Event>, n: nat)
    requires InTick(m) && OnlyReact(reactions)
    ensures var m' := Looped(m, reactions, n);
      && InTick(m') && |m.dispatched| <= |m'.dispatched|
      && |m'.dispatched| - |m.dispatched| + Left(m') <= Left(m) + FailingPublished(m, reactions, n)
      && (m'.GoesOn() ==> |m'.dispatched| == |m.dispatched| + n)
  {
    if n > 0 {
      hide Left, InTick, Run, FailingIn, Manager.GoesOn, Manager.Step;
      TurnsUseUp(m, reactions, n - 1);
      var p := Looped(m, reactions, n - 1);
      if p.GoesOn() {
        TurnUsesUp(p, reactions(n - 1));
      }
    }
  }

  lemma LeftIsNatural(m: Manager)
    requires InTick(m)
    ensures Left(m) >= 0 && (m.GoesOn() ==> Left(m) >= 1)
  {
  }

  lemma {:induction false} StoppedStays(m: Manager, reactions: nat -> seq<Event>, k: nat, n: nat)
    requires !Looped(m, reactions, k).GoesOn() && k <= n
    ensures Looped(m, reactions, n) == Looped(m, reactions, k)
    ensures FailingPublished(m, reactions, n) == FailingPublished(m, reactions, k)
  {
    hide Manager.GoesOn;
    if k < n {
      StoppedStays(m, reactions, k, n - 1);
    }
  }

  lemma {:induction false} PublishedGrows(m: Manager, reactions: nat -> seq<Event>, k: nat, n: nat)
    requires k <= n
    ensures FailingPublished(m, reactions, k) <= FailingPublished(m, reactions, n)
  {
    if k < n {
      PublishedGrows(m, reactions, k, n - 1);
    }
  }

  ghost predicate Ends(m: Manager, reactions: nat -> seq<Event>) {
    exists n: nat :: !Looped(m, reactions, n).GoesOn()
  }

  ghost predicate PublishesAtMost(m: Manager, reactions: nat -> seq<Event>, bound: nat) {
    forall n: nat :: FailingPublished(m, reactions, n) <= bound
  }

  /** A tick whose handlers publish at most `bound` failing events ends within this many turns. */
  lemma TickEndsWithin(m: Manager, reactions: nat -> seq<Event>, bound: nat)
    requires InTick(m) && OnlyReact(reactions) && PublishesAtMost(m, reactions, bound)
    ensures !Looped(m, reactions, MAX_PER_CYCLE - m.processed.value + Failing(m.pending) + bound).GoesOn()
  {
    hide Manager.GoesOn, Looped, FailingPublished, Failing;
    var n := MAX_PER_CYCLE - m.processed.value + Failing(m.pending) + bound;
    TurnsUseUp(m, reactions, n);
    LeftIsNatural(Looped(m, reactions, n));
  }

  /** When a tick ends: exactly when its handlers publish only so many failing events. */
  lemma TickEndsIff(m: Manager, reactions: nat -> seq<Event>)
    requires InTick(m) && OnlyReact(reactions)
    ensures Ends(m, reactions) <==> exists bound: nat :: PublishesAtMost(m, reactions, bound)
  {
    hide Manager.GoesOn, Looped, FailingPublished, Failing;
    if bound: nat :| PublishesAtMost(m, reactions, bound) {
      TickEndsWithin(m, reactions, bound);
    }
    if Ends(m, reactions) {
      var k: nat :| !Looped(m, reactions, k).GoesOn();
      forall n: nat ensures FailingPublished(m, reactions, n) <= FailingPublished(m, reactions, k) {
        if k <= n {
          StoppedStays(m, reactions, k, n);
        } else {
          PublishedGrows(m, reactions, n, k);
        }
      }
      assert PublishesAtMost(m, reactions, FailingPublished(m, reactions, k));
    }
  }

  function FailingAlert(): Event {
    Publish(5, SystemAlert, Dict(Absent, NotText))
  }

  /** Handlers that answer each event with another failing one. */
  function Answering(k: nat): seq<Event> {
    [FailingAlert()]
  }

  ghost predicate OneFailingLeft(m: Manager) {
    m.processed == Some(0) && |m.pending| == 1 && m.pending[0].Fails()
  }

  lemma AnswerKeepsOne(m: Manager)
    requires OneFailingLeft(m)
    ensures m.GoesOn() && OneFailingLeft(Run(m.Step(Dispatch), [FailingAlert()]))
  {
    assert m.Step(Dispatch).pending == [];
    assert [FailingAlert()][..0] == [];
  }

  lemma {:induction false} AlwaysOneLeft(m: Manager, n: nat)
    requires OneFailingLeft(m)
    ensures OneFailingLeft(Looped(m, Answering, n))
  {
    hide OneFailingLeft, Run, FailingAlert;
    if n > 0 {
      AlwaysOneLeft(m, n - 1);
      AnswerKeepsOne(Looped(m, Answering, n - 1));
    }
  }

  /** A tick that does not end: its one event is an alert whose message is not a text, and a handler
      answers each such alert with another. */
  lemma TickNeedNotEnd()
    ensures var m := START.Step(FailingAlert()).Step(TickStart);
      InTick(m) && OnlyReact(Answering) && !Ends(m, Answering)
  {
    var m := START.Step(FailingAlert()).Step(TickStart);
    assert OneFailingLeft(m);
    forall n: nat ensures Looped(m, Answering, n).GoesOn() {
      AlwaysOneLeft(m, n);
    }
  }

  lemma {:induction false} TurnsCount(m: Manager, reactions: nat -> seq<Event>, n: nat)
    requires InTick(m) && OnlyReact(reactions)
    ensures var l := Looped(m, reactions, n);
      && InTick(l) && m.dispatched <= l.dispatched && |l.dispatched| <= |m.dispatched| + n
      && l.processed.value == m.processed.value + Successes(l.dispatched[|m.dispatched|..])
  {
    if n == 0 {
      NoneYet(m.dispatched);
    } else {
      hide Run, Successes, Failing, Item.Fails;
      TurnsCount(m, reactions, n - 1);
      var p := Looped(m, reactions, n - 1);
      if p.GoesOn() {
        SuccessCounts(p.dispatched, |m.dispatched|, p.pending[0]);
        ReactionsAdd(p.Step(Dispatch), reactions(n - 1));
      }
    }
  }

  /** When a tick takes more than 20 events, whatever its handlers do: exactly when one of its first 20
      fails and something is pending after them. */
  lemma TickExceedsIff(m: Manager, reactions: nat -> seq<Event>)
    requires m.processed == Some(0) && OnlyReact(reactions)
    ensures var l := Looped(m, reactions, MAX_PER_CYCLE);
      && m.dispatched <= l.dispatched
      && ((exists n: nat :: |Looped(m, reactions, n).dispatched| > |m.dispatched| + MAX_PER_CYCLE)
          <==> l.pending != [] && Failing(l.dispatched[|m.dispatched|..]) > 0)
  {
    hide Run, Successes, Failing, Looped;
    var l, d := Looped(m, reactions, MAX_PER_CYCLE), |m.dispatched|;
    TurnsCount(m, reactions, MAX_PER_CYCLE);
    TurnsUseUp(m, reactions, MAX_PER_CYCLE);
    SucceedOrFail(l.dispatched[d..]);
    if l.GoesOn() {
      OneTurn(m, reactions, MAX_PER_CYCLE);
      assert |Looped(m, reactions, MAX_PER_CYCLE + 1).dispatched| > d + MAX_PER_CYCLE;
    }
    if n: nat :| |Looped(m, reactions, n).dispatched| > d + MAX_PER_CYCLE {
      TurnsCount(m, reactions, n);
      if !l.GoesOn() {
        StoppedStays(m, reactions, MAX_PER_CYCLE, n);
      }
    }
  }

  lemma OneTurn(m: Manager, reactions: nat -> seq<Event>, n: nat)
    requires InTick(m) && OnlyReact(reactions) && Looped(m, reactions, n).GoesOn()
    ensures |Looped(m, reactions, n + 1).dispatched| == |Looped(m, reactions, n).dispatched| + 1
  {
    hide Run, Left;
    TurnsCount(m, reactions, n);
    TurnUsesUp(Looped(m, reactions, n), reactions(n));
  }

  // ---- the loop as a run ----

  function TickEvents(m: Manager, reactions: nat -> seq<Event>, n: nat): seq<Event> {
    if n == 0 then []
    else
      TickEvents(m, reactions, n - 1)
      + if Looped(m, reactions, n - 1).GoesOn() then [Dispatch] + reactions(n - 1) else []
  }

  /** A tick's loop is a stretch of a run. */
  lemma {:induction false} LoopIsRun(m: Manager, reactions: nat -> seq<Event>, n: nat)
    ensures Run(m, TickEvents(m, reactions, n)) == Looped(m, reactions, n)
  {
    hide Manager.Step, Manager.GoesOn, Run;
    RunNone(m);
    if n > 0 {
      LoopIsRun(m, reactions, n - 1);
      var es, p := TickEvents(m, reactions, n - 1), Looped(m, reactions, n - 1);
      if p.GoesOn() {
        RunConcat(m, es, [Dispatch] + reactions(n - 1));
        RunFirst(p, [Dispatch] + reactions(n - 1));
        assert ([Dispatch] + reactions(n - 1))[1..] == reactions(n - 1);
      } else {
        assert es + [] == es;
      }
    }
  }

  lemma {:induction false} QuietEvents(m: Manager, reactions: nat -> seq<Event>, n: nat)
    requires forall k: nat :: reactions(k) == []
    ensures forall i :: 0 <= i < |TickEvents(m, reactions, n)| ==> TickEvents(m, reactions, n)[i].Dispatch?
  {
    hide Manager.GoesOn;
    if n > 0 {
      QuietEvents(m, reactions, n - 1);
    }
  }

  lemma {:induction false} QuietPublishesNone(m: Manager, reactions: nat -> seq<Event>, n: nat)
    requires forall k: nat :: reactions(k) == []
    ensures FailingPublished(m, reactions, n) == 0
  {
    hide Manager.GoesOn, Looped;
    if n > 0 {
      QuietPublishesNone(m, reactions, n - 1);
    }
  }

  /** Without such handlers every tick ends. */
  lemma QuietTickEnds(m: Manager, reactions: nat -> seq<Event>)
    requires InTick(m) && forall k: nat :: reactions(k) == []
    ensures OnlyReact(reactions) && Ends(m, reactions)
  {
    hide Manager.GoesOn, Looped, FailingPublished, Failing;
    forall n: nat ensures FailingPublished(m, reactions, n) <= 0 {
      QuietPublishesNone(m, reactions, n);
    }
    TickEndsWithin(m, reactions, 0);
  }

  /** A tick in which no handler touches the queue takes its first TickLength events. */
  lemma QuietTick(m: Manager, reactions: nat -> seq<Event>, n: nat)
    requires InTick(m) && (forall k: nat :: reactions(k) == []) && !Looped(m, reactions, n).GoesOn()
    ensures var m', taken := Looped(m, reactions, n), Rest(m);
      && m'.counter == m.counter && m'.pending == m.pending[taken..]
      && m'.dispatched == m.dispatched + m.pending[..taken]
  {
    hide Manager.GoesOn, Run, TickEvents, Looped;
    LoopIsRun(m, reactions, n);
    QuietEvents(m, reactions, n);
    TickAlone(m, TickEvents(m, reactions, n));
  }

  /** A tick between runs of other events, with quiet handlers: no event it leaves pending is more urgent
      than one it handed out. */
  lemma QuietTickTakesMostUrgent(es: seq<Event>, reactions: nat -> seq<Event>, n: nat)
    requires Run(START, es).processed.None? && forall k: nat :: reactions(k) == []
    requires !Looped(Run(START, es).Step(TickStart), reactions, n).GoesOn()
    ensures var m, l := Run(START, es), Looped(Run(START, es).Step(TickStart), reactions, n);
      && m.dispatched <= l.dispatched
      && forall x, y :: x in l.dispatched[|m.dispatched|..] && y in l.pending ==>
        x.priority < y.priority || (x.priority == y.priority && x.no < y.no)
  {
    hide Run, Looped, Accounted, Nos, Fifo, Rest;
    var m := Run(START, es);
    RunKeepsValid(es);
    QuietTick(m.Step(TickStart), reactions, n);
    var taken := Rest(m.Step(TickStart));
    var l := Looped(m.Step(TickStart), reactions, n);
    assert l.dispatched[|m.dispatched|..] == m.pending[..taken];
  }

  class EventManager {
    var counter: nat
    var eventQueue: seq<Item>
    ghost var processed: Option<nat>
    ghost var dispatched: seq<Item>
    ghost var cleared: seq<Item>
    ghost var begun: nat
    ghost var failing: nat
    ghost var ticks: seq<Tick>

    ghost function View(): Manager
      reads this
    {
      Manager(counter, eventQueue, processed, dispatched, cleared, begun, failing, ticks)
    }

    constructor ()
      ensures View() == START
    {
      counter, eventQueue := 0, [];
      processed, dispatched, cleared, begun, failing, ticks := None, [], [], 0, 0, [];
    }

    method Publish(priority: int, kind: Kind, data: Data)
      modifies this
      ensures View() == old(View()).Step(Event.Publish(priority, kind, data))
    {
      counter := counter + 1;
      var item := Item(priority, counter, kind, data);
      eventQueue := Put(eventQueue, item);
      failing := failing + if item.Fails() then 1 else 0;
    }

    method ClearQueue()
      modifies this
      ensures View() == old(View()).Step(Clear)
    {
      while eventQueue != []
        invariant cleared + eventQueue == old(cleared) + old(eventQueue)
        invariant View() == old(View()).(pending := eventQueue, cleared := cleared)
        decreases |eventQueue|
      {
        Reassociate(cleared, [eventQueue[0]], eventQueue[1..]);
        assert eventQueue == [eventQueue[0]] + eventQueue[1..];
        cleared := cleared + [eventQueue[0]];
        eventQueue := eventQueue[1..];
      }
    }

    /** The handlers of one event publish and clear. */
    method RunHandlers(reactions: seq<Event>)
      requires forall i :: 0 <= i < |reactions| ==> IsReaction(reactions[i])
      modifies this
      ensures View() == Run(old(View()), reactions)
    {
      hide Put;
      RunNone(View());
      for i := 0 to |reactions|
        invariant View() == Run(old(View()), reactions[..i])
      {
        assert reactions[..i + 1] == reactions[..i] + [reactions[i]];
        RunOne(old(View()), reactions[..i], reactions[i]);
        match reactions[i] {
          case Publish(priority, kind, data) => Publish(priority, kind, data);
          case Clear => ClearQueue();
          case _ =>
            assert false;
        }
      }
      assert reactions[..|reactions|] == reactions;
    }

    /** The timer's handler: hands events out in queue order until 20 dispatches have succeeded or the
        queue is empty.  The k-th event handed out makes its handlers do `reactions(k)`.  For every tick
        that ends, this is the tick of the run model. */
    method ProcessEvents(reactions: nat -> seq<Event>) returns (ghost n: nat)
      requires processed.None? && OnlyReact(reactions) && Ends(View().Step(TickStart), reactions)
      modifies this
      ensures !Looped(old(View()).Step(TickStart), reactions, n).GoesOn()
      ensures View() == Looped(old(View()).Step(TickStart), reactions, n).Step(TickEnd)
      ensures var es := TickEvents(old(View()).Step(TickStart), reactions, n);
        View() == Run(old(View()), [TickStart] + es + [TickEnd])
      ensures (forall k: nat :: reactions(k) == []) ==>
        var taken := TickLength(old(eventQueue), MAX_PER_CYCLE);
        && counter == old(counter) && eventQueue == old(eventQueue)[taken..]
        && dispatched == old(dispatched) + old(eventQueue)[..taken]
        && taken >= (if |old(eventQueue)| <= 20 then |old(eventQueue)| else 20)
    {
      hide *;
      ghost var before, start := View(), View().Step(TickStart);
      ghost var last := LastTurn(start, reactions);
      var done, k := 0, 0;
      ViewParts();
      EdgeSteps(before);
      processed, begun, failing := Some(0), |dispatched|, Failing(eventQueue);
      ViewParts();
      FirstTurn(start, reactions);
      while eventQueue != [] && done < MAX_PER_CYCLE
        invariant k <= last && processed == Some(done) && done <= MAX_PER_CYCLE
        invariant View() == Looped(start, reactions, k)
        decreases last - k
      {
        ViewParts();
        DispatchStep(View());
        NextTurn(start, reactions, k, last);
        var event := eventQueue[0];
        eventQueue := eventQueue[1..];
        dispatched, processed := dispatched + [event], Some(if event.Fails() then done else done + 1);
        ViewParts();
        RunHandlers(reactions(k));
        ViewParts();
        k := k + 1;
        if !event.Fails() {
          done := done + 1;
        }
      }
      n := k;
      ViewParts();
      EdgeSteps(View());
      LoopIsRun(start, reactions, k);
      TickRuns(before, TickEvents(start, reactions, k));
      if forall i: nat :: reactions(i) == [] {
        QuietTick(start, reactions, k);
        TickSuccesses(before.pending, MAX_PER_CYCLE);
        AtLeast(before.pending);
      }
      processed, ticks := None, ticks + [Tick(begun, |dispatched|, eventQueue == [], failing)];
      ViewParts();
    }

    lemma ViewParts()
      ensures View() == Manager(counter, eventQueue, processed, dispatched, cleared, begun, failing, ticks)
    {
    }
  }

  lemma AtLeast(q: seq<Item>)
    ensures MinInt(MAX_PER_CYCLE, |q|) == if |q| <= 20 then |q| else 20
  {
  }

  lemma EdgeSteps(m: Manager)
    ensures m.GoesOn() <==> m.processed.Some? && m.pending != [] && m.processed.value < MAX_PER_CYCLE
    ensures m.processed.None? ==>
      var m' := m.Step(TickStart);
      && m' == m.(processed := Some(0), begun := |m.dispatched|, failing := Failing(m.pending))
      && InTick(m') && Rest(m') == TickLength(m.pending, MAX_PER_CYCLE)
    ensures m.processed.Some? && !m.GoesOn() ==>
      var t := Tick(m.begun, |m.dispatched|, m.pending == [], m.failing);
      m.Step(TickEnd) == m.(processed := None, ticks := m.ticks + [t])
  {
  }

  lemma DispatchStep(m: Manager)
    requires m.processed.Some? && m.pending != [] && m.processed.value < MAX_PER_CYCLE
    ensures m.GoesOn()
    ensures var n := if m.pending[0].Fails() then m.processed.value else m.processed.value + 1;
      m.Step(Dispatch)
      == m.(pending := m.pending[1..], processed := Some(n), dispatched := m.dispatched + [m.pending[0]])
  {
  }

  lemma LastTurn(m: Manager, reactions: nat -> seq<Event>) returns (last: nat)
    requires Ends(m, reactions)
    ensures !Looped(m, reactions, last).GoesOn()
  {
    last :| !Looped(m, reactions, last).GoesOn();
  }

  lemma FirstTurn(m: Manager, reactions: nat -> seq<Event>)
    ensures Looped(m, reactions, 0) == m
  {
  }

  lemma NextTurn(m: Manager, reactions: nat -> seq<Event>, k: nat, last: nat)
    requires OnlyReact(reactions) && Looped(m, reactions, k).GoesOn() && !Looped(m, reactions, last).GoesOn()
    ensures k < last
    ensures forall i :: 0 <= i < |reactions(k)| ==> IsReaction(reactions(k)[i])
    ensures var p := Looped(m, reactions, k);
      && Looped(m, reactions, k + 1) == Run(p.Step(Dispatch), reactions(k))
      && Looped(m, reactions, k + 1).processed == p.Step(Dispatch).processed
  {
    hide Run, Failing;
    ReactionsAdd(Looped(m, reactions, k).Step(Dispatch), reactions(k));
    if last <= k {
      StoppedStays(m, reactions, last, k);
    }
  }
}

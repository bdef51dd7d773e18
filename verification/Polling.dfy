/** Cursor polling between the bot (telegram_feeder_bot.py:719-749) and the engine's feed handler
    (main_engine.py:467-486): each reply carries the server's time, and the next poll asks for what is
    newer than that.
 */
module Polling {
  import opened Util
  import opened RingBuffer

  /** A poll is `PollOk` when the bot got the reply; a failed poll changes nothing on either side. */
  datatype Event =
    | Push(id: string, pipeline: string, at: int)
    | PollOk(at: int)
    | PollFailed(at: int)

  /** One successful poll: it asked for what is newer than `since`, was answered at time `at` with
      `reply`, and the pushes accepted since the previous successful poll are those numbered [from, to). */
  datatype Round = Round(from: nat, to: nat, since: Option<int>, at: int, reply: seq<Entry>)

  function Asked(cursor: Option<int>): Cutoff {
    if cursor.None? then Unset else Aware(cursor.value)
  }

  /** Engine and bot: all accepted pushes, the bot's cursor, how many pushes had been accepted at the
      last successful poll, and the record of successful polls. */
  datatype System =
    System(capacity: nat, limit: int, history: seq<Entry>, cursor: Option<int>, mark: nat, rounds: seq<Round>)
  {
    function Buffer(): seq<Entry> {
      Latest(history, capacity)
    }

    /** The poll asks for all pipelines; the handler caps the limit at 500. */
    function Reply(): seq<Entry> {
      FilteredResult(Buffer(), Asked(cursor), MinInt(limit, 500), "")
    }

    /** How many of the newest pushes a single reply can hold. */
    function Reach(): int {
      MinInt(capacity, MinInt(limit, 500))
    }

    function Step(e: Event): System {
      match e
      case Push(id, pipeline, at) =>
        if id in IdsOf(Buffer()) || capacity == 0 then this
        else this.(history := history + [Entry(|history|, id, at, pipeline)])
      case PollOk(at) =>
        var round := Round(mark, |history|, cursor, at, Reply());
        this.(cursor := Some(at), mark := |history|, rounds := rounds + [round])
      case PollFailed(_) => this
    }
  }

  function Initial(capacity: nat, limit: int): System {
    System(capacity, limit, [], None, 0, [])
  }

  function Run(s: System, es: seq<Event>): System
    decreases |es|
  {
    if es == [] then s else Run(s, es[..|es| - 1]).Step(es[|es| - 1])
  }

  /** The engine's clock never runs back.  Readings may repeat. */
  ghost predicate Clocked(es: seq<Event>) {
    forall i, j :: 0 <= i < j < |es| ==> es[i].at <= es[j].at
  }

  ghost predicate Reachable(s: System) {
    exists es :: Clocked(es) && s == Run(Initial(s.capacity, s.limit), es)
  }

  // ---- what every run keeps ----

  ghost predicate Numbered(history: seq<Entry>) {
    forall i :: 0 <= i < |history| ==> history[i].no == i
  }

  /** `since` was read between push `from - 1` and push `from`. */
  ghost predicate Splits(history: seq<Entry>, since: Option<int>, from: nat) {
    && from <= |history|
    && (since.None? ==> from == 0)
    && forall i :: 0 <= i < |history| && since.Some? ==>
      if i < from then history[i].engineTs <= since.value else history[i].engineTs >= since.value
  }

  /** The newest of these pushes: at most `reach`, none beyond the k newest, newest first. */
  function NewestOf(history: seq<Entry>, k: nat, reach: int): seq<Entry> {
    Reversed(history)[..MinInt(MinInt(k, |history|), MaxInt(reach, 0))]
  }

  /** What a poll got when these pushes had been accepted. */
  ghost predicate IsAnswer(r: Round, history: seq<Entry>, reach: int) {
    && r.to == |history|
    && Splits(history, r.since, r.from)
    && r.reply == NewestOf(history, Passed(Reversed(history), Asked(r.since)), reach)
  }

  ghost predicate AreAnswers(rounds: seq<Round>, history: seq<Entry>, reach: int) {
    forall k :: 0 <= k < |rounds| ==>
      rounds[k].to <= |history| && IsAnswer(rounds[k], history[..rounds[k].to], reach)
  }

  /** Each poll asks from the time of the reply before it, and the gaps follow one another. */
  ghost predicate Chained(rounds: seq<Round>, cursor: Option<int>, mark: nat)
    decreases |rounds|
  {
    if rounds == [] then cursor == None && mark == 0
    else
      var last := rounds[|rounds| - 1];
      && cursor == Some(last.at) && mark == last.to && last.from <= last.to
      && Chained(rounds[..|rounds| - 1], last.since, last.from)
  }

  ghost predicate Valid(s: System) {
    && Numbered(s.history) && Sorted(s.history)
    && Splits(s.history, s.cursor, s.mark)
    && Chained(s.rounds, s.cursor, s.mark)
    && AreAnswers(s.rounds, s.history, s.Reach())
  }

  /** No stamp and no cursor lies in the future. */
  ghost predicate Timed(s: System, now: int) {
    && (forall i :: 0 <= i < |s.history| ==> s.history[i].engineTs <= now)
    && (s.cursor.Some? ==> s.cursor.value <= now)
  }

  /** A scan of a first part gets as far as it would in the whole. */
  lemma PrefixOfPart(s: seq<Entry>, n: nat, cutoff: int)
    requires n <= |s|
    ensures NewerPrefix(s[..n], cutoff) == MinInt(NewerPrefix(s, cutoff), n)
  {
    var p, q := NewerPrefix(s, cutoff), NewerPrefix(s[..n], cutoff);
    assert p < |s| ==> s[p].engineTs <= cutoff;
    assert q < n ==> s[..n][q].engineTs <= cutoff;
  }

  /** The buffer backwards is the first part of the history backwards. */
  lemma BufferIsNewest(history: seq<Entry>, capacity: nat)
    ensures Reversed(Latest(history, capacity)) == Reversed(history)[..MinInt(|history|, capacity)]
  {
  }

  /** What since() finds in the buffer, for a limit above 0. */
  lemma SinceFinds(history: seq<Entry>, capacity: nat, cursor: Option<int>, limit: nat)
    requires limit >= 1
    ensures SinceResult(Latest(history, capacity), Asked(cursor), limit)
      == NewestOf(history, Passed(Reversed(history), Asked(cursor)), MinInt(capacity, limit))
  {
    hide Reversed, Latest, NewerPrefix;
    var whole, n := Reversed(history), MinInt(|history|, capacity);
    BufferIsNewest(history, capacity);
    if cursor.Some? {
      PrefixOfPart(whole, n, cursor.value);
    }
    var k := Passed(whole, Asked(cursor));
    var found := SinceResult(Latest(history, capacity), Asked(cursor), limit);
    assert found == whole[..n][..MinInt(MinInt(k, n), limit)];
    assert found == whole[..MinInt(MinInt(k, n), limit)];
  }

  /** The reply to a poll: of what is newer than its cursor, the newest min(capacity, limit, 500). */
  lemma ReplyIsNewest(s: System)
    requires s.limit >= 1
    ensures s.Reply() == NewestOf(s.history, Passed(Reversed(s.history), Asked(s.cursor)), s.Reach())
  {
    hide SinceResult, Passed, Reversed, Latest;
    var limit, whole := MinInt(s.limit, 500), Reversed(s.history);
    var k := Passed(whole, Asked(s.cursor));
    SinceFinds(s.history, s.capacity, s.cursor, limit * 2);
    var found := NewestOf(s.history, k, MinInt(s.capacity, limit * 2));
    assert s.Reply() == SliceTo(found, limit);
    assert SliceTo(found, limit) == found[..MinInt(|found|, limit)];
  }

  lemma PushKeepsValid(s: System, e: Entry, now: int)
    requires Valid(s) && Timed(s, now) && now <= e.engineTs && e.no == |s.history|
    ensures Valid(s.(history := s.history + [e])) && Timed(s.(history := s.history + [e]), e.engineTs)
  {
    hide IsAnswer, Chained;
    forall k | 0 <= k < |s.rounds|
      ensures IsAnswer(s.rounds[k], (s.history + [e])[..s.rounds[k].to], s.Reach())
    {
      assert (s.history + [e])[..s.rounds[k].to] == s.history[..s.rounds[k].to];
    }
  }

  lemma PollKeepsValid(s: System, at: int)
    requires Valid(s) && Timed(s, at) && s.limit >= 1
    ensures Valid(s.Step(PollOk(at))) && Timed(s.Step(PollOk(at)), at)
  {
    hide NewestOf, System.Reply, Passed, Reversed, Numbered, Sorted;
    ReplyIsNewest(s);
    var s' := s.Step(PollOk(at));
    assert s'.rounds[..|s.rounds|] == s.rounds;
    assert s.history[..|s.history|] == s.history;
  }

  lemma StepKeepsValid(s: System, e: Event, now: int)
    requires s.limit >= 1 && Valid(s) && Timed(s, now) && now <= e.at
    ensures Valid(s.Step(e)) && Timed(s.Step(e), e.at)
    ensures s.Step(e).limit == s.limit && s.Step(e).capacity == s.capacity
  {
    hide Valid, System.Reply;
    match e {
      case Push(id, pipeline, at) => PushKeepsValid(s, Entry(|s.history|, id, at, pipeline), now);
      case PollOk(at) => PollKeepsValid(s, at);
      case PollFailed(_) =>
    }
  }

  lemma {:induction false} RunKeepsValid(capacity: nat, limit: int, es: seq<Event>) returns (now: int)
    requires limit >= 1 && Clocked(es)
    ensures var s := Run(Initial(capacity, limit), es);
      Valid(s) && s.limit == limit && s.capacity == capacity && Timed(s, now)
    ensures es != [] ==> now == es[|es| - 1].at
    decreases |es|
  {
    if es == [] {
      return 0;
    }
    hide Valid, System.Step;
    var n, rest := |es| - 1, es[..|es| - 1];
    now := RunKeepsValid(capacity, limit, rest);
    if rest == [] {
      now := es[n].at;
    }
    StepKeepsValid(Run(Initial(capacity, limit), rest), es[n], now);
    now := es[n].at;
  }

  lemma ReachableIsValid(s: System)
    requires Reachable(s) && s.limit >= 1
    ensures Valid(s)
  {
    hide Run, Initial, Clocked, Valid;
    var es :| Clocked(es) && s == Run(Initial(s.capacity, s.limit), es);
    var now := RunKeepsValid(s.capacity, s.limit, es);
  }

  // ---- who gets which push ----

  /** Push number `no` is in the reply. */
  ghost predicate Returned(r: Round, no: nat) {
    exists i :: 0 <= i < |r.reply| && r.reply[i].no == no
  }

  ghost predicate Newer(e: Entry, since: Option<int>) {
    since.Some? ==> e.engineTs > since.value
  }

  /** Among the k newest exactly when newer than the cursor. */
  lemma PassedIffNewer(history: seq<Entry>, since: Option<int>, no: nat)
    requires Sorted(history) && no < |history|
    ensures |history| - no <= Passed(Reversed(history), Asked(since)) <==> Newer(history[no], since)
  {
    if since.Some? {
      PassesIff(history, since.value, |history| - no);
    }
  }

  lemma NewestOfMembers(history: seq<Entry>, k: nat, reach: int, no: nat)
    requires Numbered(history) && k <= |history|
    ensures var reply := NewestOf(history, k, reach);
      && ((exists i :: 0 <= i < |reply| && reply[i].no == no)
          <==> no < |history| && |history| - no <= k && |history| - no <= reach)
      && (forall i, j :: 0 <= i < j < |reply| ==> reply[i] != reply[j])
  {
    var reply, n := NewestOf(history, k, reach), |history|;
    assert forall i :: 0 <= i < |reply| ==> reply[i].no == n - 1 - i;
    if no < n && n - no <= k && n - no <= reach {
      assert reply[n - 1 - no].no == no;
    }
  }

  lemma AnswerHolds(r: Round, history: seq<Entry>, reach: int, no: nat)
    requires Numbered(history) && Sorted(history) && IsAnswer(r, history, reach)
    ensures Returned(r, no) <==>
      r.from <= no < r.to && Newer(history[no], r.since) && r.to - no <= reach
  {
    hide NewestOf, Passed, Reversed, Sorted;
    NewestOfMembers(history, Passed(Reversed(history), Asked(r.since)), reach, no);
    if no < |history| {
      PassedIffNewer(history, r.since, no);
    }
  }

  /** What comes back is what was pushed, newest first. */
  lemma AnswersAreGenuine(r: Round, history: seq<Entry>, reach: int)
    requires Numbered(history) && IsAnswer(r, history, reach)
    ensures forall e :: e in r.reply ==> e.no < |history| && e == history[e.no]
    ensures forall i, j :: 0 <= i < j < |r.reply| ==> r.reply[i].no > r.reply[j].no
  {
    hide Passed;
    var k := Passed(Reversed(history), Asked(r.since));
    assert forall i :: 0 <= i < |r.reply| ==> r.reply[i] == history[|history| - 1 - i];
  }

  lemma {:induction false} GapsFollow(rounds: seq<Round>, cursor: Option<int>, mark: nat, j: nat, k: nat)
    requires Chained(rounds, cursor, mark) && j < |rounds| && k < |rounds|
    ensures rounds[k].from <= rounds[k].to <= mark
    ensures j < k ==> rounds[j].to <= rounds[k].from
    ensures j + 1 == k ==> rounds[k].since == Some(rounds[j].at)
    decreases |rounds|
  {
    var n, last := |rounds| - 1, rounds[|rounds| - 1];
    if k < n {
      GapsFollow(rounds[..n], last.since, last.from, MinInt(j, k), k);
    } else if j < n {
      GapsFollow(rounds[..n], last.since, last.from, j, j);
    }
  }

  /** Exactly what each successful poll returns, ties included: of the pushes accepted since the
      previous one, those stamped later than the time that one was answered, if they are among the
      newest min(capacity, limit, 500); each once, as it was pushed, newest first, and nothing else. */
  lemma PollReturnsIff(s: System, no: nat, k: nat)
    requires Reachable(s) && s.limit >= 1 && k < |s.rounds|
    ensures var r := s.rounds[k];
      && r.from <= r.to <= |s.history|
      && (Returned(r, no) <==> r.from <= no < r.to && Newer(s.history[no], r.since) && r.to - no <= s.Reach())
      && (forall i, j :: 0 <= i < j < |r.reply| ==> r.reply[i].no > r.reply[j].no)
      && (forall e :: e in r.reply ==> e.no < |s.history| && e == s.history[e.no])
  {
    hide Reachable, Returned, IsAnswer, Chained, Splits;
    ReachableIsValid(s);
    GapsFollow(s.rounds, s.cursor, s.mark, k, k);
    AnswerHolds(s.rounds[k], s.history[..s.rounds[k].to], s.Reach(), no);
    AnswersAreGenuine(s.rounds[k], s.history[..s.rounds[k].to], s.Reach());
  }

  /** No push is ever returned by two polls. */
  lemma NeverReturnedTwice(s: System, no: nat, j: nat, k: nat)
    requires Reachable(s) && s.limit >= 1 && j < k < |s.rounds|
    ensures !(Returned(s.rounds[j], no) && Returned(s.rounds[k], no))
  {
    hide Reachable, Returned, Chained;
    ReachableIsValid(s);
    GapsFollow(s.rounds, s.cursor, s.mark, j, k);
    PollReturnsIff(s, no, j);
    PollReturnsIff(s, no, k);
  }

  lemma {:induction false} GapOf(rounds: seq<Round>, cursor: Option<int>, mark: nat, no: nat) returns (k: nat)
    requires Chained(rounds, cursor, mark) && no < mark
    ensures k < |rounds| && rounds[k].from <= no < rounds[k].to
    decreases |rounds|
  {
    var n, last := |rounds| - 1, rounds[|rounds| - 1];
    if no >= last.from {
      return n;
    }
    k := GapOf(rounds[..n], last.since, last.from, no);
  }

  lemma OnlyGap(s: System, no: nat, k: nat)
    requires Reachable(s) && s.limit >= 1 && k < |s.rounds| && s.rounds[k].from <= no < s.rounds[k].to
    ensures forall j :: 0 <= j < |s.rounds| && j != k ==> !(s.rounds[j].from <= no < s.rounds[j].to)
  {
    hide Reachable, Chained;
    ReachableIsValid(s);
    forall j | 0 <= j < |s.rounds| && j != k ensures !(s.rounds[j].from <= no < s.rounds[j].to) {
      GapsFollow(s.rounds, s.cursor, s.mark, MinInt(j, k), MaxInt(j, k));
    }
  }

  /** Every push made before the last successful poll lies in the gap of exactly one poll. */
  lemma EveryPushHasItsPoll(s: System, no: nat) returns (k: nat)
    requires Reachable(s) && s.limit >= 1 && no < s.mark
    ensures k < |s.rounds|
    ensures forall j :: 0 <= j < |s.rounds| ==> (s.rounds[j].from <= no < s.rounds[j].to <==> j == k)
  {
    hide Reachable, Chained;
    ReachableIsValid(s);
    k := GapOf(s.rounds, s.cursor, s.mark, no);
    OnlyGap(s, no, k);
  }

  /** The k-th poll asked from the time the one before it was answered, and no push of its gap is
      stamped earlier: not being newer means carrying that very time. */
  lemma CursorOfPoll(s: System, k: nat)
    requires Reachable(s) && s.limit >= 1 && k < |s.rounds|
    ensures s.rounds[k].since == if k == 0 then None else Some(s.rounds[k - 1].at)
    ensures s.rounds[k].from <= s.rounds[k].to <= |s.history|
    ensures forall no :: k > 0 && s.rounds[k].from <= no < s.rounds[k].to ==>
      s.history[no].engineTs >= s.rounds[k - 1].at
  {
    hide Reachable, Chained, Sorted, Numbered;
    ReachableIsValid(s);
    if k > 0 {
      GapsFollow(s.rounds, s.cursor, s.mark, k - 1, k);
    } else {
      FirstAsksForAll(s.rounds, s.cursor, s.mark);
    }
    assert IsAnswer(s.rounds[k], s.history[..s.rounds[k].to], s.Reach());
  }

  lemma {:induction false} FirstAsksForAll(rounds: seq<Round>, cursor: Option<int>, mark: nat)
    requires Chained(rounds, cursor, mark) && rounds != []
    ensures rounds[0].since == None && rounds[0].from == 0
    decreases |rounds|
  {
    if |rounds| > 1 {
      var last := rounds[|rounds| - 1];
      FirstAsksForAll(rounds[..|rounds| - 1], last.since, last.from);
    }
  }

  /** Exactly which pushes are lost, over every run.  A push accepted in the gap before the k-th
      successful poll is returned by that poll or never; and it is lost exactly when it carries the very
      time at which the previous poll was answered, or when min(capacity, limit, 500) pushes or more
      came after it in that gap. */
  lemma ReturnedByItsPollOrNever(s: System, no: nat, k: nat)
    requires Reachable(s) && s.limit >= 1 && k < |s.rounds| && s.rounds[k].from <= no < s.rounds[k].to
    ensures no < |s.history|
    ensures forall j :: 0 <= j < |s.rounds| && j != k ==> !Returned(s.rounds[j], no)
    ensures !Returned(s.rounds[k], no) <==>
      || (k > 0 && s.history[no].engineTs == s.rounds[k - 1].at)
      || s.rounds[k].to - no > MinInt(s.capacity, MinInt(s.limit, 500))
  {
    hide Reachable, Returned, Chained;
    CursorOfPoll(s, k);
    PollReturnsIff(s, no, k);
    OnlyGap(s, no, k);
    forall j | 0 <= j < |s.rounds| && j != k ensures !Returned(s.rounds[j], no) {
      PollReturnsIff(s, no, j);
    }
  }

  /** Exactly-once polling: when at most `limit` articles (no more than 500, and no more than the
      buffer holds) are pushed between two successful polls, each of them is returned by exactly one
      poll, the later of the two, unless it carries the very time of the earlier one; then by none.
      Failed polls may lie between. */
  lemma ExactlyOnceWhenPollsKeepUp(s: System, k: nat, no: nat)
    requires Reachable(s) && 1 <= s.limit <= 500 && s.limit <= s.capacity
    requires k < |s.rounds| && s.rounds[k].from <= no < s.rounds[k].to <= s.rounds[k].from + s.limit
    ensures no < |s.history|
    ensures forall j :: 0 <= j < |s.rounds| ==>
      (Returned(s.rounds[j], no) <==> j == k && (k == 0 || s.history[no].engineTs != s.rounds[k - 1].at))
  {
    hide Reachable, Returned;
    ReturnedByItsPollOrNever(s, no, k);
  }

  function TiedEvents(): seq<Event> {
    [PollOk(5), Push("a", "", 5), Push("b", "", 6), PollOk(7)]
  }

  lemma TiedRun(capacity: nat, limit: int)
    requires capacity >= 2
    ensures var s := Run(Initial(capacity, limit), TiedEvents());
      && s.history == [Entry(0, "a", 5, ""), Entry(1, "b", 6, "")]
      && |s.rounds| == 2 && s.rounds[0].at == 5 && s.rounds[1].from == 0 && s.rounds[1].to == 2
      && s.capacity == capacity && s.limit == limit
  {
    hide System.Reply;
    var es, s0 := TiedEvents(), Initial(capacity, limit);
    var s1 := s0.Step(es[0]);
    var s2 := s1.Step(es[1]);
    var s3 := s2.Step(es[2]);
    assert es[..3][..2] == es[..2] && es[..2][..1] == es[..1] && es[..1][..0] == [];
    assert Run(s0, es[..1]) == s1;
    assert Run(s0, es[..2]) == s2;
    assert Run(s0, es[..3]) == s3;
  }

  /** A run with such a tie: a poll answered at time 5, a push at 5, a push at 6, a poll at 7.  The
      second push arrives, the first is never asked for again. */
  lemma TiedPushIsLost(capacity: nat, limit: int)
    requires capacity >= 2 && limit >= 2
    ensures var s := Run(Initial(capacity, limit), TiedEvents());
      && Clocked(TiedEvents()) && |s.history| == |s.rounds| == 2
      && !Returned(s.rounds[0], 0) && !Returned(s.rounds[1], 0)
      && Returned(s.rounds[1], 1)
  {
    hide Run, Returned;
    var s := Run(Initial(capacity, limit), TiedEvents());
    TiedRun(capacity, limit);
    assert Reachable(s);
    ReturnedByItsPollOrNever(s, 0, 1);
    ReturnedByItsPollOrNever(s, 1, 1);
  }

  // ---- the same article pushed again ----

  /** The buffer still holds an article with this id: one of the last `capacity` accepted pushes. */
  ghost predicate StillHeld(history: seq<Entry>, capacity: nat, id: string) {
    exists i :: 0 <= i < |history| && |history| - i <= capacity && history[i].id == id
  }

  /** Which pushes are accepted, and as what. */
  lemma PushAcceptedIff(s: System, id: string, pipeline: string, at: int)
    ensures var s' := s.Step(Push(id, pipeline, at));
      && (s'.history == s.history + [Entry(|s.history|, id, at, pipeline)]
          <==> s.capacity > 0 && !StillHeld(s.history, s.capacity, id))
      && (s' != s ==> s' == s.(history := s.history + [Entry(|s.history|, id, at, pipeline)]))
  {
    HeldIff(s.history, s.capacity, id);
    assert |s.history + [Entry(|s.history|, id, at, pipeline)]| > |s.history|;
  }

  /** The engine's own buffer takes exactly the pushes the run model takes. */
  method PushToBuffer(buffer: ArticleRingBuffer, s: System, id: string, pipeline: string, at: int)
    returns (r: PushResult)
    requires buffer.Valid() && buffer.history == s.history && buffer.capacity == s.capacity
    modifies buffer
    ensures buffer.Valid() && buffer.history == s.Step(Push(id, pipeline, at)).history
    ensures r == Accepted <==> s.capacity > 0 && !StillHeld(s.history, s.capacity, id)
  {
    hide ArticleRingBuffer.Valid, System.Step;
    PushAcceptedIff(s, id, pipeline, at);
    if s.capacity == 0 || StillHeld(s.history, s.capacity, id) {
      StepOfRefused(s, id, pipeline, at);
    }
    r := buffer.Push(id, pipeline, at);
  }

  lemma StepOfRefused(s: System, id: string, pipeline: string, at: int)
    requires s.capacity == 0 || StillHeld(s.history, s.capacity, id)
    ensures s.Step(Push(id, pipeline, at)) == s
  {
    HeldIff(s.history, s.capacity, id);
  }

  /** Between accepted pushes of one id there are at least `capacity` others. */
  ghost predicate FarApart(history: seq<Entry>, capacity: nat) {
    forall i, j :: 0 <= i < j < |history| && history[i].id == history[j].id ==> j - i > capacity
  }

  lemma {:induction false} RepeatsAreFarApart(capacity: nat, limit: int, es: seq<Event>)
    ensures var s := Run(Initial(capacity, limit), es);
      s.capacity == capacity && FarApart(s.history, capacity)
    decreases |es|
  {
    if es != [] {
      hide System.Step, StillHeld;
      var s, e := Run(Initial(capacity, limit), es[..|es| - 1]), es[|es| - 1];
      RepeatsAreFarApart(capacity, limit, es[..|es| - 1]);
      if e.Push? {
        PushAcceptedIff(s, e.id, e.pipeline, e.at);
        NewIsFarApart(s, e);
      } else {
        PollKeepsHistory(s, e);
      }
    }
  }

  lemma PollKeepsHistory(s: System, e: Event)
    requires !e.Push?
    ensures s.Step(e).history == s.history && s.Step(e).capacity == s.capacity
  {
  }

  lemma NewIsFarApart(s: System, e: Event)
    requires e.Push? && FarApart(s.history, s.capacity)
    ensures FarApart(s.Step(e).history, s.capacity) && s.Step(e).capacity == s.capacity
  {
    PushAcceptedIff(s, e.id, e.pipeline, e.at);
    if s.capacity == 0 || StillHeld(s.history, s.capacity, e.id) {
      StepOfRefused(s, e.id, e.pipeline, e.at);
    }
  }

  /** An article comes back more than once, in one reply or in several, only after it had left the
      buffer: its two pushes have at least `capacity` others in between. */
  lemma SameArticleTwice(s: System, j: nat, k: nat, a: nat, b: nat)
    requires Reachable(s) && s.limit >= 1 && j <= k < |s.rounds| && (j == k ==> a != b)
    requires a < |s.rounds[j].reply| && b < |s.rounds[k].reply|
    requires s.rounds[j].reply[a].id == s.rounds[k].reply[b].id
    ensures var m, n := s.rounds[j].reply[a].no, s.rounds[k].reply[b].no;
      && m < |s.history| && n < |s.history| && m != n
      && (m - n > s.capacity || n - m > s.capacity)
  {
    hide Run, Reachable;
    var m, n := s.rounds[j].reply[a].no, s.rounds[k].reply[b].no;
    PollReturnsIff(s, m, j);
    PollReturnsIff(s, n, k);
    assert s.rounds[j].reply[a] in s.rounds[j].reply && s.rounds[k].reply[b] in s.rounds[k].reply;
    if j < k {
      NeverReturnedTwice(s, m, j, k);
    }
    ReachableIsFarApart(s);
  }

  lemma ReachableIsFarApart(s: System)
    requires Reachable(s)
    ensures FarApart(s.history, s.capacity)
  {
    hide Run, Initial, Clocked;
    var es :| Clocked(es) && s == Run(Initial(s.capacity, s.limit), es);
    RepeatsAreFarApart(s.capacity, s.limit, es);
  }

  /** So an article pushed again while the buffer holds it is returned once at most: the run goes on as
      if it had not been pushed. */
  lemma HeldArticleChangesNothing(s: System, id: string, pipeline: string, at: int, i: nat)
    requires i < |s.history| && |s.history| - i <= s.capacity && s.history[i].id == id
    ensures s.Step(Push(id, pipeline, at)) == s
  {
    StepOfRefused(s, id, pipeline, at);
  }
}

/** What the delivery pipeline's checks amount to, said without the functions that make them: which titles
    pass, what becomes of an offered article, which articles are skipped and what is filled in; and that
    preparer and publisher get every article settled.
 */
module DeliveryRules {
  import opened Util
  import opened SeenWindow
  import opened Delivery

  // ---- headlines ----

  /** A run of at least two characters that are not white space begins at i. */
  ghost predicate WordStart(s: string, i: int) {
    && 0 <= i && i + 1 < |s| && !IsSpace(s[i]) && !IsSpace(s[i + 1])
    && (i == 0 || IsSpace(s[i - 1]))
  }

  /** `at` lists every place of `s` where such a run begins, in order. */
  ghost predicate WordStartsAre(s: string, at: seq<nat>) {
    && Increasing(at)
    && forall i: nat :: i in at <==> WordStart(s, i)
  }

  lemma LongWordsAppend(xs: seq<string>, ys: seq<string>)
    requires |xs| <= 1
    ensures LongWords(xs + ys) == LongWords(xs) + LongWords(ys)
  {
    if xs == [] {
      assert xs + ys == ys;
    } else {
      assert (xs + ys)[1..] == ys && xs[1..] == [];
    }
  }

  lemma OneWord(word: string) returns (at: seq<nat>)
    requires forall i :: 0 <= i < |word| ==> !IsSpace(word[i])
    ensures at == (if |word| > 1 then [0] else [])
    ensures |at| == LongWords(if word == "" then [] else [word])
    ensures WordStartsAre(word, at)
  {
    hide IsSpace;
    at := if |word| > 1 then [0] else [];
  }

  /** A word, a space and what comes behind it. */
  lemma AfterSpace(word: string, s: string, i: nat)
    requires forall i :: 0 <= i < |word| ==> !IsSpace(word[i])
    requires s != "" && IsSpace(s[0])
    ensures WordStart(word + s, i) <==>
      if i <= |word| then WordStart(word, i) else WordStart(s[1..], i - |word| - 1)
  {
    hide IsSpace;
    var all := word + s;
    assert all[|word|] == s[0];
    if i > |word| {
      if i + 1 < |all| {
        assert all[i - 1] == s[i - 1 - |word|];
        assert all[i] == s[1..][i - |word| - 1] && all[i + 1] == s[1..][i - |word|];
      }
    } else if i + 1 < |all| && i < |word| {
      assert all[i] == word[i];
      assert i > 0 ==> all[i - 1] == word[i - 1];
      assert i + 1 < |word| ==> all[i + 1] == word[i + 1];
    }
  }

  lemma WordsJoined(word: string, s: string, first: seq<nat>, rest: seq<nat>) returns (at: seq<nat>)
    requires forall i :: 0 <= i < |word| ==> !IsSpace(word[i])
    requires s != "" && IsSpace(s[0])
    requires WordStartsAre(word, first) && WordStartsAre(s[1..], rest)
    requires first == (if |word| > 1 then [0] else [])
    ensures |at| == |first| + |rest| && WordStartsAre(word + s, at)
  {
    hide IsSpace, WordStart;
    var k := |word| + 1;
    var moved := seq(|rest|, i requires 0 <= i < |rest| => rest[i] + k);
    at := first + moved;
    forall i: nat ensures i in at <==> WordStart(word + s, i) {
      AfterSpace(word, s, i);
      assert i in at <==> i in first || i in moved;
      assert i in moved <==> i >= k && i - k in rest by {
        if i >= k && i - k in rest {
          var j :| 0 <= j < |rest| && rest[j] == i - k;
          assert moved[j] == i;
        }
      }
      assert i <= |word| ==> i !in moved;
      assert i > |word| ==> i !in first;
    }
    assert forall i, j :: 0 <= i < j < |moved| ==> moved[i] < moved[j];
  }

  /** The words counted are the runs of two characters or more. */
  lemma {:induction false} WordStarts(s: string, word: string) returns (at: seq<nat>)
    requires forall i :: 0 <= i < |word| ==> !IsSpace(word[i])
    ensures |at| == LongWords(Words(s, word)) && WordStartsAre(word + s, at)
    decreases |s|
  {
    hide IsSpace, WordStartsAre;
    if s == "" {
      assert word + s == word;
      at := OneWord(word);
    } else if IsSpace(s[0]) {
      var first := OneWord(word);
      var rest := WordStarts(s[1..], "");
      assert "" + s[1..] == s[1..];
      at := WordsJoined(word, s, first, rest);
      LongWordsAppend(if word == "" then [] else [word], Words(s[1..], ""));
    } else {
      at := WordStarts(s[1..], word + [s[0]]);
      assert word + [s[0]] + s[1..] == word + s;
    }
  }

  lemma FourMembers(at: seq<nat>, i0: nat, i1: nat, i2: nat, i3: nat)
    requires Increasing(at) && i0 < i1 < i2 < i3 && i0 in at && i1 in at && i2 in at && i3 in at
    ensures |at| >= 4
  {
    var k0 :| 0 <= k0 < |at| && at[k0] == i0;
    var k1 :| 0 <= k1 < |at| && at[k1] == i1;
    var k2 :| 0 <= k2 < |at| && at[k2] == i2;
    var k3 :| 0 <= k3 < |at| && at[k3] == i3;
    assert k0 < k1 < k2 < k3;
  }

  /** Four runs of at least two characters begin in the title. */
  ghost predicate FourLongWords(title: string) {
    exists i0: nat, i1: nat, i2: nat, i3: nat :: i0 < i1 < i2 < i3
      && WordStart(title, i0) && WordStart(title, i1) && WordStart(title, i2) && WordStart(title, i3)
  }

  /** A title passes exactly when at least four runs of two or more characters begin in it. */
  lemma HeadlineIff(title: string)
    ensures IsHeadline(title) <==> FourLongWords(title)
  {
    hide WordStart, Words, LongWords;
    var at := WordStarts(title, "");
    assert "" + title == title;
    if |at| >= 4 {
      assert at[0] in at && at[1] in at && at[2] in at && at[3] in at;
      assert WordStart(title, at[0]) && WordStart(title, at[1]) && WordStart(title, at[2]) && WordStart(title, at[3]);
    }
    forall i0: nat, i1: nat, i2: nat, i3: nat | i0 < i1 < i2 < i3
      && WordStart(title, i0) && WordStart(title, i1) && WordStart(title, i2) && WordStart(title, i3)
      ensures |at| >= 4
    {
      FourMembers(at, i0, i1, i2, i3);
    }
  }

  // ---- what becomes of an offered article ----

  /** In every reachable state the answer to an article is decided by its address, title and id, and by how
      full the queue is; the last answer of the source is never given. */
  lemma OutcomeIff(w0: seq<string>, b: Bot, a: Article, c: Config)
    requires Reachable(b, w0, c)
    ensures var o := OutcomeOf(b, a, c);
      && (o.Ignored? <==> a.url == "" || a.title == "")
      && (o.AlreadySeen? <==> a.url != "" && a.title != "" && a.id in b.seen)
      && (o.ShortTitle? <==> a.url != "" && a.title != "" && a.id !in b.seen && !FourLongWords(a.title))
      && (o.Queued? ==> c.queueSize > 0 ==> |b.queue| < c.queueSize)
      && (o.QueuedDroppingOldest? ==> c.queueSize > 0 && |b.queue| == c.queueSize)
      && !o.NoRoom?
  {
    hide Reachable, IsHeadline, FourLongWords;
    RoomIsAlwaysMade(w0, b, c, a);
    HeadlineIff(a.title);
  }

  /** What each answer leaves behind.  A refused article changes nothing but the duplicate window, and that
      only when the article has an address and a title. */
  lemma OfferChanges(w0: seq<string>, b: Bot, a: Article, c: Config)
    requires Reachable(b, w0, c)
    ensures var b', o := Step(b, Receive(a), c), OutcomeOf(b, a, c);
      && (o.Ignored? ==> b' == b)
      && (o.AlreadySeen? ==> b' == b.(offers := b.offers + [a.id]))
      && (o.ShortTitle? ==> b' == b.(seen := b'.seen, offers := b.offers + [a.id]))
      && (o.Queued? || o.QueuedDroppingOldest? ==>
            && b'.arrivals == b.arrivals + [a] && b'.offers == b.offers + [a.id]
            && b'.received == b.received + 1 && b'.queue != []
            && b'.queue[|b'.queue| - 1] == Parcel(b.received, a)
            && b'.preparing == b.preparing && b'.publishQueue == b.publishQueue && b'.publishing == b.publishing
            && b'.settled == b.settled && b'.published == b.published && b'.dropped == b.dropped)
      && (o.Queued? ==> b'.queue[..|b'.queue| - 1] == b.queue && b'.evicted == b.evicted)
      && (o.QueuedDroppingOldest? ==>
            && b.queue != [] && b'.queue[..|b'.queue| - 1] == b.queue[1..]
            && b'.evicted == b.evicted + [b.queue[0]])
      && (!o.Ignored? && !o.AlreadySeen? && c.maxSeen >= 1 ==>
            b'.seen == if |b.seen| < c.maxSeen then b.seen + [a.id]
                       else (b.seen + [a.id])[|b.seen| + 1 - (c.maxSeen + 1) / 2..])
  {
    hide Reachable, IsHeadline;
    RoomIsAlwaysMade(w0, b, c, a);
  }

  // ---- over every run ----

  ghost predicate AllTaken(b: Bot) {
    forall k :: 0 <= k < |b.arrivals| ==>
      b.arrivals[k].url != "" && b.arrivals[k].title != "" && FourLongWords(b.arrivals[k].title)
  }

  lemma StepKeepsTaken(b: Bot, e: Delivery.Event, c: Config)
    requires AllTaken(b)
    ensures AllTaken(Step(b, e, c))
  {
    hide FourLongWords, IsHeadline, IsRepetition, Admit, WithThumbnail;
    if e.Receive? {
      HeadlineIff(e.article.title);
    }
  }

  lemma {:induction false} RunKeepsTaken(w0: seq<string>, es: seq<Delivery.Event>, c: Config)
    ensures AllTaken(Run(Start(w0), es, c))
    decreases |es|
  {
    if es != [] {
      hide Step, AllTaken;
      RunKeepsTaken(w0, es[..|es| - 1], c);
      StepKeepsTaken(Run(Start(w0), es[..|es| - 1], c), es[|es| - 1], c);
    }
  }

  /** Nothing without an address, without a title or with fewer than four long words is ever taken, and so
      none is ever published. */
  lemma OnlyHeadlinesArrive(w0: seq<string>, b: Bot, c: Config)
    requires Reachable(b, w0, c)
    ensures forall a :: a in b.arrivals ==> a.url != "" && a.title != "" && FourLongWords(a.title)
    ensures forall v :: v in b.settled ==>
      v.parcel.article.url != "" && v.parcel.article.title != "" && FourLongWords(v.parcel.article.title)
  {
    hide Step, FourLongWords, Increasing, Delivered, Pipeline;
    var es :| b == Run(Start(w0), es, c);
    RunKeepsTaken(w0, es, c);
    SettledInArrivalOrder(w0, b, c);
  }

  /** The summary only repeats the title: both are the same when trimmed and in lower case, or the summary
      holds the title somewhere and is fewer than 30 characters longer. */
  lemma RepetitionIff(a: Article, lower: string -> string)
    ensures var t, s := Strip(lower(a.title)), Strip(lower(Strip(a.summary)));
      IsRepetition(a, lower) <==>
        || t == s
        || (|Strip(a.summary)| < |a.title| + 30 && exists pre, post :: s == pre + t + post)
  {
    hide Contains, Strip;
    ContainsIff(Strip(lower(Strip(a.summary))), Strip(lower(a.title)));
  }

  lemma ContainsIff(s: string, t: string)
    ensures Contains(s, t) <==> exists pre, post :: s == pre + t + post
  {
    if Contains(s, t) {
      var i :| 0 <= i <= |s| - |t| && IsAt(s, t, i);
      assert s == s[..i] + t + s[i + |t|..];
    }
    forall pre: string, post: string | s == pre + t + post ensures Contains(s, t) {
      assert IsAt(s, t, |pre|);
    }
  }

  /** What the publisher decides on the article in hand: skipped exactly when its summary repeats its title,
      otherwise sent with the given success, which is counted; and nothing else changes. */
  lemma PublishDecides(b: Bot, ok: bool, c: Config)
    requires b.publishing.Some?
    ensures var b', p := Step(b, Publish(ok), c), b.publishing.value;
      var t, s := Strip(c.lower(p.article.title)), Strip(c.lower(Strip(p.article.summary)));
      var repeats := t == s
        || (|Strip(p.article.summary)| < |p.article.title| + 30 && exists pre, post :: s == pre + t + post);
      b' == b.(publishing := None,
               settled := b.settled + [if repeats then Skipped(p) else Attempted(p, ok)],
               published := b.published + if !repeats && ok then 1 else 0)
  {
    hide IsRepetition, Strip;
    RepetitionIff(b.publishing.value.article, c.lower);
  }

  function Successes(vs: seq<Verdict>): set<nat> {
    set i: nat | i < |vs| && vs[i].Attempted? && vs[i].ok
  }

  lemma {:induction false} DeliveredCounts(vs: seq<Verdict>)
    ensures Delivered(vs) == |set i: nat | i < |vs| && vs[i].Attempted? && vs[i].ok|
  {
    if vs == [] {
      assert Successes(vs) == {};
    } else {
      var n := |vs| - 1;
      DeliveredCounts(vs[..n]);
      if vs[n].Attempted? && vs[n].ok {
        assert Successes(vs) == Successes(vs[..n]) + {n};
      } else {
        assert Successes(vs) == Successes(vs[..n]);
      }
    }
  }

  /** The published counter of every reachable state is the number of articles sent with success. */
  lemma PublishedCounts(w0: seq<string>, b: Bot, c: Config)
    requires Reachable(b, w0, c)
    ensures b.published == |set i: nat | i < |b.settled| && b.settled[i].Attempted? && b.settled[i].ok|
  {
    hide Reachable, Delivered;
    SettledInArrivalOrder(w0, b, c);
    DeliveredCounts(b.settled);
  }

  /** A lookup's address is filled in where there was none, and nothing else of the article is touched; it
      then goes to the end of the publishing queue, or away when that is full. */
  lemma ForwardFillsIn(b: Bot, t: Option<string>, c: Config)
    requires b.preparing.Some?
    ensures var b', p := Step(b, PrepareForward(t), c), b.preparing.value;
      var a := p.article.(imageUrl := if p.article.imageUrl != "" || t.None? then p.article.imageUrl else t.value);
      if c.queueSize > 0 && |b.publishQueue| >= c.queueSize then
        b' == b.(preparing := None, dropped := b.dropped + [Parcel(p.no, a)])
      else b' == b.(preparing := None, publishQueue := b.publishQueue + [Parcel(p.no, a)])
  {
    hide IsHeadline;
  }

  // ---- progress ----

  /** One turn of both tasks: the publisher settles what it holds and takes the next article, the preparer
      forwards what it holds and takes the next one. */
  datatype Turn = Turn(thumbnail: Option<string>, ok: bool)

  function Turns(ts: seq<Turn>): seq<Delivery.Event> {
    if ts == [] then []
    else
      var n := |ts| - 1;
      Turns(ts[..n]) + [Publish(ts[n].ok), PublishTake, PrepareForward(ts[n].thumbnail), PrepareTake]
  }

  /** How many moves the articles on their way still have before them, at most. */
  function MovesLeft(b: Bot): nat {
    4 * |b.queue| + (if b.preparing.Some? then 3 else 0) + 2 * |b.publishQueue| + if b.publishing.Some? then 1 else 0
  }

  function AfterTurn(b: Bot, t: Turn, c: Config): Bot {
    Step(Step(Step(Step(b, Publish(t.ok), c), PublishTake, c), PrepareForward(t.thumbnail), c), PrepareTake, c)
  }

  /** Each event of a task takes a move away when there is something for it to do, and never adds one. */
  lemma TurnMoves(b: Bot, t: Turn, c: Config)
    ensures MovesLeft(AfterTurn(b, t, c)) <= MaxInt(0, MovesLeft(b) - 1)
  {
    hide IsRepetition, Full;
    var b1 := Step(b, Publish(t.ok), c);
    var b2 := Step(b1, PublishTake, c);
    var b3 := Step(b2, PrepareForward(t.thumbnail), c);
    MovesDown(b, Publish(t.ok), c);
    MovesDown(b1, PublishTake, c);
    MovesDown(b2, PrepareForward(t.thumbnail), c);
    MovesDown(b3, PrepareTake, c);
  }

  lemma MovesDown(b: Bot, e: Delivery.Event, c: Config)
    requires !e.Receive?
    ensures MovesLeft(Step(b, e, c)) <= MovesLeft(b)
    ensures e.Publish? && b.publishing.Some? ==> MovesLeft(Step(b, e, c)) < MovesLeft(b)
    ensures e.PublishTake? && b.publishing.None? && b.publishQueue != [] ==> MovesLeft(Step(b, e, c)) < MovesLeft(b)
    ensures e.PrepareForward? && b.preparing.Some? ==> MovesLeft(Step(b, e, c)) < MovesLeft(b)
    ensures e.PrepareTake? && b.preparing.None? && b.queue != [] ==> MovesLeft(Step(b, e, c)) < MovesLeft(b)
  {
    hide IsRepetition, Full;
  }

  lemma RunOneMore(b: Bot, es: seq<Delivery.Event>, e: Delivery.Event, c: Config)
    ensures Run(b, es + [e], c) == Step(Run(b, es, c), e, c)
  {
    hide Step;
    assert (es + [e])[..|es|] == es;
  }

  lemma RunOfTurn(b: Bot, es: seq<Delivery.Event>, t: Turn, c: Config)
    ensures Run(b, es + [Publish(t.ok), PublishTake, PrepareForward(t.thumbnail), PrepareTake], c)
         == AfterTurn(Run(b, es, c), t, c)
  {
    hide Step, Run;
    var e1 := es + [Publish(t.ok)];
    var e2 := e1 + [PublishTake];
    var e3 := e2 + [PrepareForward(t.thumbnail)];
    RunOneMore(b, es, Publish(t.ok), c);
    RunOneMore(b, e1, PublishTake, c);
    RunOneMore(b, e2, PrepareForward(t.thumbnail), c);
    RunOneMore(b, e3, PrepareTake, c);
    assert es + [Publish(t.ok), PublishTake, PrepareForward(t.thumbnail), PrepareTake] == e3 + [PrepareTake];
  }

  lemma {:induction false} TurnsMove(b: Bot, ts: seq<Turn>, c: Config)
    ensures MovesLeft(Run(b, Turns(ts), c)) <= MaxInt(0, MovesLeft(b) - |ts|)
  {
    hide AfterTurn, MovesLeft;
    if ts != [] {
      var n := |ts| - 1;
      TurnsMove(b, ts[..n], c);
      RunOfTurn(b, Turns(ts[..n]), ts[n], c);
      TurnMoves(Run(b, Turns(ts[..n]), c), ts[n], c);
    }
  }

  lemma {:induction false} RunAppend(b: Bot, es: seq<Delivery.Event>, fs: seq<Delivery.Event>, c: Config)
    ensures Run(Run(b, es, c), fs, c) == Run(b, es + fs, c)
    decreases |fs|
  {
    hide Step;
    if fs == [] {
      assert es + fs == es;
    } else {
      var n := |fs| - 1;
      RunAppend(b, es, fs[..n], c);
      assert (es + fs)[..|es + fs| - 1] == es + fs[..n];
    }
  }

  lemma TasksReceiveNothing(b: Bot, e: Delivery.Event, c: Config)
    requires !e.Receive?
    ensures Step(b, e, c).received == b.received && Step(b, e, c).evicted == b.evicted
  {
    hide IsRepetition, Full;
  }

  lemma TurnReceivesNothing(b: Bot, t: Turn, c: Config)
    ensures AfterTurn(b, t, c).received == b.received && AfterTurn(b, t, c).evicted == b.evicted
  {
    hide Step;
    var b1 := Step(b, Publish(t.ok), c);
    var b2 := Step(b1, PublishTake, c);
    var b3 := Step(b2, PrepareForward(t.thumbnail), c);
    TasksReceiveNothing(b, Publish(t.ok), c);
    TasksReceiveNothing(b1, PublishTake, c);
    TasksReceiveNothing(b2, PrepareForward(t.thumbnail), c);
    TasksReceiveNothing(b3, PrepareTake, c);
  }

  lemma {:induction false} TurnsReceiveNothing(b: Bot, ts: seq<Turn>, c: Config)
    ensures Run(b, Turns(ts), c).received == b.received && Run(b, Turns(ts), c).evicted == b.evicted
  {
    if ts != [] {
      hide AfterTurn;
      var n := |ts| - 1;
      TurnsReceiveNothing(b, ts[..n], c);
      RunOfTurn(b, Turns(ts[..n]), ts[n], c);
      TurnReceivesNothing(Run(b, Turns(ts[..n]), c), ts[n], c);
    }
  }

  /** Nothing stays on its way.  From any reachable state, once both tasks have had as many turns as there
      can be moves left, and whatever the lookups and the sends brought, every article received so far has
      been settled, or was evicted before or dropped. */
  lemma EveryArticleIsSettled(w0: seq<string>, b: Bot, ts: seq<Turn>, c: Config, no: nat)
    requires Reachable(b, w0, c)
    requires |ts| >= 4 * |b.queue| + 2 * |b.publishQueue| + 4
    ensures var b' := Run(b, Turns(ts), c);
      && b'.queue == b'.publishQueue == [] && b'.preparing == b'.publishing == None
      && b'.received == b.received && b'.evicted == b.evicted
      && multiset(SettledNos(b'.settled))[no] + multiset(Nos(b.evicted))[no] + multiset(Nos(b'.dropped))[no]
         == if no < b.received then 1 else 0
  {
    hide Step, Nos, SettledNos;
    var b' := Run(b, Turns(ts), c);
    TurnsMove(b, ts, c);
    TurnsReceiveNothing(b, ts, c);
    var es :| b == Run(Start(w0), es, c);
    RunAppend(Start(w0), es, Turns(ts), c);
    EachArticleInOnePlace(w0, b', c, no);
    assert Nos([]) == [];
  }
}

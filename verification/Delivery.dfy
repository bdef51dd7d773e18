/** The delivery pipeline of telegram_feeder_bot.py: what is received goes through a drop-oldest queue,
    a preparing task, a drop-newest queue and a publishing task.

    The tasks share one event loop, so everything between two awaits is atomic: each `Event` is such
    a stretch of one task, and a run is any interleaving of them.  An article carries the number
    the receive counter had when it arrived.
 */
module Delivery {
  import opened Util
  import opened SeenWindow

  datatype Article = Article(id: string, url: string, title: string, summary: string, imageUrl: string)

  datatype Parcel = Parcel(no: nat, article: Article)

  /** What the publisher did with an article. */
  datatype Verdict = Skipped(parcel: Parcel) | Attempted(parcel: Parcel, ok: bool)

  datatype Event =
    | Receive(article: Article)
    | PrepareTake
    | PrepareForward(thumbnail: Option<string>)
    | PublishTake
    | Publish(ok: bool)

  datatype Outcome = Ignored | AlreadySeen | ShortTitle | Queued | QueuedDroppingOldest | NoRoom

  /** Queue size limit, duplicate window size, and the platform's lower(). */
  datatype Config = Config(queueSize: int, maxSeen: nat, lower: string -> string)

  // ---- the checks made on an article ----

  /** str.split(): the maximal runs of characters that are not white space. */
  function Words(s: string, word: string): seq<string>
    decreases |s|
  {
    var done := if word == "" then [] else [word];
    if s == "" then done
    else if IsSpace(s[0]) then done + Words(s[1..], "")
    else Words(s[1..], word + [s[0]])
  }

  function LongWords(ws: seq<string>): nat {
    if ws == [] then 0 else (if |ws[0]| > 1 then 1 else 0) + LongWords(ws[1..])
  }

  /** At least four words of two characters or more. */
  predicate IsHeadline(title: string) {
    LongWords(Words(title, "")) >= 4
  }

  predicate Contains(s: string, part: string) {
    exists i :: 0 <= i <= |s| - |part| && IsAt(s, part, i)
  }

  predicate IsAt(s: string, part: string, i: nat)
    requires i + |part| <= |s|
  {
    s[i..i + |part|] == part
  }

  /** The summary only repeats the title. */
  predicate IsRepetition(a: Article, lower: string -> string) {
    var summary := Strip(a.summary);
    var t, s := Strip(lower(a.title)), Strip(lower(summary));
    t == s || (Contains(s, t) && |summary| - |a.title| < 30)
  }

  /** asyncio.Queue.full(): a limit of zero or less means no limit. */
  predicate Full<T>(q: seq<T>, size: int) {
    size > 0 && |q| >= size
  }

  // ---- the bot ----

  /** The bot's state.  `evicted`, `dropped`, `settled`, `arrivals`, `offers` and `source` are
      records of the run: what the two queues threw away, what the publisher decided, every article
      received, every id offered to the duplicate window and, per arrival, which offer it was. */
  datatype Bot = Bot(
    seen: seq<string>,
    queue: seq<Parcel>,
    preparing: Option<Parcel>,
    publishQueue: seq<Parcel>,
    publishing: Option<Parcel>,
    received: nat,
    published: nat,
    evicted: seq<Parcel>,
    dropped: seq<Parcel>,
    settled: seq<Verdict>,
    arrivals: seq<Article>,
    offers: seq<string>,
    source: seq<nat>)

  function Start(seen: seq<string>): Bot {
    Bot(seen, [], None, [], None, 0, 0, [], [], [], [], [], [])
  }

  /** What _enqueue does with an article. */
  function OutcomeOf(b: Bot, a: Article, c: Config): Outcome {
    if a.url == "" || a.title == "" then Ignored
    else if a.id in b.seen then AlreadySeen
    else if !IsHeadline(a.title) then ShortTitle
    else if !Full(b.queue, c.queueSize) then Queued
    else if b.queue != [] && !Full(b.queue[1..], c.queueSize) then QueuedDroppingOldest
    else NoRoom
  }

  function Offered(b: Bot, id: string, c: Config): Bot {
    b.(seen := Admit(b.seen, id, c.maxSeen), offers := b.offers + [id])
  }

  function Counted(b: Bot, a: Article): Bot
    requires b.offers != []
  {
    b.(received := b.received + 1, arrivals := b.arrivals + [a], source := b.source + [|b.offers| - 1])
  }

  function Received(b: Bot, a: Article, c: Config): Bot {
    var p := Parcel(b.received, a);
    var b' := Offered(b, a.id, c);
    match OutcomeOf(b, a, c)
    case Ignored => b
    case AlreadySeen => b'
    case ShortTitle => b'
    case Queued => Counted(b', a).(queue := b.queue + [p])
    case QueuedDroppingOldest => Counted(b', a).(queue := b.queue[1..] + [p], evicted := b.evicted + [b.queue[0]])
    case NoRoom => Counted(b', a).(queue := if b.queue == [] then [] else b.queue[1..])
  }

  /** A thumbnail is filled in only where there is none yet. */
  function WithThumbnail(p: Parcel, t: Option<string>): Parcel {
    if p.article.imageUrl == "" && t.Some? then p.(article := p.article.(imageUrl := t.value)) else p
  }

  function Judged(p: Parcel, ok: bool, c: Config): Verdict {
    if IsRepetition(p.article, c.lower) then Skipped(p) else Attempted(p, ok)
  }

  function Step(b: Bot, e: Event, c: Config): Bot {
    match e
    case Receive(a) => Received(b, a, c)
    case PrepareTake =>
      if b.preparing.None? && b.queue != [] then b.(preparing := Some(b.queue[0]), queue := b.queue[1..]) else b
    case PrepareForward(t) =>
      if b.preparing.None? then b
      else
        var p := WithThumbnail(b.preparing.value, t);
        if Full(b.publishQueue, c.queueSize) then b.(preparing := None, dropped := b.dropped + [p])
        else b.(preparing := None, publishQueue := b.publishQueue + [p])
    case PublishTake =>
      if b.publishing.None? && b.publishQueue != [] then
        b.(publishing := Some(b.publishQueue[0]), publishQueue := b.publishQueue[1..])
      else b
    case Publish(ok) =>
      if b.publishing.None? then b
      else
        var v := Judged(b.publishing.value, ok, c);
        var n := if v == Attempted(v.parcel, true) then 1 else 0;
        b.(publishing := None, settled := b.settled + [v], published := b.published + n)
  }

  function Run(b: Bot, es: seq<Event>, c: Config): Bot
    decreases |es|
  {
    if es == [] then b else Step(Run(b, es[..|es| - 1], c), es[|es| - 1], c)
  }

  // ---- what every step keeps ----

  function Nos(ps: seq<Parcel>): (r: seq<nat>)
    ensures |r| == |ps| && forall i :: 0 <= i < |ps| ==> r[i] == ps[i].no
  {
    Numbers(ps, (p: Parcel) => p.no)
  }

  function SettledNos(vs: seq<Verdict>): (r: seq<nat>)
    ensures |r| == |vs| && forall i :: 0 <= i < |vs| ==> r[i] == vs[i].parcel.no
  {
    Numbers(vs, (v: Verdict) => v.parcel.no)
  }

  function Held(p: Option<Parcel>): seq<nat> {
    if p.None? then [] else [p.value.no]
  }

  /** Everything still on its way or settled, the furthest first. */
  function Pipeline(b: Bot): seq<nat> {
    SettledNos(b.settled) + (Held(b.publishing) + (Nos(b.publishQueue) + (Held(b.preparing) + Nos(b.queue))))
  }

  ghost predicate Increasing(s: seq<nat>) {
    forall i, j :: 0 <= i < j < |s| ==> s[i] < s[j]
  }

  /** In arrival order, and nothing lost, duplicated or made up. */
  ghost predicate Conserved(b: Bot) {
    && Increasing(Pipeline(b))
    && multiset(Pipeline(b)) + multiset(Nos(b.evicted)) + multiset(Nos(b.dropped)) == Upto(b.received)
  }

  ghost predicate Bounded(b: Bot, c: Config) {
    c.queueSize > 0 ==> |b.queue| <= c.queueSize && |b.publishQueue| <= c.queueSize
  }

  lemma ConservedBelow(b: Bot)
    requires Conserved(b)
    ensures forall x :: x in Pipeline(b) ==> x < b.received
  {
    forall x | x in Pipeline(b) ensures x < b.received {
      assert x in multiset(Pipeline(b));
      UptoMembers(b.received, x);
    }
  }

  lemma NosAppend(ps: seq<Parcel>, p: Parcel)
    ensures Nos(ps + [p]) == Nos(ps) + [p.no]
  {
  }

  lemma NosFirst(ps: seq<Parcel>)
    requires ps != []
    ensures Nos(ps) == [ps[0].no] + Nos(ps[1..])
  {
  }

  lemma SettledAppend(vs: seq<Verdict>, v: Verdict)
    ensures SettledNos(vs + [v]) == SettledNos(vs) + [v.parcel.no]
  {
  }

  lemma Flatten(a: seq<nat>, b: seq<nat>, c: seq<nat>, d: seq<nat>, e: seq<nat>)
    ensures a + (b + (c + (d + e))) == (a + b + c) + d + e
    ensures a + (b + (c + (d + e))) == (a + b + c + d) + e
  {
  }

  lemma Hop(q: seq<nat>, x: nat, rest: seq<nat>)
    ensures q + ([x] + rest) == (q + [x]) + ([] + rest)
    ensures [] + ([x] + rest) == [x] + rest
  {
  }

  lemma DropMiddle(front: seq<nat>, x: nat, back: seq<nat>)
    requires Increasing(front + [x] + back)
    ensures Increasing(front + [] + back) && Increasing(front + back)
    ensures multiset(front + [x] + back) == multiset(front + [] + back) + multiset{x}
    ensures front + [] + back == front + back
  {
    var all := front + [x] + back;
    var rest := front + back;
    assert forall i :: 0 <= i < |rest| ==> rest[i] == all[if i < |front| then i else i + 1];
    assert front + [] + back == rest;
  }

  lemma AppendLargest(s: seq<nat>, x: nat)
    requires Increasing(s) && forall y :: y in s ==> y < x
    ensures Increasing(s + [x])
    ensures multiset(s + [x]) == multiset(s) + multiset{x}
  {
    assert forall i :: 0 <= i < |s| ==> s[i] in s;
  }

  /** Taking from a queue, forwarding and publishing move an article one place on. */
  lemma TasksKeepPipeline(b: Bot, e: Event, c: Config)
    requires e.PrepareTake? || e.PublishTake? || e.Publish?
    ensures Pipeline(Step(b, e, c)) == Pipeline(b)
  {
    hide Nos, SettledNos, IsRepetition;
    match e {
      case PrepareTake =>
        if b.queue != [] { NosFirst(b.queue); Hop([], b.queue[0].no, Nos(b.queue[1..])); }
      case PublishTake =>
        if b.publishQueue != [] {
          NosFirst(b.publishQueue);
          var rest, inner := Nos(b.publishQueue[1..]), Held(b.preparing) + Nos(b.queue);
          assert [] + (([b.publishQueue[0].no] + rest) + inner) == [b.publishQueue[0].no] + (rest + inner);
        }
      case Publish(ok) =>
        if b.publishing.Some? {
          SettledAppend(b.settled, Judged(b.publishing.value, ok, c));
          Hop(SettledNos(b.settled), b.publishing.value.no, Nos(b.publishQueue) + (Held(b.preparing) + Nos(b.queue)));
        }
    }
  }

  lemma ForwardDropConserves(b: Bot, p: Parcel)
    requires Conserved(b) && b.preparing.Some? && p.no == b.preparing.value.no
    ensures Conserved(b.(preparing := None, dropped := b.dropped + [p]))
  {
    hide Nos, SettledNos, Increasing, Upto;
    var front, back := SettledNos(b.settled) + Held(b.publishing) + Nos(b.publishQueue), Nos(b.queue);
    Flatten(SettledNos(b.settled), Held(b.publishing), Nos(b.publishQueue), [p.no], back);
    Flatten(SettledNos(b.settled), Held(b.publishing), Nos(b.publishQueue), [], back);
    DropMiddle(front, p.no, back);
    NosAppend(b.dropped, p);
  }

  lemma ForwardKeepsPipeline(b: Bot, p: Parcel)
    requires b.preparing.Some? && p.no == b.preparing.value.no
    ensures Pipeline(b.(preparing := None, publishQueue := b.publishQueue + [p])) == Pipeline(b)
  {
    hide Nos, SettledNos;
    NosAppend(b.publishQueue, p);
    Hop(Nos(b.publishQueue), p.no, Nos(b.queue));
  }

  lemma ForwardConserves(b: Bot, t: Option<string>, c: Config)
    requires Conserved(b) && b.preparing.Some?
    ensures Conserved(Step(b, PrepareForward(t), c))
  {
    hide Pipeline, Nos, SettledNos, Increasing, Upto;
    var p := WithThumbnail(b.preparing.value, t);
    ForwardDropConserves(b, p);
    ForwardKeepsPipeline(b, p);
  }

  lemma StepConserves(b: Bot, e: Event, c: Config)
    requires Conserved(b) && Bounded(b, c)
    ensures Conserved(Step(b, e, c)) && Bounded(Step(b, e, c), c)
  {
    hide Pipeline, Upto, Increasing, Nos, SettledNos, Received, IsRepetition;
    match e {
      case Receive(a) => ReceiveConserves(b, a, c);
      case PrepareForward(t) => if b.preparing.Some? { ForwardConserves(b, t, c); }
      case _ => TasksKeepPipeline(b, e, c);
    }
  }

  lemma ReceiveConserves(b: Bot, a: Article, c: Config)
    requires Conserved(b) && Bounded(b, c)
    ensures OutcomeOf(b, a, c) != NoRoom
    ensures Conserved(Received(b, a, c)) && Bounded(Received(b, a, c), c)
  {
    hide IsHeadline, Admit, Nos, SettledNos, Increasing, Upto, Pipeline;
    var b', p := Received(b, a, c), Parcel(b.received, a);
    if OutcomeOf(b, a, c).Queued? {
      Appended(b, b', p);
      Arrived(b, b', p.no);
    } else if OutcomeOf(b, a, c).QueuedDroppingOldest? {
      var kept := b.(queue := b.queue[1..], evicted := b.evicted + [b.queue[0]]);
      OldestEvicted(b, kept);
      Appended(kept, b', p);
      Arrived(kept, b', p.no);
    } else {
      assert Pipeline(b') == Pipeline(b) by { SamePipeline(b, b'); }
    }
  }

  lemma SamePipeline(b: Bot, b': Bot)
    requires b.queue == b'.queue && b'.settled == b.settled && b'.publishing == b.publishing
    requires b'.publishQueue == b.publishQueue && b'.preparing == b.preparing
    ensures Pipeline(b') == Pipeline(b)
  {
  }

  lemma Arrived(b: Bot, b': Bot, no: nat)
    requires Conserved(b) && no == b.received && b'.received == no + 1
    requires Pipeline(b') == Pipeline(b) + [no] && b'.evicted == b.evicted && b'.dropped == b.dropped
    ensures Conserved(b')
  {
    hide Nos, SettledNos, Increasing, Pipeline;
    ConservedBelow(b);
    AppendLargest(Pipeline(b), no);
  }

  lemma Appended(b: Bot, b': Bot, p: Parcel)
    requires b'.queue == b.queue + [p]
    requires b'.settled == b.settled && b'.publishing == b.publishing
    requires b'.publishQueue == b.publishQueue && b'.preparing == b.preparing
    ensures Pipeline(b') == Pipeline(b) + [p.no]
  {
    hide Nos, SettledNos;
    NosAppend(b.queue, p);
    Flatten(SettledNos(b.settled), Held(b.publishing), Nos(b.publishQueue), Held(b.preparing), Nos(b.queue));
    Flatten(SettledNos(b.settled), Held(b.publishing), Nos(b.publishQueue), Held(b.preparing), Nos(b.queue) + [p.no]);
  }

  lemma OldestEvicted(b: Bot, kept: Bot)
    requires Conserved(b) && b.queue != []
    requires kept == b.(queue := b.queue[1..], evicted := b.evicted + [b.queue[0]])
    ensures Conserved(kept)
  {
    hide Nos, SettledNos, Increasing, Upto;
    var front := SettledNos(b.settled) + Held(b.publishing) + Nos(b.publishQueue) + Held(b.preparing);
    var x, rest := b.queue[0].no, Nos(b.queue[1..]);
    NosFirst(b.queue);
    NosAppend(b.evicted, b.queue[0]);
    Flatten(SettledNos(b.settled), Held(b.publishing), Nos(b.publishQueue), Held(b.preparing), [x] + rest);
    Flatten(SettledNos(b.settled), Held(b.publishing), Nos(b.publishQueue), Held(b.preparing), rest);
    assert front + ([x] + rest) == front + [x] + rest;
    DropMiddle(front, x, rest);
  }

  // ---- whole runs ----

  /** A parcel holds the article that arrived under its number; where that came without a thumbnail, one
      may have been filled in. */
  predicate Genuine(p: Parcel, arrivals: seq<Article>) {
    && p.no < |arrivals|
    && var a := arrivals[p.no];
    p.article == if a.imageUrl == "" then a.(imageUrl := p.article.imageUrl) else a
  }

  ghost predicate AllGenuine(b: Bot) {
    && |b.arrivals| == b.received
    && (forall p :: p in b.queue || p in b.publishQueue || p in b.evicted || p in b.dropped ==> Genuine(p, b.arrivals))
    && (forall v :: v in b.settled ==> Genuine(v.parcel, b.arrivals))
    && (b.preparing.Some? ==> Genuine(b.preparing.value, b.arrivals))
    && (b.publishing.Some? ==> Genuine(b.publishing.value, b.arrivals))
  }

  lemma StepKeepsGenuine(b: Bot, e: Event, c: Config)
    requires AllGenuine(b)
    ensures AllGenuine(Step(b, e, c))
  {
    hide IsHeadline, Admit, IsRepetition, Received;
    if e.Receive? {
      ReceiveKeepsGenuine(b, e.article, c);
    } else if e.PrepareForward? && b.preparing.Some? {
      assert Genuine(WithThumbnail(b.preparing.value, e.thumbnail), b.arrivals);
    }
  }

  lemma ReceiveKeepsGenuine(b: Bot, a: Article, c: Config)
    requires AllGenuine(b)
    ensures AllGenuine(Received(b, a, c))
  {
    hide IsHeadline, Admit;
    forall p | Genuine(p, b.arrivals) ensures Genuine(p, b.arrivals + [a]) {
    }
    assert Genuine(Parcel(b.received, a), b.arrivals + [a]);
  }

  function Delivered(vs: seq<Verdict>): nat {
    if vs == [] then 0
    else
      var last := vs[|vs| - 1];
      Delivered(vs[..|vs| - 1]) + if last == Attempted(last.parcel, true) then 1 else 0
  }

  /** Only summaries that repeat the title are skipped, all of those are, and the published counter
      counts the successful attempts. */
  ghost predicate FairlyJudged(b: Bot, c: Config) {
    && (forall v :: v in b.settled ==> (v.Skipped? <==> IsRepetition(v.parcel.article, c.lower)))
    && b.published == Delivered(b.settled)
  }

  lemma ReceiveSettlesNothing(b: Bot, a: Article, c: Config)
    ensures Received(b, a, c).settled == b.settled && Received(b, a, c).published == b.published
  {
    hide IsHeadline, Admit, Full;
  }

  lemma DeliveredAppend(vs: seq<Verdict>, v: Verdict)
    ensures Delivered(vs + [v]) == Delivered(vs) + if v == Attempted(v.parcel, true) then 1 else 0
  {
    assert (vs + [v])[..|vs|] == vs;
  }

  lemma PublishKeepsJudged(b: Bot, ok: bool, c: Config)
    requires FairlyJudged(b, c)
    ensures FairlyJudged(Step(b, Publish(ok), c), c)
  {
    hide IsRepetition, Delivered;
    if b.publishing.Some? {
      var v := Judged(b.publishing.value, ok, c);
      DeliveredAppend(b.settled, v);
      assert v.Skipped? <==> IsRepetition(v.parcel.article, c.lower);
      forall w | w in b.settled + [v] ensures w.Skipped? <==> IsRepetition(w.parcel.article, c.lower) {
        assert w in b.settled || w == v;
      }
    }
  }

  lemma StepKeepsJudged(b: Bot, e: Event, c: Config)
    requires FairlyJudged(b, c)
    ensures FairlyJudged(Step(b, e, c), c)
  {
    if e.Publish? {
      PublishKeepsJudged(b, e.ok, c);
    } else {
      hide Received, IsRepetition, Delivered, Full;
      if e.Receive? {
        ReceiveSettlesNothing(b, e.article, c);
      }
    }
  }

  /** Every arrival is an accepted offer of its id, later arrivals later offers. */
  ghost predicate FromOffers(b: Bot, w0: seq<string>, c: Config) {
    && b.seen == WindowAfter(w0, b.offers, c.maxSeen)
    && |b.source| == |b.arrivals|
    && Increasing(b.source)
    && (forall k :: 0 <= k < |b.source| ==>
          && b.source[k] < |b.offers|
          && b.offers[b.source[k]] == b.arrivals[k].id
          && Accepted(w0, b.offers, c.maxSeen, b.source[k]))
  }

  lemma AcceptedStays(w0: seq<string>, offers: seq<string>, id: string, max: nat, i: nat)
    requires i < |offers|
    ensures Accepted(w0, offers + [id], max, i) == Accepted(w0, offers, max, i)
  {
    assert (offers + [id])[..i] == offers[..i];
  }

  lemma StepKeepsOffers(b: Bot, e: Event, w0: seq<string>, c: Config)
    requires FromOffers(b, w0, c)
    ensures FromOffers(Step(b, e, c), w0, c)
  {
    hide IsHeadline, Admit, IsRepetition, Accepted;
    if e.Receive? {
      ReceiveKeepsOffers(b, e.article, w0, c);
    }
  }

  /** One more offer leaves what is known of the earlier ones as it was. */
  lemma OfferKeepsOffers(b: Bot, id: string, w0: seq<string>, c: Config)
    requires FromOffers(b, w0, c)
    ensures FromOffers(Offered(b, id, c), w0, c)
  {
    hide Admit, Accepted;
    var offers := b.offers + [id];
    assert offers[..|offers| - 1] == b.offers;
    forall k | 0 <= k < |b.source|
      ensures b.source[k] < |b.offers| && Accepted(w0, offers, c.maxSeen, b.source[k])
    {
      AcceptedStays(w0, b.offers, id, c.maxSeen, b.source[k]);
    }
  }

  lemma CountingKeepsOffers(b: Bot, a: Article, w0: seq<string>, c: Config)
    requires FromOffers(b, w0, c) && a.id !in b.seen
    ensures FromOffers(Counted(Offered(b, a.id, c), a), w0, c)
  {
    OfferKeepsOffers(b, a.id, w0, c);
    var b' := Offered(b, a.id, c);
    LastAccepted(w0, b'.offers, c.maxSeen);
    assert b'.offers[..|b'.offers| - 1] == b.offers;
    hide Admit, Accepted, WindowAfter;
  }

  lemma ReceiveKeepsOffers(b: Bot, a: Article, w0: seq<string>, c: Config)
    requires FromOffers(b, w0, c)
    ensures FromOffers(Received(b, a, c), w0, c)
  {
    hide IsHeadline, FromOffers, Admit;
    var b' := Received(b, a, c);
    OfferKeepsOffers(b, a.id, w0, c);
    if OutcomeOf(b, a, c).Queued? || OutcomeOf(b, a, c).QueuedDroppingOldest? || OutcomeOf(b, a, c).NoRoom? {
      CountingKeepsOffers(b, a, w0, c);
      OnlyOffersMatter(Counted(Offered(b, a.id, c), a), b', w0, c);
    }
  }

  lemma OnlyOffersMatter(b: Bot, b': Bot, w0: seq<string>, c: Config)
    requires FromOffers(b, w0, c)
    requires b'.seen == b.seen && b'.offers == b.offers && b'.source == b.source && b'.arrivals == b.arrivals
    ensures FromOffers(b', w0, c)
  {
  }

  lemma LastAccepted(w0: seq<string>, offers: seq<string>, max: nat)
    requires offers != []
    ensures var n := |offers| - 1;
      Accepted(w0, offers, max, n) == (offers[n] !in WindowAfter(w0, offers[..n], max))
  {
  }

  ghost predicate Reachable(b: Bot, w0: seq<string>, c: Config) {
    exists es :: b == Run(Start(w0), es, c)
  }

  lemma {:induction false} RunKeepsAll(w0: seq<string>, es: seq<Event>, c: Config)
    ensures var b := Run(Start(w0), es, c);
      Conserved(b) && Bounded(b, c) && AllGenuine(b) && FromOffers(b, w0, c) && FairlyJudged(b, c)
    decreases |es|
  {
    if es != [] {
      hide Conserved, Bounded, AllGenuine, FromOffers, FairlyJudged, Step;
      var b := Run(Start(w0), es[..|es| - 1], c);
      var e := es[|es| - 1];
      RunKeepsAll(w0, es[..|es| - 1], c);
      StepConserves(b, e, c);
      StepKeepsGenuine(b, e, c);
      StepKeepsOffers(b, e, w0, c);
      StepKeepsJudged(b, e, c);
    }
  }

  /** Conservation: in every reachable state each of the articles received so far is in exactly one
      of the places an article can be. */
  lemma EachArticleInOnePlace(w0: seq<string>, b: Bot, c: Config, no: nat)
    requires Reachable(b, w0, c)
    ensures multiset(Nos(b.evicted))[no] + multiset(Nos(b.queue))[no] + multiset(Held(b.preparing))[no]
            + multiset(Nos(b.dropped))[no] + multiset(Nos(b.publishQueue))[no] + multiset(Held(b.publishing))[no]
            + multiset(SettledNos(b.settled))[no]
         == if no < b.received then 1 else 0
  {
    hide Step, Start, Conserved;
    var es :| b == Run(Start(w0), es, c);
    RunKeepsAll(w0, es, c);
    PlacesAddUp(b, no);
  }

  lemma PlacesAddUp(b: Bot, no: nat)
    requires Conserved(b)
    ensures multiset(Nos(b.evicted))[no] + multiset(Nos(b.queue))[no] + multiset(Held(b.preparing))[no]
            + multiset(Nos(b.dropped))[no] + multiset(Nos(b.publishQueue))[no] + multiset(Held(b.publishing))[no]
            + multiset(SettledNos(b.settled))[no]
         == if no < b.received then 1 else 0
  {
    hide Nos, SettledNos, Held, Increasing;
    UptoMembers(b.received, no);
  }

  /** Ordered delivery: articles are settled, and so attempted, in arrival order, and whatever is
      still on its way arrived later, the nearer to the publisher the earlier. */
  lemma SettledInArrivalOrder(w0: seq<string>, b: Bot, c: Config)
    requires Reachable(b, w0, c)
    ensures Increasing(Pipeline(b)) && Increasing(SettledNos(b.settled))
    ensures forall v :: v in b.settled ==>
      && v.parcel.no < |b.arrivals|
      && v.parcel.article == b.arrivals[v.parcel.no].(imageUrl := v.parcel.article.imageUrl)
      && (b.arrivals[v.parcel.no].imageUrl != "" ==> v.parcel.article == b.arrivals[v.parcel.no])
      && (v.Skipped? <==> IsRepetition(v.parcel.article, c.lower))
    ensures b.published == Delivered(b.settled)
  {
    hide Step, Start;
    var es :| b == Run(Start(w0), es, c);
    RunKeepsAll(w0, es, c);
    assert forall i :: 0 <= i < |b.settled| ==> Pipeline(b)[i] == SettledNos(b.settled)[i];
  }

  /** Both queues stay within their limit, and a full queue can always make room. */
  lemma RoomIsAlwaysMade(w0: seq<string>, b: Bot, c: Config, a: Article)
    requires Reachable(b, w0, c)
    ensures c.queueSize > 0 ==> |b.queue| <= c.queueSize && |b.publishQueue| <= c.queueSize
    ensures OutcomeOf(b, a, c) != NoRoom
  {
    hide Step, Start, Conserved, OutcomeOf;
    var es :| b == Run(Start(w0), es, c);
    RunKeepsAll(w0, es, c);
    ReceiveConserves(b, a, c);
  }

  /** A new article that passes the checks always joins the queue, at its end; the queue grows by one
      until it is full and then loses its oldest. */
  lemma NewArticleJoinsQueue(w0: seq<string>, b: Bot, c: Config, a: Article)
    requires Reachable(b, w0, c)
    requires a.url != "" && a.title != "" && a.id !in b.seen && IsHeadline(a.title)
    ensures var b' := Received(b, a, c);
      && b'.queue != [] && b'.queue[|b'.queue| - 1] == Parcel(b.received, a)
      && b'.queue[..|b'.queue| - 1] == (if Full(b.queue, c.queueSize) then b.queue[1..] else b.queue)
      && b'.received == b.received + 1
  {
    hide IsHeadline, Reachable;
    RoomIsAlwaysMade(w0, b, c, a);
  }

  lemma {:induction false} IncreasingSpread(s: seq<nat>, i: nat, j: nat)
    requires Increasing(s) && i <= j < |s|
    ensures s[j] - s[i] >= j - i
  {
    if i < j {
      IncreasingSpread(s, i, j - 1);
    }
  }

  /** Numbers count: behind the oldest queued article stand all the queued ones, and before the one being
      prepared all those waiting to be published. */
  lemma NumbersSpread(b: Bot)
    requires Conserved(b)
    ensures b.queue != [] ==> b.queue[0].no + |b.queue| <= b.received
    ensures b.preparing.Some? ==> b.preparing.value.no >= |b.publishQueue|
  {
    hide Upto;
    var all := Pipeline(b);
    ConservedBelow(b);
    if b.queue != [] {
      var i := |all| - |b.queue|;
      assert all[i] == b.queue[0].no;
      IncreasingSpread(all, i, |all| - 1);
      assert all[|all| - 1] in all;
    }
    if b.preparing.Some? {
      var i := |b.settled| + |Held(b.publishing)|;
      assert all[i + |b.publishQueue|] == b.preparing.value.no;
      IncreasingSpread(all, i, i + |b.publishQueue|);
    }
  }

  /** What was lost, was lost to a full queue. */
  ghost predicate LostToOverflow(b: Bot, c: Config) {
    && (forall p :: p in b.evicted ==> c.queueSize > 0 && p.no + c.queueSize < b.received)
    && (forall p :: p in b.dropped ==> 0 < c.queueSize <= p.no)
  }

  lemma StepKeepsLost(b: Bot, e: Event, c: Config)
    requires Conserved(b) && LostToOverflow(b, c)
    ensures LostToOverflow(Step(b, e, c), c)
  {
    hide Conserved, IsHeadline, Admit, IsRepetition;
    NumbersSpread(b);
  }

  lemma {:induction false} RunLosses(w0: seq<string>, es: seq<Event>, c: Config)
    ensures LostToOverflow(Run(Start(w0), es, c), c)
    decreases |es|
  {
    if es != [] {
      hide Step, LostToOverflow, Conserved;
      RunLosses(w0, es[..|es| - 1], c);
      RunKeepsAll(w0, es[..|es| - 1], c);
      StepKeepsLost(Run(Start(w0), es[..|es| - 1], c), es[|es| - 1], c);
    }
  }

  /** At the k-th event of the run the first queue was full, `p` was its oldest, and it had to go. */
  ghost predicate EvictedAt(w0: seq<string>, es: seq<Event>, c: Config, p: Parcel, k: nat) {
    && k < |es| && es[k].Receive?
    && var b := Run(Start(w0), es[..k], c);
    Full(b.queue, c.queueSize) && b.queue != [] && p == b.queue[0]
  }

  /** At the k-th event `p` was to join the second queue, and that was full of articles that were still to
      be published. */
  ghost predicate DroppedAt(w0: seq<string>, es: seq<Event>, c: Config, p: Parcel, k: nat) {
    && k < |es| && es[k].PrepareForward?
    && var b := Run(Start(w0), es[..k], c);
    b.preparing.Some? && p == WithThumbnail(b.preparing.value, es[k].thumbnail) && Full(b.publishQueue, c.queueSize)
  }

  lemma NewlyLost(b: Bot, e: Event, c: Config)
    ensures var b' := Step(b, e, c);
      && (forall p :: p in b'.evicted && p !in b.evicted ==>
            e.Receive? && Full(b.queue, c.queueSize) && b.queue != [] && p == b.queue[0])
      && (forall p :: p in b'.dropped && p !in b.dropped ==>
            e.PrepareForward? && b.preparing.Some? && p == WithThumbnail(b.preparing.value, e.thumbnail)
            && Full(b.publishQueue, c.queueSize))
  {
    hide IsHeadline, Admit, IsRepetition;
  }

  lemma {:induction false} WhenEvicted(w0: seq<string>, es: seq<Event>, c: Config, p: Parcel) returns (k: nat)
    requires p in Run(Start(w0), es, c).evicted
    ensures EvictedAt(w0, es, c, p, k)
    decreases |es|
  {
    hide Step, Full;
    var n := |es| - 1;
    var b := Run(Start(w0), es[..n], c);
    NewlyLost(b, es[n], c);
    k := n;
    if p in b.evicted {
      k := WhenEvicted(w0, es[..n], c, p);
      assert es[..n][..k] == es[..k];
    }
  }

  lemma {:induction false} WhenDropped(w0: seq<string>, es: seq<Event>, c: Config, p: Parcel) returns (k: nat)
    requires p in Run(Start(w0), es, c).dropped
    ensures DroppedAt(w0, es, c, p, k)
    decreases |es|
  {
    hide Step, Full, WithThumbnail;
    var n := |es| - 1;
    var b := Run(Start(w0), es[..n], c);
    NewlyLost(b, es[n], c);
    k := n;
    if p in b.dropped {
      k := WhenDropped(w0, es[..n], c, p);
      assert es[..n][..k] == es[..k];
    }
  }

  /** Articles are lost to overflow only, over every run.  Each one evicted was at some moment the oldest
      of a full queue, so that at least a whole queue of articles arrived after it; each one dropped found
      the second queue full of articles still to be published, so that at least as many had arrived before
      it; and nothing is ever lost with an unlimited queue, or while no more articles have arrived than a
      queue holds. */
  lemma LossOnlyByOverflow(w0: seq<string>, es: seq<Event>, c: Config)
    ensures var b := Run(Start(w0), es, c);
      && (forall p :: p in b.evicted ==> p.no + c.queueSize < b.received && exists k :: EvictedAt(w0, es, c, p, k))
      && (forall p :: p in b.dropped ==> c.queueSize <= p.no < b.received && exists k :: DroppedAt(w0, es, c, p, k))
      && (c.queueSize <= 0 || b.received <= c.queueSize ==> b.evicted == b.dropped == [])
  {
    hide Step, Start, Conserved, EvictedAt, DroppedAt;
    var b := Run(Start(w0), es, c);
    RunLosses(w0, es, c);
    forall p | p in b.evicted ensures exists k :: EvictedAt(w0, es, c, p, k) {
      var k := WhenEvicted(w0, es, c, p);
    }
    forall p | p in b.dropped ensures p.no < b.received && exists k :: DroppedAt(w0, es, c, p, k) {
      var k := WhenDropped(w0, es, c, p);
      DroppedHadArrived(w0, b, c, p);
    }
    assert b.evicted != [] ==> b.evicted[0] in b.evicted;
    assert b.dropped != [] ==> b.dropped[0] in b.dropped;
  }

  lemma DroppedHadArrived(w0: seq<string>, b: Bot, c: Config, p: Parcel)
    requires Reachable(b, w0, c) && p in b.dropped
    ensures p.no < b.received
  {
    hide Reachable;
    var i :| 0 <= i < |b.dropped| && b.dropped[i] == p;
    EachArticleInOnePlace(w0, b, c, p.no);
    assert Nos(b.dropped)[i] == p.no;
  }

  /** No early repeats: two deliveries of the same id are separated by at least Kept(maxSeen) other
      ids that the duplicate window accepted in between. */
  lemma NoEarlyRepeat(w0: seq<string>, b: Bot, c: Config, i: nat, j: nat)
    requires Reachable(b, w0, c) && c.maxSeen >= 1 && Distinct(w0) && |w0| <= c.maxSeen
    requires i < j < |b.settled| && b.settled[i].Attempted? && b.settled[j].Attempted?
    requires b.settled[i].parcel.article.id == b.settled[j].parcel.article.id
    ensures var m, n := b.settled[i].parcel.no, b.settled[j].parcel.no;
      && m < n < |b.source| && b.source[m] < b.source[n] < |b.offers|
      && |OthersBetween(w0, b.offers, c.maxSeen, b.source[m], b.source[n])| >= Kept(c.maxSeen) == (c.maxSeen + 1) / 2
  {
    hide Step, Start, Conserved, Accepted, WindowAfter;
    var es :| b == Run(Start(w0), es, c);
    RunKeepsAll(w0, es, c);
    SettledInArrivalOrder(w0, b, c);
    var p, q := b.settled[i].parcel, b.settled[j].parcel;
    assert SettledNos(b.settled)[i] == p.no && SettledNos(b.settled)[j] == q.no;
    assert b.settled[i] in b.settled && b.settled[j] in b.settled;
    assert b.arrivals[p.no].id == p.article.id && b.arrivals[q.no].id == q.article.id;
    AcceptedAgainOnlyAfterOthers(w0, b.offers, c.maxSeen, b.source[p.no], b.source[q.no]);
  }

  // ---- the object ----

  class FeederBot {
    const queueSize: int
    const lower: string -> string
    const seenIds: SeenIds
    var queue: seq<Parcel>
    var publishQueue: seq<Parcel>
    var preparing: Option<Parcel>
    var publishing: Option<Parcel>
    var articlesReceived: nat
    var articlesPublished: nat
    ghost var evicted: seq<Parcel>
    ghost var dropped: seq<Parcel>
    ghost var settled: seq<Verdict>
    ghost var arrivals: seq<Article>
    ghost var offers: seq<string>
    ghost var source: seq<nat>

    ghost function View(): Bot
      reads this, seenIds
    {
      Bot(seenIds.seen, queue, preparing, publishQueue, publishing, articlesReceived, articlesPublished,
          evicted, dropped, settled, arrivals, offers, source)
    }

    ghost function Settings(): Config {
      Config(queueSize, seenIds.max, lower)
    }

    constructor (seenIds: SeenIds, queueSize: int, lower: string -> string)
      ensures View() == Start(seenIds.seen)
      ensures this.seenIds == seenIds && this.queueSize == queueSize && this.lower == lower
    {
      this.seenIds := seenIds;
      this.queueSize := queueSize;
      this.lower := lower;
      queue, publishQueue, preparing, publishing := [], [], None, None;
      articlesReceived, articlesPublished := 0, 0;
      evicted, dropped, settled, arrivals, offers, source := [], [], [], [], [], [];
    }

    method Enqueue(article: Article) returns (outcome: Outcome)
      requires seenIds.max >= 1
      modifies this, seenIds
      ensures View() == Step(old(View()), Receive(article), Settings())
      ensures outcome == OutcomeOf(old(View()), article, Settings())
    {
      hide IsHeadline, Admit, FileAfter, InSync, Clean;
      if article.url == "" || article.title == "" {
        return Ignored;
      }
      offers := offers + [article.id];
      var isNew := seenIds.IsNew(article.id);
      if !isNew {
        return AlreadySeen;
      }
      if !IsHeadline(article.title) {
        return ShortTitle;
      }
      var parcel := Parcel(articlesReceived, article);
      articlesReceived := articlesReceived + 1;
      arrivals, source := arrivals + [article], source + [|offers| - 1];
      if !Full(queue, queueSize) {
        queue := queue + [parcel];
        return Queued;
      }
      if queue == [] {
        return NoRoom;
      }
      var oldest := queue[0];
      queue := queue[1..];
      if Full(queue, queueSize) {
        return NoRoom;
      }
      queue := queue + [parcel];
      evicted := evicted + [oldest];
      return QueuedDroppingOldest;
    }

    /** The preparing task gets its next article. */
    method TakeToPrepare()
      modifies this
      ensures View() == Step(old(View()), PrepareTake, Settings())
    {
      if preparing.None? && queue != [] {
        preparing, queue := Some(queue[0]), queue[1..];
      }
    }

    /** The thumbnail lookup has come back; the article goes on, or is dropped when there is no room. */
    method Forward(thumbnail: Option<string>)
      modifies this
      ensures View() == Step(old(View()), PrepareForward(thumbnail), Settings())
    {
      if preparing.Some? {
        var parcel := preparing.value;
        if parcel.article.imageUrl == "" && thumbnail.Some? {
          parcel := parcel.(article := parcel.article.(imageUrl := thumbnail.value));
        }
        preparing := None;
        if Full(publishQueue, queueSize) {
          dropped := dropped + [parcel];
        } else {
          publishQueue := publishQueue + [parcel];
        }
      }
    }

    /** The publishing task gets its next article. */
    method TakeToPublish()
      modifies this
      ensures View() == Step(old(View()), PublishTake, Settings())
    {
      if publishing.None? && publishQueue != [] {
        publishing, publishQueue := Some(publishQueue[0]), publishQueue[1..];
      }
    }

    /** The article in hand is skipped, or sent with the given success. */
    method PublishOne(ok: bool)
      modifies this
      ensures View() == Step(old(View()), Publish(ok), Settings())
    {
      if publishing.Some? {
        var parcel := publishing.value;
        publishing := None;
        if IsRepetition(parcel.article, lower) {
          settled := settled + [Skipped(parcel)];
        } else {
          settled := settled + [Attempted(parcel, ok)];
          if ok {
            articlesPublished := articlesPublished + 1;
          }
        }
      }
    }
  }
}

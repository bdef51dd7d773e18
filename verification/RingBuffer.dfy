/** The engine's article buffer (main_engine.py:79-146): the last `capacity` accepted pushes, with a
    set of the ids held and a scan for what is newer than a given time.
 */
module RingBuffer {
  import opened Util

  /** A buffered article: its id, the engine's time stamp, its pipeline, and the value of the push
      counter when it was accepted. */
  datatype Entry = Entry(no: nat, id: string, engineTs: int, pipeline: string)

  datatype PushResult = Accepted | Duplicate | IndexError

  /** The time a caller asks from: none that can be parsed, one with a time zone, as the buffer's own
      stamps have, or one without. */
  datatype Cutoff = Unset | Aware(time: int) | Naive(time: int)

  /** The newest `capacity` of all accepted pushes. */
  function Latest<T>(history: seq<T>, capacity: nat): (r: seq<T>)
    ensures |r| == MinInt(|history|, capacity)
  {
    if |history| <= capacity then history else history[|history| - capacity..]
  }

  function IdsOf(s: seq<Entry>): set<string> {
    set e | e in s :: e.id
  }

  ghost predicate DistinctIds(s: seq<Entry>) {
    forall i, j :: 0 <= i < j < |s| ==> s[i].id != s[j].id
  }

  function Reversed<T>(s: seq<T>): (r: seq<T>)
    ensures |r| == |s|
    ensures forall i :: 0 <= i < |s| ==> r[i] == s[|s| - 1 - i]
  {
    seq(|s|, i requires 0 <= i < |s| => s[|s| - 1 - i])
  }

  ghost predicate Sorted(s: seq<Entry>) {
    forall i, j :: 0 <= i < j < |s| ==> s[i].engineTs <= s[j].engineTs
  }

  /** Filter by time over the whole sequence. */
  function NewerThan(s: seq<Entry>, cutoff: int): seq<Entry> {
    if s == [] then []
    else (if s[0].engineTs > cutoff then [s[0]] else []) + NewerThan(s[1..], cutoff)
  }

  /** How far a scan gets that stops at the first entry that is not newer. */
  function NewerPrefix(s: seq<Entry>, cutoff: int): (k: nat)
    ensures k <= |s|
    ensures forall i :: 0 <= i < k ==> s[i].engineTs > cutoff
    ensures k < |s| ==> s[k].engineTs <= cutoff
  {
    if s == [] || s[0].engineTs <= cutoff then 0 else 1 + NewerPrefix(s[1..], cutoff)
  }

  function OfPipeline(s: seq<Entry>, pipeline: string): seq<Entry> {
    if s == [] then []
    else (if s[0].pipeline == pipeline then [s[0]] else []) + OfPipeline(s[1..], pipeline)
  }

  /** How many of the newest entries the scan would pass, were there no limit.  Comparing with a time
      that has no zone raises an error which the scan swallows, so it then passes everything. */
  function Passed(newest: seq<Entry>, cutoff: Cutoff): (k: nat)
    ensures k <= |newest|
  {
    if cutoff.Aware? then NewerPrefix(newest, cutoff.time) else |newest|
  }

  /** The result of since(): newest first.  Without a usable time stamp it is a slice, and a negative
      limit then counts from the end; with one, at least one entry is returned whatever the limit,
      because the limit is tested only after an entry has been appended. */
  function SinceResult(buffer: seq<Entry>, cutoff: Cutoff, limit: int): seq<Entry> {
    var newest := Reversed(buffer);
    if cutoff.Unset? then SliceTo(newest, limit)
    else newest[..MinInt(Passed(newest, cutoff), MaxInt(limit, 1))]
  }

  /** How many entries come back, for every kind of time and every limit; they are the newest ones, newest
      first. */
  lemma SinceReturns(buffer: seq<Entry>, cutoff: Cutoff, limit: int)
    ensures var r, n := SinceResult(buffer, cutoff, limit), |buffer|;
      && |r| <= n && (forall i :: 0 <= i < |r| ==> r[i] == buffer[n - 1 - i])
      && (cutoff.Unset? && limit >= 0 ==> |r| == if limit <= n then limit else n)
      && (cutoff.Unset? && limit < 0 ==> |r| == if n + limit >= 0 then n + limit else 0)
      && (cutoff.Naive? ==> |r| == if n == 0 then 0 else if limit <= 1 then 1 else if limit <= n then limit else n)
      && (cutoff.Aware? ==>
            && (forall i :: 0 <= i < |r| ==> r[i].engineTs > cutoff.time)
            && (|r| == n || (|r| == if limit <= 1 then 1 else limit) || buffer[n - 1 - |r|].engineTs <= cutoff.time)
            && |r| <= if limit <= 1 then 1 else limit)
  {
    var newest := Reversed(buffer);
    if cutoff.Aware? {
      var k := NewerPrefix(newest, cutoff.time);
      assert k < |newest| ==> newest[k] == buffer[|buffer| - 1 - k];
    }
  }

  lemma {:induction false} NothingNewer(s: seq<Entry>, cutoff: int)
    requires forall i :: 0 <= i < |s| ==> s[i].engineTs <= cutoff
    ensures NewerThan(s, cutoff) == []
  {
    if s != [] {
      NothingNewer(s[1..], cutoff);
    }
  }

  lemma {:induction false} ScanIsFilter(s: seq<Entry>, cutoff: int)
    requires forall i, j :: 0 <= i < j < |s| ==> s[i].engineTs >= s[j].engineTs
    ensures s[..NewerPrefix(s, cutoff)] == NewerThan(s, cutoff)
  {
    if s != [] {
      if s[0].engineTs <= cutoff {
        NothingNewer(s, cutoff);
      } else {
        ScanIsFilter(s[1..], cutoff);
        var k := NewerPrefix(s[1..], cutoff);
        assert s[..k + 1] == [s[0]] + s[1..][..k];
      }
    }
  }

  /** The early exit is sound: on a buffer filled in time order, since() is "everything newer, newest
      first, cut to the limit". */
  lemma SinceIsFilterThenLimit(buffer: seq<Entry>, cutoff: int, limit: int)
    requires Sorted(buffer) && limit >= 1
    ensures SinceResult(buffer, Aware(cutoff), limit) == SliceTo(NewerThan(Reversed(buffer), cutoff), limit)
  {
    var newest := Reversed(buffer);
    ScanIsFilter(newest, cutoff);
    var k := NewerPrefix(newest, cutoff);
    assert SliceTo(newest[..k], limit) == newest[..MinInt(k, limit)];
  }

  /** The scan passes the newest n entries exactly when the oldest of these is newer. */
  lemma PassesIff(buffer: seq<Entry>, cutoff: int, n: nat)
    requires Sorted(buffer) && 1 <= n <= |buffer|
    ensures NewerPrefix(Reversed(buffer), cutoff) >= n <==> buffer[|buffer| - n].engineTs > cutoff
  {
    var newest := Reversed(buffer);
    var k := NewerPrefix(newest, cutoff);
    assert newest[n - 1] == buffer[|buffer| - n];
    if k < n {
      assert newest[k] == buffer[|buffer| - 1 - k];
    }
  }

  /** A time without a zone filters nothing: the reply is what it would be with no time at all, and so
      it is the right one exactly when all the entries it can hold are newer. */
  lemma NaiveCutoffIsIgnored(buffer: seq<Entry>, cutoff: int, limit: int)
    requires Sorted(buffer)
    ensures limit >= 1 ==> SinceResult(buffer, Naive(cutoff), limit) == SinceResult(buffer, Unset, limit)
    ensures var n := MinInt(MaxInt(limit, 1), |buffer|);
      SinceResult(buffer, Naive(cutoff), limit) == SinceResult(buffer, Aware(cutoff), limit)
      <==> n == 0 || buffer[|buffer| - n].engineTs > cutoff
  {
    hide Sorted, Reversed, NewerPrefix;
    var newest, n := Reversed(buffer), MinInt(MaxInt(limit, 1), |buffer|);
    var k := NewerPrefix(newest, cutoff);
    assert SinceResult(buffer, Naive(cutoff), limit) == newest[..n];
    assert SinceResult(buffer, Aware(cutoff), limit) == newest[..MinInt(k, n)];
    if n > 0 {
      PassesIff(buffer, cutoff, n);
    }
    assert k < n ==> |newest[..k]| < |newest[..n]|;
  }

  /** An article stamped 1 comes back to a caller that asks, without a zone, for what is newer than 5. */
  lemma OldArticleIsReturned()
    ensures var buffer := [Entry(0, "a", 1, "")];
      SinceResult(buffer, Naive(5), 1) == buffer && SinceResult(buffer, Aware(5), 1) == []
  {
    var buffer := [Entry(0, "a", 1, "")];
    NaiveCutoffIsIgnored(buffer, 5, 1);
    assert Reversed(buffer) == buffer;
  }

  /** The result of since_filtered(): filtering happens after the scan has been cut at 2 * limit. */
  function FilteredResult(buffer: seq<Entry>, cutoff: Cutoff, limit: int, pipeline: string): seq<Entry> {
    var articles := SinceResult(buffer, cutoff, limit * 2);
    if pipeline == "" then SliceTo(articles, limit) else SliceTo(OfPipeline(articles, pipeline), limit)
  }

  lemma {:induction false} OfPipelineSelects(s: seq<Entry>, pipeline: string)
    ensures Selects(OfPipeline(s, pipeline), s, (e: Entry) => e.pipeline == pipeline)
  {
    if s == [] {
      SelectsNone((e: Entry) => e.pipeline == pipeline);
    } else {
      OfPipelineSelects(s[1..], pipeline);
      SelectsCons(OfPipeline(s[1..], pipeline), s[0], s[1..], (e: Entry) => e.pipeline == pipeline);
      assert [s[0]] + s[1..] == s;
    }
  }

  lemma {:induction false} NewerThanSelects(s: seq<Entry>, cutoff: int)
    ensures Selects(NewerThan(s, cutoff), s, (e: Entry) => e.engineTs > cutoff)
  {
    if s == [] {
      SelectsNone((e: Entry) => e.engineTs > cutoff);
    } else {
      NewerThanSelects(s[1..], cutoff);
      SelectsCons(NewerThan(s[1..], cutoff), s[0], s[1..], (e: Entry) => e.engineTs > cutoff);
      assert [s[0]] + s[1..] == s;
    }
  }

  /** What since_filtered() returns.  Without a pipeline the wider scan does not show, unless the limit is
      below 1; with one, it is the beginning of what the scan at twice the limit has of that pipeline.  A
      limit of 0 gives nothing, and a negative one counts from the end. */
  lemma FilteredReturns(buffer: seq<Entry>, cutoff: Cutoff, limit: int, pipeline: string) returns (m: seq<Entry>)
    ensures var r := FilteredResult(buffer, cutoff, limit, pipeline);
      && r <= m
      && |r| == (if limit >= |m| then |m| else if limit >= 0 then limit
                 else if |m| + limit >= 0 then |m| + limit else 0)
      && (pipeline == "" && limit >= 1 ==> r == SinceResult(buffer, cutoff, limit))
      && (pipeline == "" ==> m == SinceResult(buffer, cutoff, limit * 2))
      && (pipeline != "" ==>
            Selects(m, SinceResult(buffer, cutoff, limit * 2), (e: Entry) => e.pipeline == pipeline))
  {
    var articles := SinceResult(buffer, cutoff, limit * 2);
    m := if pipeline == "" then articles else OfPipeline(articles, pipeline);
    OfPipelineSelects(articles, pipeline);
  }

  lemma OfPipelineStep(a: seq<Entry>, b: seq<Entry>, pipeline: string)
    ensures a == [] ==> OfPipeline(a + b, pipeline) == OfPipeline(a, pipeline) + OfPipeline(b, pipeline)
    ensures a != [] ==> var head := if a[0].pipeline == pipeline then [a[0]] else [];
      && OfPipeline(a, pipeline) == head + OfPipeline(a[1..], pipeline)
      && OfPipeline(a + b, pipeline) == head + OfPipeline(a[1..] + b, pipeline)
  {
    if a == [] {
      assert a + b == b;
    } else {
      assert (a + b)[1..] == a[1..] + b;
    }
  }

  lemma {:induction false} OfPipelineConcat(a: seq<Entry>, b: seq<Entry>, pipeline: string)
    ensures OfPipeline(a + b, pipeline) == OfPipeline(a, pipeline) + OfPipeline(b, pipeline)
  {
    hide OfPipeline;
    OfPipelineStep(a, b, pipeline);
    if a != [] {
      OfPipelineConcat(a[1..], b, pipeline);
      var head := if a[0].pipeline == pipeline then [a[0]] else [];
      Reassociate(head, OfPipeline(a[1..], pipeline), OfPipeline(b, pipeline));
    }
  }

  /** Everything the scan would find, were there no limit. */
  function Found(buffer: seq<Entry>, cutoff: Cutoff): seq<Entry> {
    var newest := Reversed(buffer);
    newest[..Passed(newest, cutoff)]
  }

  /** Pipeline polls can miss articles: the reply is the newest `limit` matching articles exactly when
      the newest 2 * limit articles already hold that many matches, or no older article matches. */
  lemma FilteredIsCompleteIff(buffer: seq<Entry>, cutoff: Cutoff, limit: int, pipeline: string)
    requires limit >= 1 && pipeline != ""
    ensures var found := Found(buffer, cutoff);
      var scanned := SliceTo(found, limit * 2);
      FilteredResult(buffer, cutoff, limit, pipeline) == SliceTo(OfPipeline(found, pipeline), limit)
      <==> |OfPipeline(scanned, pipeline)| >= limit || OfPipeline(found[|scanned|..], pipeline) == []
  {
    var found := Found(buffer, cutoff);
    var scanned := SliceTo(found, limit * 2);
    assert SinceResult(buffer, cutoff, limit * 2) == scanned;
    assert found == scanned + found[|scanned|..];
    OfPipelineConcat(scanned, found[|scanned|..], pipeline);
    var m, o := OfPipeline(scanned, pipeline), OfPipeline(found[|scanned|..], pipeline);
    if |m| >= limit {
      assert SliceTo(m, limit) == SliceTo(m + o, limit);
    } else {
      assert SliceTo(m, limit) == m;
      if o == [] {
        assert m + o == m;
      } else {
        assert |SliceTo(m + o, limit)| > |m|;
      }
    }
  }

  /** On a buffer in time order what the scan finds is everything newer. */
  lemma FoundIsNewer(buffer: seq<Entry>, cutoff: int)
    requires Sorted(buffer)
    ensures Found(buffer, Aware(cutoff)) == NewerThan(Reversed(buffer), cutoff)
  {
    ScanIsFilter(Reversed(buffer), cutoff);
  }

  /** One breaking article behind two standard ones: the first poll for a breaking article, which names
      no time, finds none. */
  lemma BreakingArticleIsMissed()
    ensures var breaking := Entry(0, "a", 1, "breaking");
      var buffer := [breaking, Entry(1, "b", 2, "standard"), Entry(2, "c", 3, "standard")];
      && FilteredResult(buffer, Unset, 1, "breaking") == []
      && SliceTo(OfPipeline(Found(buffer, Unset), "breaking"), 1) == [breaking]
  {
    var a, b, c := Entry(0, "a", 1, "breaking"), Entry(1, "b", 2, "standard"), Entry(2, "c", 3, "standard");
    assert SinceResult([a, b, c], Unset, 2) == [c, b];
    assert Found([a, b, c], Unset) == [c, b, a];
    assert OfPipeline([c, b], "breaking") == OfPipeline([b], "breaking") == OfPipeline([], "breaking");
    assert OfPipeline([c, b, a], "breaking") == OfPipeline([b, a], "breaking") == OfPipeline([a], "breaking");
  }

  lemma LatestSlides<T>(history: seq<T>, x: T, capacity: nat)
    requires capacity > 0
    ensures var b := Latest(history, capacity);
      Latest(history + [x], capacity) == (if |b| >= capacity then b[1..] else b) + [x]
  {
  }

  lemma OldestForgotten(b: seq<Entry>)
    requires b != [] && DistinctIds(b)
    ensures IdsOf(b[1..]) == IdsOf(b) - {b[0].id} && DistinctIds(b[1..])
  {
    assert b == [b[0]] + b[1..];
    forall e | e in b[1..] ensures e.id != b[0].id {
      var i :| 0 <= i < |b[1..]| && b[1..][i] == e;
      assert b[i + 1] == e;
    }
  }

  lemma NewestRemembered(b: seq<Entry>, e: Entry)
    requires DistinctIds(b) && e.id !in IdsOf(b)
    ensures IdsOf(b + [e]) == IdsOf(b) + {e.id} && DistinctIds(b + [e])
  {
    forall i | 0 <= i < |b| ensures b[i].id != e.id {
      assert b[i] in b;
    }
    assert e in b + [e];
  }

  /** What the id set tells: whether one of the newest `capacity` accepted pushes carries the id. */
  lemma HeldIff(history: seq<Entry>, capacity: nat, id: string)
    ensures id in IdsOf(Latest(history, capacity))
       <==> exists i :: MaxInt(0, |history| - capacity) <= i < |history| && history[i].id == id
  {
    var held, from := Latest(history, capacity), MaxInt(0, |history| - capacity);
    if id in IdsOf(held) {
      var i :| 0 <= i < |held| && held[i].id == id;
      assert history[from + i].id == id;
    }
    if i :| from <= i < |history| && history[i].id == id {
      assert held[i - from] == history[i] && held[i - from] in held;
    }
  }

  /** What a buffer holds: the last min(n, capacity) of the n accepted pushes, no id twice, and in the id
      set exactly the ids held. */
  ghost predicate HoldsLatest(buffer: seq<Entry>, ids: set<string>, pushed: nat, history: seq<Entry>, capacity: nat) {
    && buffer == Latest(history, capacity)
    && DistinctIds(buffer)
    && ids == IdsOf(buffer)
    && pushed == |history|
    && (forall i :: 0 <= i < |history| ==> history[i].no == i)
  }

  lemma HeldIds(buffer: seq<Entry>, ids: set<string>, pushed: nat, history: seq<Entry>, capacity: nat, id: string)
    requires HoldsLatest(buffer, ids, pushed, history, capacity)
    ensures id in ids <==> exists i :: MaxInt(0, |history| - capacity) <= i < |history| && history[i].id == id
    ensures |buffer| <= capacity && pushed == |history| && (capacity == 0 ==> id !in ids)
  {
    HeldIff(history, capacity, id);
  }

  lemma PushHoldsLatest(buffer: seq<Entry>, ids: set<string>, pushed: nat, history: seq<Entry>, capacity: nat, e: Entry)
    requires HoldsLatest(buffer, ids, pushed, history, capacity)
    requires capacity > 0 && e.no == pushed && e.id !in ids
    ensures |buffer| >= capacity ==>
      buffer != [] && HoldsLatest(buffer[1..] + [e], ids - {buffer[0].id} + {e.id}, pushed + 1, history + [e], capacity)
    ensures |buffer| < capacity ==> HoldsLatest(buffer + [e], ids + {e.id}, pushed + 1, history + [e], capacity)
  {
    hide IdsOf, DistinctIds, Latest;
    LatestSlides(history, e, capacity);
    if |buffer| >= capacity {
      OldestForgotten(buffer);
      NewestRemembered(buffer[1..], e);
    } else {
      NewestRemembered(buffer, e);
    }
  }

  class ArticleRingBuffer {
    const capacity: nat
    var buffer: seq<Entry>
    var seenIds: set<string>
    var totalPushed: nat
    ghost var history: seq<Entry>

    ghost predicate Valid()
      reads this
    {
      HoldsLatest(buffer, seenIds, totalPushed, history, capacity)
    }

    constructor (capacity: nat)
      ensures Valid() && history == [] && this.capacity == capacity
    {
      this.capacity := capacity;
      buffer, seenIds, totalPushed, history := [], {}, 0, [];
    }

    /** An id that is held is refused.  Otherwise the article is appended and, at capacity, the oldest
        entry goes and its id is forgotten.  A buffer of capacity 0 has no entry to evict and fails. */
    method Push(id: string, pipeline: string, now: int) returns (r: PushResult)
      requires Valid()
      modifies this
      ensures Valid()
      ensures r == Duplicate <==>
        exists i :: MaxInt(0, |old(history)| - capacity) <= i < |old(history)| && old(history)[i].id == id
      ensures r == IndexError <==> capacity == 0
      ensures history == old(history) + if r == Accepted then [Entry(|old(history)|, id, now, pipeline)] else []
    {
      hide HoldsLatest, MaxInt;
      HeldIds(buffer, seenIds, totalPushed, history, capacity, id);
      if id in seenIds {
        return Duplicate;
      }
      var entry := Entry(totalPushed, id, now, pipeline);
      if capacity > 0 {
        PushHoldsLatest(buffer, seenIds, totalPushed, history, capacity, entry);
      }
      if |buffer| >= capacity {
        if |buffer| == 0 {
          return IndexError;
        }
        seenIds := seenIds - {buffer[0].id};
        buffer := buffer[1..];
      }
      buffer := buffer + [entry];
      seenIds := seenIds + {id};
      totalPushed := totalPushed + 1;
      history := history + [entry];
      return Accepted;
    }

    method Since(cutoff: Cutoff, limit: int) returns (results: seq<Entry>)
      ensures results == SinceResult(buffer, cutoff, limit)
    {
      var newest := Reversed(buffer);
      if cutoff.Unset? {
        return SliceTo(newest, limit);
      }
      results := [];
      var i := 0;
      while i < |newest|
        invariant 0 <= i <= Passed(newest, cutoff)
        invariant results == newest[..i] && i < MaxInt(limit, 1)
      {
        if cutoff.Aware? && newest[i].engineTs <= cutoff.time {
          break;
        }
        results := results + [newest[i]];
        i := i + 1;
        if |results| >= limit {
          break;
        }
      }
    }

    method SinceFiltered(cutoff: Cutoff, limit: int, pipeline: string) returns (results: seq<Entry>)
      ensures results == FilteredResult(buffer, cutoff, limit, pipeline)
    {
      var articles := Since(cutoff, limit * 2);
      if pipeline == "" {
        return SliceTo(articles, limit);
      }
      var matching: seq<Entry> := [];
      var i := 0;
      while i < |articles|
        invariant 0 <= i <= |articles|
        invariant matching == OfPipeline(articles[..i], pipeline)
      {
        assert articles[..i + 1] == articles[..i] + [articles[i]];
        OfPipelineConcat(articles[..i], [articles[i]], pipeline);
        if articles[i].pipeline == pipeline {
          matching := matching + [articles[i]];
        }
        i := i + 1;
      }
      assert articles[..i] == articles;
      return SliceTo(matching, limit);
    }
  }
}

/** The live feed and its archive (gui_qt/app_qt_migrated.py), without the widgets: the handlers that
    change the live articles, the archived history and the sets used to spot duplicates.
 */
module LiveFeed {
  import opened Util
  import opened Sorting
  import SeenWindow

  datatype Article = Article(id: string, url: string, title: string, timestamp: int)

  /** What the platform supplies: lower(), and the digest used for a missing id. */
  datatype Platform = Platform(lower: string -> string, digest: string -> string)

  /** `ids` is absent until the caches are first rebuilt. */
  datatype State =
    State(articles: seq<Article>, history: seq<Article>, archivedUrls: set<string>,
          urls: set<string>, titles: set<string>, ids: Option<set<string>>)

  const MAX_LIVE := 1000

  function TitleKey(title: string, p: Platform): string {
    p.lower(SeenWindow.Strip(title))
  }

  function Urls(s: seq<Article>): set<string> {
    set a | a in s && a.url != "" :: a.url
  }

  function Titles(s: seq<Article>, p: Platform): set<string> {
    set a | a in s && a.title != "" :: TitleKey(a.title, p)
  }

  function Ids(s: seq<Article>): set<string> {
    set a | a in s && a.id != "" :: a.id
  }

  // ---- the pieces the handlers share ----

  /** A missing title becomes "Untitled", a missing id the digest of address and title. */
  function Converted(a: Article, p: Platform): Article {
    var title := if a.title == "" then "Untitled" else a.title;
    a.(title := title, id := if a.id == "" then p.digest(a.url + "|" + title) else a.id)
  }

  function ConvertedAll(s: seq<Article>, p: Platform): seq<Article> {
    seq(|s|, i requires 0 <= i < |s| => Converted(s[i], p))
  }

  /** Keep the first article of each address; articles without an address are all kept. */
  function UniqueByUrl(s: seq<Article>, seen: set<string>): seq<Article> {
    if s == [] then []
    else if s[0].url != "" && s[0].url in seen then UniqueByUrl(s[1..], seen)
    else [s[0]] + UniqueByUrl(s[1..], if s[0].url == "" then seen else seen + {s[0].url})
  }

  function Timestamp(a: Article): int {
    a.timestamp
  }

  function Canonical(raw: seq<Article>, p: Platform): seq<Article> {
    SortDescending(UniqueByUrl(ConvertedAll(raw, p), {}), Timestamp)
  }

  /** Shown already, as far as the caches can tell: same address, same title, or same id. */
  predicate IsDuplicate(s: State, a: Article, p: Platform) {
    || (a.url != "" && a.url in s.urls)
    || (a.title != "" && TitleKey(a.title, p) != "" && TitleKey(a.title, p) in s.titles)
    || (a.id != "" && s.ids.Some? && a.id in s.ids.value)
  }

  function Unseen(s: State, batch: seq<Article>, p: Platform): seq<Article> {
    if batch == [] then []
    else (if IsDuplicate(s, batch[0], p) then [] else [batch[0]]) + Unseen(s, batch[1..], p)
  }

  /** The live list is replaced and the caches rebuilt from it. */
  function Shown(s: State, articles: seq<Article>, p: Platform): State {
    s.(articles := articles, urls := Urls(articles), titles := Titles(articles, p), ids := Some(Ids(articles)))
  }

  /** Move an article to the archive unless its address is empty or archived already. */
  function Archived(s: State, a: Article): State {
    if a.url == "" || a.url in s.archivedUrls then s
    else s.(archivedUrls := s.archivedUrls + {a.url}, history := s.history + [a])
  }

  function ArchivedUnlessIn(s: State, older: seq<Article>, newUrls: set<string>): State
    decreases |older|
  {
    if older == [] then s
    else ArchivedUnlessIn(if older[0].url in newUrls then s else Archived(s, older[0]), older[1..], newUrls)
  }

  function Without(s: seq<Article>, id: string, url: string): seq<Article> {
    if s == [] then []
    else (if s[0].id != id && (url == "" || s[0].url != url) then [s[0]] else []) + Without(s[1..], id, url)
  }

  function NotIn(s: seq<Article>, urls: set<string>): seq<Article> {
    if s == [] then [] else (if s[0].url in urls then [] else [s[0]]) + NotIn(s[1..], urls)
  }

  function FirstWithId(s: seq<Article>, id: string): Option<Article> {
    if s == [] then None else if s[0].id == id then Some(s[0]) else FirstWithId(s[1..], id)
  }

  // ---- the handlers ----

  /** An archive request names an article by value or by id alone. */
  datatype Payload = ByArticle(article: Article) | ById(id: string)

  datatype Target = Target(id: string, url: string)

  datatype Event =
    | Stream(article: Article, isDict: bool)
    | Region(batch: seq<Article>)
    | Fetched(raw: seq<Article>, rank: Article -> int)
    | Crawled(raw: seq<Article>)
    | Restored(raw: seq<Article>)
    | Archive(payload: Payload)
    | Launched

  /** The id and address an archive request acts on. */
  function TargetOf(s: State, payload: Payload): Target {
    match payload
    case ByArticle(a) => Target(a.id, a.url)
    case ById(id) => Target(id, match FirstWithId(s.articles, id) case Some(a) => a.url case None => "")
  }

  function ArchiveStep(s: State, payload: Payload, p: Platform): State {
    var t := TargetOf(s, payload);
    var s' := match payload
      case ByArticle(a) => Archived(s, a)
      case ById(id) => (match FirstWithId(s.articles, id) case Some(a) => Archived(s, a) case None => s);
    Shown(s', Without(s.articles, t.id, t.url), p)
  }

  function Step(s: State, e: Event, p: Platform): State {
    match e
    case Stream(raw, isDict) =>
      var a := if isDict then raw else Converted(raw, p);
      if IsDuplicate(s, a, p) then s
      else s.(articles := SliceTo([a] + s.articles, MAX_LIVE), urls := s.urls + {a.url},
              titles := if a.title == "" then s.titles else s.titles + {TitleKey(a.title, p)})
    case Region(batch) =>
      var found := Unseen(s, batch, p);
      if found == [] then s
      else s.(articles := SliceTo(found + s.articles, MAX_LIVE),
              urls := s.urls + Urls(found), titles := s.titles + Titles(found, p))
    case Fetched(raw, rank) =>
      var incoming := Canonical(raw, p);
      if incoming == [] then s
      else Shown(ArchivedUnlessIn(s, s.articles, Urls(incoming)), SortDescending(incoming, rank), p)
    case Crawled(raw) =>
      if raw == [] then s
      else
        var found := Canonical(raw, p);
        Shown(s, SliceTo(found + NotIn(s.articles, Urls(found)), MAX_LIVE), p)
    case Restored(raw) => Shown(s, Canonical(raw, p), p)
    case Archive(payload) => ArchiveStep(s, payload, p)
    case Launched => s.(articles := [])
  }

  const START := State([], [], {}, {}, {}, None)

  function Run(s: State, es: seq<Event>, p: Platform): State
    decreases |es|
  {
    if es == [] then s else Step(Run(s, es[..|es| - 1], p), es[|es| - 1], p)
  }

  // ---- what holds of the feed ----

  ghost predicate DistinctUrls(s: seq<Article>) {
    forall i, j :: 0 <= i < j < |s| && s[i].url != "" ==> s[i].url != s[j].url
  }

  /** Every live address and title is in the caches. */
  ghost predicate CachesCover(s: State, p: Platform) {
    Urls(s.articles) <= s.urls && Titles(s.articles, p) <= s.titles
  }

  ghost predicate FeedOk(s: State, p: Platform) {
    DistinctUrls(s.articles) && CachesCover(s, p)
  }

  /** The archived addresses are exactly those of the archived history, each once and none empty. */
  ghost predicate ArchiveOk(s: State) {
    && s.archivedUrls == Urls(s.history)
    && (forall a :: a in s.history ==> a.url != "")
    && DistinctUrls(s.history)
  }

  lemma UrlsOfCons(a: Article, s: seq<Article>)
    ensures Urls([a] + s) == (if a.url == "" then {} else {a.url}) + Urls(s)
  {
    var t := [a] + s;
    forall u ensures u in Urls(t) <==> u in (if a.url == "" then {} else {a.url}) + Urls(s) {
      assert a in t;
      assert forall b :: b in t <==> b == a || b in s;
    }
  }

  lemma {:induction false} UniqueHasDistinctUrls(s: seq<Article>, seen: set<string>)
    requires "" !in seen
    ensures DistinctUrls(UniqueByUrl(s, seen))
    ensures forall a :: a in UniqueByUrl(s, seen) ==> a in s && a.url !in seen
    ensures Urls(UniqueByUrl(s, seen)) == Urls(s) - seen
  {
    if s != [] {
      hide Urls;
      var next := if s[0].url == "" then seen else seen + {s[0].url};
      assert s == [s[0]] + s[1..];
      UrlsOfCons(s[0], s[1..]);
      if s[0].url != "" && s[0].url in seen {
        UniqueHasDistinctUrls(s[1..], seen);
      } else {
        UniqueHasDistinctUrls(s[1..], next);
        var rest := UniqueByUrl(s[1..], next);
        UrlsOfCons(s[0], rest);
        forall j | 0 <= j < |rest| && s[0].url != "" ensures rest[j].url != s[0].url {
          assert rest[j] in rest;
        }
      }
    } else {
      assert Urls([]) == {};
    }
  }

  lemma {:induction false} InsertKeepsUrls(x: Article, s: seq<Article>, key: Article -> int)
    requires DistinctUrls([x] + s)
    ensures DistinctUrls(InsertDescending(x, s, key))
    ensures forall a :: a in InsertDescending(x, s, key) <==> a == x || a in s
  {
    if s != [] && key(x) < key(s[0]) {
      var rest := InsertDescending(x, s[1..], key);
      assert DistinctUrls([x] + s[1..]) by {
        forall i, j | 0 <= i < j < |[x] + s[1..]| && ([x] + s[1..])[i].url != ""
          ensures ([x] + s[1..])[i].url != ([x] + s[1..])[j].url
        {
          assert ([x] + s[1..])[j] == ([x] + s)[j + 1];
          assert ([x] + s[1..])[i] == ([x] + s)[if i == 0 then 0 else i + 1];
        }
      }
      InsertKeepsUrls(x, s[1..], key);
      assert s == [s[0]] + s[1..];
      forall j | 0 <= j < |rest| && s[0].url != "" ensures rest[j].url != s[0].url {
        assert rest[j] in rest;
        if rest[j] == x {
          assert ([x] + s)[0] == x && ([x] + s)[1] == s[0];
        } else {
          var k :| 0 <= k < |s[1..]| && s[1..][k] == rest[j];
          assert ([x] + s)[1] == s[0] && ([x] + s)[k + 2] == rest[j];
        }
      }
    }
  }

  lemma {:induction false} SortKeepsUrls(s: seq<Article>, key: Article -> int)
    requires DistinctUrls(s)
    ensures DistinctUrls(SortDescending(s, key))
    ensures forall a :: a in SortDescending(s, key) <==> a in s
    ensures Urls(SortDescending(s, key)) == Urls(s)
  {
    if s != [] {
      var rest := SortDescending(s[1..], key);
      SortKeepsUrls(s[1..], key);
      assert s == [s[0]] + s[1..];
      forall j | 0 <= j < |rest| && s[0].url != "" ensures rest[j].url != s[0].url {
        assert rest[j] in s[1..];
        var k :| 0 <= k < |s[1..]| && s[1..][k] == rest[j];
        assert s[k + 1] == rest[j];
      }
      assert DistinctUrls([s[0]] + rest);
      InsertKeepsUrls(s[0], rest, key);
    }
  }

  /** A canonical list has every address of the raw one, once. */
  lemma CanonicalUrls(raw: seq<Article>, p: Platform)
    ensures DistinctUrls(Canonical(raw, p)) && Urls(Canonical(raw, p)) == Urls(raw)
    ensures var c := Canonical(raw, p); forall i, j :: 0 <= i < j < |c| ==> c[i].timestamp >= c[j].timestamp
  {
    var converted := ConvertedAll(raw, p);
    UniqueHasDistinctUrls(converted, {});
    SortKeepsUrls(UniqueByUrl(converted, {}), Timestamp);
    SortIsStablePermutation(UniqueByUrl(converted, {}), Timestamp, 0);
    forall u ensures u in Urls(converted) <==> u in Urls(raw) {
      if u in Urls(raw) {
        var i :| 0 <= i < |raw| && raw[i].url == u;
        assert converted[i] in converted && converted[i].url == u;
      }
      if u in Urls(converted) {
        var i :| 0 <= i < |converted| && converted[i].url == u;
        assert raw[i] in raw && raw[i].url == u;
      }
    }
  }

  // ---- each handler keeps the invariants ----

  lemma {:induction false} UnseenAreNew(s: State, batch: seq<Article>, p: Platform)
    ensures forall a :: a in Unseen(s, batch, p) ==> a in batch && !IsDuplicate(s, a, p)
  {
    if batch != [] {
      assert batch == [batch[0]] + batch[1..];
      UnseenAreNew(s, batch[1..], p);
    }
  }

  lemma {:induction false} NotInUrls(s: seq<Article>, urls: set<string>)
    requires DistinctUrls(s)
    ensures DistinctUrls(NotIn(s, urls))
    ensures forall a :: a in NotIn(s, urls) <==> a in s && a.url !in urls
  {
    if s != [] {
      assert s == [s[0]] + s[1..];
      NotInUrls(s[1..], urls);
      var rest := NotIn(s[1..], urls);
      forall j | 0 <= j < |rest| && s[0].url != "" ensures rest[j].url != s[0].url {
        assert rest[j] in rest;
        var k :| 0 <= k < |s[1..]| && s[1..][k] == rest[j];
        assert s[k + 1] == rest[j];
      }
    }
  }

  lemma {:induction false} WithoutUrls(s: seq<Article>, id: string, url: string)
    requires DistinctUrls(s)
    ensures DistinctUrls(Without(s, id, url))
    ensures forall a :: a in Without(s, id, url) <==> a in s && a.id != id && (url == "" || a.url != url)
  {
    if s != [] {
      assert s == [s[0]] + s[1..];
      WithoutUrls(s[1..], id, url);
      var rest := Without(s[1..], id, url);
      forall j | 0 <= j < |rest| && s[0].url != "" ensures rest[j].url != s[0].url {
        assert rest[j] in rest;
        var k :| 0 <= k < |s[1..]| && s[1..][k] == rest[j];
        assert s[k + 1] == rest[j];
      }
    }
  }

  lemma DistinctConcat(a: seq<Article>, b: seq<Article>)
    requires DistinctUrls(a) && DistinctUrls(b) && Urls(a) !! Urls(b)
    ensures DistinctUrls(a + b)
  {
    var c := a + b;
    forall i, j | 0 <= i < j < |c| && c[i].url != "" ensures c[i].url != c[j].url {
      if i < |a| <= j {
        assert c[i] in a && c[j] in b;
        assert c[i].url in Urls(a);
        assert c[j].url != "" ==> c[j].url in Urls(b);
      }
    }
  }

  lemma PrefixKeeps(s: seq<Article>, n: nat, p: Platform)
    ensures DistinctUrls(s) ==> DistinctUrls(SliceTo(s, n))
    ensures Urls(SliceTo(s, n)) <= Urls(s) && Titles(SliceTo(s, n), p) <= Titles(s, p)
  {
  }

  /** A live list that replaces the old one comes with matching caches. */
  lemma ShownIsOk(s: State, articles: seq<Article>, p: Platform)
    requires DistinctUrls(articles)
    ensures FeedOk(Shown(s, articles, p), p)
  {
  }

  /** Exactly when a batch breaks the feed: batches are checked against the caches but not against
      themselves, so the live addresses stay distinct if and only if the unseen articles that end up
      live have distinct addresses. */
  lemma RegionKeepsDistinctIff(s: State, batch: seq<Article>, p: Platform)
    requires FeedOk(s, p)
    ensures FeedOk(Step(s, Region(batch), p), p) <==> DistinctUrls(SliceTo(Unseen(s, batch, p), MAX_LIVE))
    ensures CachesCover(Step(s, Region(batch), p), p)
  {
    var found := Unseen(s, batch, p);
    NewUrlsAreUnseen(s, batch, p);
    hide Unseen, TitleKey, Urls, Titles;
    if found == [] {
      assert SliceTo(found, MAX_LIVE) == [];
    } else {
      var live := found + s.articles;
      UrlsOfConcat(found, s.articles, p);
      PrefixKeeps(live, MAX_LIVE, p);
      CutDistinctIff(found, s.articles, MAX_LIVE, p);
    }
  }

  /** Handed two articles with one address, the handler alone would show both. */
  lemma RepeatInBatchIsShown(p: Platform)
    ensures var a, b := Article("1", "u", "Alpha", 0), Article("2", "u", "Beta", 0);
      Step(START, Region([a, b]), p).articles == [a, b] && !DistinctUrls([a, b])
  {
    hide TitleKey;
    var a, b := Article("1", "u", "Alpha", 0), Article("2", "u", "Beta", 0);
    assert [a, b][1..] == [b];
    assert Unseen(START, [b], p) == [b];
    assert Unseen(START, [a, b], p) == [a, b];
  }

  /** What a region discovery hands over (app_qt_migrated.py:856-868): each article found goes through
      the duplicate gate (dedup_gate.py:158-172), which refuses an address whose canonical form it has
      seen and remembers that of every article it lets pass; then through the quality filter; and at
      most `room` are taken.  `canon` is the canonical form; whether the gate finds a similar title and
      whether the filter is content is left open for each article, counted from the last. */
  function Discovered(found: seq<Article>, seen: set<string>, canon: string -> string, similar: nat -> bool,
                      good: nat -> bool, room: nat, p: Platform): seq<Article>
    decreases |found|
  {
    if found == [] || room == 0 then []
    else
      var a, rest := found[0], found[1..];
      if canon(a.url) in seen || similar(|found|) then Discovered(rest, seen, canon, similar, good, room, p)
      else
        var seen' := seen + {canon(a.url)};
        if good(|found|) then [Converted(a, p)] + Discovered(rest, seen', canon, similar, good, room - 1, p)
        else Discovered(rest, seen', canon, similar, good, room, p)
  }

  /** Such a batch never repeats an address, so the region handler keeps the feed as it should be. */
  lemma {:induction false} DiscoveredUrls(found: seq<Article>, seen: set<string>, canon: string -> string,
                                          similar: nat -> bool, good: nat -> bool, room: nat, p: Platform)
    ensures var batch := Discovered(found, seen, canon, similar, good, room, p);
      && DistinctUrls(batch) && |batch| <= room
      && forall i :: 0 <= i < |batch| ==> canon(batch[i].url) !in seen
    decreases |found|
  {
    if found != [] && room > 0 {
      var a, rest := found[0], found[1..];
      var seen' := seen + {canon(a.url)};
      if canon(a.url) in seen || similar(|found|) {
        DiscoveredUrls(rest, seen, canon, similar, good, room, p);
      } else if good(|found|) {
        DiscoveredUrls(rest, seen', canon, similar, good, room - 1, p);
      } else {
        DiscoveredUrls(rest, seen', canon, similar, good, room, p);
      }
    }
  }

  lemma DiscoveryKeepsFeed(s: State, found: seq<Article>, seen: set<string>, canon: string -> string,
                           similar: nat -> bool, good: nat -> bool, p: Platform)
    requires FeedOk(s, p)
    ensures FeedOk(Step(s, Region(Discovered(found, seen, canon, similar, good, 20, p)), p), p)
  {
    hide FeedOk, Unseen, Step, Discovered;
    var batch := Discovered(found, seen, canon, similar, good, 20, p);
    DiscoveredUrls(found, seen, canon, similar, good, 20, p);
    UnseenKeepsDistinct(s, batch, p);
    PrefixKeeps(Unseen(s, batch, p), MAX_LIVE, p);
    RegionKeepsDistinctIff(s, batch, p);
  }

  lemma UrlsOfConcat(a: seq<Article>, b: seq<Article>, p: Platform)
    ensures Urls(a + b) == Urls(a) + Urls(b) && Titles(a + b, p) == Titles(a, p) + Titles(b, p)
  {
    assert forall x :: x in a + b <==> x in a || x in b;
  }

  lemma CutDistinctIff(a: seq<Article>, b: seq<Article>, n: nat, p: Platform)
    requires DistinctUrls(b) && Urls(a) !! Urls(b)
    ensures DistinctUrls(SliceTo(a + b, n)) <==> DistinctUrls(SliceTo(a, n))
  {
    hide Urls, Titles;
    var cut, head := SliceTo(a + b, n), SliceTo(a, n);
    assert head == cut[..|head|];
    if DistinctUrls(head) {
      var tail := SliceTo(b, n - |head|);
      assert cut == head + tail;
      PrefixKeeps(b, n - |head|, p);
      PrefixKeeps(a, n, p);
      DistinctConcat(head, tail);
    }
  }

  lemma NewUrlsAreUnseen(s: State, batch: seq<Article>, p: Platform)
    requires CachesCover(s, p)
    ensures Urls(Unseen(s, batch, p)) !! Urls(s.articles)
  {
    UnseenAreNew(s, batch, p);
  }

  lemma StreamKeepsFeed(s: State, raw: Article, isDict: bool, p: Platform)
    requires FeedOk(s, p)
    ensures FeedOk(Step(s, Stream(raw, isDict), p), p)
    ensures var a, s' := if isDict then raw else Converted(raw, p), Step(s, Stream(raw, isDict), p);
      !IsDuplicate(s, a, p) && |s.articles| < MAX_LIVE ==>
        s'.articles == [a] + s.articles && Urls(s'.articles) == Urls(s.articles) + (if a.url == "" then {} else {a.url})
  {
    var a := if isDict then raw else Converted(raw, p);
    hide TitleKey, Converted;
    if !IsDuplicate(s, a, p) {
      var live := [a] + s.articles;
      UrlsOfCons(a, s.articles);
      assert Titles(live, p) <= (if a.title == "" then s.titles else s.titles + {TitleKey(a.title, p)}) by {
        assert forall b :: b in live ==> b == a || b in s.articles;
      }
      assert DistinctUrls([a]) && Urls([a]) <= {a.url};
      DistinctConcat([a], s.articles);
      PrefixKeeps(live, MAX_LIVE, p);
    }
  }

  lemma {:induction false} NotInSize(s: seq<Article>, urls: set<string>)
    ensures |NotIn(s, urls)| <= |s|
  {
    if s != [] {
      NotInSize(s[1..], urls);
    }
  }

  lemma UrlsNotIn(s: seq<Article>, urls: set<string>)
    requires DistinctUrls(s)
    ensures Urls(NotIn(s, urls)) + urls == Urls(s) + urls && |NotIn(s, urls)| <= |s|
  {
    NotInUrls(s, urls);
    NotInSize(s, urls);
  }

  lemma {:induction false} UniqueSize(s: seq<Article>, seen: set<string>)
    ensures |UniqueByUrl(s, seen)| <= |s|
  {
    if s != [] {
      UniqueSize(s[1..], if s[0].url == "" then seen else seen + {s[0].url});
      if s[0].url != "" && s[0].url in seen {
        UniqueSize(s[1..], seen);
      }
    }
  }

  lemma CanonicalSize(raw: seq<Article>, p: Platform)
    ensures |Canonical(raw, p)| <= |raw|
  {
    var unique := UniqueByUrl(ConvertedAll(raw, p), {});
    UniqueSize(ConvertedAll(raw, p), {});
    SortIsStablePermutation(unique, Timestamp, 0);
    assert |multiset(Canonical(raw, p))| == |multiset(unique)|;
  }

  lemma MergeKeeps(found: seq<Article>, older: seq<Article>, p: Platform)
    requires DistinctUrls(found) && DistinctUrls(older)
    ensures var merged := found + NotIn(older, Urls(found));
      DistinctUrls(merged) && Urls(merged) == Urls(found) + Urls(older) && |merged| <= |found| + |older|
  {
    var rest := NotIn(older, Urls(found));
    NotInUrls(older, Urls(found));
    UrlsNotIn(older, Urls(found));
    UrlsOfConcat(found, rest, p);
    DistinctConcat(found, rest);
  }

  lemma CrawlKeepsFeed(s: State, raw: seq<Article>, p: Platform)
    requires FeedOk(s, p)
    ensures FeedOk(Step(s, Crawled(raw), p), p)
    ensures var s' := Step(s, Crawled(raw), p);
      && Urls(s'.articles) <= Urls(raw) + Urls(s.articles)
      && (|raw| + |s.articles| <= MAX_LIVE ==> Urls(s'.articles) == Urls(raw) + Urls(s.articles))
  {
    if raw == [] {
      EmptyCaches(p);
    } else {
      hide Canonical, TitleKey, Urls, NotIn, DistinctUrls;
      var found := Canonical(raw, p);
      var merged := found + NotIn(s.articles, Urls(found));
      CanonicalUrls(raw, p);
      CanonicalSize(raw, p);
      MergeKeeps(found, s.articles, p);
      PrefixKeeps(merged, MAX_LIVE, p);
      ShownIsOk(s, SliceTo(merged, MAX_LIVE), p);
      assert |merged| <= MAX_LIVE ==> SliceTo(merged, MAX_LIVE) == merged;
    }
  }

  lemma ArchivedKeeps(s: State, a: Article)
    requires ArchiveOk(s)
    ensures ArchiveOk(Archived(s, a))
    ensures Archived(s, a).archivedUrls == s.archivedUrls + (if a.url == "" then {} else {a.url})
    ensures s.history <= Archived(s, a).history
  {
    if a.url != "" && a.url !in s.archivedUrls {
      var h := s.history + [a];
      forall i | 0 <= i < |s.history| ensures s.history[i].url != a.url {
        assert s.history[i] in s.history;
      }
      forall u ensures u in Urls(h) <==> u in s.archivedUrls + {a.url} {
        assert forall b :: b in h <==> b in s.history || b == a;
      }
    }
  }

  lemma {:induction false} ArchivedUnlessInKeeps(s: State, older: seq<Article>, newUrls: set<string>)
    requires ArchiveOk(s)
    ensures var s' := ArchivedUnlessIn(s, older, newUrls);
      && ArchiveOk(s') && s'.archivedUrls == s.archivedUrls + (Urls(older) - newUrls) && s.history <= s'.history
      && s'.articles == s.articles
    decreases |older|
  {
    if older == [] {
      assert Urls(older) == {};
    } else {
      hide ArchiveOk, Archived, Urls;
      var next := if older[0].url in newUrls then s else Archived(s, older[0]);
      ArchivedKeeps(s, older[0]);
      ArchivedArticles(s, older[0]);
      ArchivedUnlessInKeeps(next, older[1..], newUrls);
      UrlsOfCons(older[0], older[1..]);
      assert older == [older[0]] + older[1..];
      assert older[0].url != "" || older[0].url == "";
    }
  }

  lemma ArchivedArticles(s: State, a: Article)
    ensures Archived(s, a).articles == s.articles
  {
  }

  /** Conservation across a fetch: every address that was live is live or archived afterwards, and the
      archive only grows. */
  lemma FetchConserves(s: State, raw: seq<Article>, rank: Article -> int, p: Platform)
    requires FeedOk(s, p) && ArchiveOk(s)
    ensures var s' := Step(s, Fetched(raw, rank), p);
      && FeedOk(s', p) && ArchiveOk(s') && s.history <= s'.history
      && Urls(s.articles) <= Urls(s'.articles) + s'.archivedUrls
      && (Canonical(raw, p) != [] ==> Urls(s'.articles) == Urls(raw))
  {
    var incoming := Canonical(raw, p);
    CanonicalUrls(raw, p);
    hide Canonical, ArchiveOk, Urls;
    if incoming != [] {
      ArchivedUnlessInKeeps(s, s.articles, Urls(incoming));
      SortKeepsUrls(incoming, rank);
      var mid := ArchivedUnlessIn(s, s.articles, Urls(incoming));
      ShownIsOk(mid, SortDescending(incoming, rank), p);
      ArchiveSurvivesShown(mid, SortDescending(incoming, rank), p);
    }
  }

  lemma ArchiveSurvivesShown(s: State, articles: seq<Article>, p: Platform)
    ensures ArchiveOk(Shown(s, articles, p)) == ArchiveOk(s)
  {
  }

  /** An archive request is safe when no other article shares the id: each live article with the target
      id has the target address, or none, or one that is archived already. */
  predicate SafeToArchive(s: State, payload: Payload) {
    var t := TargetOf(s, payload);
    forall a :: a in s.articles && a.id == t.id && a.url != "" ==> a.url == t.url || a.url in s.archivedUrls
  }

  lemma {:induction false} FirstWithIdIsLive(s: seq<Article>, id: string)
    ensures match FirstWithId(s, id)
      case Some(a) => a in s && a.id == id
      case None => forall a :: a in s ==> a.id != id
  {
    if s != [] {
      assert s == [s[0]] + s[1..];
      FirstWithIdIsLive(s[1..], id);
    }
  }

  lemma ArchiveKeeps(s: State, payload: Payload, p: Platform)
    requires FeedOk(s, p) && ArchiveOk(s)
    ensures var s', t := ArchiveStep(s, payload, p), TargetOf(s, payload);
      && FeedOk(s', p) && ArchiveOk(s') && s.history <= s'.history
      && s'.archivedUrls == s.archivedUrls + (if t.url == "" then {} else {t.url})
      && (forall a :: a in s'.articles <==> a in s.articles && a.id != t.id && (t.url == "" || a.url != t.url))
  {
    var t := TargetOf(s, payload);
    WithoutUrls(s.articles, t.id, t.url);
    ShownIsOk(s, Without(s.articles, t.id, t.url), p);
    hide ArchiveOk, Without, FirstWithId;
    match payload {
      case ByArticle(a) =>
        ArchivedKeeps(s, a);
        ArchiveSurvivesShown(Archived(s, a), Without(s.articles, t.id, t.url), p);
      case ById(_) =>
        if FirstWithId(s.articles, t.id).Some? {
          ArchivedKeeps(s, FirstWithId(s.articles, t.id).value);
          ArchiveSurvivesShown(Archived(s, FirstWithId(s.articles, t.id).value), Without(s.articles, t.id, t.url), p);
        } else {
          ArchiveSurvivesShown(s, Without(s.articles, t.id, t.url), p);
        }
    }
  }

  /** Conservation across an archive request: no live address is lost exactly when the request is safe. */
  lemma ArchiveConservesIff(s: State, payload: Payload, p: Platform)
    requires FeedOk(s, p) && ArchiveOk(s)
    ensures var s' := ArchiveStep(s, payload, p);
      Urls(s.articles) <= Urls(s'.articles) + s'.archivedUrls <==> SafeToArchive(s, payload)
  {
    ArchiveKeeps(s, payload, p);
    hide ArchiveStep, TargetOf, ArchiveOk, CachesCover;
    var s', t := ArchiveStep(s, payload, p), TargetOf(s, payload);
    if Urls(s.articles) <= Urls(s'.articles) + s'.archivedUrls {
      forall a | a in s.articles && a.id == t.id && a.url != "" ensures a.url == t.url || a.url in s.archivedUrls {
        assert a.url in Urls(s.articles);
        RemovedUrl(s.articles, s'.articles, a);
      }
    }
    if SafeToArchive(s, payload) {
      forall u | u in Urls(s.articles) ensures u in Urls(s'.articles) + s'.archivedUrls {
        var a :| a in s.articles && a.url != "" && a.url == u;
      }
    }
  }

  lemma RemovedUrl(before: seq<Article>, after: seq<Article>, a: Article)
    requires DistinctUrls(before) && a in before && a !in after && a.url != ""
    requires forall b :: b in after ==> b in before
    ensures a.url !in Urls(after)
  {
    forall b | b in after ensures b.url != a.url {
      if b.url == a.url {
        SameUrlSameArticle(before, a, b);
      }
    }
  }

  lemma SameUrlSameArticle(s: seq<Article>, a: Article, b: Article)
    requires DistinctUrls(s) && a in s && b in s && a.url == b.url != ""
    ensures a == b
  {
    var i :| 0 <= i < |s| && s[i] == a;
    var j :| 0 <= j < |s| && s[j] == b;
  }

  // ---- whole runs ----

  lemma {:induction false} UnseenKeepsDistinct(s: State, batch: seq<Article>, p: Platform)
    requires DistinctUrls(batch)
    ensures DistinctUrls(Unseen(s, batch, p))
  {
    hide IsDuplicate;
    if batch != [] {
      assert batch == [batch[0]] + batch[1..];
      UnseenKeepsDistinct(s, batch[1..], p);
      var rest := Unseen(s, batch[1..], p);
      UnseenAreNew(s, batch[1..], p);
      forall j | 0 <= j < |rest| && batch[0].url != "" ensures rest[j].url != batch[0].url {
        assert rest[j] in rest;
        var k :| 0 <= k < |batch[1..]| && batch[1..][k] == rest[j];
        assert batch[k + 1] == rest[j];
      }
    }
  }

  lemma StepKeepsAll(s: State, e: Event, p: Platform)
    requires FeedOk(s, p) && ArchiveOk(s)
    requires e.Region? ==> DistinctUrls(e.batch)
    ensures FeedOk(Step(s, e, p), p) && ArchiveOk(Step(s, e, p)) && s.history <= Step(s, e, p).history
  {
    hide FeedOk, ArchiveOk, Canonical, Unseen, IsDuplicate, ArchiveStep;
    match e {
      case Stream(a, isDict) =>
        StreamKeepsFeed(s, a, isDict, p);
        SameArchive(s, Step(s, e, p));
      case Region(batch) =>
        UnseenKeepsDistinct(s, batch, p);
        PrefixKeeps(Unseen(s, batch, p), MAX_LIVE, p);
        RegionKeepsDistinctIff(s, batch, p);
        SameArchive(s, Step(s, e, p));
      case Fetched(raw, rank) => FetchConserves(s, raw, rank, p);
      case Crawled(raw) =>
        CrawlKeepsFeed(s, raw, p);
        SameArchive(s, Step(s, e, p));
      case Restored(raw) =>
        CanonicalUrls(raw, p);
        ShownIsOk(s, Canonical(raw, p), p);
        ArchiveSurvivesShown(s, Canonical(raw, p), p);
      case Archive(payload) => ArchiveKeeps(s, payload, p);
      case Launched => LaunchKeeps(s, p);
    }
  }

  /** The reset at launch empties the live list and nothing else: what was live and not archived is gone,
      and, since the caches still know it, it is taken for a duplicate if it comes again. */
  lemma LaunchKeeps(s: State, p: Platform)
    requires FeedOk(s, p) && ArchiveOk(s)
    ensures var s' := Step(s, Launched, p);
      && FeedOk(s', p) && ArchiveOk(s') && s'.articles == [] && s'.history == s.history
      && (forall a :: a in s.articles && a.url != "" ==>
            IsDuplicate(s', a, p) && (a.url in Urls(s'.articles) + s'.archivedUrls <==> a.url in s.archivedUrls))
  {
    hide TitleKey;
    EmptyCaches(p);
    forall a | a in s.articles && a.url != "" ensures a.url in s.urls {
      assert a.url in Urls(s.articles);
    }
  }

  lemma SameArchive(s: State, s': State)
    requires ArchiveOk(s) && s'.archivedUrls == s.archivedUrls && s'.history == s.history
    ensures ArchiveOk(s')
  {
  }

  /** Feed and cache agree in every run whose region batches do not repeat an address: live addresses
      are pairwise distinct, the caches cover the live list, and the archive is consistent. */
  lemma {:induction false} RunKeepsFeedAndArchive(es: seq<Event>, p: Platform)
    requires forall i :: 0 <= i < |es| && es[i].Region? ==> DistinctUrls(es[i].batch)
    ensures FeedOk(Run(START, es, p), p) && ArchiveOk(Run(START, es, p))
    decreases |es|
  {
    if es == [] {
      assert Urls([]) == {} && Titles([], p) == {};
    } else {
      hide FeedOk, ArchiveOk, Step;
      RunKeepsFeedAndArchive(es[..|es| - 1], p);
      StepKeepsAll(Run(START, es[..|es| - 1], p), es[|es| - 1], p);
    }
  }

  /** An event that has no reason to lose an address: a fetch, a safe archive request, or articles that
      come in while there is room for all of them. */
  ghost predicate IsCareful(s: State, e: Event, p: Platform) {
    match e
    case Stream(_, _) => |s.articles| < MAX_LIVE
    case Region(batch) => DistinctUrls(batch) && |batch| + |s.articles| <= MAX_LIVE
    case Fetched(_, _) => true
    case Crawled(raw) => |raw| + |s.articles| <= MAX_LIVE
    case Restored(_) => false
    case Archive(payload) => SafeToArchive(s, payload)
    case Launched => false
  }

  /** A run of such events. */
  ghost predicate Careful(s: State, es: seq<Event>, p: Platform)
    decreases |es|
  {
    es == [] ||
    var s' := Run(s, es[..|es| - 1], p);
    Careful(s, es[..|es| - 1], p) && IsCareful(s', es[|es| - 1], p)
  }

  /** Nothing is lost: over any such run, every address that was ever live is live or archived, at the end
      and at every moment in between. */
  lemma {:induction false} CarefulRunLosesNothing(s: State, es: seq<Event>, p: Platform, k: nat)
    requires FeedOk(s, p) && ArchiveOk(s) && Careful(s, es, p) && k <= |es|
    ensures var mid, s' := Run(s, es[..k], p), Run(s, es, p);
      && FeedOk(s', p) && ArchiveOk(s')
      && Urls(mid.articles) + mid.archivedUrls <= Urls(s'.articles) + s'.archivedUrls
    decreases |es|
  {
    var n := |es| - 1;
    if es != [] {
      hide FeedOk, ArchiveOk, Step, SafeToArchive, Urls;
      var last, e := Run(s, es[..n], p), es[n];
      CarefulRunLosesNothing(s, es[..n], p, MinInt(k, n));
      CarefulStepLosesNothing(last, e, p);
      assert k <= n ==> es[..n][..k] == es[..k];
    }
    assert k == |es| ==> es[..k] == es;
  }

  lemma CarefulStepLosesNothing(s: State, e: Event, p: Platform)
    requires FeedOk(s, p) && ArchiveOk(s) && IsCareful(s, e, p)
    ensures var s' := Step(s, e, p);
      && FeedOk(s', p) && ArchiveOk(s')
      && Urls(s.articles) + s.archivedUrls <= Urls(s'.articles) + s'.archivedUrls
  {
    hide FeedOk, ArchiveOk, Step, SafeToArchive, Urls, Canonical;
    StepKeepsAll(s, e, p);
    ArchivedUrlsGrow(s, Step(s, e, p));
    match e {
      case Stream(raw, isDict) => StreamLosesNothing(s, raw, isDict, p);
      case Region(batch) => RegionLosesNothing(s, batch, p);
      case Fetched(raw, rank) => FetchConserves(s, raw, rank, p);
      case Crawled(raw) => CrawlKeepsFeed(s, raw, p);
      case Archive(payload) =>
        StepOfArchive(s, payload, p);
        ArchiveConservesIff(s, payload, p);
      case _ =>
        assert false;
    }
  }

  lemma StreamLosesNothing(s: State, raw: Article, isDict: bool, p: Platform)
    requires FeedOk(s, p) && |s.articles| < MAX_LIVE
    ensures Urls(s.articles) <= Urls(Step(s, Stream(raw, isDict), p).articles)
  {
    hide IsDuplicate, Urls, Converted;
    StreamKeepsFeed(s, raw, isDict, p);
  }

  lemma {:induction false} UnseenSize(s: State, batch: seq<Article>, p: Platform)
    ensures |Unseen(s, batch, p)| <= |batch|
  {
    hide IsDuplicate;
    if batch != [] {
      UnseenSize(s, batch[1..], p);
    }
  }

  lemma RegionLosesNothing(s: State, batch: seq<Article>, p: Platform)
    requires |batch| + |s.articles| <= MAX_LIVE
    ensures Urls(s.articles) <= Urls(Step(s, Region(batch), p).articles)
  {
    hide Unseen, Urls;
    UnseenSize(s, batch, p);
    UrlsOfConcat(Unseen(s, batch, p), s.articles, p);
    var live := Unseen(s, batch, p) + s.articles;
    assert SliceTo(live, MAX_LIVE) == live;
  }

  lemma StepOfArchive(s: State, payload: Payload, p: Platform)
    ensures Step(s, Archive(payload), p) == ArchiveStep(s, payload, p)
  {
  }

  lemma ArchivedUrlsGrow(s: State, s': State)
    requires ArchiveOk(s) && ArchiveOk(s') && s.history <= s'.history
    ensures s.archivedUrls <= s'.archivedUrls
  {
    assert forall a :: a in s.history ==> a in s'.history;
  }

  /** Streaming the same article again: the repeat is caught exactly when the article has an address or
      a title to recognise it by, or its id was in the caches already. */
  lemma RepeatedStreamCaughtIff(s: State, a: Article, p: Platform)
    ensures IsDuplicate(Step(s, Stream(a, true), p), a, p)
       <==> IsDuplicate(s, a, p) || a.url != "" || (a.title != "" && TitleKey(a.title, p) != "")
  {
    hide TitleKey;
  }

  /** With one address per id among the live articles, every request about a live article is safe. */
  lemma UniqueIdsAreSafe(s: State, payload: Payload)
    requires forall a, b :: a in s.articles && b in s.articles && a.id == b.id ==> a.url == b.url
    requires payload.ByArticle? ==> payload.article in s.articles
    ensures SafeToArchive(s, payload)
  {
    if payload.ById? {
      FirstWithIdIsLive(s.articles, payload.id);
    }
  }

  /** Unsafe requests do arise.  Streaming does not add to the id cache, so a second article with the
      id of the first and another title gets in; archiving the first by its card then removes both, and
      the second's address is neither live nor archived.  Conversion leaves both articles as they are. */
  lemma StreamedTwinIsLost(p: Platform)
    requires TitleKey("Alpha", p) != TitleKey("Beta", p)
    ensures var a, b := Article("reddit_", "u", "Alpha", 0), Article("reddit_", "v", "Beta", 0);
      var s := Step(Step(START, Stream(a, true), p), Stream(b, true), p);
      var s' := ArchiveStep(s, ByArticle(a), p);
      && Converted(a, p) == a && Converted(b, p) == b
      && s.articles == [b, a]
      && "v" in Urls(s.articles) && "v" !in Urls(s'.articles) + s'.archivedUrls
  {
    hide TitleKey;
    var a, b := Article("reddit_", "u", "Alpha", 0), Article("reddit_", "v", "Beta", 0);
    var s := Step(Step(START, Stream(a, true), p), Stream(b, true), p);
    assert s.articles == [b, a];
    assert b in s.articles && b.url == "v";
    assert Without([b, a], "reddit_", "u") == Without([a], "reddit_", "u") == Without([], "reddit_", "u");
  }

  // ---- the window object ----

  class FeedWindow {
    const platform: Platform
    var articles: seq<Article>
    var archivedHistory: seq<Article>
    var archivedUrls: set<string>
    var displayedUrls: set<string>
    var displayedTitles: set<string>
    var displayedIds: Option<set<string>>

    function View(): State
      reads this
    {
      State(articles, archivedHistory, archivedUrls, displayedUrls, displayedTitles, displayedIds)
    }

    constructor (platform: Platform)
      ensures View() == START && this.platform == platform
    {
      this.platform := platform;
      articles, archivedHistory, archivedUrls := [], [], {};
      displayedUrls, displayedTitles, displayedIds := {}, {}, None;
    }

    method CanonicalizeArticles(raw: seq<Article>) returns (canonical: seq<Article>)
      ensures canonical == Canonical(raw, platform)
    {
      var converted := ConvertedAll(raw, platform);
      var unique: seq<Article> := [];
      var seenUrls: set<string> := {};
      var i := 0;
      while i < |converted|
        invariant 0 <= i <= |converted|
        invariant unique + UniqueByUrl(converted[i..], seenUrls) == UniqueByUrl(converted, {})
      {
        var article := converted[i];
        assert converted[i..][0] == article && converted[i..][1..] == converted[i + 1..];
        if article.url == "" || article.url !in seenUrls {
          if article.url != "" {
            seenUrls := seenUrls + {article.url};
          }
          Reassociate(unique, [article], UniqueByUrl(converted[i + 1..], seenUrls));
          unique := unique + [article];
        }
        i := i + 1;
      }
      assert unique + UniqueByUrl(converted[i..], seenUrls) == unique;
      return SortDescending(unique, Timestamp);
    }

    predicate IsDuplicateArticle(a: Article)
      reads this
    {
      IsDuplicate(View(), a, platform)
    }

    method Show(live: seq<Article>)
      modifies this
      ensures View() == Shown(old(View()), live, platform)
    {
      articles := live;
      displayedUrls := Urls(live);
      displayedTitles := Titles(live, platform);
      displayedIds := Some(Ids(live));
    }

    method OnStreamArticle(raw: Article, isDict: bool)
      modifies this
      ensures View() == Step(old(View()), Stream(raw, isDict), platform)
    {
      var article := if isDict then raw else Converted(raw, platform);
      if IsDuplicateArticle(article) {
        return;
      }
      articles := [article] + articles;
      displayedUrls := displayedUrls + {article.url};
      if article.title != "" {
        displayedTitles := displayedTitles + {TitleKey(article.title, platform)};
      }
      articles := SliceTo(articles, MAX_LIVE);
    }

    method NotDisplayed(batch: seq<Article>) returns (found: seq<Article>)
      ensures found == Unseen(View(), batch, platform)
    {
      hide IsDuplicate, Unseen;
      found := [];
      UnseenFrom(View(), batch, 0, platform);
      var i := 0;
      while i < |batch|
        invariant 0 <= i <= |batch|
        invariant found + Unseen(View(), batch[i..], platform) == Unseen(View(), batch, platform)
      {
        UnseenFrom(View(), batch, i, platform);
        if !IsDuplicateArticle(batch[i]) {
          Reassociate(found, [batch[i]], Unseen(View(), batch[i + 1..], platform));
          found := found + [batch[i]];
        }
        i := i + 1;
      }
      UnseenFrom(View(), batch, i, platform);
    }

    method OnRegionDiscoveryComplete(batch: seq<Article>)
      modifies this
      ensures View() == Step(old(View()), Region(batch), platform)
    {
      hide Unseen, TitleKey, Urls, Titles;
      ghost var s := View();
      var found := NotDisplayed(batch);
      if found == [] {
        return;
      }
      var j := |found|;
      assert found[j..] == [];
      EmptyCaches(platform);
      while j > 0
        invariant 0 <= j <= |found|
        invariant articles == found[j..] + s.articles
        invariant displayedUrls == s.urls + Urls(found[j..])
        invariant displayedTitles == s.titles + Titles(found[j..], platform)
        invariant archivedHistory == s.history && archivedUrls == s.archivedUrls && displayedIds == s.ids
      {
        j := j - 1;
        var article := found[j];
        assert found[j..] == [article] + found[j + 1..];
        Reassociate([article], found[j + 1..], s.articles);
        articles := [article] + articles;
        UrlsOfCons(article, found[j + 1..]);
        TitlesOfCons(article, found[j + 1..], platform);
        if article.url != "" {
          displayedUrls := displayedUrls + {article.url};
        }
        if article.title != "" {
          displayedTitles := displayedTitles + {TitleKey(article.title, platform)};
        }
      }
      articles := SliceTo(articles, MAX_LIVE);
    }

    method OnFetchComplete(raw: seq<Article>, rank: Article -> int)
      modifies this
      ensures View() == Step(old(View()), Fetched(raw, rank), platform)
    {
      hide Urls, Titles, Ids, Canonical;
      ghost var s := View();
      var incoming := CanonicalizeArticles(raw);
      if incoming == [] {
        return;
      }
      var newUrls := Urls(incoming);
      var i := 0;
      while i < |articles|
        invariant 0 <= i <= |articles| && articles == s.articles
        invariant ArchivedUnlessIn(View(), articles[i..], newUrls) == ArchivedUnlessIn(s, s.articles, newUrls)
      {
        var article := articles[i];
        assert articles[i..][0] == article && articles[i..][1..] == articles[i + 1..];
        if article.url != "" && article.url !in newUrls && article.url !in archivedUrls {
          archivedUrls := archivedUrls + {article.url};
          archivedHistory := archivedHistory + [article];
        }
        i := i + 1;
      }
      Show(SortDescending(incoming, rank));
    }

    method OnCrawlerCompleted(raw: seq<Article>)
      modifies this
      ensures View() == Step(old(View()), Crawled(raw), platform)
    {
      hide Urls, Titles, Ids, Canonical;
      if raw == [] {
        return;
      }
      var converted := CanonicalizeArticles(raw);
      var merged := converted + NotIn(articles, Urls(converted));
      Show(SliceTo(merged, MAX_LIVE));
    }

    method OnLaunch()
      modifies this
      ensures View() == Step(old(View()), Launched, platform)
    {
      articles := [];
    }

    method OnBatchRestored(raw: seq<Article>)
      modifies this
      ensures View() == Step(old(View()), Restored(raw), platform)
    {
      var canonical := CanonicalizeArticles(raw);
      Show(canonical);
    }

    method OnArticleArchived(payload: Payload)
      modifies this
      ensures View() == Step(old(View()), Archive(payload), platform)
    {
      var target := TargetOf(View(), payload);
      var article := match payload case ByArticle(a) => Some(a) case ById(id) => FirstWithId(articles, id);
      if article.Some? && target.url != "" && target.url !in archivedUrls {
        archivedUrls := archivedUrls + {target.url};
        archivedHistory := archivedHistory + [article.value];
      }
      Show(Without(articles, target.id, target.url));
    }
  }

  lemma UnseenFrom(s: State, batch: seq<Article>, i: nat, p: Platform)
    requires i <= |batch|
    ensures i == 0 ==> batch[i..] == batch
    ensures i == |batch| ==> Unseen(s, batch[i..], p) == []
    ensures i < |batch| ==>
      Unseen(s, batch[i..], p)
      == (if IsDuplicate(s, batch[i], p) then [] else [batch[i]]) + Unseen(s, batch[i + 1..], p)
  {
    if i < |batch| {
      assert batch[i..][0] == batch[i] && batch[i..][1..] == batch[i + 1..];
    }
  }

  lemma EmptyCaches(p: Platform)
    ensures Urls([]) == {} && Titles([], p) == {}
  {
  }

  lemma TitlesOfCons(a: Article, s: seq<Article>, p: Platform)
    ensures Titles([a] + s, p) == (if a.title == "" then {} else {TitleKey(a.title, p)}) + Titles(s, p)
  {
    hide TitleKey;
    var t := [a] + s;
    assert forall b :: b in t <==> b == a || b in s;
  }
}

/** What the handlers of the live feed show and archive, article by article and in which order
    (gui_qt/app_qt_migrated.py:721-733, 877-893, 1137-1183, 1420-1449, 1677-1704, 1744-1757).
 */
module LiveFeedOrder {
  import opened Util
  import opened Sorting
  import opened LiveFeed
  import SeenWindow

  // ---- conversion and the canonical list ----

  /** Conversion fills in a missing title and a missing id and leaves everything else alone. */
  lemma ConversionFillsIn(a: Article, p: Platform)
    ensures var c := Converted(a, p);
      && c.url == a.url && c.timestamp == a.timestamp
      && (a.title != "" ==> c.title == a.title) && (a.title == "" ==> c.title == "Untitled")
      && (a.id != "" ==> c.id == a.id) && (a.id == "" ==> c.id == p.digest(a.url + "|" + c.title))
  {
  }

  /** Article i is the first with its address, or has none. */
  predicate IsFirst(s: seq<Article>, seen: set<string>, i: nat)
    requires i < |s|
  {
    s[i].url == "" || (s[i].url !in seen && forall j :: 0 <= j < i ==> s[j].url != s[i].url)
  }

  ghost predicate KeepsFirst(r: seq<Article>, s: seq<Article>, seen: set<string>, f: seq<nat>) {
    && |f| == |r|
    && (forall i, j :: 0 <= i < j < |f| ==> f[i] < f[j])
    && (forall k :: 0 <= k < |f| ==> f[k] < |s| && s[f[k]] == r[k])
    && (forall i :: 0 <= i < |s| ==> (i in f <==> IsFirst(s, seen, i)))
  }

  lemma FirstOfTail(s: seq<Article>, seen: set<string>, i: nat)
    requires 0 < i < |s|
    ensures var next := if s[0].url == "" then seen else seen + {s[0].url};
      IsFirst(s, seen, i) <==> IsFirst(s[1..], next, i - 1)
  {
    var t := s[1..];
    assert t[i - 1] == s[i];
    assert forall j :: 0 <= j < i - 1 ==> t[j] == s[j + 1];
    if IsFirst(s, seen, i) && s[i].url != "" {
      assert s[0].url != s[i].url;
    }
    if s[i].url != "" && forall j :: 0 <= j < i - 1 ==> t[j].url != s[i].url {
      forall j | 0 < j < i ensures s[j].url != s[i].url {
        assert t[j - 1] == s[j];
      }
    }
  }

  lemma FirstsShift(r: seq<Article>, s: seq<Article>, seen: set<string>, next: set<string>, g: seq<nat>, f: seq<nat>)
    requires s != [] && next == (if s[0].url == "" then seen else seen + {s[0].url})
    requires KeepsFirst(r, s[1..], next, g)
    requires |f| == |g| && forall k :: 0 <= k < |g| ==> f[k] == g[k] + 1
    ensures forall i, j :: 0 <= i < j < |f| ==> f[i] < f[j]
    ensures forall k :: 0 <= k < |f| ==> 0 < f[k] < |s| && s[f[k]] == r[k]
    ensures forall i :: 0 < i < |s| ==> (i in f <==> IsFirst(s, seen, i))
    ensures 0 !in f
  {
    hide IsFirst;
    forall i | 0 < i < |s| ensures i in f <==> IsFirst(s, seen, i) {
      ShiftedMembers(g, f, i);
      FirstOfTail(s, seen, i);
    }
    ShiftedMembers(g, f, 0);
  }

  lemma FirstsWithHead(r: seq<Article>, s: seq<Article>, seen: set<string>, g: seq<nat>)
    requires s != [] && (s[0].url == "" || s[0].url !in seen) && |g| == |r|
    requires forall i, j :: 0 <= i < j < |g| ==> g[i] < g[j]
    requires forall k :: 0 <= k < |g| ==> 0 < g[k] < |s| && s[g[k]] == r[k]
    requires forall i :: 0 < i < |s| ==> (i in g <==> IsFirst(s, seen, i))
    ensures KeepsFirst([s[0]] + r, s, seen, [0] + g)
  {
    var f: seq<nat> := [0] + g;
    assert IsFirst(s, seen, 0);
    hide IsFirst;
    forall i, j | 0 <= i < j < |f| ensures f[i] < f[j] {
      assert f[j] == g[j - 1];
      assert i > 0 ==> f[i] == g[i - 1];
    }
    forall k | 0 <= k < |f| ensures f[k] < |s| && s[f[k]] == ([s[0]] + r)[k] {
      assert k > 0 ==> f[k] == g[k - 1] && ([s[0]] + r)[k] == r[k - 1];
    }
    forall i: nat ensures i in f <==> i == 0 || i in g {
      assert i in f <==> i in [0] || i in g;
    }
  }

  /** The first article of each address is kept, and every one without an address, in order. */
  lemma {:induction false} UniqueKeepsFirst(s: seq<Article>, seen: set<string>) returns (f: seq<nat>)
    ensures KeepsFirst(UniqueByUrl(s, seen), s, seen, f)
  {
    if s == [] {
      return [];
    }
    var t, next := s[1..], if s[0].url == "" then seen else seen + {s[0].url};
    var g := UniqueKeepsFirst(t, next);
    hide KeepsFirst, UniqueByUrl, IsFirst;
    UniqueStep(s, seen);
    f := FirstsOfAll(UniqueByUrl(t, next), s, seen, next, g);
  }

  lemma UniqueStep(s: seq<Article>, seen: set<string>)
    requires s != []
    ensures var rest := UniqueByUrl(s[1..], if s[0].url == "" then seen else seen + {s[0].url});
      UniqueByUrl(s, seen) == if s[0].url == "" || s[0].url !in seen then [s[0]] + rest else rest
  {
    if s[0].url != "" && s[0].url in seen {
      assert seen + {s[0].url} == seen;
    }
  }

  lemma FirstsOfAll(r: seq<Article>, s: seq<Article>, seen: set<string>, next: set<string>, g: seq<nat>)
    returns (f: seq<nat>)
    requires s != [] && next == (if s[0].url == "" then seen else seen + {s[0].url})
    requires KeepsFirst(r, s[1..], next, g)
    ensures KeepsFirst(if s[0].url == "" || s[0].url !in seen then [s[0]] + r else r, s, seen, f)
  {
    f := seq(|g|, i requires 0 <= i < |g| => g[i] + 1);
    FirstsShift(r, s, seen, next, g, f);
    assert |f| == |r|;
    hide KeepsFirst;
    if s[0].url == "" || s[0].url !in seen {
      FirstsWithHead(r, s, seen, f);
      f := [0] + f;
    } else {
      FirstsWithoutHead(r, s, seen, f);
    }
  }

  lemma FirstsWithoutHead(r: seq<Article>, s: seq<Article>, seen: set<string>, f: seq<nat>)
    requires s != [] && s[0].url != "" && s[0].url in seen && |f| == |r|
    requires forall i, j :: 0 <= i < j < |f| ==> f[i] < f[j]
    requires forall k :: 0 <= k < |f| ==> 0 < f[k] < |s| && s[f[k]] == r[k]
    requires forall i :: 0 < i < |s| ==> (i in f <==> IsFirst(s, seen, i))
    ensures KeepsFirst(r, s, seen, f)
  {
    assert !IsFirst(s, seen, 0);
    hide IsFirst;
    assert 0 !in f;
  }

  /** The canonical list, article by article: the first of each address, and all without one, converted,
      newest first, and in the order they came in where the times are equal. */
  lemma CanonicalShows(raw: seq<Article>, p: Platform, time: int) returns (unique: seq<Article>, f: seq<nat>)
    ensures KeepsFirst(unique, ConvertedAll(raw, p), {}, f)
    ensures |ConvertedAll(raw, p)| == |raw|
    ensures forall i :: 0 <= i < |raw| ==> ConvertedAll(raw, p)[i] == Converted(raw[i], p)
    ensures var c := Canonical(raw, p);
      && multiset(c) == multiset(unique) && WithKey(c, Timestamp, time) == WithKey(unique, Timestamp, time)
      && forall i, j :: 0 <= i < j < |c| ==> c[i].timestamp >= c[j].timestamp
  {
    unique := UniqueByUrl(ConvertedAll(raw, p), {});
    f := UniqueKeepsFirst(ConvertedAll(raw, p), {});
    SortIsStablePermutation(unique, Timestamp, time);
  }

  // ---- the duplicate test and the filters ----

  /** Right after a list has been shown, an article is taken for a duplicate exactly when one on the list
      has its address, or its title up to case and surrounding white space, or its id. */
  lemma DuplicateIff(s: State, live: seq<Article>, a: Article, p: Platform)
    ensures IsDuplicate(Shown(s, live, p), a, p) <==>
      || (a.url != "" && exists b :: b in live && b.url == a.url)
      || (a.title != "" && TitleKey(a.title, p) != ""
          && exists b :: b in live && b.title != "" && TitleKey(b.title, p) == TitleKey(a.title, p))
      || (a.id != "" && exists b :: b in live && b.id == a.id)
  {
    hide TitleKey;
  }

  /** Titles are compared without surrounding white space and in lower case. */
  lemma TitlesAreFolded(title: string, p: Platform)
    ensures TitleKey(title, p) == p.lower(SeenWindow.Strip(title))
  {
  }

  lemma {:induction false} UnseenSelects(s: State, batch: seq<Article>, p: Platform)
    ensures Selects(Unseen(s, batch, p), batch, (a: Article) => !IsDuplicate(s, a, p))
  {
    hide IsDuplicate;
    if batch == [] {
      SelectsNone((a: Article) => !IsDuplicate(s, a, p));
    } else {
      UnseenSelects(s, batch[1..], p);
      SelectsCons(Unseen(s, batch[1..], p), batch[0], batch[1..], (a: Article) => !IsDuplicate(s, a, p));
      assert [batch[0]] + batch[1..] == batch;
    }
  }

  lemma {:induction false} NotInSelects(s: seq<Article>, urls: set<string>)
    ensures Selects(NotIn(s, urls), s, (a: Article) => a.url !in urls)
  {
    if s == [] {
      SelectsNone((a: Article) => a.url !in urls);
    } else {
      NotInSelects(s[1..], urls);
      SelectsCons(NotIn(s[1..], urls), s[0], s[1..], (a: Article) => a.url !in urls);
      assert [s[0]] + s[1..] == s;
    }
  }

  lemma {:induction false} WithoutSelects(s: seq<Article>, id: string, url: string)
    ensures Selects(Without(s, id, url), s, (a: Article) => a.id != id && (url == "" || a.url != url))
  {
    if s == [] {
      SelectsNone((a: Article) => a.id != id && (url == "" || a.url != url));
    } else {
      WithoutSelects(s[1..], id, url);
      SelectsCons(Without(s[1..], id, url), s[0], s[1..], (a: Article) => a.id != id && (url == "" || a.url != url));
      assert [s[0]] + s[1..] == s;
    }
  }

  // ---- what each handler shows ----

  /** A streamed article that is not a duplicate goes first; the list is cut at 1000. */
  lemma StreamShows(s: State, raw: Article, isDict: bool, p: Platform)
    ensures var a, s' := if isDict then raw else Converted(raw, p), Step(s, Stream(raw, isDict), p);
      && (IsDuplicate(s, a, p) ==> s' == s)
      && (!IsDuplicate(s, a, p) ==>
            && s'.articles != [] && s'.articles[0] == a
            && |s'.articles| == (if |s.articles| < 1000 then |s.articles| + 1 else 1000)
            && (forall i :: 1 <= i < |s'.articles| ==> s'.articles[i] == s.articles[i - 1])
            && s'.history == s.history && s'.ids == s.ids
            && IsDuplicate(s', a, p) == (a.url != "" || (a.title != "" && TitleKey(a.title, p) != "")))
  {
    hide Converted, TitleKey;
  }

  /** A region batch: what is not known goes in front, in order; the list is cut at 1000. */
  lemma RegionShows(s: State, batch: seq<Article>, p: Platform) returns (found: seq<Article>)
    ensures Selects(found, batch, (a: Article) => !IsDuplicate(s, a, p))
    ensures var s', all := Step(s, Region(batch), p), found + s.articles;
      && s'.history == s.history && s'.ids == s.ids
      && (found == [] ==> s' == s)
      && (found != [] ==> s'.articles == if |all| <= 1000 then all else all[..1000])
  {
    hide IsDuplicate, TitleKey;
    found := Unseen(s, batch, p);
    UnseenSelects(s, batch, p);
  }

  /** Two articles with the same address, or the same title up to case and surrounding white space. */
  predicate Resembles(a: Article, b: Article, p: Platform) {
    || (a.url != "" && b.url == a.url)
    || (a.title != "" && b.title != "" && TitleKey(a.title, p) != "" && TitleKey(b.title, p) == TitleKey(a.title, p))
  }

  /** What is taken for a duplicate after a streamed article or a region batch: what was before, and what
      resembles an article just shown. */
  lemma NewOnesAreRemembered(s: State, e: Event, batch: seq<Article>, a: Article, p: Platform)
    requires e.Stream? || e.Region?
    requires e.Stream? ==> batch == [if e.isDict then e.article else Converted(e.article, p)]
    requires e.Region? ==> batch == e.batch
    ensures IsDuplicate(Step(s, e, p), a, p)
       <==> IsDuplicate(s, a, p) || exists b :: b in batch && !IsDuplicate(s, b, p) && Resembles(a, b, p)
  {
    hide Converted, TitleKey, Resembles;
    var found := Unseen(s, batch, p);
    UnseenMembers(s, batch, p);
    if e.Stream? {
      var first := if IsDuplicate(s, batch[0], p) then [] else [batch[0]];
      assert batch[1..] == [] && Unseen(s, [], p) == [];
      assert found == first + [] == first;
    }
    hide IsDuplicate, Unseen;
    if found == [] {
      assert forall b :: b in batch ==> IsDuplicate(s, b, p);
      assert Step(s, e, p) == s;
    } else {
      CachedAlso(s, Step(s, e, p), found, a, p);
      assert forall b :: b in found <==> b in batch && !IsDuplicate(s, b, p);
    }
  }

  lemma {:induction false} UnseenMembers(s: State, batch: seq<Article>, p: Platform)
    ensures forall b :: b in Unseen(s, batch, p) <==> b in batch && !IsDuplicate(s, b, p)
  {
    hide IsDuplicate;
    if batch != [] {
      UnseenMembers(s, batch[1..], p);
    }
  }

  lemma CachedAlso(s: State, s': State, found: seq<Article>, a: Article, p: Platform)
    requires s'.ids == s.ids
    requires forall u :: u != "" ==> (u in s'.urls <==> u in s.urls || u in Urls(found))
    requires forall k :: k in s'.titles <==> k in s.titles || k in Titles(found, p)
    ensures IsDuplicate(s', a, p) <==> IsDuplicate(s, a, p) || exists b :: b in found && Resembles(a, b, p)
  {
    hide TitleKey;
    var key := TitleKey(a.title, p);
    if a.url != "" && a.url in Urls(found) {
      var b :| b in found && b.url == a.url;
      assert Resembles(a, b, p);
    }
    if a.title != "" && key != "" && key in Titles(found, p) {
      var b :| b in found && b.title != "" && TitleKey(b.title, p) == key;
      assert Resembles(a, b, p);
    }
  }

  predicate ToBeArchived(a: Article, newUrls: set<string>, archived: set<string>) {
    a.url != "" && a.url !in newUrls && a.url !in archived
  }

  lemma {:induction false} ArchivesInOrder(s: State, older: seq<Article>, newUrls: set<string>)
    returns (added: seq<Article>)
    requires DistinctUrls(older)
    ensures Selects(added, older, (a: Article) => ToBeArchived(a, newUrls, s.archivedUrls))
    ensures ArchivedUnlessIn(s, older, newUrls).history == s.history + added
    decreases |older|
  {
    if older == [] {
      SelectsNone((a: Article) => ToBeArchived(a, newUrls, s.archivedUrls));
      return [];
    }
    hide ToBeArchived, Archived, Selects;
    var x, tail := older[0], older[1..];
    var next := if x.url in newUrls then s else Archived(s, x);
    var rest := ArchivesInOrder(next, tail, newUrls);
    ArchivesOne(s, x, newUrls);
    RestIsDecidedAlike(older, newUrls, s.archivedUrls, next.archivedUrls);
    SelectsSame(rest, tail, (a: Article) => ToBeArchived(a, newUrls, next.archivedUrls),
                (a: Article) => ToBeArchived(a, newUrls, s.archivedUrls));
    SelectsCons(rest, x, tail, (a: Article) => ToBeArchived(a, newUrls, s.archivedUrls));
    assert older == [x] + tail;
    var first := if ToBeArchived(x, newUrls, s.archivedUrls) then [x] else [];
    added := first + rest;
    Reassociate(s.history, first, rest);
  }

  lemma ArchivesOne(s: State, x: Article, newUrls: set<string>)
    ensures var next := if x.url in newUrls then s else Archived(s, x);
      var now := ToBeArchived(x, newUrls, s.archivedUrls);
      && next.history == s.history + (if now then [x] else [])
      && next.archivedUrls == s.archivedUrls + (if now then {x.url} else {})
  {
  }

  /** Archiving one article decides nothing about the others, which have other addresses. */
  lemma RestIsDecidedAlike(older: seq<Article>, newUrls: set<string>, archived: set<string>, next: set<string>)
    requires DistinctUrls(older) && older != []
    requires next == archived + (if ToBeArchived(older[0], newUrls, archived) then {older[0].url} else {})
    ensures forall a :: a in older[1..] ==> ToBeArchived(a, newUrls, next) == ToBeArchived(a, newUrls, archived)
  {
    forall a | a in older[1..] ensures ToBeArchived(a, newUrls, next) == ToBeArchived(a, newUrls, archived) {
      var i :| 0 <= i < |older[1..]| && older[1..][i] == a;
      assert older[i + 1] == a;
    }
  }

  /** A fetched cycle: nothing at all when it is empty.  Otherwise it is shown in order of rank, articles of
      equal rank as in the canonical list; and the older articles with other addresses go to the archive, in
      the order they were shown, those archived already excepted. */
  lemma FetchShows(s: State, raw: seq<Article>, rank: Article -> int, p: Platform, r: int)
    returns (added: seq<Article>)
    requires DistinctUrls(s.articles)
    ensures var s', c := Step(s, Fetched(raw, rank), p), Canonical(raw, p);
      && (c == [] ==> s' == s)
      && (c != [] ==>
            && multiset(s'.articles) == multiset(c)
            && (forall i, j :: 0 <= i < j < |s'.articles| ==> rank(s'.articles[i]) >= rank(s'.articles[j]))
            && WithKey(s'.articles, rank, r) == WithKey(c, rank, r)
            && s'.history == s.history + added
            && Selects(added, s.articles,
                       (a: Article) => a.url != "" && a.url !in Urls(c) && a.url !in s.archivedUrls))
  {
    hide Canonical, Urls, Titles, Ids, SortDescending;
    var c := Canonical(raw, p);
    SortIsStablePermutation(c, rank, r);
    added := ArchivesInOrder(s, s.articles, Urls(c));
    SelectsSame(added, s.articles, (a: Article) => ToBeArchived(a, Urls(c), s.archivedUrls),
                (a: Article) => a.url != "" && a.url !in Urls(c) && a.url !in s.archivedUrls);
  }

  /** Articles found by a crawl: their canonical list, and behind it the live articles with other addresses
      in the order they had; the list is cut at 1000. */
  lemma CrawlShows(s: State, raw: seq<Article>, p: Platform) returns (others: seq<Article>)
    ensures Selects(others, s.articles, (a: Article) => a.url !in Urls(Canonical(raw, p)))
    ensures var s', all := Step(s, Crawled(raw), p), Canonical(raw, p) + others;
      && (raw == [] ==> s' == s) && s'.history == s.history
      && (raw != [] ==> s'.articles == if |all| <= 1000 then all else all[..1000])
  {
    hide Canonical, Urls, Titles, Ids;
    others := NotIn(s.articles, Urls(Canonical(raw, p)));
    NotInSelects(s.articles, Urls(Canonical(raw, p)));
  }

  /** A restored batch is shown, canonical, in place of everything live. */
  lemma RestoredShows(s: State, raw: seq<Article>, p: Platform)
    ensures var s' := Step(s, Restored(raw), p);
      s'.articles == Canonical(raw, p) && s'.history == s.history && s'.archivedUrls == s.archivedUrls
  {
  }

  /** An archive request: the article goes to the end of the history unless its address is empty or archived
      already; asked for by id alone, it is the first live one with that id.  What stays live is everything
      with another id and another address, in order. */
  lemma ArchiveShows(s: State, payload: Payload, p: Platform) returns (target: Option<Article>)
    ensures match payload
      case ByArticle(a) => target == Some(a)
      case ById(id) =>
        match target
        case None => forall a :: a in s.articles ==> a.id != id
        case Some(a) => exists i :: 0 <= i < |s.articles| && s.articles[i] == a && a.id == id
                                    && forall j :: 0 <= j < i ==> s.articles[j].id != id
    ensures var s', url := Step(s, Archive(payload), p), if target.Some? then target.value.url else "";
      var id := if payload.ById? then payload.id else payload.article.id;
      && s'.history == s.history + (if url == "" || url in s.archivedUrls then [] else [target.value])
      && Selects(s'.articles, s.articles, (a: Article) => a.id != id && (url == "" || a.url != url))
  {
    hide Urls, Titles, Ids, Without;
    target := match payload case ByArticle(a) => Some(a) case ById(id) => FirstWithId(s.articles, id);
    if payload.ById? {
      FirstWithIdIs(s.articles, payload.id);
    }
    var t := TargetOf(s, payload);
    WithoutSelects(s.articles, t.id, t.url);
  }

  lemma {:induction false} FirstWithIdIs(s: seq<Article>, id: string)
    ensures match FirstWithId(s, id)
      case None => forall a :: a in s ==> a.id != id
      case Some(a) => exists i :: 0 <= i < |s| && s[i] == a && a.id == id && forall j :: 0 <= j < i ==> s[j].id != id
  {
    if s != [] && s[0].id != id {
      var t := s[1..];
      FirstWithIdIs(t, id);
      assert s == [s[0]] + t;
      if FirstWithId(t, id).Some? {
        var i :| 0 <= i < |t| && t[i] == FirstWithId(t, id).value && t[i].id == id
                 && forall j :: 0 <= j < i ==> t[j].id != id;
        forall j | 0 <= j < i + 1 ensures s[j].id != id {
          assert j > 0 ==> s[j] == t[j - 1];
        }
        assert s[i + 1] == t[i];
      }
    }
  }
}

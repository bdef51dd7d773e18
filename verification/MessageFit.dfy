/** Fitting a Telegram message into its length limit (telegram_feeder_bot.py:182-200, 293-412).

    Text is escaped for HTML, so it grows unevenly, and cutting it must not split a character
    reference such as `&amp;` (section 13.1.4 of the HTML Living Standard).
 */
module MessageFit {
  import opened Util
  import opened SeenWindow

  // ---- escaping ----

  function EscapeChar(c: char): (r: string)
    ensures 1 <= |r| <= 6
  {
    match c
    case '&' => "&amp;"
    case '<' => "&lt;"
    case '>' => "&gt;"
    case '"' => "&quot;"
    case '\'' => "&#x27;"
    case _ => [c]
  }

  /** html.escape with quotes. */
  function Escape(s: string): string {
    if s == "" then "" else EscapeChar(s[0]) + Escape(s[1..])
  }

  lemma {:induction false} EscapeConcat(a: string, b: string)
    ensures |Escape(a + b)| == |Escape(a)| + |Escape(b)|
  {
    if a == "" {
      assert a + b == b;
    } else {
      assert (a + b)[1..] == a[1..] + b;
      EscapeConcat(a[1..], b);
    }
  }

  function RStrip(s: string): (r: string)
    ensures r <= s
    ensures r != "" ==> !IsSpace(r[|r| - 1])
    ensures forall i :: |r| <= i < |s| ==> IsSpace(s[i])
  {
    if s != "" && IsSpace(s[|s| - 1]) then RStrip(s[..|s| - 1]) else s
  }

  // ---- trimming to a budget ----

  /** The length of the longest prefix whose escaped form fits in `room`. */
  function LongestFitting(text: string, room: nat): (k: nat)
    ensures k <= |text|
  {
    if text == "" || |EscapeChar(text[0])| > room then 0
    else 1 + LongestFitting(text[1..], room - |EscapeChar(text[0])|)
  }

  /** LongestFitting is what its name says: a prefix fits exactly when it is no longer. */
  lemma {:induction false} PrefixFitsIff(text: string, room: nat, k: nat)
    requires k <= |text|
    ensures |Escape(text[..k])| <= room <==> k <= LongestFitting(text, room)
  {
    if k > 0 {
      assert text[..k][0] == text[0] && text[..k][1..] == text[1..][..k - 1];
      if |EscapeChar(text[0])| <= room {
        PrefixFitsIff(text[1..], room - |EscapeChar(text[0])|, k - 1);
      }
    }
  }

  function Trimmed(text: string, budget: int, suffix: string): string {
    if budget <= 0 || text == "" then ""
    else if |Escape(text)| <= budget then text
    else RStrip(text[..LongestFitting(text, MaxInt(budget - |suffix|, 0))]) + suffix
  }

  const ELLIPSIS := "…"

  lemma EllipsisIsOneChar()
    ensures |ELLIPSIS| == 1 && |Escape(ELLIPSIS)| == 1
  {
    assert Escape(ELLIPSIS) == EscapeChar(ELLIPSIS[0]) + Escape(ELLIPSIS[1..]);
  }

  lemma StrippedEscapesShorter(prefix: string)
    ensures |Escape(RStrip(prefix))| <= |Escape(prefix)|
  {
    var kept := RStrip(prefix);
    assert kept + prefix[|kept|..] == prefix;
    EscapeConcat(kept, prefix[|kept|..]);
  }

  /** The budget is met: with the default suffix the escaped result fits any budget of at least 1. */
  lemma TrimmedFits(text: string, budget: int)
    requires budget >= 1
    ensures |Escape(Trimmed(text, budget, ELLIPSIS))| <= budget
  {
    hide Escape, LongestFitting, RStrip;
    EllipsisIsOneChar();
    if text == "" {
      EscapeEmpty();
    } else if |Escape(text)| > budget {
      var k := LongestFitting(text, budget - 1);
      PrefixFitsIff(text, budget - 1, k);
      StrippedEscapesShorter(text[..k]);
      EscapeConcat(RStrip(text[..k]), ELLIPSIS);
    }
  }

  lemma EscapeEmpty()
    ensures Escape("") == ""
  {
  }

  lemma TrimmedCases(text: string, budget: int, suffix: string)
    ensures budget <= 0 || text == "" ==> Trimmed(text, budget, suffix) == ""
    ensures budget > 0 && text != "" ==>
      Trimmed(text, budget, suffix)
      == if |Escape(text)| <= budget then text
         else RStrip(text[..LongestFitting(text, MaxInt(budget - |suffix|, 0))]) + suffix
    ensures MaxInt(budget - |suffix|, 0) >= 0
  {
  }

  /** The binary search for the longest prefix that fits. */
  method SearchLongest(text: string, room: nat) returns (lo: nat)
    ensures lo == LongestFitting(text, room)
  {
    hide *;
    var hi := |text|;
    lo := 0;
    LongestInRange(text, room);
    while lo < hi
      invariant 0 <= lo <= LongestFitting(text, room) <= hi <= |text|
    {
      var mid := (lo + hi + 1) / 2;
      PrefixFitsIff(text, room, mid);
      if |Escape(text[..mid])| <= room {
        lo := mid;
      } else {
        hi := mid - 1;
      }
    }
  }

  lemma LongestInRange(text: string, room: nat)
    ensures LongestFitting(text, room) <= |text|
  {
  }

  method TrimToHtmlBudget(text: string, budget: int, suffix: string) returns (r: string)
    ensures r == Trimmed(text, budget, suffix)
  {
    hide *;
    TrimmedCases(text, budget, suffix);
    if budget <= 0 || text == "" {
      return "";
    }
    if |Escape(text)| <= budget {
      return text;
    }
    var lo := SearchLongest(text, MaxInt(budget - |suffix|, 0));
    return RStrip(text[..lo]) + suffix;
  }

  // ---- whole characters and whole references ----

  predicate IsReference(t: string) {
    t == "&amp;" || t == "&lt;" || t == "&gt;" || t == "&quot;" || t == "&#x27;"
  }

  /** A character that stands for itself, or a complete character reference. */
  predicate IsToken(t: string) {
    (|t| == 1 && t[0] != '&') || IsReference(t)
  }

  function Joined(ts: seq<string>): string {
    if ts == [] then "" else ts[0] + Joined(ts[1..])
  }

  ghost predicate Spells(ts: seq<string>, s: string) {
    Joined(ts) == s && forall i :: 0 <= i < |ts| ==> IsToken(ts[i])
  }

  /** A text with no reference left in pieces. */
  ghost predicate Whole(s: string) {
    exists ts :: Spells(ts, s)
  }

  lemma {:induction false} JoinedConcat(a: seq<string>, b: seq<string>)
    ensures Joined(a + b) == Joined(a) + Joined(b)
  {
    if a == [] {
      assert a + b == b;
    } else {
      assert (a + b)[1..] == a[1..] + b;
      JoinedConcat(a[1..], b);
      Reassociate(a[0], Joined(a[1..]), Joined(b));
    }
  }

  lemma WholeConcat(a: string, b: string)
    requires Whole(a) && Whole(b)
    ensures Whole(a + b)
  {
    var ts :| Spells(ts, a);
    var us :| Spells(us, b);
    JoinedConcat(ts, us);
    assert Spells(ts + us, a + b);
  }

  lemma {:induction false} EscapedIsWhole(s: string)
    ensures Whole(Escape(s))
  {
    if s == "" {
      assert Spells([], "");
    } else {
      EscapedIsWhole(s[1..]);
      assert Joined([EscapeChar(s[0])]) == EscapeChar(s[0]) + Joined([]);
      assert Spells([EscapeChar(s[0])], EscapeChar(s[0]));
      WholeConcat(EscapeChar(s[0]), Escape(s[1..]));
    }
  }

  lemma {:induction false} PlainIsWhole(s: string)
    requires '&' !in s
    ensures Whole(s)
  {
    if s == "" {
      assert Spells([], "");
    } else {
      PlainIsWhole(s[1..]);
      assert s[0] in s;
      assert Joined([[s[0]]]) == [s[0]] + Joined([]);
      assert Spells([[s[0]]], [s[0]]);
      WholeConcat([s[0]], s[1..]);
      assert [s[0]] + s[1..] == s;
    }
  }

  lemma ReferenceShape(t: string)
    requires IsReference(t)
    ensures 4 <= |t| <= 6 && t[0] == '&' && t[|t| - 1] == ';'
    ensures forall i :: 0 < i < |t| - 1 ==> t[i] != '&' && t[i] != ';'
    ensures '\n' !in t
  {
  }

  lemma ShiftedSlice(a: string, b: string, i: nat, j: nat)
    requires i <= j <= |b|
    ensures (a + b)[..|a| + i] == a + b[..i] && (a + b)[|a| + i..|a| + j] == b[i..j]
  {
  }

  /** Position i of Joined(ts) is at the start of token k, or inside it, a reference starting at `at`. */
  ghost predicate FallsInto(ts: seq<string>, i: nat, k: nat, at: nat) {
    && k <= |ts| && at <= i && at <= |Joined(ts)| && Joined(ts[..k]) == Joined(ts)[..at]
    && (at < i ==>
          && k < |ts| && i < at + |ts[k]| <= |Joined(ts)|
          && ts[k] == Joined(ts)[at..at + |ts[k]|] && IsReference(ts[k]))
  }

  lemma FallsIntoLater(ts: seq<string>, i: nat, k: nat, at: nat)
    requires ts != [] && FallsInto(ts[1..], i, k, at)
    ensures FallsInto(ts, i + |ts[0]|, k + 1, at + |ts[0]|)
  {
    hide IsReference;
    assert ts[..k + 1] == [ts[0]] + ts[1..][..k];
    assert Joined(ts[..k + 1]) == ts[0] + Joined(ts[1..][..k]);
    ShiftedSlice(ts[0], Joined(ts[1..]), at, if at < i then at + |ts[k + 1]| else at);
  }

  lemma FallsIntoFirst(ts: seq<string>, i: nat)
    requires ts == [] ==> i == 0
    requires ts != [] ==> i < |ts[0]| && IsToken(ts[0])
    ensures FallsInto(ts, i, 0, 0)
  {
    if ts != [] {
      assert Joined(ts)[..|ts[0]|] == ts[0];
    }
  }

  /** Every position falls between two tokens or into a reference. */
  lemma {:induction false} FindToken(ts: seq<string>, i: nat) returns (k: nat, at: nat)
    requires i <= |Joined(ts)| && forall j :: 0 <= j < |ts| ==> IsToken(ts[j])
    ensures FallsInto(ts, i, k, at)
  {
    hide IsToken, FallsInto;
    if ts == [] || i < |ts[0]| {
      FallsIntoFirst(ts, i);
      k, at := 0, 0;
    } else {
      k, at := FindToken(ts[1..], i - |ts[0]|);
      FallsIntoLater(ts, i - |ts[0]|, k, at);
      k, at := k + 1, at + |ts[0]|;
    }
  }

  /** rfind of a character: its last position, or -1. */
  function LastIndex(s: string, c: char): (r: int)
    ensures -1 <= r < |s|
    ensures r >= 0 ==> s[r] == c
    ensures forall i :: r < i < |s| ==> s[i] != c
  {
    if s == "" then -1
    else if s[|s| - 1] == c then |s| - 1
    else LastIndex(s[..|s| - 1], c)
  }

  /** The repair applied to a cut body: if its last `&` has no `;` after it, cut there. */
  function DropOpenReference(b: string): string {
    if LastIndex(b, '&') > LastIndex(b, ';') then b[..LastIndex(b, '&')] else b
  }

  lemma {:induction false} EveryAmpersandCloses(ts: seq<string>, q: nat) returns (r: nat)
    requires forall j :: 0 <= j < |ts| ==> IsToken(ts[j])
    requires q < |Joined(ts)| && Joined(ts)[q] == '&'
    ensures q < r < |Joined(ts)| && Joined(ts)[r] == ';'
  {
    if q < |ts[0]| {
      ReferenceShape(ts[0]);
      r := |ts[0]| - 1;
    } else {
      r := EveryAmpersandCloses(ts[1..], q - |ts[0]|);
      r := r + |ts[0]|;
    }
  }

  lemma WholeClosesAmpersands(b: string)
    requires Whole(b)
    ensures LastIndex(b, '&') <= LastIndex(b, ';')
  {
    hide Joined, IsToken;
    var us :| Spells(us, b);
    if LastIndex(b, '&') >= 0 {
      var r := EveryAmpersandCloses(us, LastIndex(b, '&'));
    }
  }

  /** Where a cut of a whole text can fall: between tokens, or up to 5 characters into a reference. */
  lemma CutPoint(s: string, i: nat) returns (at: nat)
    requires Whole(s) && i <= |s|
    ensures i - 5 <= at <= i && Whole(s[..at])
    ensures at < i ==> s[at] == '&' && forall j :: at < j < i ==> s[j] != '&' && s[j] != ';'
  {
    hide IsReference;
    var ts :| Spells(ts, s);
    var k;
    k, at := FindToken(ts, i);
    assert Spells(ts[..k], s[..at]);
    if at < i {
      ReferenceShape(ts[k]);
      assert forall j :: at <= j < i ==> s[j] == ts[k][j - at];
    }
  }

  /** Cutting a whole text anywhere: the cut is clean exactly when the guard `last & after last ;`
      does not fire; when it fires the repair removes at most 5 characters and leaves a whole text. */
  lemma RepairedCutIsWhole(s: string, i: nat)
    requires Whole(s) && i <= |s|
    ensures var b := s[..i];
      && (Whole(b) <==> LastIndex(b, '&') <= LastIndex(b, ';'))
      && Whole(DropOpenReference(b)) && DropOpenReference(b) <= b && |b| - 5 <= |DropOpenReference(b)|
  {
    hide Whole, LastIndex;
    var b := s[..i];
    var at := CutPoint(s, i);
    if Whole(b) {
      WholeClosesAmpersands(b);
    }
    if at < i {
      LastIndexIs(b, '&', at);
      assert b[..at] == s[..at];
    }
  }

  lemma LastIndexIs(b: string, c: char, at: nat)
    requires at < |b| && b[at] == c && forall j :: at < j < |b| ==> b[j] != c
    ensures LastIndex(b, c) == at
  {
  }

  // ---- the safety trim ----

  /** What the link part of the footer begins with. */
  const LINK_MARK := "\n\U{1F517}"

  predicate MarkAt(s: string, i: nat) {
    i + |LINK_MARK| <= |s| && s[i..i + |LINK_MARK|] == LINK_MARK
  }

  lemma MarkIs(s: string, i: nat)
    ensures MarkAt(s, i) <==> i + 1 < |s| && s[i] == LINK_MARK[0] && s[i + 1] == LINK_MARK[1]
  {
    if i + 2 <= |s| {
      assert s[i..i + 2] == [s[i], s[i + 1]];
    }
  }

  /** rfind of the mark: its last position, or -1. */
  function LastMark(s: string, below: nat): (r: int)
    requires below <= |s|
    ensures -1 <= r < below
    ensures r >= 0 ==> MarkAt(s, r)
    ensures forall i :: r < i < below ==> !MarkAt(s, i)
  {
    if below == 0 then -1
    else if MarkAt(s, below - 1) then below - 1
    else LastMark(s, below - 1)
  }

  function LinkIndex(msg: string): (r: int)
    ensures -1 <= r < |msg|
  {
    LastMark(msg, |msg|)
  }

  /** The message after the safety trim.  With a link, the body gives way and the link part stays;
      without one, the end of the message is cut off. */
  function SafetyTrimmed(msg: string, maxLen: int): string {
    if |msg| <= maxLen then msg
    else
      var idx := LinkIndex(msg);
      if idx != -1 then TrimmedBody(msg, idx, maxLen) + "...\n" + msg[idx..]
      else SliceTo(msg, maxLen - 10) + "..."
  }

  function TrimmedBody(msg: string, idx: nat, maxLen: int): string
    requires idx <= |msg|
  {
    DropOpenReference(SliceTo(msg[..idx], maxLen - |msg[idx..]| - 10))
  }

  lemma WholeBeforeNewline(msg: string, idx: nat)
    requires Whole(msg) && idx < |msg| && msg[idx] == '\n'
    ensures Whole(msg[..idx])
  {
    hide IsToken, IsReference;
    var ts :| Spells(ts, msg);
    var k, at := FindToken(ts, idx);
    assert Spells(ts[..k], msg[..at]);
    if at < idx {
      NoNewlineInside(msg, ts[k], at, idx);
    }
  }

  lemma WholeFromNewline(msg: string, idx: nat)
    requires Whole(msg) && idx < |msg| && msg[idx] == '\n'
    ensures Whole(msg[idx..])
  {
    hide IsToken, IsReference;
    var ts :| Spells(ts, msg);
    var k, at := FindToken(ts, idx);
    if at < idx {
      NoNewlineInside(msg, ts[k], at, idx);
    }
    JoinedConcat(ts[..k], ts[k..]);
    assert ts == ts[..k] + ts[k..];
    assert Joined(ts[k..]) == msg[idx..];
    assert Spells(ts[k..], msg[idx..]);
  }

  lemma NoNewlineInside(msg: string, t: string, at: nat, i: nat)
    requires IsReference(t) && at + |t| <= |msg| && t == msg[at..at + |t|] && at <= i < at + |t|
    ensures msg[i] != '\n'
  {
    ReferenceShape(t);
    assert msg[i] == t[i - at];
  }

  /** With a link: what is kept of the body is a prefix of the message made of whole characters and
      whole references, the link part is untouched, and the result fits whenever the link part leaves
      at least 10 characters.  For a body of 12 or more characters that condition is exact. */
  lemma LinkedTrim(msg: string, maxLen: int)
    requires Whole(msg) && |msg| > maxLen && LinkIndex(msg) >= 0
    ensures var idx, r := LinkIndex(msg), SafetyTrimmed(msg, maxLen);
      var body, link := TrimmedBody(msg, idx, maxLen), msg[idx..];
      && r == body + "...\n" + link && body <= msg && Whole(body)
      && (|link| + 10 <= maxLen ==> |r| <= maxLen)
      && (idx >= 12 ==> (|r| <= maxLen <==> |link| + 10 <= maxLen))
  {
    hide Whole, DropOpenReference, LastIndex;
    var idx := LinkIndex(msg);
    var allowed := maxLen - |msg[idx..]| - 10;
    MarkIs(msg, idx);
    WholeBeforeNewline(msg, idx);
    var cut := SliceTo(msg[..idx], allowed);
    assert cut == msg[..idx][..|cut|];
    RepairedCutIsWhole(msg[..idx], |cut|);
    assert |DropOpenReference(cut)| >= |cut| - 5;
  }

  /** Without a link: the result fits from maxLen 10 on, and the cut is clean exactly when the guard
      that the linked branch tests, and this branch does not, would stay quiet. */
  lemma UnlinkedTrim(msg: string, maxLen: int)
    requires Whole(msg) && |msg| > maxLen && LinkIndex(msg) == -1
    ensures var cut := SliceTo(msg, maxLen - 10);
      && SafetyTrimmed(msg, maxLen) == cut + "..."
      && (maxLen >= 10 ==> |SafetyTrimmed(msg, maxLen)| <= maxLen)
      && (Whole(cut) <==> LastIndex(cut, '&') <= LastIndex(cut, ';'))
  {
    hide Whole, LastIndex;
    var cut := SliceTo(msg, maxLen - 10);
    assert cut == msg[..|cut|];
    RepairedCutIsWhole(msg, |cut|);
  }

  // ---- the whole message ----

  /** Hashtags are built from letters, digits, '#' and blanks. */
  predicate IsHashtagChar(c: char) {
    c == '#' || c == ' ' || '0' <= c <= '9' || 'A' <= c <= 'Z' || 'a' <= c <= 'z'
  }

  type Hashtags = s: string | forall i :: 0 <= i < |s| ==> IsHashtagChar(s[i])

  /** What goes into a message once the texts have been cleaned: an empty `summary` is a suppressed
      one, and `useContent` is the decision to show an overview. */
  datatype Parts =
    Parts(title: string, url: string, breaking: bool, thumbnail: bool, hashtags: Hashtags,
          summary: string, content: string, useContent: bool)

  const SUMMARY_HEADER := "\n💡 <b>Key Highlights:</b>\n"
  const CONTENT_HEADER := "\n📄 <b>Overview:</b>\n"

  function Header(p: Parts): string {
    var title := Escape(Trimmed(p.title, 250, ELLIPSIS));
    if p.breaking then "🔴🔴🔴 <b>BREAKING NEWS</b> 🔴🔴🔴\n\n⚡ <b>" + title + "</b>\n"
    else if p.thumbnail then "📰 <b>" + title + "</b>\n"
    else "🚀✨ <b>" + title + "</b> 💡🔥\n"
  }

  function HashtagLine(p: Parts): string {
    if p.thumbnail || p.hashtags == "" then "" else "\n🏷\U{FE0F} " + p.hashtags
  }

  const LINK_OPEN := " <a href=\""
  const LINK_CLOSE := "\">Read Original Article</a>"

  function LinkTail(p: Parts): string {
    LINK_OPEN + Escape(p.url) + LINK_CLOSE
  }

  function Link(p: Parts): string {
    if p.url == "" then "" else LINK_MARK + LinkTail(p)
  }

  function Footer(p: Parts): string {
    HashtagLine(p) + Link(p)
  }

  function SummaryBudget(p: Parts, maxLen: int): int {
    var free := maxLen - (|Header(p)| + |Footer(p)| + 50) - |SUMMARY_HEADER|;
    var b := if p.thumbnail then (if maxLen <= 1024 then 400 else if p.useContent then 1000 else free)
             else (if maxLen <= 1024 then 800 else if p.useContent then 1500 else free);
    MaxInt(b, 80)
  }

  function Section(heading: string, text: string): string {
    if text == "" then "" else heading + Escape(text) + "\n"
  }

  function Summary(p: Parts, maxLen: int): string {
    Section(SUMMARY_HEADER, Trimmed(p.summary, SummaryBudget(p, maxLen), ELLIPSIS))
  }

  function ContentBudget(p: Parts, maxLen: int): int {
    MaxInt(maxLen - |Header(p) + Summary(p, maxLen)| - |CONTENT_HEADER| - |Footer(p)| - 20, 100)
  }

  function Content(p: Parts, maxLen: int): string {
    if p.useContent && maxLen > 1024 then
      Section(CONTENT_HEADER, Trimmed(p.content, ContentBudget(p, maxLen), ELLIPSIS))
    else ""
  }

  /** Header, summary and overview. */
  function Above(p: Parts, maxLen: int): string {
    Header(p) + Summary(p, maxLen) + Content(p, maxLen)
  }

  /** The message before the safety trim. */
  function Draft(p: Parts, maxLen: int): string {
    Above(p, maxLen) + Footer(p)
  }

  method MakeHeader(p: Parts) returns (header: string)
    ensures header == Header(p)
  {
    hide Escape, Trimmed;
    var rawTitle := TrimToHtmlBudget(p.title, 250, ELLIPSIS);
    var title := Escape(rawTitle);
    if p.breaking {
      header := "🔴🔴🔴 <b>BREAKING NEWS</b> 🔴🔴🔴\n\n⚡ <b>" + title + "</b>\n";
    } else if p.thumbnail {
      header := "📰 <b>" + title + "</b>\n";
    } else {
      header := "🚀✨ <b>" + title + "</b> 💡🔥\n";
    }
  }

  method FormatArticleMessage(p: Parts, maxLen: int) returns (msg: string)
    ensures msg == SafetyTrimmed(Draft(p, maxLen), maxLen)
  {
    hide Escape, Trimmed, SafetyTrimmed, LastIndex, Section, Header, HashtagLine, Link;
    msg := MakeHeader(p);
    var footer := HashtagLine(p) + Link(p);
    if p.summary != "" {
      var reserved := |msg| + |footer| + 50;
      var free := maxLen - reserved - |SUMMARY_HEADER|;
      var budget := if p.thumbnail then (if maxLen <= 1024 then 400 else if p.useContent then 1000 else free)
                    else (if maxLen <= 1024 then 800 else if p.useContent then 1500 else free);
      msg := WithSection(msg, SUMMARY_HEADER, p.summary, MaxInt(budget, 80));
    }
    assert msg == Header(p) + Summary(p, maxLen) by {
      NoSection(p, maxLen);
    }
    if p.useContent && maxLen > 1024 {
      var budget := maxLen - |msg| - |CONTENT_HEADER| - |footer| - 20;
      msg := WithSection(msg, CONTENT_HEADER, p.content, MaxInt(budget, 100));
    }
    msg := msg + footer;
    assert msg == Draft(p, maxLen);
    msg := SafetyTrim(msg, maxLen);
  }

  lemma NoSection(p: Parts, maxLen: int)
    ensures p.summary == "" ==> Summary(p, maxLen) == ""
  {
  }

  /** Append a section for as much of the text as fits its budget; nothing for an empty one. */
  method WithSection(msg: string, heading: string, text: string, budget: int) returns (r: string)
    ensures r == msg + Section(heading, Trimmed(text, budget, ELLIPSIS))
  {
    var trimmed := TrimToHtmlBudget(text, budget, ELLIPSIS);
    r := msg;
    if trimmed != "" {
      r := r + (heading + Escape(trimmed) + "\n");
    }
  }

  lemma DropOpenReferenceIs(b: string)
    ensures -1 <= LastIndex(b, '&') < |b|
    ensures DropOpenReference(b) == if LastIndex(b, '&') > LastIndex(b, ';') then b[..LastIndex(b, '&')] else b
  {
  }

  lemma SafetyTrimCases(msg: string, maxLen: int)
    ensures -1 <= LinkIndex(msg) < |msg|
    ensures SafetyTrimmed(msg, maxLen)
         == if |msg| <= maxLen then msg
            else if LinkIndex(msg) == -1 then SliceTo(msg, maxLen - 10) + "..."
            else
              var idx := LinkIndex(msg);
              DropOpenReference(SliceTo(msg[..idx], maxLen - |msg[idx..]| - 10)) + "...\n" + msg[idx..]
  {
    hide DropOpenReference, LastMark, SliceTo;
  }

  method SafetyTrim(draft: string, maxLen: int) returns (msg: string)
    ensures msg == SafetyTrimmed(draft, maxLen)
  {
    hide *;
    SafetyTrimCases(draft, maxLen);
    msg := draft;
    if |msg| > maxLen {
      var footerIdx := LinkIndex(msg);
      if footerIdx != -1 {
        var body, footerPart := msg[..footerIdx], msg[footerIdx..];
        body := SliceTo(body, maxLen - |footerPart| - 10);
        var lastAmp, lastSemi := LastIndex(body, '&'), LastIndex(body, ';');
        DropOpenReferenceIs(body);
        if lastAmp > lastSemi {
          body := body[..lastAmp];
        }
        msg := body + "...\n" + footerPart;
      } else {
        msg := SliceTo(msg, maxLen - 10) + "...";
      }
    }
  }

  lemma SectionIsWhole(heading: string, text: string)
    requires '&' !in heading
    ensures Whole(Section(heading, text))
  {
    hide Whole;
    PlainIsWhole("");
    PlainIsWhole(heading);
    PlainIsWhole("\n");
    EscapedIsWhole(text);
    WholeConcat(heading, Escape(text));
    WholeConcat(heading + Escape(text), "\n");
  }

  lemma Wrapped(before: string, text: string, after: string)
    requires '&' !in before && '&' !in after
    ensures Whole(before + Escape(text) + after)
  {
    hide Whole;
    PlainIsWhole(before);
    PlainIsWhole(after);
    EscapedIsWhole(text);
    WholeConcat(before, Escape(text));
    WholeConcat(before + Escape(text), after);
  }

  lemma HeaderIsWhole(p: Parts)
    ensures Whole(Header(p))
    ensures |Header(p)| >= 10 + |Escape(Trimmed(p.title, 250, ELLIPSIS))|
  {
    hide Whole, Escape, Trimmed;
    var title := Trimmed(p.title, 250, ELLIPSIS);
    if p.breaking {
      Wrapped("🔴🔴🔴 <b>BREAKING NEWS</b> 🔴🔴🔴\n\n⚡ <b>", title, "</b>\n");
    } else if p.thumbnail {
      Wrapped("📰 <b>", title, "</b>\n");
    } else {
      Wrapped("🚀✨ <b>", title, "</b> 💡🔥\n");
    }
  }

  lemma FooterIsWhole(p: Parts)
    ensures Whole(Footer(p))
  {
    hide Whole, Escape;
    PlainIsWhole(HashtagLine(p));
    if p.url == "" {
      PlainIsWhole("");
    } else {
      PlainIsWhole(LINK_MARK);
      Wrapped(LINK_OPEN, p.url, LINK_CLOSE);
      WholeConcat(LINK_MARK, LinkTail(p));
    }
    WholeConcat(HashtagLine(p), Link(p));
  }

  lemma AboveIsWhole(p: Parts, maxLen: int)
    ensures Whole(Above(p, maxLen))
  {
    hide Whole, Header, Trimmed, Section, SummaryBudget, ContentBudget;
    HeaderIsWhole(p);
    PlainIsWhole("");
    SectionIsWhole(SUMMARY_HEADER, Trimmed(p.summary, SummaryBudget(p, maxLen), ELLIPSIS));
    SectionIsWhole(CONTENT_HEADER, Trimmed(p.content, ContentBudget(p, maxLen), ELLIPSIS));
    WholeConcat(Header(p), Summary(p, maxLen));
    WholeConcat(Header(p) + Summary(p, maxLen), Content(p, maxLen));
  }

  /** Every message drafted is made of whole characters and whole references. */
  lemma DraftIsWhole(p: Parts, maxLen: int)
    ensures Whole(Draft(p, maxLen))
  {
    hide Whole, Footer;
    AboveIsWhole(p, maxLen);
    FooterIsWhole(p);
    WholeConcat(Above(p, maxLen), Footer(p));
  }

  // ---- where the link part begins ----

  ghost predicate HasMark(s: string) {
    exists i :: 0 <= i < |s| && MarkAt(s, i)
  }

  /** A mark in `a + b` lies in `a`, or starts at its end and goes on in `b`, or lies in `b`. */
  lemma MarksOfConcat(a: string, b: string)
    ensures HasMark(a + b) <==>
      || HasMark(a) || HasMark(b)
      || (a != "" && b != "" && a[|a| - 1] == LINK_MARK[0] && b[0] == LINK_MARK[1])
  {
    hide MarkAt;
    var s := a + b;
    if i :| 0 <= i < |a| && MarkAt(a, i) {
      MarkIs(a, i);
      MarkIs(s, i);
    }
    if i :| 0 <= i < |b| && MarkAt(b, i) {
      MarkIs(b, i);
      MarkIs(s, |a| + i);
      assert MarkAt(s, |a| + i);
    }
    if a != "" && b != "" && a[|a| - 1] == LINK_MARK[0] && b[0] == LINK_MARK[1] {
      MarkIs(s, |a| - 1);
      assert MarkAt(s, |a| - 1);
    }
    if i :| 0 <= i < |s| && MarkAt(s, i) {
      MarkIs(s, i);
      if i + 1 < |a| {
        MarkIs(a, i);
        assert MarkAt(a, i);
      } else if i >= |a| {
        MarkIs(b, i - |a|);
        assert MarkAt(b, i - |a|);
      }
    }
  }

  lemma EscapedCharMarks(c: char)
    ensures !HasMark(EscapeChar(c))
    ensures forall m :: m in LINK_MARK ==> (EscapeChar(c)[0] == m <==> c == m)
    ensures forall m :: m in LINK_MARK ==> (EscapeChar(c)[|EscapeChar(c)| - 1] == m <==> c == m)
  {
    NoNewlineNoMark(EscapeChar(c));
  }

  lemma NoNewlineNoMark(s: string)
    requires '\n' !in s || |s| < 2
    ensures !HasMark(s)
  {
    forall i | 0 <= i < |s| ensures !MarkAt(s, i) {
      assert s[i] in s;
      MarkIs(s, i);
    }
  }

  /** Escaping neither makes nor hides a mark. */
  lemma {:induction false} EscapeKeepsMarks(s: string)
    ensures HasMark(Escape(s)) <==> HasMark(s)
    ensures s != "" ==> Escape(s) != "" && forall m :: m in LINK_MARK ==> (Escape(s)[0] == m <==> s[0] == m)
  {
    hide HasMark, EscapeChar;
    if s == "" {
    } else {
      var e, rest := EscapeChar(s[0]), s[1..];
      EscapedCharMarks(s[0]);
      EscapeKeepsMarks(rest);
      MarksOfConcat(e, Escape(rest));
      NoNewlineNoMark([s[0]]);
      MarksOfConcat([s[0]], rest);
      assert s == [s[0]] + rest;
      assert LINK_MARK[0] in LINK_MARK && LINK_MARK[1] in LINK_MARK;
    }
  }

  lemma LinkTailMarks(p: Parts)
    ensures HasMark(LinkTail(p)) <==> HasMark(p.url)
  {
    hide HasMark, Escape;
    EscapeKeepsMarks(p.url);
    NoNewlineNoMark(LINK_OPEN);
    NoNewlineNoMark(LINK_CLOSE);
    assert LINK_OPEN[|LINK_OPEN| - 1] == '"' && LINK_CLOSE[0] == '"';
    MarksOfConcat(LINK_OPEN, Escape(p.url));
    MarksOfConcat(LINK_OPEN + Escape(p.url), LINK_CLOSE);
  }

  lemma LastMarkInside(front: string, rest: string)
    ensures LinkIndex(front + LINK_MARK + rest) >= |front|
    ensures LinkIndex(front + LINK_MARK + rest) == |front| <==> !HasMark(rest)
  {
    hide LastMark, MarkAt;
    var s, n := front + LINK_MARK + rest, |front|;
    assert s[n] == LINK_MARK[0] && s[n + 1] == LINK_MARK[1];
    MarkIs(s, n);
    MarkIs(s, n + 1);
    forall i: nat | i < |rest| ensures MarkAt(rest, i) <==> MarkAt(s, n + 2 + i) {
      MarkIs(rest, i);
      MarkIs(s, n + 2 + i);
      assert s[n + 2 + i] == rest[i];
      assert i + 1 < |rest| ==> s[n + 3 + i] == rest[i + 1];
    }
    if i :| 0 <= i < |rest| && MarkAt(rest, i) {
      assert MarkAt(s, n + 2 + i);
    }
    var last := LinkIndex(s);
    assert last > n ==> MarkAt(rest, last - n - 2);
  }

  /** The part that the trim protects never reaches above the message's own link, and it is that link
      exactly when the address holds no mark of its own. */
  lemma LinkIsFound(p: Parts, maxLen: int)
    requires p.url != ""
    ensures var draft := Draft(p, maxLen);
      && LinkIndex(draft) >= |draft| - |Link(p)| >= |Header(p)|
      && (draft[LinkIndex(draft)..] == Link(p) <==> !HasMark(p.url))
  {
    hide Header, Summary, Content, HashtagLine, LinkTail, LinkIndex, HasMark;
    var draft, front := Draft(p, maxLen), Above(p, maxLen) + HashtagLine(p);
    LinkTailMarks(p);
    LastMarkInside(front, LinkTail(p));
    Reassociate(Above(p, maxLen), HashtagLine(p), Link(p));
    Reassociate(front, LINK_MARK, LinkTail(p));
    assert draft == front + Link(p);
    assert draft[|front|..] == Link(p);
  }

  // ---- when the formatted message is whole ----

  /** What a linked trim leaves is whole: a whole body, an ellipsis line, a whole link part. */
  lemma LinkedTrimIsWhole(msg: string, maxLen: int)
    requires Whole(msg) && |msg| > maxLen && LinkIndex(msg) >= 0
    ensures Whole(SafetyTrimmed(msg, maxLen))
  {
    hide Whole, TrimmedBody, SafetyTrimmed;
    var idx := LinkIndex(msg);
    LinkedTrim(msg, maxLen);
    MarkIs(msg, idx);
    WholeFromNewline(msg, idx);
    PlainIsWhole("...\n");
    WholeConcat(TrimmedBody(msg, idx, maxLen), "...\n");
    WholeConcat(TrimmedBody(msg, idx, maxLen) + "...\n", msg[idx..]);
  }

  lemma {:induction false} LastIndexOfConcat(s: string, rest: string, c: char)
    requires c !in rest
    ensures LastIndex(s + rest, c) == LastIndex(s, c)
  {
    if rest == "" {
      assert s + rest == s;
    } else {
      var n := |rest| - 1;
      assert rest[n] in rest;
      assert (s + rest)[..|s| + n] == s + rest[..n];
      LastIndexOfConcat(s, rest[..n], c);
    }
  }

  /** Dots at the end repair nothing. */
  lemma DotsKeepWhole(cut: string)
    requires Whole(cut) <==> LastIndex(cut, '&') <= LastIndex(cut, ';')
    ensures Whole(cut + "...") <==> Whole(cut)
  {
    hide Whole, LastIndex;
    var dots := "...";
    if Whole(cut) {
      PlainIsWhole(dots);
      WholeConcat(cut, dots);
    }
    if Whole(cut + dots) {
      WholeClosesAmpersands(cut + dots);
      LastIndexOfConcat(cut, dots, '&');
      LastIndexOfConcat(cut, dots, ';');
    }
  }

  /** The condition under which a message is not split. */
  predicate TrimIsClean(draft: string, maxLen: int) {
    || |draft| <= maxLen
    || LinkIndex(draft) >= 0
    || var cut := SliceTo(draft, maxLen - 10); LastIndex(cut, '&') <= LastIndex(cut, ';')
  }

  /** For every article and every limit: the formatted message consists of whole characters and whole
      references exactly when it needed no trim, or the trim found the mark of a link, or the guard that
      only the linked branch tests would have stayed quiet.  A message with a link is always whole. */
  lemma MessageIsWholeIff(p: Parts, maxLen: int)
    ensures Whole(SafetyTrimmed(Draft(p, maxLen), maxLen)) <==> TrimIsClean(Draft(p, maxLen), maxLen)
    ensures p.url != "" ==> TrimIsClean(Draft(p, maxLen), maxLen)
  {
    hide Whole, Draft, Header, Link, LastIndex, LinkIndex;
    var draft := Draft(p, maxLen);
    DraftIsWhole(p, maxLen);
    if p.url != "" {
      LinkIsFound(p, maxLen);
    }
    if |draft| <= maxLen {
    } else if LinkIndex(draft) >= 0 {
      LinkedTrimIsWhole(draft, maxLen);
    } else {
      SafetyTrimCases(draft, maxLen);
      UnlinkedTrim(draft, maxLen);
      DotsKeepWhole(SliceTo(draft, maxLen - 10));
    }
  }

  /** The formatted message, for every article and every limit.  It is the draft when that fits.
      Otherwise it is a prefix of the draft, dots, and what is kept: for an article with an address that
      is the end of the draft from its last link mark on, which is the complete link unless the address
      holds a mark itself.  The prefix is then whole, and with a title of at least two characters the
      message fits the limit exactly when the draft does or the kept part leaves 10 characters.  Without
      any mark only the prefix and dots are left, and they fit from limit 10 on. */
  lemma FormattedMessage(p: Parts, maxLen: int) returns (body: string)
    ensures var draft, idx := Draft(p, maxLen), LinkIndex(Draft(p, maxLen));
      var msg, kept := SafetyTrimmed(draft, maxLen), if idx >= 0 then draft[idx..] else "";
      && msg == (if |draft| <= maxLen then draft else if idx >= 0 then body + "...\n" + kept else body + "...")
      && body <= draft
      && (idx >= 0 ==> Whole(body) && (|kept| + 10 <= maxLen ==> |msg| <= maxLen))
      && (idx < 0 && maxLen >= 10 ==> |msg| <= maxLen)
      && (p.url != "" ==>
            && idx >= 0 && |kept| <= |Link(p)| && (kept == Link(p) <==> !HasMark(p.url))
            && (|Escape(Trimmed(p.title, 250, ELLIPSIS))| >= 2 ==>
                  (|msg| <= maxLen <==> |draft| <= maxLen || |kept| + 10 <= maxLen)))
  {
    var draft := Draft(p, maxLen);
    DraftIsWhole(p, maxLen);
    if p.url != "" {
      LinkIsFound(p, maxLen);
      HeaderIsWhole(p);
    }
    hide Whole, Draft, Header, Link, Escape, Trimmed, DropOpenReference, LinkIndex, HasMark;
    if |draft| <= maxLen {
      body := draft;
    } else if LinkIndex(draft) >= 0 {
      body := TrimmedBody(draft, LinkIndex(draft), maxLen);
      LinkedTrim(draft, maxLen);
    } else {
      body := SliceTo(draft, maxLen - 10);
      UnlinkedTrim(draft, maxLen);
    }
  }

  lemma SectionSize(heading: string, text: string, budget: int)
    requires budget >= 1
    ensures |Section(heading, Trimmed(text, budget, ELLIPSIS))| <= |heading| + budget + 1
  {
    hide Trimmed, Escape;
    TrimmedFits(text, budget);
  }

  /** For long messages the budgets do the fitting: as long as neither minimum budget (80 for the
      summary when it comes last, 100 for the overview) has to step in, the draft fits and nothing is
      trimmed off. */
  lemma BudgetsSuffice(p: Parts, maxLen: int)
    requires maxLen > 1024
    requires if p.useContent then maxLen - |Header(p) + Summary(p, maxLen)| - |CONTENT_HEADER| - |Footer(p)| - 20 >= 100
             else maxLen - (|Header(p)| + |Footer(p)| + 50) - |SUMMARY_HEADER| >= 80
    ensures |Draft(p, maxLen)| <= maxLen && SafetyTrimmed(Draft(p, maxLen), maxLen) == Draft(p, maxLen)
  {
    hide Header, Footer, Section, Trimmed, LinkIndex;
    if p.useContent {
      SectionSize(CONTENT_HEADER, p.content, ContentBudget(p, maxLen));
    } else {
      SectionSize(SUMMARY_HEADER, p.summary, SummaryBudget(p, maxLen));
    }
  }

  lemma HeaderSize(p: Parts)
    ensures |Header(p)| <= 290
  {
    hide Trimmed, Escape;
    TrimmedFits(p.title, 250);
  }

  lemma SummarySize(p: Parts, maxLen: int)
    ensures |Summary(p, maxLen)| <= |SUMMARY_HEADER| + SummaryBudget(p, maxLen) + 1
  {
    hide Section, Trimmed, Header, Footer;
    SectionSize(SUMMARY_HEADER, p.summary, SummaryBudget(p, maxLen));
  }

  /** The limits of the bot's two calls, 1000 for a caption and 4000 for a text message, lie well in
      these ranges. */
  predicate IsRoomy(p: Parts, maxLen: int) {
    if p.thumbnail then 800 <= maxLen <= 1024 || maxLen >= 2000 else maxLen >= 2000
  }

  /** In a message that overflows at such a limit, it is the footer that is too long: header, summary and
      overview stay well above the cut. */
  lemma AboveIsShort(p: Parts, maxLen: int)
    requires IsRoomy(p, maxLen) && |Draft(p, maxLen)| > maxLen
    ensures |Above(p, maxLen)| <= (if maxLen <= 1024 then 750 else 1950) <= maxLen - 10
  {
    hide Header, Summary, Footer, Section, Trimmed, LinkIndex;
    HeaderSize(p);
    SummarySize(p, maxLen);
    SectionSize(CONTENT_HEADER, p.content, ContentBudget(p, maxLen));
  }

  /** With a footer of at most 250 characters at limit 1000, or 2050 at limit 4000, nothing is trimmed. */
  lemma ShortFootersFit(p: Parts, maxLen: int)
    requires IsRoomy(p, maxLen) && |Footer(p)| <= maxLen - (if maxLen <= 1024 then 750 else 1950)
    ensures SafetyTrimmed(Draft(p, maxLen), maxLen) == Draft(p, maxLen) && |Draft(p, maxLen)| <= maxLen
  {
    hide Above, Footer, IsRoomy, LinkIndex;
    if |Draft(p, maxLen)| > maxLen {
      AboveIsShort(p, maxLen);
    }
  }

  /** A cut below the overview of an article without an address falls into the hashtags. */
  lemma CutInHashtags(p: Parts, maxLen: int, n: nat)
    requires p.url == "" && |Above(p, maxLen)| <= n <= |Draft(p, maxLen)|
    ensures Whole(Draft(p, maxLen)[..n])
  {
    hide Whole, Above, HashtagLine;
    var above, tags := Above(p, maxLen), HashtagLine(p);
    AboveIsWhole(p, maxLen);
    HashtagsArePlain(p);
    assert Draft(p, maxLen) == above + tags;
    var kept := tags[..n - |above|];
    PlainIsWhole(kept);
    WholeConcat(above, kept);
    assert Draft(p, maxLen)[..n] == above + kept;
  }

  lemma HashtagsArePlain(p: Parts)
    ensures '&' !in HashtagLine(p)
  {
  }

  /** Both messages the bot sends are whole, whatever the article: a caption of at most 1000 characters
      with a thumbnail, a text of at most 4000 without. */
  lemma RoomyMessagesAreWhole(p: Parts, maxLen: int)
    requires IsRoomy(p, maxLen)
    ensures Whole(SafetyTrimmed(Draft(p, maxLen), maxLen))
  {
    hide Whole, Draft, Above, Footer, SafetyTrimmed, LastIndex, LinkIndex, HashtagLine, Link;
    MessageIsWholeIff(p, maxLen);
    var draft := Draft(p, maxLen);
    if p.url == "" && |draft| > maxLen && LinkIndex(draft) < 0 {
      AboveIsShort(p, maxLen);
      CutInHashtags(p, maxLen, maxLen - 10);
      DraftIsWhole(p, maxLen);
      RepairedCutIsWhole(draft, maxLen - 10);
    }
  }

  function SplitArticle(): Parts {
    Parts("&&&", "", false, true, "", "", "", false)
  }

  lemma SplitDraft()
    ensures Draft(SplitArticle(), 24) == "📰 <b>&amp;&amp;&amp;</b>" + "\n"
  {
    hide Trimmed;
    var p := SplitArticle();
    assert Escape("&&&") == "&amp;" + Escape("&&") && Escape("&&") == "&amp;" + Escape("&") && Escape("&") == "&amp;";
    TrimmedCases(p.title, 250, ELLIPSIS);
    TrimmedCases(p.summary, SummaryBudget(p, 24), ELLIPSIS);
    assert Header(p) == "📰 <b>&amp;&amp;&amp;</b>" + "\n";
  }

  /** At a small limit a message without a link does get split: the title of three ampersands, at limit
      24, ends inside a reference. */
  lemma UnlinkedMessageCanSplit()
    ensures var msg := SafetyTrimmed(Draft(SplitArticle(), 24), 24);
      msg == "📰 <b>&amp;&amp..." && !Whole(msg)
  {
    var draft, cut := "📰 <b>&amp;&amp;&amp;</b>" + "\n", "📰 <b>&amp;&amp";
    SplitDraft();
    hide Draft, LinkIndex, LastIndex, Whole, SplitArticle;
    NoMarkInLine("📰 <b>&amp;&amp;&amp;</b>");
    SafetyTrimCases(draft, 24);
    assert SliceTo(draft, 14) == cut;
    assert cut + "..." == "📰 <b>&amp;&amp...";
    LastIndexIs(cut, '&', 10);
    assert LastIndex(cut, ';') < 10;
    MessageIsWholeIff(SplitArticle(), 24);
  }

  lemma NoMarkInLine(line: string)
    requires '\n' !in line
    ensures LinkIndex(line + "\n") == -1
  {
    var i := LinkIndex(line + "\n");
    if i >= 0 {
      MarkIs(line + "\n", i);
    }
  }

  /** The link's own length: the address as escaped, plus 39. */
  lemma LinkLength(p: Parts)
    requires p.url != ""
    ensures |Link(p)| == |Escape(p.url)| + 39
  {
  }
}

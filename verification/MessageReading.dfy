/** What a reader of a Telegram message gets (telegram_feeder_bot.py:182-200, 293-392): every text that goes
    into a message can be read back out of it, and is the text it should be.
 */
module MessageReading {
  import opened Util
  import opened SeenWindow
  import opened MessageFit

  // ---- reading references ----

  /** What a reader makes of a text with character references (section 13.5 of the HTML Living Standard). */
  function Decoded(s: string): string
    decreases |s|
  {
    if s == "" then ""
    else if "&amp;" <= s then "&" + Decoded(s[5..])
    else if "&lt;" <= s then "<" + Decoded(s[4..])
    else if "&gt;" <= s then ">" + Decoded(s[4..])
    else if "&quot;" <= s then "\"" + Decoded(s[6..])
    else if "&#x27;" <= s then "'" + Decoded(s[6..])
    else [s[0]] + Decoded(s[1..])
  }

  lemma ReadsReference(reference: string, c: char, rest: string)
    requires (reference, c) in {("&amp;", '&'), ("&lt;", '<'), ("&gt;", '>'), ("&quot;", '"'), ("&#x27;", '\'')}
    ensures Decoded(reference + rest) == [c] + Decoded(rest)
  {
    var s := reference + rest;
    assert s[|reference|..] == rest;
    assert s[1] == reference[1];
  }

  lemma ReadsPlain(c: char, rest: string)
    requires c != '&'
    ensures Decoded([c] + rest) == [c] + Decoded(rest)
  {
    var s := [c] + rest;
    assert s[0] == c && s[1..] == rest;
  }

  lemma ReadsEscapedChar(c: char, rest: string)
    ensures Decoded(EscapeChar(c) + rest) == [c] + Decoded(rest)
  {
    hide Decoded;
    match c
    case '&' => ReadsReference("&amp;", '&', rest);
    case '<' => ReadsReference("&lt;", '<', rest);
    case '>' => ReadsReference("&gt;", '>', rest);
    case '"' => ReadsReference("&quot;", '"', rest);
    case '\'' => ReadsReference("&#x27;", '\'', rest);
    case _ => ReadsPlain(c, rest);
  }

  lemma NoSpecials(c: char)
    ensures forall d :: d in EscapeChar(c) ==> d != '<' && d != '>' && d != '"' && d != '\''
  {
  }

  /** Escaping loses nothing: a reader gets back exactly the text that was escaped; and none of the
      characters that mean something in HTML is left. */
  lemma {:induction false} EscapedReadsBack(s: string)
    ensures Decoded(Escape(s)) == s
    ensures forall c :: c in Escape(s) ==> c != '<' && c != '>' && c != '"' && c != '\''
  {
    if s != "" {
      hide Decoded, EscapeChar;
      EscapedReadsBack(s[1..]);
      NoSpecials(s[0]);
      ReadsEscapedChar(s[0], Escape(s[1..]));
      assert s == [s[0]] + s[1..];
    }
  }

  // ---- what is shown ----

  /** Trimming to a budget, without its own terms: a text whose escaped form fits is untouched; otherwise the
      longest prefix that leaves room for the ellipsis is kept, less the white space at its end. */
  lemma TrimmedKeepsLongest(text: string, budget: int) returns (k: nat, kept: string)
    ensures text == "" || budget <= 0 ==> Trimmed(text, budget, ELLIPSIS) == ""
    ensures text != "" && budget > 0 && |Escape(text)| <= budget ==> Trimmed(text, budget, ELLIPSIS) == text
    ensures budget > 0 && |Escape(text)| > budget ==>
      && k < |text| && |Escape(text[..k])| <= budget - 1 < |Escape(text[..k + 1])|
      && Trimmed(text, budget, ELLIPSIS) == kept + "…"
      && kept <= text[..k] && (forall i :: |kept| <= i < k ==> IsSpace(text[i]))
      && (kept != "" ==> !IsSpace(kept[|kept| - 1]))
  {
    k, kept := 0, "";
    if budget > 0 && |Escape(text)| > budget {
      var fits := LongestFitting(text, budget - 1);
      PrefixFitsIff(text, budget - 1, fits);
      PrefixFitsIff(text, budget - 1, |text|);
      assert text[..|text|] == text;
      if fits < |text| {
        PrefixFitsIff(text, budget - 1, fits + 1);
      }
      k, kept := fits, RStrip(text[..fits]);
      assert forall i :: |kept| <= i < k ==> text[i] == text[..k][i];
    }
    EscapeEmpty();
  }

  lemma TrimmedIsWholeIff(text: string, budget: int)
    requires text != "" && budget >= 1
    ensures Trimmed(text, budget, ELLIPSIS) == text <==> |Escape(text)| <= budget
  {
    hide Escape, LongestFitting, RStrip;
    TrimmedFits(text, budget);
  }

  /** Which summaries are shown in full: those whose escaped form fits 400 characters in a caption and 800 in
      another short message; in a long one with an overview 1000 or 1500, by whether there is a thumbnail;
      and without an overview what the header, the footer and 76 characters leave.  Always at least 80. */
  lemma SummaryShownIff(p: Parts, maxLen: int)
    requires p.summary != ""
    ensures var free := maxLen - |Header(p)| - |Footer(p)| - 76;
      var room := if maxLen <= 1024 then (if p.thumbnail then 400 else 800)
                  else if !p.useContent then free
                  else if p.thumbnail then 1000 else 1500;
      Trimmed(p.summary, SummaryBudget(p, maxLen), ELLIPSIS) == p.summary
      <==> |Escape(p.summary)| <= (if room >= 80 then room else 80)
  {
    hide Escape, Trimmed, Header, Footer;
    TrimmedIsWholeIff(p.summary, SummaryBudget(p, maxLen));
  }

  /** Which overviews are shown in full, in a long message that shows one: those that fit what is left when
      20 characters are kept back, and at least 100. */
  lemma OverviewShownIff(p: Parts, maxLen: int)
    requires p.content != ""
    ensures var room := maxLen - |Header(p)| - |Summary(p, maxLen)| - |Footer(p)| - 40;
      Trimmed(p.content, ContentBudget(p, maxLen), ELLIPSIS) == p.content
      <==> |Escape(p.content)| <= (if room >= 100 then room else 100)
  {
    hide Escape, Trimmed, Header, Footer, Summary;
    TrimmedIsWholeIff(p.content, ContentBudget(p, maxLen));
  }

  /** The first lines, by kind of article. */
  function Top(p: Parts, title: string): string {
    if p.breaking then "🔴🔴🔴 <b>BREAKING NEWS</b> 🔴🔴🔴\n\n⚡ <b>" + title + "</b>\n"
    else if p.thumbnail then "📰 <b>" + title + "</b>\n"
    else "🚀✨ <b>" + title + "</b> 💡🔥\n"
  }

  function Block(heading: string, text: string): string {
    if text == "" then "" else heading + text + "\n"
  }

  /** The last lines: hashtags only without a thumbnail, and a link only for an article with an address. */
  function Bottom(p: Parts, address: string): string {
    var tags := if p.thumbnail || p.hashtags == "" then "" else "\n🏷\U{FE0F} " + p.hashtags;
    var link := if p.url == "" then "" else "\n🔗" + (" <a href=\"" + address + "\">Read Original Article</a>");
    tags + link
  }

  /** The whole draft as a reader sees it: the layout for the kind of article, the title, the summary, the
      overview and the address, each read back as the text that was to be shown, and the hashtags. */
  lemma DraftReads(p: Parts, maxLen: int) returns (title: string, summary: string, overview: string, address: string)
    ensures Decoded(title) == Trimmed(p.title, 250, ELLIPSIS)
    ensures Decoded(summary) == Trimmed(p.summary, SummaryBudget(p, maxLen), ELLIPSIS)
    ensures Decoded(overview) ==
      if p.useContent && maxLen > 1024 then Trimmed(p.content, ContentBudget(p, maxLen), ELLIPSIS) else ""
    ensures Decoded(address) == p.url
    ensures Draft(p, maxLen) ==
      Top(p, title) + Block("\n💡 <b>Key Highlights:</b>\n", summary)
      + Block("\n📄 <b>Overview:</b>\n", overview) + Bottom(p, address)
  {
    hide Escape, Trimmed, Decoded, SummaryBudget, ContentBudget;
    EscapedReadsBack("");
    EscapeEmpty();
    title := Escape(Trimmed(p.title, 250, ELLIPSIS));
    EscapedReadsBack(Trimmed(p.title, 250, ELLIPSIS));
    summary := Escape(Trimmed(p.summary, SummaryBudget(p, maxLen), ELLIPSIS));
    EscapedReadsBack(Trimmed(p.summary, SummaryBudget(p, maxLen), ELLIPSIS));
    overview := if p.useContent && maxLen > 1024
                then Escape(Trimmed(p.content, ContentBudget(p, maxLen), ELLIPSIS)) else "";
    EscapedReadsBack(Trimmed(p.content, ContentBudget(p, maxLen), ELLIPSIS));
    address := Escape(p.url);
    EscapedReadsBack(p.url);
  }

  /** The length of `s[:k]`, for a text of n characters. */
  function Kept(n: nat, k: int): int {
    if k > n then n else if k >= 0 then k else if n + k > 0 then n + k else 0
  }

  /** What the safety trim does to a message that is too long.  Its last link mark and all that follows stay,
      behind three dots and a line end; in front of them stay so many characters that the whole has 6 to
      spare, up to the last `&` if no `;` follows it.  Without a mark the end is cut off, 7 to spare. */
  lemma SafetyTrimKeeps(msg: string, maxLen: int) returns (at: int, n: nat)
    ensures |msg| <= maxLen ==> SafetyTrimmed(msg, maxLen) == msg
    ensures -1 <= at < |msg| && (at >= 0 ==> "\n🔗" <= msg[at..])
    ensures forall i :: at < i < |msg| ==> !("\n🔗" <= msg[i..])
    ensures |msg| > maxLen && at < 0 ==>
      n == Kept(|msg|, maxLen - 10) && SafetyTrimmed(msg, maxLen) == msg[..n] + "..."
    ensures |msg| > maxLen && at >= 0 ==>
      var room := Kept(at, maxLen - (|msg| - at) - 10);
      && n <= room <= at && SafetyTrimmed(msg, maxLen) == msg[..n] + "...\n" + msg[at..]
      && CutAtOpenReference(msg[..room], n)
  {
    hide CutAtOpenReference, DropOpenReference, LastMark;
    at := LinkIndex(msg);
    LastMarkIs(msg);
    if at < 0 {
      n := Kept(|msg|, maxLen - 10);
    } else {
      var room := Kept(at, maxLen - (|msg| - at) - 10);
      SliceIs(msg[..at], maxLen - |msg[at..]| - 10);
      assert msg[..at][..room] == msg[..room];
      n := RepairKeeps(msg[..room]);
      assert msg[..room][..n] == msg[..n];
    }
  }

  /** n is where a text has to be cut: where its last `&` stands if no `;` follows that, else at its end. */
  ghost predicate CutAtOpenReference(b: string, n: nat) {
    if forall i :: 0 <= i < |b| && b[i] == '&' ==> exists j :: i < j < |b| && b[j] == ';' then n == |b|
    else n < |b| && b[n] == '&' && forall i :: n < i < |b| ==> b[i] != '&' && b[i] != ';'
  }

  lemma SliceIs(s: string, k: int)
    ensures 0 <= Kept(|s|, k) <= |s| && SliceTo(s, k) == s[..Kept(|s|, k)]
  {
  }

  lemma LastMarkIs(msg: string)
    ensures var at := LinkIndex(msg);
      && (at >= 0 ==> "\n🔗" <= msg[at..])
      && forall i :: at < i < |msg| ==> !("\n🔗" <= msg[i..])
  {
    forall i: nat | i <= |msg| ensures MarkAt(msg, i) <==> "\n🔗" <= msg[i..] {
      MarkIsPrefix(msg, i);
    }
  }

  lemma MarkIsPrefix(msg: string, i: nat)
    requires i <= |msg|
    ensures MarkAt(msg, i) <==> "\n🔗" <= msg[i..]
  {
    if i + 2 <= |msg| {
      assert msg[i..][..2] == msg[i..i + 2];
    }
  }

  lemma RepairKeeps(b: string) returns (n: nat)
    ensures n <= |b| && DropOpenReference(b) == b[..n] && CutAtOpenReference(b, n)
  {
    var amp, semi := LastIndex(b, '&'), LastIndex(b, ';');
    n := if amp > semi then amp else |b|;
    if amp <= semi {
      forall i | 0 <= i < |b| && b[i] == '&' ensures exists j :: i < j < |b| && b[j] == ';' {
        assert i < semi;
      }
    }
  }
}

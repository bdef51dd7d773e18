/** The tags of a Telegram message (telegram_feeder_bot.py:305-316, 394-412): when the safety trim keeps
    every bold text and every link closed.  Telegram refuses a message that leaves one open.
 */
module MessageTags {
  import opened Util
  import opened MessageFit

  /** Where a reader of the message is: in plain text, in bold text, in a link's address, in its text. */
  datatype Place = Outside | InBold | InAddress | InLink

  /** `pending` is the part of a tag read so far. */
  datatype Reading = At(place: Place, pending: string) | Broken

  /** Where a complete tag leads, if it may stand there.  The end of an address counts as one. */
  function After(place: Place, tag: string): Option<Place> {
    match place
    case Outside => if tag == "<b>" then Some(InBold) else if tag == "<a href=\"" then Some(InAddress) else None
    case InBold => if tag == "</b>" then Some(Outside) else None
    case InAddress => if tag == "\">" then Some(InLink) else None
    case InLink => if tag == "</a>" then Some(Outside) else None
  }

  /** The beginning of a tag that may stand there. */
  predicate Begins(place: Place, part: string) {
    match place
    case Outside => part < "<b>" || part < "<a href=\""
    case InBold => part < "</b>"
    case InAddress => part < "\">"
    case InLink => part < "</a>"
  }

  /** Escaped text has none of these. */
  predicate IsMarkup(c: char) {
    c == '<' || c == '>' || c == '"'
  }

  function Step(r: Reading, c: char): Reading {
    match r
    case Broken => Broken
    case At(place, pending) =>
      var tag := pending + [c];
      if pending == "" && !IsMarkup(c) then r
      else if After(place, tag).Some? then At(After(place, tag).value, "")
      else if Begins(place, tag) then At(place, tag)
      else Broken
  }

  function Read(r: Reading, s: string): Reading
    decreases |s|
  {
    if s == "" then r else Read(Step(r, s[0]), s[1..])
  }

  const START := At(Outside, "")

  /** Every tag is complete, and whatever is opened is closed, without nesting. */
  predicate Balanced(s: string) {
    Read(START, s) == START
  }

  predicate IsPlain(s: string) {
    forall i :: 0 <= i < |s| ==> !IsMarkup(s[i])
  }

  lemma {:induction false} ReadConcat(r: Reading, a: string, b: string)
    ensures Read(r, a + b) == Read(Read(r, a), b)
    decreases |a|
  {
    if a == "" {
      assert a + b == b;
    } else {
      assert (a + b)[1..] == a[1..] + b;
      ReadConcat(Step(r, a[0]), a[1..], b);
    }
  }

  lemma {:induction false} ReadPlain(r: Reading, s: string)
    requires r.Broken? || (r.pending == "" && IsPlain(s))
    ensures Read(r, s) == r
    decreases |s|
  {
    if s != "" {
      ReadPlain(r, s[1..]);
    }
  }

  // ---- every draft is balanced ----

  lemma {:induction false} EscapedIsPlain(s: string)
    ensures IsPlain(Escape(s))
  {
    if s != "" {
      EscapedIsPlain(s[1..]);
    }
  }

  /** No tag is the beginning of another one. */
  lemma StepInTag(place: Place, tag: string, k: nat)
    requires After(place, tag).Some? && k < |tag|
    ensures Step(At(place, tag[..k]), tag[k])
      == if k + 1 < |tag| then At(place, tag[..k + 1]) else At(After(place, tag).value, "")
  {
    var part := tag[..k + 1];
    assert tag[..k] + [tag[k]] == part;
    assert k == 0 ==> IsMarkup(tag[0]);
    if k + 1 < |tag| {
      assert part < tag;
      assert part[0] == tag[0];
      if k >= 1 {
        assert part[1] == tag[1];
      }
    } else {
      assert part == tag;
    }
  }

  lemma {:induction false} ReadPart(place: Place, tag: string, k: nat)
    requires After(place, tag).Some? && k < |tag|
    ensures Read(At(place, ""), tag[..k]) == At(place, tag[..k])
  {
    hide Step, After;
    if k == 0 {
    } else {
      ReadPart(place, tag, k - 1);
      StepInTag(place, tag, k - 1);
      assert tag[..k] == tag[..k - 1] + [tag[k - 1]];
      ReadConcat(At(place, ""), tag[..k - 1], [tag[k - 1]]);
    }
  }

  lemma ReadTag(place: Place, tag: string)
    requires After(place, tag).Some?
    ensures Read(At(place, ""), tag) == At(After(place, tag).value, "")
  {
    assert tag != "";
    var n := |tag| - 1;
    ReadPart(place, tag, n);
    StepInTag(place, tag, n);
    hide Step, After;
    assert tag == tag[..n] + [tag[n]];
    ReadConcat(At(place, ""), tag[..n], [tag[n]]);
  }

  lemma ReadBold(text: string)
    requires IsPlain(text)
    ensures Balanced("<b>" + text + "</b>")
  {
    hide Read;
    ReadConcat(START, "<b>" + text, "</b>");
    ReadConcat(START, "<b>", text);
    ReadTag(Outside, "<b>");
    ReadPlain(At(InBold, ""), text);
    ReadTag(InBold, "</b>");
  }

  lemma BalancedConcat(a: string, b: string)
    requires Balanced(a)
    ensures Balanced(a + b) <==> Balanced(b)
  {
    ReadConcat(START, a, b);
  }

  lemma PlainIsBalanced(s: string)
    requires IsPlain(s)
    ensures Balanced(s)
  {
    ReadPlain(START, s);
  }

  lemma ReadClosing(text: string)
    requires IsPlain(text)
    ensures Read(At(InAddress, ""), "\">" + text + "</a>") == START
  {
    hide Read;
    ReadConcat(At(InAddress, ""), "\">" + text, "</a>");
    ReadConcat(At(InAddress, ""), "\">", text);
    ReadTag(InAddress, "\">");
    ReadPlain(At(InLink, ""), text);
    ReadTag(InLink, "</a>");
  }

  // ---- what balanced means ----

  /** A text of plain characters, a bold text, or a link. */
  datatype Piece = Plain(text: string) | Bold(text: string) | Linked(address: string, text: string)

  function Written(p: Piece): string {
    match p
    case Plain(text) => text
    case Bold(text) => "<b>" + text + "</b>"
    case Linked(address, text) => "<a href=\"" + address + "\">" + text + "</a>"
  }

  function AllWritten(ps: seq<Piece>): string {
    if ps == [] then "" else Written(ps[0]) + AllWritten(ps[1..])
  }

  predicate IsPiece(p: Piece) {
    IsPlain(p.text) && (p.Linked? ==> IsPlain(p.address))
  }

  ghost predicate MadeOf(s: string, ps: seq<Piece>) {
    s == AllWritten(ps) && forall i :: 0 <= i < |ps| ==> IsPiece(ps[i])
  }

  /** `u` is what may follow where a reader is, to the end: the rest of what is open there, and pieces. */
  ghost predicate Finishes(place: Place, u: string, address: string, text: string, ps: seq<Piece>) {
    && IsPlain(address) && IsPlain(text) && (forall i :: 0 <= i < |ps| ==> IsPiece(ps[i]))
    && match place
       case Outside => u == AllWritten(ps)
       case InBold => u == text + "</b>" + AllWritten(ps)
       case InAddress => u == address + "\">" + text + "</a>" + AllWritten(ps)
       case InLink => u == text + "</a>" + AllWritten(ps)
  }

  lemma {:induction false} FinishesAfter(r: Reading, s: string) returns (address: string, text: string, ps: seq<Piece>)
    requires Read(r, s) == START
    ensures r.At? && Finishes(r.place, r.pending + s, address, text, ps)
    decreases |s|
  {
    if s == "" {
      assert r.pending + s == "";
      return "", "", [];
    }
    ReadBroken(s[1..]);
    var r' := Step(r, s[0]);
    address, text, ps := FinishesAfter(r', s[1..]);
    var c, tag := s[0], r.pending + [s[0]];
    assert r.pending + s == tag + s[1..];
    if r.pending == "" && !IsMarkup(c) {
      assert "" + s[1..] == s[1..] && "" + s == [c] + s[1..];
      address, text, ps := PlainInFront(r.place, c, s[1..], address, text, ps);
    } else if After(r.place, tag).Some? {
      assert "" + s[1..] == s[1..];
      address, text, ps := TagInFront(r.place, tag, s[1..], address, text, ps);
    }
  }

  lemma {:induction false} ReadBroken(s: string)
    ensures Read(Broken, s) == Broken
  {
    if s != "" {
      ReadBroken(s[1..]);
    }
  }

  lemma PlainInFront(place: Place, c: char, u: string, a: string, t: string, ps: seq<Piece>)
    returns (address: string, text: string, ps': seq<Piece>)
    requires !IsMarkup(c) && Finishes(place, u, a, t, ps)
    ensures Finishes(place, [c] + u, address, text, ps')
  {
    address, text, ps' := a, t, ps;
    match place {
      case Outside =>
        ps' := [Plain([c])] + ps;
        assert ps'[1..] == ps;
      case InAddress =>
        address := [c] + a;
        assert [c] + u == address + "\">" + t + "</a>" + AllWritten(ps);
      case InBold =>
        text := [c] + t;
        assert [c] + u == text + "</b>" + AllWritten(ps);
      case InLink =>
        text := [c] + t;
        assert [c] + u == text + "</a>" + AllWritten(ps);
    }
  }

  lemma TagInFront(place: Place, tag: string, u: string, a: string, t: string, ps: seq<Piece>)
    returns (address: string, text: string, ps': seq<Piece>)
    requires After(place, tag).Some? && Finishes(After(place, tag).value, u, a, t, ps)
    ensures Finishes(place, tag + u, address, text, ps')
  {
    address, text, ps' := a, t, ps;
    match place {
      case Outside => ps' := OpeningInFront(tag, u, a, t, ps);
      case InBold =>
        text := "";
        assert tag + u == text + "</b>" + AllWritten(ps);
      case InAddress =>
        address := "";
        assert tag + u == address + "\">" + t + "</a>" + AllWritten(ps);
      case InLink =>
        text := "";
        assert tag + u == text + "</a>" + AllWritten(ps);
    }
  }

  lemma OpeningInFront(tag: string, u: string, a: string, t: string, ps: seq<Piece>) returns (ps': seq<Piece>)
    requires After(Outside, tag).Some? && Finishes(After(Outside, tag).value, u, a, t, ps)
    ensures Finishes(Outside, tag + u, a, t, ps')
  {
    ps' := [if tag == "<b>" then Bold(t) else Linked(a, t)] + ps;
    assert ps'[1..] == ps;
    assert tag + u == Written(ps'[0]) + AllWritten(ps);
  }

  lemma PieceIsBalanced(p: Piece)
    requires IsPiece(p)
    ensures Balanced(Written(p))
  {
    hide Read;
    match p {
      case Plain(text) => PlainIsBalanced(text);
      case Bold(text) => ReadBold(text);
      case Linked(address, text) =>
        var rest := "\">" + text + "</a>";
        assert Written(p) == "<a href=\"" + (address + rest);
        ReadConcat(START, "<a href=\"", address + rest);
        ReadTag(Outside, "<a href=\"");
        ReadConcat(At(InAddress, ""), address, rest);
        ReadPlain(At(InAddress, ""), address);
        ReadClosing(text);
    }
  }

  lemma {:induction false} PiecesAreBalanced(ps: seq<Piece>)
    requires forall i :: 0 <= i < |ps| ==> IsPiece(ps[i])
    ensures Balanced(AllWritten(ps))
  {
    if ps != [] {
      PieceIsBalanced(ps[0]);
      PiecesAreBalanced(ps[1..]);
      BalancedConcat(Written(ps[0]), AllWritten(ps[1..]));
    }
  }

  /** Balanced is a text that is put together from plain texts, bold texts and links, none within another. */
  lemma BalancedIff(s: string)
    ensures Balanced(s) <==> exists ps :: MadeOf(s, ps)
  {
    if Balanced(s) {
      var address, text, ps := FinishesAfter(START, s);
      assert "" + s == s;
      assert MadeOf(s, ps);
    }
    if ps :| MadeOf(s, ps) {
      PiecesAreBalanced(ps);
    }
  }

  lemma LinkCloseParts()
    ensures LINK_CLOSE == "\">" + "Read Original Article" + "</a>"
    ensures IsPlain("Read Original Article")
  {
  }

  lemma LinkIsBalanced(p: Parts)
    ensures Balanced(Link(p))
  {
    hide Read, Escape;
    if p.url == "" {
      PlainIsBalanced("");
    } else {
      EscapedIsPlain(p.url);
      ReadConcat(START, LINK_OPEN + Escape(p.url), LINK_CLOSE);
      ReadConcat(START, LINK_OPEN, Escape(p.url));
      ReadConcat(START, " ", "<a href=\"");
      assert LINK_OPEN == " " + "<a href=\"";
      ReadPlain(START, " ");
      ReadTag(Outside, "<a href=\"");
      ReadPlain(At(InAddress, ""), Escape(p.url));
      LinkCloseParts();
      ReadClosing("Read Original Article");
      PlainIsBalanced(LINK_MARK);
      BalancedConcat(LINK_MARK, LinkTail(p));
    }
  }

  /** Plain text, a bold text, plain text. */
  lemma BoldInText(before: string, text: string, after: string)
    requires IsPlain(before) && IsPlain(text) && IsPlain(after)
    ensures Balanced(before + ("<b>" + text + "</b>") + after)
  {
    hide Balanced;
    var bold := "<b>" + text + "</b>";
    PlainIsBalanced(before);
    PlainIsBalanced(after);
    ReadBold(text);
    BalancedConcat(before, bold);
    BalancedConcat(before + bold, after);
  }

  lemma BreakingHeaderIsBalanced(title: string)
    requires IsPlain(title)
    ensures Balanced("🔴🔴🔴 <b>BREAKING NEWS</b> 🔴🔴🔴\n\n⚡ <b>" + title + "</b>\n")
  {
    hide Balanced;
    var lights, alert, mid := "🔴🔴🔴 ", "BREAKING NEWS", " 🔴🔴🔴\n\n⚡ ";
    var first, bold := lights + ("<b>" + alert + "</b>") + mid, "<b>" + title + "</b>";
    BoldInText(lights, alert, mid);
    BoldInText("", title, "\n");
    BalancedConcat(first, "" + bold + "\n");
    assert "🔴🔴🔴 <b>BREAKING NEWS</b> 🔴🔴🔴\n\n⚡ <b>" == first + "<b>";
    assert "</b>\n" == "</b>" + "\n";
    assert first + ("" + bold + "\n") == first + "<b>" + title + "</b>\n";
  }

  lemma PlainHeaderIsBalanced(before: string, title: string, after: string)
    requires IsPlain(before) && IsPlain(title) && IsPlain(after)
    ensures Balanced((before + "<b>") + title + ("</b>" + after))
  {
    hide Balanced;
    BoldInText(before, title, after);
    assert before + ("<b>" + title + "</b>") + after == (before + "<b>") + title + ("</b>" + after);
  }

  lemma HeaderIsBalanced(p: Parts)
    ensures Balanced(Header(p))
  {
    hide Balanced, Escape, Trimmed;
    var title := Escape(Trimmed(p.title, 250, ELLIPSIS));
    EscapedIsPlain(Trimmed(p.title, 250, ELLIPSIS));
    if p.breaking {
      BreakingHeaderIsBalanced(title);
    } else if p.thumbnail {
      PlainHeaderIsBalanced("📰 ", title, "\n");
      assert "📰 <b>" == "📰 " + "<b>" && "</b>\n" == "</b>" + "\n";
    } else {
      PlainHeaderIsBalanced("🚀✨ ", title, " 💡🔥\n");
      assert "🚀✨ <b>" == "🚀✨ " + "<b>" && "</b> 💡🔥\n" == "</b>" + " 💡🔥\n";
    }
  }

  lemma SectionIsBalanced(before: string, title: string, after: string, text: string)
    requires IsPlain(before) && IsPlain(title) && IsPlain(after)
    ensures Balanced(Section(before + ("<b>" + title + "</b>") + after, text))
  {
    hide Balanced, Escape;
    var heading := before + ("<b>" + title + "</b>") + after;
    EscapedIsPlain(text);
    BoldInText(before, title, after);
    PlainIsBalanced("");
    PlainIsBalanced(Escape(text) + "\n");
    BalancedConcat(heading, Escape(text) + "\n");
    Reassociate(heading, Escape(text), "\n");
  }

  lemma SummarySectionIsBalanced(text: string)
    ensures Balanced(Section(SUMMARY_HEADER, text))
  {
    var before, title, after := "\n💡 ", "Key Highlights:", "\n";
    assert SUMMARY_HEADER == before + ("<b>" + title + "</b>") + after;
    SectionIsBalanced(before, title, after, text);
  }

  lemma ContentSectionIsBalanced(text: string)
    ensures Balanced(Section(CONTENT_HEADER, text))
  {
    var before, title, after := "\n📄 ", "Overview:", "\n";
    assert CONTENT_HEADER == before + ("<b>" + title + "</b>") + after;
    SectionIsBalanced(before, title, after, text);
  }

  lemma AboveIsBalanced(p: Parts, maxLen: int)
    ensures Balanced(Above(p, maxLen))
  {
    hide Balanced, Header, Section, Trimmed, SummaryBudget, ContentBudget;
    HeaderIsBalanced(p);
    PlainIsBalanced("");
    SummarySectionIsBalanced(Trimmed(p.summary, SummaryBudget(p, maxLen), ELLIPSIS));
    ContentSectionIsBalanced(Trimmed(p.content, ContentBudget(p, maxLen), ELLIPSIS));
    BalancedConcat(Header(p), Summary(p, maxLen));
    BalancedConcat(Header(p) + Summary(p, maxLen), Content(p, maxLen));
  }

  lemma FrontIsBalanced(p: Parts, maxLen: int)
    ensures Balanced(Above(p, maxLen) + HashtagLine(p))
  {
    hide Balanced, Above;
    AboveIsBalanced(p, maxLen);
    PlainIsBalanced(HashtagLine(p));
    BalancedConcat(Above(p, maxLen), HashtagLine(p));
  }

  /** Every message drafted has its tags balanced. */
  lemma DraftIsBalanced(p: Parts, maxLen: int)
    ensures Balanced(Draft(p, maxLen))
  {
    hide Balanced, Above, HashtagLine, Link;
    FrontIsBalanced(p, maxLen);
    LinkIsBalanced(p);
    BalancedConcat(Above(p, maxLen) + HashtagLine(p), Link(p));
    Reassociate(Above(p, maxLen), HashtagLine(p), Link(p));
  }

  // ---- what a cut leaves open ----

  /** Two readers at different places cannot both be back in plain text after the same text: the next
      tag tells them apart. */
  lemma {:induction false} SamePlace(p: Place, q: Place, s: string)
    requires Read(At(p, ""), s) == START && Read(At(q, ""), s) == START
    ensures p == q
    decreases |s|
  {
    if s == "" {
    } else if !IsMarkup(s[0]) {
      SamePlace(p, q, s[1..]);
    } else {
      BrokenStays(s[1..]);
      NextTag(p, s);
      NextTag(q, s);
    }
  }

  lemma BrokenStays(s: string)
    ensures Read(Broken, s) == Broken
  {
    ReadPlain(Broken, s);
  }

  /** The beginning of the tag with which a reader at this place goes on. */
  predicate GoesOn(p: Place, s: string) {
    match p
    case Outside => |s| >= 2 && s[0] == '<' && s[1] != '/'
    case InBold => |s| >= 3 && s[0] == '<' && s[1] == '/' && s[2] == 'b'
    case InAddress => s != "" && s[0] == '"'
    case InLink => |s| >= 3 && s[0] == '<' && s[1] == '/' && s[2] == 'a'
  }

  lemma FirstChar(p: Place, c: char)
    requires IsMarkup(c) && Step(At(p, ""), c) != Broken
    ensures if p == InAddress then c == '"' else c == '<' && Step(At(p, ""), c) == At(p, "<")
  {
    var tag := "" + [c];
    assert tag[0] == c;
    assert c == '<' ==> tag == "<";
  }

  lemma SecondChar(p: Place, c: char)
    requires p != InAddress && Step(At(p, "<"), c) != Broken
    ensures if p == Outside then c != '/' else c == '/' && Step(At(p, "<"), c) == At(p, "</")
  {
    var tag := "<" + [c];
    assert tag[1] == c;
    assert "</b>"[1] == "</a>"[1] == '/';
    assert p != Outside && c == '/' ==> tag == "</";
  }

  lemma ThirdChar(p: Place, c: char)
    requires (p == InBold || p == InLink) && Step(At(p, "</"), c) != Broken
    ensures c == if p == InBold then 'b' else 'a'
  {
    var tag := "</" + [c];
    assert tag[2] == c;
    assert "</b>"[2] == 'b' && "</a>"[2] == 'a';
  }

  lemma NextTag(p: Place, s: string)
    requires s != "" && IsMarkup(s[0]) && Read(At(p, ""), s) == START
    ensures GoesOn(p, s)
  {
    hide Read, Step;
    ReadFirst(At(p, ""), s);
    BrokenStays(s[1..]);
    FirstChar(p, s[0]);
    if p != InAddress {
      var rest := s[1..];
      ReadFirst(At(p, "<"), rest);
      BrokenStays(rest[1..]);
      assert rest[0] == s[1];
      SecondChar(p, s[1]);
      if p != Outside {
        ReadFirst(At(p, "</"), rest[1..]);
        BrokenStays(rest[1..][1..]);
        assert rest[1..] != "" && rest[1..][0] == s[2];
        ThirdChar(p, s[2]);
      }
    }
  }

  lemma ReadFirst(r: Reading, s: string)
    ensures s == "" ==> Read(r, s) == r
    ensures s != "" ==> Read(r, s) == Read(Step(r, s[0]), s[1..])
  {
  }

  /** A dot or a line end cannot stand in a tag. */
  lemma NotInTag(r: Reading, c: char)
    requires c == '.' || c == '\n'
    ensures Step(r, c) == if r.At? && r.pending == "" then r else Broken
  {
    if r.At? && r.pending != "" {
      var tag := r.pending + [c];
      assert tag[|tag| - 1] == c;
      if After(r.place, tag).Some? || Begins(r.place, tag) {
        NoDotInTag(r.place, tag);
      }
    }
  }

  lemma NoDotInTag(place: Place, tag: string)
    requires After(place, tag).Some? || Begins(place, tag)
    ensures forall i :: 0 <= i < |tag| ==> tag[i] != '.' && tag[i] != '\n'
  {
  }

  /** Dots at the end of a cut text close nothing. */
  lemma ReadDots(cut: string, dots: string)
    requires dots == "..." || dots == "...\n"
    ensures var r := Read(START, cut);
      Read(START, cut + dots) == if r.At? && r.pending == "" then r else Broken
  {
    hide Step;
    var r := Read(START, cut);
    ReadConcat(START, cut, dots);
    ReadFirst(r, dots);
    NotInTag(r, '.');
    ReadPlain(Step(r, '.'), dots[1..]);
  }

  /** For every draft: if the trim finds a mark, tags stay balanced exactly when the kept body leaves
      the reader where the mark found it in the draft. */
  lemma LinkedTrimTags(draft: string, maxLen: int)
    requires Balanced(draft) && |draft| > maxLen && LinkIndex(draft) >= 0
    ensures var idx := LinkIndex(draft);
      Balanced(SafetyTrimmed(draft, maxLen))
      <==> Read(START, TrimmedBody(draft, idx, maxLen)) == Read(START, draft[..idx])
  {
    hide Read, Step, LinkIndex, TrimmedBody;
    var idx := LinkIndex(draft);
    var body, kept := TrimmedBody(draft, idx, maxLen), draft[idx..];
    assert LinkIndex(draft) == LastMark(draft, |draft|) by {
      IndexIsLastMark(draft);
    }
    MarkIs(draft, idx);
    var before, r := Read(START, draft[..idx]), Read(START, body);
    assert draft == draft[..idx] + kept;
    ReadConcat(START, draft[..idx], kept);
    ReadFirst(before, kept);
    NotInTag(before, '\n');
    BrokenStays(kept[1..]);
    assert before.At? && before.pending == "";
    ReadDots(body, "...\n");
    ReadConcat(START, body + "...\n", kept);
    BrokenStays(kept);
    if r.At? && r.pending == "" && Read(r, kept) == START {
      SamePlace(before.place, r.place, kept);
    }
  }

  lemma IndexIsLastMark(draft: string)
    ensures LinkIndex(draft) == LastMark(draft, |draft|)
  {
  }

  lemma UnlinkedTrimTags(draft: string, maxLen: int)
    requires |draft| > maxLen && LinkIndex(draft) < 0
    ensures Balanced(SafetyTrimmed(draft, maxLen)) <==> Balanced(SliceTo(draft, maxLen - 10))
  {
    hide Read, LinkIndex;
    ReadDots(SliceTo(draft, maxLen - 10), "...");
  }

  /** A guard that a caller could test: the last `<`, if any, begins a complete closing tag. */
  predicate LastTagCloses(s: string) {
    var j := LastIndex(s, '<');
    j < 0 || "</b>" <= s[j..] || "</a>" <= s[j..]
  }

  /** What the last `<` read tells about the place. */
  predicate Tells(tail: string, r: Reading) {
    match r
    case Broken => true
    case At(place, pending) =>
      if pending != "" && pending[0] == '<' then tail == pending && place != InAddress && Begins(place, pending)
      else if place == Outside then pending == "" && (tail == "" || "</b>" <= tail || "</a>" <= tail)
      else if place == InBold then pending == "" && "<b>" <= tail
      else if place == InAddress then pending < "\">" && "<a href=\"" <= tail
      else pending == "" && "<a href=\"" <= tail
  }

  function Tail(s: string): string {
    var j := LastIndex(s, '<');
    if j < 0 then "" else s[j..]
  }

  lemma TailGrows(s: string, c: char)
    ensures Tail(s + [c]) == TailAfter(Tail(s), c)
  {
    assert (s + [c])[..|s|] == s;
  }

  function TailAfter(tail: string, c: char): string {
    if c == '<' then "<" else if tail == "" then "" else tail + [c]
  }

  lemma PrefixStays(part: string, tail: string, c: char)
    requires part <= tail
    ensures part <= tail + [c]
  {
  }

  lemma NoSecondLess(place: Place, tag: string)
    requires After(place, tag).Some? || Begins(place, tag)
    ensures forall i :: 1 <= i < |tag| ==> tag[i] != '<'
  {
  }

  lemma StepInPlaceTells(tail: string, place: Place, c: char)
    requires Tells(tail, At(place, ""))
    ensures Tells(TailAfter(tail, c), Step(At(place, ""), c))
  {
    assert ("" + [c])[0] == c && "" + [c] == [c];
    if tail != "" && c != '<' {
      if place == Outside {
        PrefixStays(if "</b>" <= tail then "</b>" else "</a>", tail, c);
      } else {
        PrefixStays(if place == InBold then "<b>" else "<a href=\"", tail, c);
      }
    }
  }

  lemma StepInPendingTells(tail: string, place: Place, pending: string, c: char)
    requires Tells(tail, At(place, pending)) && pending != ""
    ensures Tells(TailAfter(tail, c), Step(At(place, pending), c))
  {
    var tag := pending + [c];
    assert tag[0] == pending[0] && tag[|tag| - 1] == c;
    if After(place, tag).Some? || Begins(place, tag) {
      NoSecondLess(place, tag);
      if place == InAddress {
        PrefixStays("<a href=\"", tail, c);
      }
    }
  }

  lemma StepTells(tail: string, r: Reading, c: char)
    requires Tells(tail, r)
    ensures Tells(TailAfter(tail, c), Step(r, c))
  {
    hide Tells, TailAfter;
    if r.At? {
      if r.pending == "" {
        StepInPlaceTells(tail, r.place, c);
      } else {
        StepInPendingTells(tail, r.place, r.pending, c);
      }
    } else {
      BrokenTells(TailAfter(tail, c));
    }
  }

  lemma BrokenTells(tail: string)
    ensures Tells(tail, Broken)
  {
  }

  lemma {:induction false} ReadTells(s: string)
    ensures Tells(Tail(s), Read(START, s))
  {
    hide Step, Tail, Tells;
    if s == "" {
      TellsStart();
    } else {
      var n := |s| - 1;
      ReadTells(s[..n]);
      assert s == s[..n] + [s[n]];
      ReadConcat(START, s[..n], [s[n]]);
      ReadFirst(Read(START, s[..n]), [s[n]]);
      TailGrows(s[..n], s[n]);
      StepTells(Tail(s[..n]), Read(START, s[..n]), s[n]);
    }
  }

  lemma TellsStart()
    ensures Tells(Tail(""), START)
  {
  }

  lemma GuardTells(s: string, r: Reading)
    requires r.At? && Tells(Tail(s), r)
    ensures r == START <==> LastTagCloses(s)
  {
    var tail := Tail(s);
    assert LastTagCloses(s) <==> tail == "" || "</b>" <= tail || "</a>" <= tail;
    assert "</b>"[1] == "</a>"[1] == '/' && "<b>"[1] == 'b' && "<a href=\""[1] == 'a';
    if |tail| >= 2 {
      assert "</b>" <= tail || "</a>" <= tail ==> tail[1] == '/';
      assert "<b>" <= tail ==> tail[1] == 'b';
      assert "<a href=\"" <= tail ==> tail[1] == 'a';
    }
    if r.pending != "" && r.pending[0] == '<' {
      PendingIsShort(r.place, tail);
    }
  }

  lemma PendingIsShort(place: Place, part: string)
    requires Begins(place, part)
    ensures !("</b>" <= part) && !("</a>" <= part)
  {
    assert |part| >= 2 && place == Outside ==> part[1] == "<b>"[1] || part[1] == "<a href=\""[1];
  }

  /** Any first part of a balanced text is balanced itself exactly when the guard is quiet. */
  lemma CutIsBalancedIff(s: string, n: nat)
    requires Balanced(s) && n <= |s|
    ensures Balanced(s[..n]) <==> LastTagCloses(s[..n])
  {
    hide Read, Step, Tells, LastTagCloses;
    var r := Read(START, s[..n]);
    assert s == s[..n] + s[n..];
    ReadConcat(START, s[..n], s[n..]);
    BrokenStays(s[n..]);
    ReadTells(s[..n]);
    GuardTells(s[..n], r);
  }

  /** For every article and every limit, exactly when the tags of the formatted message are balanced.
      A draft that fits is balanced.  A trimmed message that keeps a link part is balanced exactly when
      its body leaves open what the link part closes; if that part is the article's own link, or if
      there is none, exactly when the last `<` above the dots begins a complete closing tag. */
  lemma MessageIsBalancedIff(p: Parts, maxLen: int)
    ensures var draft, idx := Draft(p, maxLen), LinkIndex(Draft(p, maxLen));
      var balanced := Balanced(SafetyTrimmed(draft, maxLen));
      && (|draft| <= maxLen ==> balanced)
      && (|draft| > maxLen && idx < 0 ==> (balanced <==> LastTagCloses(SliceTo(draft, maxLen - 10))))
      && (p.url != "" ==> idx >= 0)
      && (|draft| > maxLen && idx >= 0 ==>
            var body := TrimmedBody(draft, idx, maxLen);
            && (balanced <==> Read(START, body) == Read(START, draft[..idx]))
            && (p.url != "" && !HasMark(p.url) ==> (balanced <==> LastTagCloses(body))))
  {
    var draft, idx := Draft(p, maxLen), LinkIndex(Draft(p, maxLen));
    hide *;
    DraftIsBalanced(p, maxLen);
    if p.url != "" {
      LinkIsFound(p, maxLen);
      if |draft| > maxLen && !HasMark(p.url) {
        OwnLinkTags(p, maxLen);
      }
    }
    if |draft| <= maxLen {
      FitsUntrimmed(draft, maxLen);
    } else if idx < 0 {
      UnlinkedTrimTags(draft, maxLen);
      CutAt(draft, SliceTo(draft, maxLen - 10));
    } else {
      LinkedTrimTags(draft, maxLen);
    }
  }

  lemma FitsUntrimmed(draft: string, maxLen: int)
    requires |draft| <= maxLen
    ensures SafetyTrimmed(draft, maxLen) == draft
  {
  }

  lemma CutAt(s: string, cut: string)
    requires Balanced(s) && cut <= s
    ensures Balanced(cut) <==> LastTagCloses(cut)
  {
    hide *;
    assert cut == s[..|cut|];
    CutIsBalancedIff(s, |cut|);
  }

  /** Above its own link the draft leaves nothing open. */
  lemma OwnLinkTags(p: Parts, maxLen: int)
    requires p.url != "" && !HasMark(p.url) && |Draft(p, maxLen)| > maxLen
    ensures var draft, idx := Draft(p, maxLen), LinkIndex(Draft(p, maxLen));
      && idx >= 0 && Read(START, draft[..idx]) == START
      && (Read(START, TrimmedBody(draft, idx, maxLen)) == START <==> LastTagCloses(TrimmedBody(draft, idx, maxLen)))
  {
    var draft, idx := Draft(p, maxLen), LinkIndex(Draft(p, maxLen));
    hide Read, Above, HashtagLine, Link, HasMark, LinkIndex, TrimmedBody, LastTagCloses;
    LinkIsFound(p, maxLen);
    DraftIsBalanced(p, maxLen);
    DraftIsWhole(p, maxLen);
    FrontIsBalanced(p, maxLen);
    Reassociate(Above(p, maxLen), HashtagLine(p), Link(p));
    assert |draft[idx..]| == |draft| - idx;
    assert draft[..idx] == Above(p, maxLen) + HashtagLine(p);
    LinkedTrim(draft, maxLen);
    CutAt(draft, TrimmedBody(draft, idx, maxLen));
  }

  lemma {:induction false} EscapeOfPlain(s: string)
    requires forall i :: 0 <= i < |s| ==> EscapeChar(s[i]) == [s[i]]
    ensures Escape(s) == s
  {
    if s != "" {
      EscapeOfPlain(s[1..]);
    }
  }

  /** A caption whose address is 945 characters long. */
  function LongLinked(): Parts {
    Parts("Release", seq(945, _ => 'u'), false, true, "", "", "", false)
  }

  lemma CaptionAbove(p: Parts, maxLen: int)
    requires p.thumbnail && !p.breaking && p.summary == "" && !p.useContent
    requires p.title != "" && |Escape(p.title)| <= 250
    ensures Above(p, maxLen) == "📰 <b>" + Escape(p.title) + "</b>\n"
  {
    hide Escape;
    TrimmedCases(p.title, 250, ELLIPSIS);
    TrimmedCases(p.summary, SummaryBudget(p, maxLen), ELLIPSIS);
  }

  lemma ReleaseIsPlain()
    ensures Escape("Release") == "Release"
  {
    EscapeOfPlain("Release");
  }

  lemma LongLinkedHeader()
    ensures Above(LongLinked(), 1000) == "📰 <b>Release</b>\n"
  {
    var title := "Release";
    ReleaseIsPlain();
    hide Above, Escape;
    CaptionAbove(LongLinked(), 1000);
    assert "📰 <b>" + title + "</b>\n" == "📰 <b>Release</b>\n";
  }

  lemma LongLinkedLink()
    ensures var p := LongLinked();
      p.url != "" && |Link(p)| == 984 && !HasMark(p.url) && HashtagLine(p) == ""
  {
    var p := LongLinked();
    EscapeOfPlain(p.url);
    NoNewlineNoMark(p.url);
    LinkLength(p);
  }

  lemma LongLinkedBody(draft: string)
    requires |draft| == 1001 && LinkIndex(draft) == 17
    requires draft[..17] == "📰 <b>Release</b>\n"
    ensures TrimmedBody(draft, 17, 1000) == "📰 <b>R" && !LastTagCloses("📰 <b>R")
  {
    var body := "📰 <b>R";
    hide LastIndex, LinkIndex;
    assert |draft[17..]| == 984;
    assert SliceTo(draft[..17], 6) == body;
    LastIndexIs(body, '<', 2);
    DropOpenReferenceIs(body);
    assert body[2..] == "<b>R";
    assert "<b>R"[1] != "</b>"[1] && "<b>R"[1] != "</a>"[1];
  }

  /** At the bot's own caption limit a long address can cost the title its closing tag. */
  lemma LongLinkLeavesBoldOpen()
    ensures var msg := SafetyTrimmed(Draft(LongLinked(), 1000), 1000);
      msg == "📰 <b>R" + "...\n" + Link(LongLinked()) && !Balanced(msg)
  {
    var p := LongLinked();
    var draft := Draft(p, 1000);
    LongLinkedHeader();
    LongLinkedLink();
    LinkIsFound(p, 1000);
    hide Link, LinkIndex, Balanced, Read, HasMark, LongLinked, LastTagCloses, TrimmedBody, HashtagLine, Above;
    assert draft == Above(p, 1000) + Link(p);
    assert |draft| == 1001 && LinkIndex(draft) == 17;
    LongLinkedBody(draft);
    MessageIsBalancedIff(p, 1000);
  }
}

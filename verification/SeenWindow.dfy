/** The bot's duplicate window (telegram_feeder_bot.py:574-632): the ids it has accepted, oldest
    first, held in memory and mirrored line by line in a text file.

    When the window outgrows `max` it is cut to its newest half and the file is rewritten.
 */
module SeenWindow {
  import opened Util

  // ---- text: what one line of the file stands for ----

  /** The characters str.strip() removes. */
  predicate IsSpace(c: char) {
    '\t' <= c <= '\r' || '\U{1C}' <= c <= ' ' || c in "\U{85}\U{A0}\U{1680}\U{2028}\U{2029}\U{202F}\U{205F}\U{3000}"
    || '\U{2000}' <= c <= '\U{200A}'
  }

  /** Line ends of a file opened in text mode. */
  predicate IsBreak(c: char) {
    c == '\n' || c == '\r'
  }

  predicate IsTrimmed(s: string) {
    s == "" || (!IsSpace(s[0]) && !IsSpace(s[|s| - 1]))
  }

  function Strip(s: string): (r: string)
    ensures IsTrimmed(r)
    ensures IsTrimmed(s) ==> r == s
    ensures forall c :: c in r ==> c in s
  {
    if s == "" then s
    else if IsSpace(s[0]) then Strip(s[1..])
    else if IsSpace(s[|s| - 1]) then Strip(s[..|s| - 1])
    else s
  }

  /** By code points: tab to carriage return, the four separators and the space, the next-line and
      no-break spaces, and the wide ones of general punctuation. */
  lemma SpaceCodes(c: char)
    ensures var n := c as int;
      IsSpace(c) <==>
        || 9 <= n <= 13 || 28 <= n <= 32 || n == 133 || n == 160 || n == 5760 || 8192 <= n <= 8202
        || n == 8232 || n == 8233 || n == 8239 || n == 8287 || n == 12288
  {
    var wide := "\U{85}\U{A0}\U{1680}\U{2028}\U{2029}\U{202F}\U{205F}\U{3000}";
    assert c in wide <==> exists i :: 0 <= i < 8 && wide[i] == c;
    assert wide[0] as int == 133 && wide[1] as int == 160 && wide[2] as int == 5760 && wide[3] as int == 8232;
    assert wide[4] as int == 8233 && wide[5] as int == 8239 && wide[6] as int == 8287 && wide[7] as int == 12288;
  }

  /** Stripping takes white space off both ends and nothing else. */
  lemma {:induction false} StripTakesSpacesOff(s: string) returns (pre: string, post: string)
    ensures s == pre + Strip(s) + post
    ensures (forall c :: c in pre ==> IsSpace(c)) && forall c :: c in post ==> IsSpace(c)
    decreases |s|
  {
    hide IsSpace;
    pre, post := "", "";
    if s == "" {
    } else if IsSpace(s[0]) {
      pre, post := StripTakesSpacesOff(s[1..]);
      SpaceInFront(s, pre, Strip(s), post);
      pre := [s[0]] + pre;
    } else if IsSpace(s[|s| - 1]) {
      pre, post := StripTakesSpacesOff(s[..|s| - 1]);
      SpaceBehind(s, pre, Strip(s), post);
      post := post + [s[|s| - 1]];
    }
  }

  lemma SpaceInFront(s: string, pre: string, mid: string, post: string)
    requires s != "" && s[1..] == pre + mid + post
    ensures s == [s[0]] + pre + mid + post
  {
    assert s == [s[0]] + s[1..];
  }

  lemma SpaceBehind(s: string, pre: string, mid: string, post: string)
    requires s != "" && s[..|s| - 1] == pre + mid + post
    ensures s == pre + mid + (post + [s[|s| - 1]])
  {
    assert s == s[..|s| - 1] + [s[|s| - 1]];
  }

  predicate OneLine(s: string) {
    forall i :: 0 <= i < |s| ==> !IsBreak(s[i])
  }

  /** An id that survives a trip through the file. */
  predicate Clean(id: string) {
    id != "" && IsTrimmed(id) && OneLine(id)
  }

  function FirstBreak(f: string): (k: nat)
    ensures k <= |f|
    ensures OneLine(f[..k])
    ensures k < |f| ==> IsBreak(f[k])
  {
    if f == "" || IsBreak(f[0]) then 0 else
      var k := FirstBreak(f[1..]);
      assert f[..k + 1] == [f[0]] + f[1..][..k];
      k + 1
  }

  /** The lines of a file, without their line ends. */
  function Lines(f: string): seq<string> {
    if f == "" then []
    else
      var k := FirstBreak(f);
      if k == |f| then [f] else [f[..k]] + Lines(f[k + 1..])
  }

  predicate Terminated(f: string) {
    f == "" || IsBreak(f[|f| - 1])
  }

  lemma {:induction false} FirstBreakStays(f: string, g: string)
    requires FirstBreak(f) < |f|
    ensures FirstBreak(f + g) == FirstBreak(f)
  {
    if !IsBreak(f[0]) {
      assert (f + g)[1..] == f[1..] + g;
      FirstBreakStays(f[1..], g);
    }
  }

  lemma {:induction false} FirstBreakAtEnd(a: string, g: string)
    requires OneLine(a)
    ensures FirstBreak(a + "\n" + g) == |a|
  {
    var f := a + "\n" + g;
    if a != "" {
      assert f[1..] == a[1..] + "\n" + g;
      FirstBreakAtEnd(a[1..], g);
    }
  }

  lemma FirstLine(f: string, g: string)
    requires Terminated(f) && f != ""
    ensures var k := FirstBreak(f);
      && k < |f| && Terminated(f[k + 1..])
      && Lines(f) == [f[..k]] + Lines(f[k + 1..])
      && Lines(f + g) == [f[..k]] + Lines(f[k + 1..] + g)
  {
    hide OneLine;
    var k := FirstBreak(f);
    TerminatedHasBreak(f);
    FirstBreakStays(f, g);
    assert (f + g)[..k] == f[..k] && (f + g)[k + 1..] == f[k + 1..] + g;
  }

  lemma TerminatedHasBreak(f: string)
    requires Terminated(f) && f != ""
    ensures FirstBreak(f) < |f|
  {
    assert f[..|f|] == f;
  }

  lemma NoLines(g: string)
    ensures "" + g == g && Lines("") == []
    ensures [] + Lines(g) == Lines(g)
  {
    hide FirstBreak;
  }

  lemma {:induction false} LinesAppend(f: string, g: string)
    requires Terminated(f)
    ensures Lines(f + g) == Lines(f) + Lines(g)
  {
    hide *;
    if f == "" {
      NoLines(g);
    } else {
      var k := FirstBreak(f);
      FirstLine(f, g);
      LinesAppend(f[k + 1..], g);
      Reassociate([f[..k]], Lines(f[k + 1..]), Lines(g));
    }
  }

  lemma LinesOne(id: string)
    requires OneLine(id)
    ensures Lines(id + "\n") == [id]
  {
    FirstBreakAtEnd(id, "");
    assert id + "\n" + "" == id + "\n";
    assert (id + "\n")[..|id|] == id;
    assert (id + "\n")[|id| + 1..] == "";
  }

  lemma {:induction false} LinesAreOneLine(f: string)
    ensures forall l :: l in Lines(f) ==> OneLine(l)
  {
    if f != "" {
      var k := FirstBreak(f);
      assert k == |f| ==> f[..k] == f;
      if k < |f| {
        LinesAreOneLine(f[k + 1..]);
      }
    }
  }

  // ---- the window ----

  /** `keys[k:]` for k <= 0: a start before the beginning means everything, and -0 means everything. */
  function TailFrom<T>(s: seq<T>, k: int): seq<T>
    requires k <= 0
  {
    if k == 0 || |s| + k <= 0 then s else s[|s| + k..]
  }

  /** `-max // 2`: the minus binds first, so an odd max rounds away from zero. */
  function CutStart(max: nat): (k: int)
    ensures k <= 0
  {
    var m: int := max;
    (-m) / 2
  }

  /** The cut made when the window is too long: `keys[-max // 2:]`. */
  function Truncate<T>(s: seq<T>, max: nat): seq<T> {
    if |s| > max then TailFrom(s, CutStart(max)) else s
  }

  /** How many ids a cut leaves: half of max, rounded up. */
  function Kept(max: nat): nat {
    (max + 1) / 2
  }

  lemma CutKeepsNewestHalf<T>(s: seq<T>, max: nat)
    requires max >= 1
    ensures |s| > max ==> Truncate(s, max) == s[|s| - Kept(max)..] && |Truncate(s, max)| == Kept(max) == (max + 1) / 2
    ensures |s| <= max ==> Truncate(s, max) == s
    ensures |Truncate(s, max)| <= max
    ensures Distinct(s) ==> Distinct(Truncate(s, max))
  {
  }

  /** Reading one line into the dict: strip it, skip it when blank, keep the first position of an id. */
  function Remember(seen: seq<string>, line: string): seq<string> {
    var id := Strip(line);
    if id == "" || id in seen then seen else seen + [id]
  }

  function RememberAll(seen: seq<string>, lines: seq<string>): seq<string>
    decreases |lines|
  {
    if lines == [] then seen else RememberAll(Remember(seen, lines[0]), lines[1..])
  }

  function Ids(file: string): seq<string> {
    RememberAll([], Lines(file))
  }

  /** _load_seen_ids: what a bot started on this file remembers. */
  function Load(file: string, max: nat): seq<string> {
    Truncate(Ids(file), max)
  }

  function Line(id: string): string {
    id + "\n"
  }

  /** The file written for a list of ids. */
  function Written(ids: seq<string>): string {
    if ids == [] then "" else Line(ids[0]) + Written(ids[1..])
  }

  /** _is_new: the window after an id has been offered. */
  function Admit(seen: seq<string>, id: string, max: nat): seq<string> {
    if id in seen then seen else Truncate(seen + [id], max)
  }

  /** The file after an id has been offered. */
  function FileAfter(seen: seq<string>, file: string, id: string, max: nat): string {
    if id in seen then file
    else if |seen + [id]| > max then Written(Admit(seen, id, max))
    else file + Line(id)
  }

  /** Memory and file agree. */
  ghost predicate InSync(seen: seq<string>, file: string, max: nat) {
    Terminated(file) && Ids(file) == seen && |seen| <= max
  }

  lemma {:induction false} RememberAppend(seen: seq<string>, xs: seq<string>, ys: seq<string>)
    ensures RememberAll(seen, xs + ys) == RememberAll(RememberAll(seen, xs), ys)
    decreases |xs|
  {
    if xs == [] {
      assert xs + ys == ys;
    } else {
      assert (xs + ys)[1..] == xs[1..] + ys;
      RememberAppend(Remember(seen, xs[0]), xs[1..], ys);
    }
  }

  lemma {:induction false} RememberedAreClean(seen: seq<string>, lines: seq<string>)
    requires Distinct(seen) && (forall s :: s in seen ==> Clean(s))
    requires forall l :: l in lines ==> OneLine(l)
    ensures Distinct(RememberAll(seen, lines))
    ensures forall s :: s in RememberAll(seen, lines) ==> Clean(s)
    decreases |lines|
  {
    if lines != [] {
      assert lines[0] in lines;
      var id := Strip(lines[0]);
      assert OneLine(id) by {
        forall i | 0 <= i < |id| ensures !IsBreak(id[i]) {
          assert id[i] in lines[0];
        }
      }
      RememberedAreClean(Remember(seen, lines[0]), lines[1..]);
    }
  }

  /** Whatever the file holds, the ids read from it are distinct, trimmed, single-line and not blank. */
  lemma LoadedIdsAreClean(file: string)
    ensures Distinct(Ids(file))
    ensures forall s :: s in Ids(file) ==> Clean(s)
  {
    LinesAreOneLine(file);
    RememberedAreClean([], Lines(file));
  }

  /** `id` is among the ids that were first read from line j or before it. */
  ghost predicate ReadBy(ids: seq<string>, f: seq<nat>, j: nat, id: string)
    requires |f| == |ids|
  {
    exists k :: 0 <= k < |f| && f[k] <= j && ids[k] == id
  }

  /** `f` gives, per id, the line it was first read from; every line gives an id read from it or before it,
      or is blank. */
  ghost predicate ReadFrom(ids: seq<string>, lines: seq<string>, f: seq<nat>) {
    && |f| == |ids|
    && (forall i, j :: 0 <= i < j < |f| ==> f[i] < f[j])
    && (forall k :: 0 <= k < |f| ==> f[k] < |lines| && Strip(lines[f[k]]) == ids[k] != "")
    && (forall j :: 0 <= j < |lines| ==> Strip(lines[j]) == "" || ReadBy(ids, f, j, Strip(lines[j])))
  }

  lemma {:induction false} RememberLast(seen: seq<string>, lines: seq<string>, line: string)
    ensures RememberAll(seen, lines + [line]) == Remember(RememberAll(seen, lines), line)
  {
    hide Remember;
    RememberAppend(seen, lines, [line]);
    var before := RememberAll(seen, lines);
    assert RememberAll(before, [line]) == RememberAll(Remember(before, line), []);
  }

  lemma KnownBy(ids: seq<string>, f: seq<nat>, j: nat, id: string)
    requires |f| == |ids| && id in ids && forall k :: 0 <= k < |f| ==> f[k] < j
    ensures ReadBy(ids, f, j, id)
  {
  }

  lemma KnownLine(ids: seq<string>, lines: seq<string>, f: seq<nat>, line: string)
    requires ReadFrom(ids, lines, f) && (Strip(line) == "" || Strip(line) in ids)
    ensures ReadFrom(ids, lines + [line], f)
  {
    hide Strip, ReadBy;
    if Strip(line) != "" {
      KnownBy(ids, f, |lines|, Strip(line));
    }
  }

  lemma ReadByStays(ids: seq<string>, f: seq<nat>, j: nat, id: string, next: string, n: nat)
    requires |f| == |ids| && ReadBy(ids, f, j, id)
    ensures ReadBy(ids + [next], f + [n], j, id)
  {
    var k :| 0 <= k < |f| && f[k] <= j && ids[k] == id;
    assert (f + [n])[k] <= j && (ids + [next])[k] == id;
  }

  lemma LastReadBy(ids: seq<string>, f: seq<nat>, id: string, n: nat)
    requires |f| == |ids|
    ensures ReadBy(ids + [id], f + [n], n, id)
  {
    assert (f + [n])[|f|] <= n && (ids + [id])[|f|] == id;
  }

  lemma NewLine(ids: seq<string>, lines: seq<string>, f: seq<nat>, line: string)
    requires ReadFrom(ids, lines, f) && Strip(line) != ""
    ensures ReadFrom(ids + [Strip(line)], lines + [line], f + [|lines|])
  {
    hide Strip, ReadBy;
    var ids', all, g := ids + [Strip(line)], lines + [line], f + [|lines|];
    LastReadBy(ids, f, Strip(line), |lines|);
    forall j | 0 <= j < |all| ensures Strip(all[j]) == "" || ReadBy(ids', g, j, Strip(all[j])) {
      if j < |lines| && Strip(lines[j]) != "" {
        ReadByStays(ids, f, j, Strip(lines[j]), Strip(line), |lines|);
      }
    }
  }

  lemma {:induction false} FirstReadFrom(lines: seq<string>) returns (f: seq<nat>)
    ensures ReadFrom(RememberAll([], lines), lines, f)
    decreases |lines|
  {
    hide *;
    if lines == [] {
      NothingRead();
      return [];
    }
    var n := |lines| - 1;
    var line := lines[n];
    f := FirstReadFrom(lines[..n]);
    var before := RememberAll([], lines[..n]);
    assert lines == lines[..n] + [line];
    RememberLast([], lines[..n], line);
    if Strip(line) == "" || Strip(line) in before {
      KnownLine(before, lines[..n], f, line);
      KnownIsKept(before, line);
    } else {
      NewLine(before, lines[..n], f, line);
      NewIsAdded(before, line);
      f := f + [n];
    }
  }

  lemma NothingRead()
    ensures ReadFrom(RememberAll([], []), [], [])
  {
  }

  lemma KnownIsKept(seen: seq<string>, line: string)
    requires Strip(line) == "" || Strip(line) in seen
    ensures Remember(seen, line) == seen
  {
  }

  lemma NewIsAdded(seen: seq<string>, line: string)
    requires Strip(line) != "" && Strip(line) !in seen
    ensures Remember(seen, line) == seen + [Strip(line)]
  {
  }

  /** What any file is read as: the trimmed text of every line that is not blank, each once, in the order in
      which they first appear. */
  lemma IdsInFirstOrder(file: string) returns (f: seq<nat>)
    ensures var ids, lines := Ids(file), Lines(file);
      && |f| == |ids|
      && (forall i, j :: 0 <= i < j < |f| ==> f[i] < f[j])
      && (forall k :: 0 <= k < |f| ==> f[k] < |lines| && Strip(lines[f[k]]) == ids[k] != "")
      && (forall j :: 0 <= j < |lines| ==> Strip(lines[j]) == "" || ReadBy(ids, f, j, Strip(lines[j])))
      && Distinct(ids)
  {
    hide Strip, Lines, RememberAll, ReadBy;
    f := FirstReadFrom(Lines(file));
    LoadedIdsAreClean(file);
  }

  /** `line` stands in the file at i, holds no line end, and is followed by one or by the end of the file. */
  ghost predicate LineAt(f: string, line: string, i: nat) {
    && i + |line| <= |f| && f[i..i + |line|] == line
    && (forall c :: c in line ==> c != '\n' && c != '\r')
    && (i + |line| < |f| ==> f[i + |line|] == '\n' || f[i + |line|] == '\r')
  }

  /** Where the lines of a file stand: each behind the line end of the one before, and behind the last one
      nothing is left; an empty last line is none. */
  ghost predicate LinesStandAt(f: string, lines: seq<string>, at: seq<nat>) {
    && |at| == |lines| + 1 && at[0] == 0
    && (at[|lines|] == |f| || (lines != [] && at[|lines|] == |f| + 1 && lines[|lines| - 1] != ""))
    && (forall k :: 0 <= k < |lines| ==> LineAt(f, lines[k], at[k]) && at[k + 1] == at[k] + |lines[k]| + 1)
  }

  lemma LineMoved(f: string, k: nat, line: string, i: nat)
    requires k < |f| && LineAt(f[k + 1..], line, i)
    ensures LineAt(f, line, i + k + 1)
  {
    assert f[i + k + 1..i + k + 1 + |line|] == f[k + 1..][i..i + |line|];
  }

  lemma LineBefore(f: string, k: nat, lines: seq<string>, rest: seq<nat>) returns (at: seq<nat>)
    requires k < |f| && LineAt(f, f[..k], 0) && LinesStandAt(f[k + 1..], lines, rest)
    ensures LinesStandAt(f, [f[..k]] + lines, at)
  {
    hide LineAt;
    var moved := seq(|rest|, i requires 0 <= i < |rest| => rest[i] + k + 1);
    at := [0] + moved;
    var all := [f[..k]] + lines;
    forall i | 0 <= i < |all|
      ensures LineAt(f, all[i], at[i]) && at[i + 1] == at[i] + |all[i]| + 1
    {
      assert at[i + 1] == rest[i] + k + 1;
      if i > 0 {
        assert all[i] == lines[i - 1] && at[i] == rest[i - 1] + k + 1;
        LineMoved(f, k, lines[i - 1], rest[i - 1]);
      }
    }
    assert lines != [] ==> all[|all| - 1] == lines[|lines| - 1];
    assert at[|all|] == rest[|lines|] + k + 1;
  }

  /** What the lines of any file are. */
  lemma {:induction false} LinesBetweenBreaks(f: string) returns (at: seq<nat>)
    ensures LinesStandAt(f, Lines(f), at)
    decreases |f|
  {
    if f == "" {
      return [0];
    }
    var k := FirstBreak(f);
    assert LineAt(f, f[..k], 0);
    if k == |f| {
      assert f[..k] == f;
      return [0, |f| + 1];
    }
    at := LinesBetweenBreaks(f[k + 1..]);
    hide LinesStandAt, LineAt, OneLine;
    at := LineBefore(f, k, Lines(f[k + 1..]), at);
  }

  lemma AppendedLine(file: string, id: string)
    requires Terminated(file) && Clean(id)
    ensures Terminated(file + Line(id))
    ensures Ids(file + Line(id)) == if id in Ids(file) then Ids(file) else Ids(file) + [id]
  {
    LinesAppend(file, Line(id));
    LinesOne(id);
    RememberAppend([], Lines(file), [id]);
    assert RememberAll(Ids(file), [id]) == RememberAll(Remember(Ids(file), id), []);
  }

  lemma LineFirst(id: string, rest: string)
    requires Clean(id) && Terminated(rest)
    ensures Terminated(Line(id) + rest)
    ensures Lines(Line(id) + rest) == [id] + Lines(rest)
  {
    hide Lines, OneLine;
    LinesOne(id);
    LinesAppend(Line(id), rest);
  }

  lemma {:induction false} WrittenIsReadBack(ids: seq<string>)
    requires forall s :: s in ids ==> Clean(s)
    ensures Terminated(Written(ids)) && Lines(Written(ids)) == ids
  {
    if ids != [] {
      hide Lines, Terminated, Clean, Line;
      assert ids[0] in ids;
      WrittenIsReadBack(ids[1..]);
      LineFirst(ids[0], Written(ids[1..]));
      assert [ids[0]] + ids[1..] == ids;
    }
  }

  lemma {:induction false} RememberDistinct(seen: seq<string>, ids: seq<string>)
    requires Distinct(seen + ids) && (forall s :: s in ids ==> Clean(s))
    ensures RememberAll(seen, ids) == seen + ids
    decreases |ids|
  {
    if ids == [] {
      assert seen + ids == seen;
    } else {
      assert (seen + ids)[|seen|] == ids[0] && ids[0] in ids;
      assert ids[0] !in seen by {
        forall i | 0 <= i < |seen| ensures seen[i] != ids[0] {
          assert seen[i] == (seen + ids)[i];
        }
      }
      assert seen + ids == (seen + [ids[0]]) + ids[1..];
      RememberDistinct(seen + [ids[0]], ids[1..]);
    }
  }

  /** The file round trip: a window of distinct clean ids is read back as it was written. */
  lemma RoundTrip(ids: seq<string>)
    requires Distinct(ids) && (forall s :: s in ids ==> Clean(s))
    ensures Terminated(Written(ids)) && Ids(Written(ids)) == ids
  {
    hide RememberAll, Written, Lines, Terminated, Clean;
    WrittenIsReadBack(ids);
    assert [] + ids == ids;
    RememberDistinct([], ids);
  }

  lemma AdmittedAreClean(seen: seq<string>, file: string, id: string, max: nat)
    requires max >= 1 && InSync(seen, file, max) && Clean(id)
    ensures Distinct(Admit(seen, id, max)) && |Admit(seen, id, max)| <= max
    ensures forall s :: s in Admit(seen, id, max) ==> Clean(s)
  {
    LoadedIdsAreClean(file);
    CutKeepsNewestHalf(seen + [id], max);
  }

  /** Crash recovery.  After an accepted or refused offer of a clean id, memory and file still agree,
      so a restart loads exactly the window memory holds.  A crash after the id was appended but
      before the cut file was written costs nothing either: loading makes the same cut. */
  lemma RestartRestoresWindow(seen: seq<string>, file: string, id: string, max: nat)
    requires max >= 1 && InSync(seen, file, max) && Clean(id)
    ensures var seen', file' := Admit(seen, id, max), FileAfter(seen, file, id, max);
      && InSync(seen', file', max) && Load(file', max) == seen'
    ensures id !in seen ==> Load(file + Line(id), max) == Admit(seen, id, max)
  {
    LoadedIdsAreClean(file);
    AdmittedAreClean(seen, file, id, max);
    AppendedLine(file, id);
    RoundTrip(Admit(seen, id, max));
  }

  /** Without the premise the promise fails: for a newly accepted id, a restart restores the window
      exactly when the id is one trimmed, non-blank line. */
  lemma RestartRestoresIffClean(seen: seq<string>, file: string, id: string, max: nat)
    requires max >= 1 && InSync(seen, file, max) && id !in seen
    ensures Load(FileAfter(seen, file, id, max), max) == Admit(seen, id, max) <==> Clean(id)
  {
    if Clean(id) {
      RestartRestoresWindow(seen, file, id, max);
    } else {
      var file' := FileAfter(seen, file, id, max);
      LoadedIdsAreClean(file');
      CutKeepsNewestHalf(seen + [id], max);
      CutKeepsNewestHalf(Ids(file'), max);
      var seen' := Admit(seen, id, max);
      assert seen'[|seen'| - 1] == id;
      if Load(file', max) == seen' {
        assert false;
      }
    }
  }

  /** A blank id is accepted, appended, and forgotten by the next start. */
  lemma BlankIdIsForgotten()
    ensures Admit([], "", 10000) == [""]
    ensures Load(FileAfter([], "", "", 10000), 10000) == []
  {
    LinesOne("");
    assert "" + Line("") == "" + "\n" == Line("");
    assert RememberAll([], [""]) == RememberAll(Remember([], ""), []);
  }

  // ---- a rewrite that stops half way ----

  /** A written file cut after c characters: k whole lines, and the beginning of the next id. */
  ghost predicate IsTorn(ids: seq<string>, c: nat, k: nat, part: string) {
    && k <= |ids| && c <= |Written(ids)| && Written(ids)[..c] == Written(ids[..k]) + part
    && (if k < |ids| then part <= ids[k] else part == "")
  }

  lemma {:induction false} WhereTorn(ids: seq<string>, c: nat) returns (k: nat, part: string)
    requires c <= |Written(ids)|
    ensures IsTorn(ids, c, k, part)
  {
    if ids == [] {
      return 0, "";
    }
    var line, rest := Line(ids[0]), Written(ids[1..]);
    if c < |line| {
      assert Written(ids)[..c] == ids[0][..c];
      return 0, ids[0][..c];
    }
    k, part := WhereTorn(ids[1..], c - |line|);
    assert Written(ids)[..c] == line + rest[..c - |line|];
    assert ids[..k + 1] == [ids[0]] + ids[1..][..k];
    Reassociate(line, Written(ids[1..][..k]), part);
    k := k + 1;
  }

  lemma OneUnfinishedLine(part: string)
    requires part != "" && OneLine(part)
    ensures Lines(part) == [part]
  {
    assert FirstBreak(part) == |part|;
  }

  lemma UnfinishedLine(file: string, part: string)
    requires Terminated(file) && OneLine(part) && part != ""
    ensures Ids(file + part) == Remember(Ids(file), part)
  {
    hide Strip, Lines, OneLine;
    OneUnfinishedLine(part);
    LinesAppend(file, part);
    RememberAppend([], Lines(file), [part]);
    assert RememberAll(Ids(file), [part]) == RememberAll(Remember(Ids(file), part), []);
  }

  lemma BeginningOfId(id: string, part: string)
    requires Clean(id) && part <= id && part != ""
    ensures OneLine(part) && Strip(part) != "" && part[0] == id[0]
    ensures Strip(part) == id <==> part == id
  {
    StripKeepsFirst(part);
    StripShortens(part);
  }

  lemma {:induction false} StripKeepsFirst(s: string)
    requires s != "" && !IsSpace(s[0])
    ensures Strip(s) != ""
    decreases |s|
  {
    if IsSpace(s[|s| - 1]) {
      StripKeepsFirst(s[..|s| - 1]);
    }
  }

  lemma {:induction false} StripShortens(s: string)
    ensures |Strip(s)| <= |s|
    decreases |s|
  {
    if s == "" {
    } else if IsSpace(s[0]) {
      StripShortens(s[1..]);
    } else if IsSpace(s[|s| - 1]) {
      StripShortens(s[..|s| - 1]);
    }
  }

  /** What the cut file loads: the ids of its whole lines, and then what is left of the next id. */
  lemma TornFileLoads(ids: seq<string>, c: nat, k: nat, part: string)
    requires Distinct(ids) && (forall s :: s in ids ==> Clean(s)) && IsTorn(ids, c, k, part)
    ensures Ids(Written(ids)[..c]) == if part == "" then ids[..k] else Remember(ids[..k], part)
  {
    hide Strip, Lines, Written, Clean;
    RoundTrip(ids[..k]);
    if part == "" {
      assert Written(ids[..k]) + part == Written(ids[..k]);
    } else {
      assert ids[k] in ids;
      BeginningOfId(ids[k], part);
      UnfinishedLine(Written(ids[..k]), part);
    }
  }

  /** An append that stops half way: the next start remembers what is left of the id, and the next id
      appended is glued to it and forgotten, unless it was known before. */
  lemma TornAppend(seen: seq<string>, file: string, id: string, max: nat, part: string, next: string)
    requires InSync(seen, file, max) && Clean(id) && part <= id && part != "" && Clean(next)
    ensures Ids(file + part) == Remember(seen, part)
    ensures next in Ids(file + part + Line(next)) <==> next in seen
  {
    hide Strip, Lines, RememberAll;
    BeginningOfId(id, part);
    UnfinishedLine(file, part);
    GluedIsClean(id, part, next);
    AppendedLine(file, part + next);
    GluedIsAnother(part, next);
    GluedLine(file, part, next);
  }

  /** What an append to the cut file does: the id is glued to what is left of the other, and both are
      lost to the next start. */
  lemma AppendToTornFile(ids: seq<string>, c: nat, k: nat, part: string, id: string)
    requires Distinct(ids) && (forall s :: s in ids ==> Clean(s)) && IsTorn(ids, c, k, part) && Clean(id)
    ensures var glued := part + id;
      Ids(Written(ids)[..c] + Line(id)) == if glued in ids[..k] then ids[..k] else ids[..k] + [glued]
  {
    hide Strip, Lines, Written, RememberAll, Clean, Line;
    RoundTrip(ids[..k]);
    if part == "" {
      assert part + id == id;
    } else {
      assert ids[k] in ids;
      GluedIsClean(ids[k], part, id);
    }
    AppendedLine(Written(ids[..k]), part + id);
    GluedLine(Written(ids[..k]), part, id);
  }

  lemma GluedIsClean(id: string, part: string, next: string)
    requires Clean(id) && part <= id && part != "" && Clean(next)
    ensures Clean(part + next)
  {
    hide IsSpace;
  }

  lemma GluedLine(file: string, part: string, next: string)
    ensures file + part + Line(next) == file + Line(part + next)
  {
  }

  /** The rewrite itself is not atomic.  After a crash that leaves `c` characters of the rewritten file,
      the next start loads the ids of the whole lines and whatever is left of the one after them.  That
      is the whole window exactly when at most the last line end is missing; otherwise the newest ids are
      forgotten.  If the file ends inside a line, the next id accepted is forgotten as well. */
  lemma TornRewriteForgetsNewest(seen: seq<string>, file: string, id: string, max: nat, c: nat, next: string)
    returns (k: nat, part: string)
    requires max >= 1 && InSync(seen, file, max) && Clean(id) && id !in seen && |seen| == max && Clean(next)
    requires c <= |Written(Admit(seen, id, max))|
    ensures var w := Admit(seen, id, max);
      var torn := Written(w)[..c];
      && IsTorn(w, c, k, part)
      && Load(torn, max) == (if part == "" then w[..k] else Remember(w[..k], part))
      && (Load(torn, max) == w <==> c + 1 >= |Written(w)|)
      && (next in Ids(torn + Line(next)) <==> part == "" || next in w[..k])
  {
    hide Strip, Lines, Written, Clean, RememberAll, IsTorn, Line;
    var w := Admit(seen, id, max);
    AdmittedAreClean(seen, file, id, max);
    CutKeepsNewestHalf(seen + [id], max);
    k, part := WhereTorn(w, c);
    TornFileLoads(w, c, k, part);
    AppendToTornFile(w, c, k, part, next);
    WholeIffFinished(w, c, k, part);
    GluedIsAnother(part, next);
    TornIsShort(w, c, k, part);
  }

  lemma TornIsShort(ids: seq<string>, c: nat, k: nat, part: string)
    requires IsTorn(ids, c, k, part)
    ensures k <= |ids| && |if part == "" then ids[..k] else Remember(ids[..k], part)| <= |ids|
  {
    hide Strip, Written;
  }

  lemma GluedIsAnother(part: string, id: string)
    ensures part + id == id <==> part == ""
  {
    assert |part + id| == |part| + |id|;
  }

  lemma {:induction false} WrittenSize(ids: seq<string>, k: nat)
    requires k < |ids|
    ensures k == |ids| - 1 ==> |Written(ids)| == |Written(ids[..k])| + |ids[k]| + 1
    ensures k < |ids| - 1 ==> |Written(ids)| > |Written(ids[..k])| + |ids[k]| + 1
  {
    if k == 0 {
      assert |ids| > 1 ==> Written(ids[1..]) == Line(ids[1]) + Written(ids[1..][1..]);
    } else {
      assert ids[..k] == [ids[0]] + ids[1..][..k - 1];
      WrittenSize(ids[1..], k - 1);
    }
  }

  lemma WholeIffFinished(ids: seq<string>, c: nat, k: nat, part: string)
    requires ids != [] && Distinct(ids) && (forall s :: s in ids ==> Clean(s)) && IsTorn(ids, c, k, part)
    ensures (if part == "" then ids[..k] else Remember(ids[..k], part)) == ids <==> c + 1 >= |Written(ids)|
  {
    hide Strip, Written, Clean;
    assert c == |Written(ids[..k])| + |part|;
    if k == |ids| {
      assert ids[..k] == ids;
    } else {
      assert ids[k] in ids;
      WrittenSize(ids, k);
      if part != "" {
        BeginningOfId(ids[k], part);
      }
      NoRoomForMore(ids, k, part);
      assert |part| == |ids[k]| <==> part == ids[k];
    }
  }

  lemma NoRoomForMore(ids: seq<string>, k: nat, part: string)
    requires k < |ids| && Distinct(ids) && part <= ids[k] && Clean(ids[k])
    requires part != "" ==> Strip(part) != "" && (Strip(part) == ids[k] <==> part == ids[k])
    ensures (if part == "" then ids[..k] else Remember(ids[..k], part)) == ids <==> k == |ids| - 1 && part == ids[k]
  {
    hide Strip;
    if part == ids[k] {
      assert ids[k] !in ids[..k];
      assert k == |ids| - 1 ==> ids[..k] + [ids[k]] == ids;
    }
    var loaded := if part == "" then ids[..k] else Remember(ids[..k], part);
    assert |loaded| <= k + 1;
    assert |loaded| == k + 1 ==> loaded[k] == Strip(part);
  }

  // ---- the object ----

  class SeenIds {
    const max: nat
    var seen: seq<string>
    var file: string

    ghost predicate Valid()
      reads this
    {
      max >= 1 && InSync(seen, file, max)
    }

    /** Start-up: read the file; when it has outgrown the window, cut it and write it back. */
    constructor (max: nat, file: string)
      requires max >= 1
      ensures this.max == max && seen == Load(file, max)
      ensures |Ids(file)| <= max ==> seen == Ids(file) && this.file == file
      ensures |Ids(file)| > max ==> seen == Ids(file)[|Ids(file)| - (max + 1) / 2..] && this.file == Written(seen)
      ensures Store(seen, this.file) == Restarted(file, max)
      ensures Terminated(file) ==> Valid()
    {
      var lines := Lines(file);
      var read: seq<string> := [];
      var i := 0;
      while i < |lines|
        invariant 0 <= i <= |lines|
        invariant RememberAll(read, lines[i..]) == Ids(file)
      {
        var id := Strip(lines[i]);
        assert lines[i..][0] == lines[i] && lines[i..][1..] == lines[i + 1..];
        if id != "" && id !in read {
          read := read + [id];
        }
        i := i + 1;
      }
      CutKeepsNewestHalf(read, max);
      LoadedIdsAreClean(file);
      this.max := max;
      this.file := file;
      if |read| > max {
        read := TailFrom(read, CutStart(max));
        RoundTrip(read);
        this.file := Written(read);
      }
      this.seen := read;
    }

    method IsNew(id: string) returns (isNew: bool)
      requires max >= 1
      modifies this
      ensures isNew == (id !in old(seen))
      ensures seen == Admit(old(seen), id, max)
      ensures file == FileAfter(old(seen), old(file), id, max)
      ensures !isNew ==> seen == old(seen) && file == old(file)
      ensures isNew && |old(seen)| < max ==> seen == old(seen) + [id] && file == old(file) + id + "\n"
      ensures isNew && |old(seen)| >= max ==>
        && seen == (old(seen) + [id])[|old(seen)| + 1 - (max + 1) / 2..]
        && file == Written(seen)
      ensures old(Valid()) && Clean(id) ==> Valid()
    {
      if max >= 1 && InSync(seen, file, max) && Clean(id) {
        RestartRestoresWindow(seen, file, id, max);
      }
      if id in seen {
        return false;
      }
      seen := seen + [id];
      file := file + Line(id);
      if |seen| > max {
        var kept := TailFrom(seen, CutStart(max));
        seen := kept;
        file := Written(kept);
      }
      return true;
    }
  }

  // ---- runs ----

  /** The window after a sequence of offers. */
  function WindowAfter(w: seq<string>, ids: seq<string>, max: nat): seq<string>
    decreases |ids|
  {
    if ids == [] then w else Admit(WindowAfter(w, ids[..|ids| - 1], max), ids[|ids| - 1], max)
  }

  predicate Accepted(w: seq<string>, ids: seq<string>, max: nat, i: nat)
    requires i < |ids|
  {
    ids[i] !in WindowAfter(w, ids[..i], max)
  }

  /** The ids other than ids[i] accepted strictly between i and j. */
  function OthersBetween(w: seq<string>, ids: seq<string>, max: nat, i: nat, j: nat): set<string>
    requires i < j <= |ids|
  {
    set k | i < k < j && Accepted(w, ids, max, k) && ids[k] != ids[i] :: ids[k]
  }

  lemma {:induction false} WindowStaysDistinct(w: seq<string>, ids: seq<string>, max: nat)
    requires max >= 1 && Distinct(w) && |w| <= max
    ensures Distinct(WindowAfter(w, ids, max)) && |WindowAfter(w, ids, max)| <= max
    decreases |ids|
  {
    if ids != [] {
      var n := |ids| - 1;
      WindowStaysDistinct(w, ids[..n], max);
      CutKeepsNewestHalf(WindowAfter(w, ids[..n], max) + [ids[n]], max);
    }
  }

  /** x is in the window, followed by fewer ids than a cut keeps, all of them from `others`. */
  ghost predicate SafeAt(w: seq<string>, x: string, others: set<string>, max: nat, p: nat) {
    p < |w| && w[p] == x && |w| - p - 1 < Kept(max) && Elements(w[p + 1..]) <= others
  }

  /** A stretch of a window drawn from `others` shows how many others there are. */
  lemma StretchSize(w: seq<string>, p: nat, others: set<string>)
    requires Distinct(w) && p <= |w| && Elements(w[p..]) <= others
    ensures |w| - p <= |others|
  {
    assert Distinct(w[p..]);
    DistinctSize(w[p..]);
    SubsetSize(Elements(w[p..]), others);
  }

  lemma ElementsAppend(s: seq<string>, y: string, others: set<string>)
    requires Elements(s) <= others && y in others
    ensures Elements(s + [y]) <= others
  {
  }

  /** Where x stands after a cut, if fewer ids follow it than a cut keeps. */
  lemma CutKeepsPlace(w: seq<string>, p: nat, max: nat) returns (p': nat)
    requires max >= 1 && p < |w| && |w| - p - 1 < Kept(max)
    ensures var c := Truncate(w, max); p' < |c| && c[p'] == w[p] && c[p' + 1..] == w[p + 1..]
  {
    CutKeepsNewestHalf(w, max);
    var c := Truncate(w, max);
    p' := p - (|w| - |c|);
    assert c == w[|w| - |c|..];
  }

  lemma AdmitKeepsSafe(w: seq<string>, x: string, y: string, others: set<string>, max: nat, p: nat)
    returns (p': nat)
    requires max >= 1 && Distinct(w) && |w| <= max && SafeAt(w, x, others, max, p)
    requires y !in w ==> y in others
    ensures SafeAt(Admit(w, y, max), x, others, max, p') || |others| >= Kept(max)
  {
    hide Elements, Truncate, Kept;
    p' := p;
    if y !in w {
      var w' := w + [y];
      assert w'[p + 1..] == w[p + 1..] + [y];
      ElementsAppend(w[p + 1..], y, others);
      if |w'| - p - 1 >= Kept(max) {
        StretchSize(w', p + 1, others);
      } else {
        p' := CutKeepsPlace(w', p, max);
      }
    }
  }

  lemma {:induction false} SafeUntilCrowdedOut(w: seq<string>, ids: seq<string>, max: nat, i: nat, m: nat)
    returns (p: nat)
    requires max >= 1 && Distinct(w) && |w| <= max
    requires i < m <= |ids| && Accepted(w, ids, max, i)
    ensures |OthersBetween(w, ids, max, i, m)| >= Kept(max)
         || SafeAt(WindowAfter(w, ids[..m], max), ids[i], OthersBetween(w, ids, max, i, m), max, p)
    decreases m
  {
    var x, n := ids[i], m - 1;
    assert ids[..m][..n] == ids[..n];
    WindowStaysDistinct(w, ids[..n], max);
    var wn := WindowAfter(w, ids[..n], max);
    assert WindowAfter(w, ids[..m], max) == Admit(wn, ids[n], max);
    if n == i {
      CutKeepsNewestHalf(wn + [x], max);
      var wm := Admit(wn, x, max);
      p := |wm| - 1;
      assert wm[p + 1..] == [];
    } else {
      var others, others' := OthersBetween(w, ids, max, i, n), OthersBetween(w, ids, max, i, m);
      p := SafeUntilCrowdedOut(w, ids, max, i, n);
      SubsetSize(others, others');
      if |others| < Kept(max) {
        assert Elements(wn[p + 1..]) <= others';
        assert ids[n] !in wn ==> ids[n] in others' by {
          assert x in wn;
          assert Accepted(w, ids, max, n) == (ids[n] !in wn);
        }
        p := AdmitKeepsSafe(wn, x, ids[n], others', max, p);
      }
    }
  }

  /** The duplicate window's promise, over any run of offers: an id is accepted a second time only
      after at least Kept(max) different other ids have been accepted in between. */
  lemma AcceptedAgainOnlyAfterOthers(w: seq<string>, ids: seq<string>, max: nat, i: nat, j: nat)
    requires max >= 1 && Distinct(w) && |w| <= max
    requires i < j < |ids| && ids[i] == ids[j]
    requires Accepted(w, ids, max, i) && Accepted(w, ids, max, j)
    ensures |OthersBetween(w, ids, max, i, j)| >= Kept(max) == (max + 1) / 2
  {
    var p := SafeUntilCrowdedOut(w, ids, max, i, j);
  }

  // ---- runs with restarts and crashes ----

  datatype Event =
    | Offer(id: string)            // _is_new runs to the end
    | OfferThenCrash(id: string)   // the process dies after the append, before any rewrite, and restarts
    | Restart

  datatype Store = Store(seen: seq<string>, file: string)

  function Restarted(file: string, max: nat): Store {
    var seen := Load(file, max);
    Store(seen, if |Ids(file)| > max then Written(seen) else file)
  }

  function StoreStep(s: Store, e: Event, max: nat): Store {
    match e
    case Offer(id) => Store(Admit(s.seen, id, max), FileAfter(s.seen, s.file, id, max))
    case OfferThenCrash(id) => Restarted(if id in s.seen then s.file else s.file + Line(id), max)
    case Restart => Restarted(s.file, max)
  }

  function StoreRun(s: Store, es: seq<Event>, max: nat): Store
    decreases |es|
  {
    if es == [] then s else StoreStep(StoreRun(s, es[..|es| - 1], max), es[|es| - 1], max)
  }

  /** The offers of a run, restarts forgotten. */
  function Offers(es: seq<Event>): seq<string> {
    if es == [] then []
    else Offers(es[..|es| - 1]) + (if es[|es| - 1].Restart? then [] else [es[|es| - 1].id])
  }

  lemma StoreStepAdmits(s: Store, e: Event, max: nat)
    requires max >= 1 && InSync(s.seen, s.file, max)
    requires !e.Restart? ==> Clean(e.id)
    ensures var s' := StoreStep(s, e, max);
      && InSync(s'.seen, s'.file, max)
      && s'.seen == if e.Restart? then s.seen else Admit(s.seen, e.id, max)
  {
    if !e.Restart? {
      RestartRestoresWindow(s.seen, s.file, e.id, max);
      AdmittedAreClean(s.seen, s.file, e.id, max);
      RoundTrip(Admit(s.seen, e.id, max));
      AppendedLine(s.file, e.id);
    }
  }

  /** Restarts, and crashes between append and rewrite, are invisible: over any run the window is
      the one an uninterrupted process would hold after the same offers. */
  lemma {:induction false} RestartsAreInvisible(s: Store, es: seq<Event>, max: nat)
    requires max >= 1 && InSync(s.seen, s.file, max)
    requires forall i :: 0 <= i < |es| && !es[i].Restart? ==> Clean(es[i].id)
    ensures var s' := StoreRun(s, es, max);
      InSync(s'.seen, s'.file, max) && s'.seen == WindowAfter(s.seen, Offers(es), max)
    decreases |es|
  {
    if es != [] {
      var n := |es| - 1;
      RestartsAreInvisible(s, es[..n], max);
      StoreStepAdmits(StoreRun(s, es[..n], max), es[n], max);
      if !es[n].Restart? {
        assert Offers(es)[..|Offers(es)| - 1] == Offers(es[..n]);
      } else {
        assert Offers(es) == Offers(es[..n]);
      }
    }
  }
}

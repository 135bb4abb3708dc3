/** Replacing one table of a configuration text line by line: `_with_google_resolution`
    and what `_resolve_google_builtin` verifies about it (bin/clarp-admin.py). */
module ConfigRewrite {

  // A header's name by its parts.
  type Path = seq<string>

  // A line by what is left of it before a `#`, stripped: [name], key = value, or
  // nothing. Of lines with nothing, only the blank ones are ever stripped.
  datatype Line = Header(table: Path) | Entry(key: string, value: string) | Comment | Blank

  const ROOT: Path := []
  const TTS: Path := ["tts"]
  const NAME := "google_resolution"
  const RESOLUTION: Path := [TTS[0], NAME]

  // --- what a text means ---------------------------------------------------------------

  type Table = map<string, string>

  // Every table there is, by its path: those given and those they lie in.
  type Doc = map<Path, Table>

  // The tables so far, the headers given, and the table that entries go to.
  datatype Parsed = Bad | Parsed(doc: Doc, given: set<Path>, at: Path)

  // Some table on the way down is a key already.
  predicate Clashes(doc: Doc, path: Path) {
    exists i :: 0 <= i < |path| && path[..i] in doc && path[i] in doc[path[..i]]
  }

  predicate Under(q: Path, path: Path) { q <= path }

  // A table lies in its parents, which need no header of their own.
  function WithTable(doc: Doc, path: Path): (r: Doc)
    ensures forall q :: q in r <==> q in doc || (Under(q, path) && q != ROOT)
    ensures forall q :: q in doc ==> r[q] == doc[q]
    ensures forall q :: q in r && q !in doc ==> r[q] == map[]
  {
    if path == ROOT then doc
    else
      var up := WithTable(doc, path[..|path| - 1]);
      assert forall q :: Under(q, path) <==> q == path || Under(q, path[..|path| - 1]);
      if path in up then up else up[path := map[]]
  }

  function Step(p: Parsed, line: Line): Parsed {
    if p.Bad? then Bad
    else match line
      case Header(t) =>
        if t == ROOT || t in p.given || Clashes(p.doc, t) then Bad
        else Parsed(WithTable(p.doc, t), p.given + {t}, t)
      case Entry(k, v) =>
        if p.at !in p.doc || k in p.doc[p.at] || p.at + [k] in p.doc then Bad
        else Parsed(p.doc[p.at := p.doc[p.at][k := v]], p.given, p.at)
      case Comment => p
      case Blank => p
  }

  function ParseFrom(lines: seq<Line>, p: Parsed): Parsed {
    if lines == [] then p else ParseFrom(lines[1..], Step(p, lines[0]))
  }

  const EMPTY := Parsed(map[ROOT := map[]], {}, ROOT)

  // A header may be given once, a name be a key or a table; entries before any
  // header are the root's.
  function Parse(lines: seq<Line>): Parsed { ParseFrom(lines, EMPTY) }

  // --- the rewrite -----------------------------------------------------------------------

  // The lines that stay: of the old table, everything up to a blank or comment line goes.
  function Kept(lines: seq<Line>, skipping: bool): seq<Line> {
    if lines == [] then []
    else
      var next := Skips(lines[0], skipping);
      (if next || lines[0] == Header(RESOLUTION) then [] else [lines[0]]) + Kept(lines[1..], next)
  }

  function Skips(line: Line, skipping: bool): bool {
    match line
    case Header(t) => t == RESOLUTION
    case Entry(_, _) => skipping
    case Comment => false
    case Blank => false
  }

  function Stripped(lines: seq<Line>): seq<Line> {
    if lines != [] && lines[|lines| - 1] == Blank then Stripped(lines[..|lines| - 1]) else lines
  }

  function TableLines(packages: string): seq<Line> {
    [Header(RESOLUTION), Entry("choice", "\"builtin\""), Entry("packages", packages)]
  }

  function Expected(packages: string): Table { map["choice" := "\"builtin\"", "packages" := packages] }

  // What joining with "\n" and appending "\n\n" leaves between.
  function Gap(kept: seq<Line>): seq<Line> { if kept == [] then [Blank, Blank] else [Blank] }

  function Rewritten(lines: seq<Line>, packages: string): seq<Line> {
    var kept := Stripped(Kept(lines, false));
    kept + Gap(kept) + TableLines(packages)
  }

  /** The loop over the lines, and the one that drops trailing blanks. */
  method WithResolution(lines: seq<Line>, packages: string) returns (text: seq<Line>)
    ensures text == Rewritten(lines, packages)
  {
    var kept: seq<Line>, skipping := [], false;
    for i := 0 to |lines|
      invariant kept + Kept(lines[i..], skipping) == Kept(lines, false)
    {
      var line := lines[i];
      assert lines[i..][0] == line && lines[i..][1..] == lines[i + 1..];
      ghost var was, before := skipping, kept;
      if line.Header? {
        skipping := line.table == RESOLUTION;
        if skipping {
          assert before + Kept(lines[i..], was) == before + Kept(lines[i + 1..], true);
          continue;
        }
      } else if skipping && (line.Blank? || line.Comment?) {
        skipping := false;
      }
      if !skipping {
        kept := kept + [line];
      }
      assert before + Kept(lines[i..], was) == kept + Kept(lines[i + 1..], skipping);
    }
    assert lines[|lines|..] == [] && kept + [] == kept;
    while kept != [] && kept[|kept| - 1] == Blank
      invariant Stripped(kept) == Stripped(Kept(lines, false))
    {
      kept := kept[..|kept| - 1];
    }
    text := kept + Gap(kept) + TableLines(packages);
  }

  // --- rewriting twice -----------------------------------------------------------------------

  ghost predicate Clean(lines: seq<Line>) {
    forall i :: 0 <= i < |lines| ==> lines[i] != Header(RESOLUTION)
  }

  lemma {:induction false} KeptIsClean(lines: seq<Line>, skipping: bool)
    ensures Clean(Kept(lines, skipping))
  {
    if lines != [] {
      KeptIsClean(lines[1..], Skips(lines[0], skipping));
    }
  }

  // Without the old table, nothing is dropped.
  lemma {:induction false} CleanIsKept(lines: seq<Line>, rest: seq<Line>)
    requires Clean(lines)
    ensures Kept(lines + rest, false) == lines + Kept(rest, false)
  {
    if lines == [] {
      assert lines + rest == rest;
    } else {
      assert (lines + rest)[1..] == lines[1..] + rest;
      CleanIsKept(lines[1..], rest);
    }
  }

  lemma {:induction false} StrippedOnce(lines: seq<Line>)
    ensures Stripped(Stripped(lines)) == Stripped(lines) && Stripped(lines + [Blank]) == Stripped(lines)
    ensures Clean(lines) ==> Clean(Stripped(lines))
  {
    assert (lines + [Blank])[..|lines|] == lines;
    if lines != [] && lines[|lines| - 1] == Blank {
      StrippedOnce(lines[..|lines| - 1]);
    }
  }

  lemma TableIsDropped(packages: string)
    ensures Kept(TableLines(packages), false) == []
  {
    var table := TableLines(packages);
    assert table[1..] == [table[1], table[2]];
    assert [table[1], table[2]][1..] == [table[2]] && [table[2]][1..] == [];
    assert Kept([table[2]], true) == [];
    assert Kept([table[1], table[2]], true) == [];
  }

  /** Whatever the text, rewriting it twice is the last rewrite alone. */
  lemma LastRewriteCounts(lines: seq<Line>, first: string, second: string)
    ensures Rewritten(Rewritten(lines, first), second) == Rewritten(lines, second)
  {
    var kept := Stripped(Kept(lines, false));
    KeptIsClean(lines, false);
    StrippedOnce(Kept(lines, false));
    var table := TableLines(first);
    TableIsDropped(first);
    CleanIsKept(kept + Gap(kept), table);
    assert Kept(Rewritten(lines, first), false) == kept + Gap(kept);
    StrippedOnce(kept);
    if kept == [] {
      assert kept + Gap(kept) == (kept + [Blank]) + [Blank];
      StrippedOnce(kept + [Blank]);
    }
  }

  // --- what the command looks at ----------------------------------------------------------

  // Given other than as one plain table: under a header of its own, with tables in it,
  // or as a key.
  predicate Refused(lines: seq<Line>, doc: Doc) {
    Nested(lines) || (Header(RESOLUTION) !in lines && (RESOLUTION in doc || (TTS in doc && NAME in doc[TTS])))
  }

  predicate Nested(lines: seq<Line>) {
    exists i :: 0 <= i < |lines| && lines[i].Header? && RESOLUTION < lines[i].table
  }

  // Everything but the resolution, however it is given.
  function Without(doc: Doc): Doc {
    map p | p in doc && !(RESOLUTION <= p) :: if p == TTS then doc[p] - {NAME} else doc[p]
  }

  // What the command checks of the file it wrote.
  predicate Verified(before: Doc, after: Parsed, packages: string) {
    && after.Parsed?
    && RESOLUTION in after.doc && after.doc[RESOLUTION] == Expected(packages)
    && (forall p :: p in after.doc && RESOLUTION <= p ==> p == RESOLUTION)
    && Without(after.doc) == Without(before)
  }

  // The text has a table `tts`, by a header of its own or by one of a table in it.
  predicate HasTts(lines: seq<Line>) { exists i :: 0 <= i < |lines| && lines[i].Header? && TTS <= lines[i].table }

  // --- what the rewrite does to the meaning -----------------------------------------------

  // An entry of the old table that a blank or comment line separates from its start:
  // its own header goes, the entry stays.
  predicate Leaks(lines: seq<Line>, inTable: bool, skipping: bool) {
    lines != [] &&
    ((lines[0].Entry? && inTable && !skipping)
     || Leaks(lines[1..], if lines[0].Header? then lines[0].table == RESOLUTION else inTable,
              Skips(lines[0], skipping)))
  }

  // No name is both a key and a table.
  ghost predicate Apart(doc: Doc) { forall q, k :: q in doc && k in doc[q] ==> q + [k] !in doc }

  // The tables of the whole text that stay when the old one goes: all but it, and but a
  // `tts` that is there for its sake alone.
  ghost predicate Stay(whole: Doc, left: Doc) {
    && (forall q :: q in left ==> q in whole && q != RESOLUTION && left[q] == whole[q])
    && (forall q :: q in whole && q !in left ==>
         RESOLUTION in whole && (q == RESOLUTION || (q == TTS && whole[TTS] == map[])))
  }

  // The parse of what stays, against the parse of the whole: entries go where they
  // would have gone before the old header.
  ghost predicate Follows(whole: Parsed, left: Parsed) {
    && whole.Parsed? && left.Parsed?
    && Stay(whole.doc, left.doc) && Apart(whole.doc) && left.given == whole.given - {RESOLUTION}
    && ROOT in left.doc && left.at in left.doc && (left.at == ROOT || left.at in left.given)
    && whole.at in whole.doc && (whole.at == RESOLUTION || left.at == whole.at)
    && (RESOLUTION in whole.doc <==> RESOLUTION in whole.given)
    && (forall q :: q in whole.doc && RESOLUTION <= q ==> q == RESOLUTION)
  }

  lemma {:induction false} BadStaysBad(lines: seq<Line>)
    ensures ParseFrom(lines, Bad) == Bad
  {
    if lines != [] {
      BadStaysBad(lines[1..]);
    }
  }

  // Parsing what stays, one line of the whole at a time.
  lemma KeptStep(lines: seq<Line>, left: Parsed, skipping: bool)
    requires lines != []
    ensures var next := Skips(lines[0], skipping);
            var dropped := next || lines[0] == Header(RESOLUTION);
            ParseFrom(Kept(lines, skipping), left) ==
            ParseFrom(Kept(lines[1..], next), if dropped then left else Step(left, lines[0]))
  {
    var next := Skips(lines[0], skipping);
    var rest := Kept(lines[1..], next);
    if next || lines[0] == Header(RESOLUTION) {
      assert Kept(lines, skipping) == [] + rest == rest;
    } else {
      assert Kept(lines, skipping) == [lines[0]] + rest && ([lines[0]] + rest)[1..] == rest;
    }
  }

  lemma OneDown(q: Path, k: string, t: Path)
    ensures Under(q + [k], t) ==> |q| < |t| && t[..|q|] == q && t[|q|] == k
  {
    if |q| < |t| && t[..|q| + 1] == q + [k] {
      assert t[..|q|] == t[..|q| + 1][..|q|] == q;
    }
  }

  lemma HeaderApart(doc: Doc, t: Path)
    requires Apart(doc) && !Clashes(doc, t) && ROOT in doc
    ensures Apart(WithTable(doc, t))
  {
    var n := WithTable(doc, t);
    forall q, k | q in n && k in n[q]
      ensures q + [k] !in n
    {
      assert q in doc && q + [k] !in doc;
      OneDown(q, k, t);
    }
  }

  lemma EntryApart(doc: Doc, at: Path, k: string, v: string)
    requires Apart(doc) && at in doc && at + [k] !in doc
    ensures Apart(doc[at := doc[at][k := v]])
  {
  }

  lemma FollowsOldHeader(whole: Parsed, left: Parsed)
    requires Follows(whole, left) && Step(whole, Header(RESOLUTION)).Parsed?
    ensures Follows(Step(whole, Header(RESOLUTION)), left)
  {
    HeaderApart(whole.doc, RESOLUTION);
    UnderResolution();
  }

  lemma UnderResolution()
    ensures forall q :: Under(q, RESOLUTION) <==> q == ROOT || q == TTS || q == RESOLUTION
  {
    forall q | Under(q, RESOLUTION)
      ensures q == ROOT || q == TTS || q == RESOLUTION
    {
      assert q == RESOLUTION[..|q|];
    }
    assert TTS == RESOLUTION[..1];
  }

  lemma NoClashBelow(whole: Doc, left: Doc, t: Path)
    requires Stay(whole, left) && !Clashes(whole, t)
    ensures !Clashes(left, t)
  {
    forall i | 0 <= i < |t| && t[..i] in left
      ensures t[i] !in left[t[..i]]
    {
      assert t[..i] in whole;
    }
  }

  lemma StayHeader(whole: Doc, left: Doc, t: Path)
    requires Stay(whole, left) && !Under(RESOLUTION, t)
    ensures Stay(WithTable(whole, t), WithTable(left, t))
    ensures RESOLUTION in WithTable(whole, t) <==> RESOLUTION in whole
  {
  }

  lemma FollowsHeader(whole: Parsed, left: Parsed, t: Path)
    requires Follows(whole, left) && Step(whole, Header(t)).Parsed? && !(RESOLUTION <= t)
    ensures Follows(Step(whole, Header(t)), Step(left, Header(t)))
  {
    HeaderApart(whole.doc, t);
    NoClashBelow(whole.doc, left.doc, t);
    StayHeader(whole.doc, left.doc, t);
    forall q | Under(q, t)
      ensures !(RESOLUTION <= q)
    {
      assert RESOLUTION <= q ==> RESOLUTION <= t;
    }
    hide Apart, Stay, Clashes;
  }

  lemma FollowsEntry(whole: Parsed, left: Parsed, k: string, v: string, skipping: bool)
    requires Follows(whole, left) && Step(whole, Entry(k, v)).Parsed? && (whole.at == RESOLUTION ==> skipping)
    ensures Follows(Step(whole, Entry(k, v)), if whole.at == RESOLUTION then left else Step(left, Entry(k, v)))
  {
    EntryApart(whole.doc, whole.at, k, v);
    hide Apart;
  }

  // One line that does not leak.
  lemma FollowsStep(whole: Parsed, left: Parsed, line: Line, skipping: bool)
    requires Follows(whole, left) && (skipping ==> whole.at == RESOLUTION) && Step(whole, line).Parsed?
    requires !(line.Entry? && whole.at == RESOLUTION && !skipping)
    requires line.Header? ==> !(RESOLUTION < line.table)
    ensures var dropped := Skips(line, skipping) || line == Header(RESOLUTION);
            Follows(Step(whole, line), if dropped then left else Step(left, line))
    ensures Skips(line, skipping) ==> Step(whole, line).at == RESOLUTION
    ensures Step(whole, line).at == RESOLUTION <==>
            if line.Header? then line.table == RESOLUTION else whole.at == RESOLUTION
  {
    hide Follows;
    match line
    case Header(t) =>
      if t == RESOLUTION {
        FollowsOldHeader(whole, left);
      } else {
        FollowsHeader(whole, left, t);
      }
    case Entry(k, v) => FollowsEntry(whole, left, k, v, skipping);
    case Comment =>
    case Blank =>
  }

  lemma {:induction false} WithoutLeaks(lines: seq<Line>, whole: Parsed, left: Parsed, skipping: bool)
    requires Follows(whole, left) && (skipping ==> whole.at == RESOLUTION) && !Nested(lines)
    requires ParseFrom(lines, whole).Parsed? && !Leaks(lines, whole.at == RESOLUTION, skipping)
    ensures Follows(ParseFrom(lines, whole), ParseFrom(Kept(lines, skipping), left))
  {
    if lines != [] {
      var line, next := lines[0], Skips(lines[0], skipping);
      BadStaysBad(lines[1..]);
      assert line.Header? ==> !(RESOLUTION < line.table);
      NotNestedAfter(lines);
      FollowsStep(whole, left, line, skipping);
      KeptStep(lines, left, skipping);
      hide Follows, Step, Kept, Nested;
      WithoutLeaks(lines[1..], Step(whole, line),
                   if next || line == Header(RESOLUTION) then left else Step(left, line), next);
    }
  }

  lemma NotNestedAfter(lines: seq<Line>)
    requires !Nested(lines) && lines != []
    ensures !Nested(lines[1..])
  {
    forall i | 0 <= i < |lines[1..]| && lines[1..][i].Header?
      ensures !(RESOLUTION < lines[1..][i].table)
    {
      assert lines[1..][i] == lines[i + 1];
    }
  }

  // A table whose header was given is left for good; what a table has, it keeps.
  lemma {:induction false} TablesOnlyGrow(lines: seq<Line>, p: Parsed, t: Path)
    requires p.Parsed? && t in p.doc && ParseFrom(lines, p).Parsed?
    ensures t in ParseFrom(lines, p).doc && p.doc[t].Keys <= ParseFrom(lines, p).doc[t].Keys
    ensures t != p.at && (t == ROOT || t in p.given) ==> ParseFrom(lines, p).doc[t] == p.doc[t]
  {
    if lines != [] {
      BadStaysBad(lines[1..]);
      TablesOnlyGrow(lines[1..], Step(p, lines[0]), t);
    }
  }

  // What stays has a key that the whole text does not have there.
  ghost predicate HasMore(whole: Parsed, left: Parsed) {
    whole.Parsed? && left.Parsed? ==>
      exists q, k :: q in left.doc && q in whole.doc && q != RESOLUTION && k in left.doc[q] && k !in whole.doc[q]
  }

  // The line that leaks puts a key in a table that never gets it otherwise.
  lemma LeakTells(lines: seq<Line>, whole: Parsed, left: Parsed)
    requires Follows(whole, left) && whole.at == RESOLUTION && lines != [] && lines[0].Entry?
    requires ParseFrom(lines, whole).Parsed?
    ensures HasMore(ParseFrom(lines, whole), ParseFrom(Kept(lines, false), left))
  {
    var w, l, rest := Step(whole, lines[0]), Step(left, lines[0]), Kept(lines[1..], false);
    BadStaysBad(lines[1..]);
    KeptStep(lines, left, false);
    BadStaysBad(rest);
    if l.Parsed? && ParseFrom(rest, l).Parsed? {
      TablesOnlyGrow(lines[1..], w, left.at);
      TablesOnlyGrow(rest, l, left.at);
      assert lines[0].key !in whole.doc[left.at];
      hide Step, Kept, Stay, Apart;
      assert lines[0].key in ParseFrom(rest, l).doc[left.at];
    }
  }

  lemma {:induction false} WithLeaks(lines: seq<Line>, whole: Parsed, left: Parsed, skipping: bool)
    requires Follows(whole, left) && (skipping ==> whole.at == RESOLUTION) && !Nested(lines)
    requires ParseFrom(lines, whole).Parsed? && Leaks(lines, whole.at == RESOLUTION, skipping)
    ensures HasMore(ParseFrom(lines, whole), ParseFrom(Kept(lines, skipping), left))
  {
    var line, next := lines[0], Skips(lines[0], skipping);
    assert line.Header? ==> !(RESOLUTION < line.table);
    NotNestedAfter(lines);
    hide Nested;
    if line.Entry? && whole.at == RESOLUTION && !skipping {
      hide Follows;
      LeakTells(lines, whole, left);
    } else {
      BadStaysBad(lines[1..]);
      FollowsStep(whole, left, line, skipping);
      KeptStep(lines, left, skipping);
      hide Follows, Step, Kept, HasMore;
      WithLeaks(lines[1..], Step(whole, line),
                if next || line == Header(RESOLUTION) then left else Step(left, line), next);
    }
  }

  lemma {:induction false} ParseBoth(a: seq<Line>, b: seq<Line>, p: Parsed)
    ensures ParseFrom(a + b, p) == ParseFrom(b, ParseFrom(a, p))
  {
    if a == [] {
      assert a + b == b;
    } else {
      assert (a + b)[1..] == a[1..] + b;
      ParseBoth(a[1..], b, Step(p, a[0]));
    }
  }

  lemma {:induction false} BlanksMeanNothing(lines: seq<Line>, p: Parsed)
    ensures ParseFrom(Stripped(lines), p) == ParseFrom(lines, p)
  {
    if lines != [] && lines[|lines| - 1] == Blank {
      var rest := lines[..|lines| - 1];
      BlanksMeanNothing(rest, p);
      assert lines == rest + [Blank];
      ParseBoth(rest, [Blank], p);
      assert ParseFrom([Blank], ParseFrom(rest, p)) == ParseFrom([], Step(ParseFrom(rest, p), Blank));
    }
  }

  lemma ParseThree(a: Line, b: Line, c: Line, p: Parsed)
    ensures ParseFrom([a, b, c], p) == Step(Step(Step(p, a), b), c)
  {
    assert [a, b, c][1..] == [b, c] && [b, c][1..] == [c] && [c][1..] == [];
    assert ParseFrom([c], Step(Step(p, a), b)) == ParseFrom([], Step(Step(Step(p, a), b), c));
    assert ParseFrom([b, c], Step(p, a)) == ParseFrom([c], Step(Step(p, a), b));
  }

  // What the new table makes of the parse before it.
  function TableAdded(left: Parsed, packages: string): Parsed {
    var table := TableLines(packages);
    Step(Step(Step(left, table[0]), table[1]), table[2])
  }

  // The rewritten text parses as what stayed, plus the new table.
  lemma RewrittenParses(lines: seq<Line>, packages: string)
    ensures Parse(Rewritten(lines, packages)) == TableAdded(Parse(Kept(lines, false)), packages)
  {
    var kept := Stripped(Kept(lines, false));
    var gap, table := Gap(kept), TableLines(packages);
    BlanksMeanNothing(Kept(lines, false), EMPTY);
    var left := ParseFrom(kept, EMPTY);
    var a, b, c := table[0], table[1], table[2];
    assert table == [a, b, c] && TableAdded(left, packages) == Step(Step(Step(left, a), b), c);
    hide Kept, Stripped, Step, TableLines, TableAdded;
    ParseBoth(kept + gap, table, EMPTY);
    ParseBoth(kept, gap, EMPTY);
    assert gap[1..] == (if kept == [] then [Blank] else []) && (kept == [] ==> gap[1..][1..] == []);
    assert ParseFrom(gap, left) == left by {
      BlankStep(left);
      assert ParseFrom([], left) == left;
    }
    ParseThree(a, b, c, left);
  }

  lemma BlankStep(p: Parsed)
    ensures Step(p, Blank) == p
  {
  }

  // The new table is where nothing else is, and holds what it should.
  lemma TableParses(left: Parsed, packages: string)
    requires left.Parsed? && RESOLUTION !in left.given && ROOT in left.doc
    requires forall q :: q in left.doc ==> !(RESOLUTION <= q)
    ensures var n := TableAdded(left, packages);
            if Clashes(left.doc, RESOLUTION) then n.Bad?
            else n.Parsed? && n.doc == WithTable(left.doc, RESOLUTION)[RESOLUTION := Expected(packages)]
  {
    var table := TableLines(packages);
    var p1 := Step(left, table[0]);
    if p1.Parsed? {
      assert RESOLUTION <= RESOLUTION + ["choice"] && RESOLUTION <= RESOLUTION + ["packages"];
      assert |RESOLUTION + ["choice"]| == 3 && |RESOLUTION + ["packages"]| == 3;
      assert RESOLUTION + ["choice"] !in p1.doc && RESOLUTION + ["packages"] !in p1.doc;
      var p2 := Step(p1, table[1]);
      assert p2.doc[RESOLUTION] == map["choice" := "\"builtin\""];
      assert Step(p2, table[2]).doc[RESOLUTION] == Expected(packages);
    }
  }

  lemma {:induction false} GivenHeaders(lines: seq<Line>, p: Parsed)
    requires ParseFrom(lines, p).Parsed?
    ensures p.Parsed? && p.given <= ParseFrom(lines, p).given
    ensures forall q :: q in ParseFrom(lines, p).given ==> q in p.given || Header(q) in lines
    ensures forall i :: 0 <= i < |lines| && lines[i].Header? ==> lines[i].table in ParseFrom(lines, p).given
  {
    if lines != [] {
      if p.Bad? || Step(p, lines[0]).Bad? {
        BadStaysBad(lines[1..]);
      }
      GivenHeaders(lines[1..], Step(p, lines[0]));
      assert forall i :: 1 <= i < |lines| ==> lines[i] == lines[1..][i - 1];
    }
  }

  // A table is there for a header's sake.
  lemma {:induction false} TablesHaveHeaders(lines: seq<Line>, p: Parsed)
    requires ParseFrom(lines, p).Parsed? && p.Parsed?
    ensures var n := ParseFrom(lines, p);
            && (forall q :: q in n.doc ==> q in p.doc || exists i :: 0 <= i < |lines| && lines[i].Header? && q <= lines[i].table)
            && (forall q :: q in p.doc ==> q in n.doc)
            && (forall i, q :: 0 <= i < |lines| && lines[i].Header? && q <= lines[i].table && q != ROOT ==> q in n.doc)
  {
    if lines != [] {
      var next := Step(p, lines[0]);
      BadStaysBad(lines[1..]);
      TablesHaveHeaders(lines[1..], next);
      assert forall i :: 1 <= i < |lines| ==> lines[i] == lines[1..][i - 1];
      var n := ParseFrom(lines, p);
      forall q | q in n.doc && q !in p.doc
        ensures exists i :: 0 <= i < |lines| && lines[i].Header? && q <= lines[i].table
      {
        if q in next.doc {
          assert lines[0].Header? && q <= lines[0].table;
        } else {
          var i :| 0 <= i < |lines[1..]| && lines[1..][i].Header? && q <= lines[1..][i].table;
          assert lines[i + 1].Header? && q <= lines[i + 1].table;
        }
      }
    }
  }

  lemma TtsIsThere(lines: seq<Line>)
    requires Parse(lines).Parsed?
    ensures TTS in Parse(lines).doc <==> HasTts(lines)
  {
    TablesHaveHeaders(lines, EMPTY);
  }

  lemma StartFollows()
    ensures Follows(EMPTY, EMPTY)
  {
  }

  // Without a leak, what stayed takes the new table unless a key is in its way.
  lemma NoLeakVerifies(whole: Parsed, left: Parsed, packages: string)
    requires Follows(whole, left)
    requires RESOLUTION in whole.doc || !(TTS in whole.doc && NAME in whole.doc[TTS])
    ensures Verified(whole.doc, TableAdded(left, packages), packages) <==> TTS in whole.doc
  {
    var n := TableAdded(left, packages);
    TableParses(left, packages);
    UnderResolution();
    assert RESOLUTION[..1] == TTS && RESOLUTION[..0] == ROOT && ROOT + ["tts"] == TTS && TTS + [NAME] == RESOLUTION;
    if TTS in whole.doc {
      NothingInTheWay(whole, left);
      hide Apart;
      SameWithout(whole.doc, left.doc, n.doc, packages);
    } else {
      hide Apart, Stay;
      assert n.Parsed? ==> TTS in Without(n.doc);
    }
  }

  lemma NothingInTheWay(whole: Parsed, left: Parsed)
    requires Follows(whole, left) && TTS in whole.doc
    requires RESOLUTION in whole.doc || NAME !in whole.doc[TTS]
    ensures !Clashes(left.doc, RESOLUTION)
  {
    assert ROOT + ["tts"] == TTS && TTS + [NAME] == RESOLUTION;
    forall i | 0 <= i < |RESOLUTION| && RESOLUTION[..i] in left.doc
      ensures RESOLUTION[i] !in left.doc[RESOLUTION[..i]]
    {
      assert RESOLUTION[..i] == if i == 0 then ROOT else TTS;
    }
  }

  lemma SameWithout(whole: Doc, left: Doc, after: Doc, packages: string)
    requires Stay(whole, left) && TTS in whole && ROOT in left
    requires forall q :: q in whole && RESOLUTION <= q ==> q == RESOLUTION
    requires after == WithTable(left, RESOLUTION)[RESOLUTION := Expected(packages)]
    ensures Without(after) == Without(whole)
    ensures forall q :: q in after && RESOLUTION <= q ==> q == RESOLUTION
  {
    UnderResolution();
    forall q
      ensures q in Without(after) <==> q in Without(whole)
      ensures q in Without(after) ==> Without(after)[q] == Without(whole)[q]
      ensures q in after && RESOLUTION <= q ==> q == RESOLUTION
    {
      SamePlace(whole, left, after, q, packages);
    }
  }

  lemma SamePlace(whole: Doc, left: Doc, after: Doc, q: Path, packages: string)
    requires Stay(whole, left) && TTS in whole && ROOT in left
    requires q in whole && RESOLUTION <= q ==> q == RESOLUTION
    requires after == WithTable(left, RESOLUTION)[RESOLUTION := Expected(packages)]
    requires Under(q, RESOLUTION) <==> q == ROOT || q == TTS || q == RESOLUTION
    ensures q in Without(after) <==> q in Without(whole)
    ensures q in Without(after) ==> Without(after)[q] == Without(whole)[q]
    ensures q in after && RESOLUTION <= q ==> q == RESOLUTION
  {
    assert q != RESOLUTION ==> (q in after <==> q in left || q == TTS);
    assert q != RESOLUTION && q in after ==> after[q] == whole[q];
  }

  // With a leak, a key is where it was not, or two names clash.
  lemma LeakIsNotVerified(whole: Parsed, left: Parsed, packages: string)
    requires whole.Parsed? && HasMore(whole, left)
    requires left.Parsed? ==> RESOLUTION !in left.given && ROOT in left.doc && forall q :: q in left.doc ==> !(RESOLUTION <= q)
    ensures !Verified(whole.doc, TableAdded(left, packages), packages)
  {
    if left.Parsed? {
      TableParses(left, packages);
      var n := TableAdded(left, packages);
      var q, k :| q in left.doc && q in whole.doc && q != RESOLUTION && k in left.doc[q] && k !in whole.doc[q];
      if n.Parsed? {
        assert !Clashes(left.doc, RESOLUTION);
        assert q == TTS ==> k != NAME by {
          assert RESOLUTION[..1] == TTS && RESOLUTION[1] == NAME;
        }
        assert k in Without(n.doc)[q] && k !in Without(whole.doc)[q];
      }
    }
  }

  lemma {:induction false} KeptHeaders(lines: seq<Line>, skipping: bool)
    ensures forall i :: 0 <= i < |Kept(lines, skipping)| ==> Kept(lines, skipping)[i] in lines
  {
    if lines != [] {
      KeptHeaders(lines[1..], Skips(lines[0], skipping));
    }
  }

  // What stays of a text without nested headers has no table of that name or in it.
  lemma KeptHasNone(lines: seq<Line>)
    requires !Nested(lines) && Parse(Kept(lines, false)).Parsed?
    ensures var left := Parse(Kept(lines, false));
            RESOLUTION !in left.given && ROOT in left.doc && forall q :: q in left.doc ==> !(RESOLUTION <= q)
  {
    var kept := Kept(lines, false);
    KeptIsClean(lines, false);
    KeptHeaders(lines, false);
    GivenHeaders(kept, EMPTY);
    TablesHaveHeaders(kept, EMPTY);
    var left := Parse(kept);
    forall q | q in left.doc
      ensures !(RESOLUTION <= q)
    {
      if q !in EMPTY.doc {
        var i :| 0 <= i < |kept| && kept[i].Header? && q <= kept[i].table;
        assert kept[i] in lines && kept[i] != Header(RESOLUTION);
        assert !(RESOLUTION < kept[i].table);
      }
    }
  }

  /** A text that parses, and that the command does not refuse, passes the check after
      the rewrite exactly when no key of the old table comes after a blank or comment
      line in it and there was a `tts` table: the new one makes one, and the check sees
      that as a change of the rest. */
  lemma RewriteKeepsTheMeaningExactly(lines: seq<Line>, packages: string)
    requires Parse(lines).Parsed? && !Refused(lines, Parse(lines).doc)
    ensures Verified(Parse(lines).doc, Parse(Rewritten(lines, packages)), packages) <==>
            !Leaks(lines, false, false) && HasTts(lines)
  {
    RewrittenParses(lines, packages);
    TtsIsThere(lines);
    StartFollows();
    GivenHeaders(lines, EMPTY);
    if Leaks(lines, false, false) {
      WithLeaks(lines, EMPTY, EMPTY, false);
      if Parse(Kept(lines, false)).Parsed? {
        KeptHasNone(lines);
      }
      hide TableAdded, Verified, HasMore;
      LeakIsNotVerified(Parse(lines), Parse(Kept(lines, false)), packages);
    } else {
      WithoutLeaks(lines, EMPTY, EMPTY, false);
      ResolutionIsGiven(lines);
      hide TableAdded, Verified, Follows;
      NoLeakVerifies(Parse(lines), Parse(Kept(lines, false)), packages);
    }
  }

  lemma ResolutionIsGiven(lines: seq<Line>)
    requires Parse(lines).Parsed? && !Refused(lines, Parse(lines).doc)
    ensures var doc := Parse(lines).doc; RESOLUTION in doc || !(TTS in doc && NAME in doc[TTS])
  {
    TablesHaveHeaders(lines, EMPTY);
    if Header(RESOLUTION) in lines {
      var i :| 0 <= i < |lines| && lines[i] == Header(RESOLUTION);
      assert RESOLUTION <= lines[i].table;
    }
  }

  /** So a configuration that never mentions `tts` is always put back. */
  lemma WithoutTtsItIsPutBack(packages: string)
    ensures var lines := [Header(["server"]), Entry("port", "8080")];
            Parse(lines).Parsed? && !Refused(lines, Parse(lines).doc)
            && !Verified(Parse(lines).doc, Parse(Rewritten(lines, packages)), packages)
  {
    var lines := [Header(["server"]), Entry("port", "8080")];
    assert lines[1..] == [lines[1]] && lines[1..][1..] == [];
    assert !Clashes(EMPTY.doc, ["server"]);
    var p1 := Step(EMPTY, lines[0]);
    assert p1.Parsed? && ["server"] in p1.doc && ["server", "port"] !in p1.doc;
    assert ["server"] + ["port"] == ["server", "port"];
    var p2 := Step(p1, lines[1]);
    assert p2.Parsed?;
    assert ParseFrom(lines[1..], p1) == ParseFrom([], p2);
    TtsIsThere(lines);
    assert !HasTts(lines) && !Nested(lines);
    TablesHaveHeaders(lines, EMPTY);
    RewriteKeepsTheMeaningExactly(lines, packages);
  }
}

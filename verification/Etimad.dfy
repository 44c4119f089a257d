/**
 The requirement walk over an Etimad notice. The regular expression for numbered bullets and the
 keyword tests, which fold case, are parameters; everything else is as in the source.
 */
module Etimad {
  import opened Outcomes
  import opened Sequences
  import opened Text

  /** numberedEnd is where a leading item number ends, or 0 when there is none. */
  datatype Lexicon = Lexicon(
    numberedEnd: string -> nat, mentionsRequirement: string -> bool, categoryOf: string -> string)

  datatype Requirement = Requirement(category: string, text: string)

  const BULLET_PREFIXES := ["- ", "\U{2022} ", "* ", "\U{2013} ", "\U{2023} ", "\U{25CB} "]
  const HEADER_SUFFIXES := [':', '\U{FF1A}', '\U{061B}']

  predicate StartsWith(line: string, prefix: string) {
    |prefix| <= |line| && line[..|prefix|] == prefix
  }

  function Strip(s: string): string {
    Trim(s, IsPySpace)
  }

  /** Length of the first bullet prefix the line starts with, or 0. */
  function BulletPrefix(line: string, prefixes: seq<string>): (n: nat)
    ensures n <= |line|
  {
    if prefixes == [] then 0
    else if StartsWith(line, prefixes[0]) then |prefixes[0]|
    else BulletPrefix(line, prefixes[1..])
  }

  function StripBullet(lex: Lexicon, line: string): string {
    var n := BulletPrefix(line, BULLET_PREFIXES);
    if n > 0 then Strip(line[n..])
    else if 0 < lex.numberedEnd(line) <= |line| then Strip(line[lex.numberedEnd(line)..])
    else Strip(line)
  }

  predicate IsBulletLine(lex: Lexicon, line: string) {
    var stripped := Strip(line);
    stripped != "" && (BulletPrefix(stripped, BULLET_PREFIXES) > 0 || 0 < lex.numberedEnd(stripped) <= |stripped|)
  }

  predicate IsSectionHeader(lex: Lexicon, line: string) {
    var stripped := Strip(line);
    && stripped != "" && !IsBulletLine(lex, line)
    && (stripped[|stripped| - 1] in HEADER_SUFFIXES || (|stripped| <= 80 && lex.mentionsRequirement(stripped)))
  }

  /** What the walk asks of a line. */
  datatype LineTests = LineTests(
    isHeader: string -> bool, isBullet: string -> bool, mentionsRequirement: string -> bool,
    categoryOf: string -> string, bulletText: string -> string)

  function TestsOf(lex: Lexicon): LineTests {
    LineTests(line => IsSectionHeader(lex, line), line => IsBulletLine(lex, line), lex.mentionsRequirement,
              lex.categoryOf, line => StripBullet(lex, line))
  }

  predicate HasText(line: string) {
    line != ""
  }

  /** The lines of a text as the walk sees them: stripped, the blank ones dropped. */
  function Stripped(rawLines: seq<string>): seq<string> {
    Filter(Map(rawLines, Strip), HasText)
  }

  /** The last header among the lines. */
  function Governing(t: LineTests, lines: seq<string>): (h: Option<nat>)
    ensures h.Some? ==> h.value < |lines| && t.isHeader(lines[h.value])
                        && forall j :: h.value < j < |lines| ==> !t.isHeader(lines[j])
    ensures h.None? ==> forall j :: 0 <= j < |lines| ==> !t.isHeader(lines[j])
  {
    if lines == [] then None
    else
      var n := |lines| - 1;
      if t.isHeader(lines[n]) then Some(n) else Governing(t, lines[..n])
  }

  /** Line i is a bullet with text, not itself a header, under a header that mentions requirements. */
  ghost predicate IsRequirement(t: LineTests, lines: seq<string>, i: nat)
    requires i < |lines|
  {
    var h := Governing(t, lines[..i]);
    && !t.isHeader(lines[i]) && t.isBullet(lines[i]) && t.bulletText(lines[i]) != ""
    && h.Some? && t.mentionsRequirement(lines[h.value])
  }

  ghost function RequirementAt(t: LineTests, lines: seq<string>, i: nat): Requirement
    requires i < |lines| && IsRequirement(t, lines, i)
  {
    Requirement(t.categoryOf(lines[Governing(t, lines[..i]).value]), t.bulletText(lines[i]))
  }

  ghost function Declared(t: LineTests, lines: seq<string>): seq<Requirement> {
    if lines == [] then []
    else
      var n := |lines| - 1;
      Declared(t, lines[..n]) + (if IsRequirement(t, lines, n) then [RequirementAt(t, lines, n)] else [])
  }

  method Walk(t: LineTests, lines: seq<string>) returns (requirements: seq<Requirement>)
    ensures requirements == Declared(t, lines)
  {
    requirements := [];
    var currentCategory := "other";
    var insideRequirementsBlock := false;
    for i := 0 to |lines|
      invariant requirements == Declared(t, lines[..i])
      invariant var h := Governing(t, lines[..i]);
        && (insideRequirementsBlock <==> h.Some? && t.mentionsRequirement(lines[h.value]))
        && (insideRequirementsBlock ==> currentCategory == t.categoryOf(lines[h.value]))
    {
      var line := lines[i];
      assert lines[..i + 1][..i] == lines[..i] && lines[..i + 1][i] == line;
      if t.isHeader(line) {
        insideRequirementsBlock := t.mentionsRequirement(line);
        if insideRequirementsBlock {
          currentCategory := t.categoryOf(line);
        }
        continue;
      }
      if t.isBullet(line) && insideRequirementsBlock {
        var cleaned := t.bulletText(line);
        if cleaned != "" {
          requirements := requirements + [Requirement(currentCategory, cleaned)];
        }
      }
    }
    assert lines[..|lines|] == lines;
  }

  method ParseRequirements(lex: Lexicon, rawLines: seq<string>) returns (requirements: seq<Requirement>)
    ensures requirements == Declared(TestsOf(lex), Stripped(rawLines))
  {
    requirements := Walk(TestsOf(lex), Stripped(rawLines));
  }

  // ----- What the walk means -----

  /** A mark followed by a space opens a bullet. */
  predicate Marked(line: string) {
    |line| >= 2 && line[1] == ' ' && line[0] in {'-', '*', '\U{2022}', '\U{2013}', '\U{2023}', '\U{25CB}'}
  }

  lemma {:induction false} PrefixMeaning(line: string, prefixes: seq<string>)
    requires forall p :: p in prefixes ==> |p| == 2 && p[1] == ' '
    ensures BulletPrefix(line, prefixes)
         == if |line| >= 2 && line[1] == ' ' && exists p :: p in prefixes && p[0] == line[0] then 2 else 0
  {
    if prefixes != [] {
      PrefixMeaning(line, prefixes[1..]);
      assert prefixes == [prefixes[0]] + prefixes[1..];
      assert StartsWith(line, prefixes[0]) <==> |line| >= 2 && line[1] == ' ' && prefixes[0][0] == line[0];
    }
  }

  lemma MarkMeaning(line: string)
    ensures BulletPrefix(line, BULLET_PREFIXES) == if Marked(line) then 2 else 0
  {
    PrefixMeaning(line, BULLET_PREFIXES);
    if Marked(line) {
      var c := line[0];
      var k := if c == '-' then 0 else if c == '\U{2022}' then 1 else if c == '*' then 2
               else if c == '\U{2013}' then 3 else if c == '\U{2023}' then 4 else 5;
      assert BULLET_PREFIXES[k][0] == c && BULLET_PREFIXES[k] in BULLET_PREFIXES;
    }
  }

  /**
   What the walk asks of a line: a bullet is opened by a mark or an item number, and its text is what follows; a
   header is no bullet and ends in a colon or a semicolon of the three scripts, or is short and mentions
   requirements.
   */
  lemma TestsMeaning(lex: Lexicon, line: string)
    ensures var t, s := TestsOf(lex), Strip(line);
            var numbered := 0 < lex.numberedEnd(line) <= |line|;
            && (t.isBullet(line) <==> s != "" && (Marked(s) || 0 < lex.numberedEnd(s) <= |s|))
            && (t.isHeader(line) <==>
                  && s != "" && !t.isBullet(line)
                  && (s[|s| - 1] in {':', '\U{FF1A}', '\U{061B}'} || (|s| <= 80 && lex.mentionsRequirement(s))))
            && t.bulletText(line) == Strip(if Marked(line) then line[2..]
                                           else if numbered then line[lex.numberedEnd(line)..] else line)
            && t.mentionsRequirement(line) == lex.mentionsRequirement(line)
            && t.categoryOf(line) == lex.categoryOf(line)
  {
    MarkMeaning(line);
    MarkMeaning(Strip(line));
  }

  /** Each line reaches the walk stripped, in its place, unless it is blank. */
  lemma StrippedOneMore(rawLines: seq<string>, line: string)
    ensures Stripped([]) == []
    ensures Stripped(rawLines + [line])
         == Stripped(rawLines) + (if IsBlank(line, IsPySpace) then [] else [Trim(line, IsPySpace)])
  {
    MapConcat(rawLines, [line], Strip);
    assert [line][1..] == [];
    assert Map([line], Strip) == [Strip(line)];
    FilterConcat(Map(rawLines, Strip), [Strip(line)], HasText);
    assert [Strip(line)][1..] == [];
    TrimBlank(line, IsPySpace);
  }

  /** No line is both header and bullet, so the walk's two tests never compete. */
  lemma NeverHeaderAndBullet(lex: Lexicon, line: string)
    ensures !(TestsOf(lex).isHeader(line) && TestsOf(lex).isBullet(line))
  {}

  lemma PrefixKeepsRequirement(t: LineTests, lines: seq<string>, n: nat, i: nat)
    requires i < n <= |lines|
    ensures IsRequirement(t, lines, i) <==> IsRequirement(t, lines[..n], i)
    ensures IsRequirement(t, lines, i) ==> RequirementAt(t, lines, i) == RequirementAt(t, lines[..n], i)
  {
    assert lines[..n][..i] == lines[..i];
  }

  ghost predicate SaysWhat(t: LineTests, lines: seq<string>, i: nat, requirement: Requirement) {
    i < |lines| && IsRequirement(t, lines, i) && requirement == RequirementAt(t, lines, i)
  }

  ghost predicate Places(t: LineTests, lines: seq<string>, places: seq<nat>, requirements: seq<Requirement>) {
    && |places| == |requirements|
    && (forall k :: 0 <= k < |places| ==> SaysWhat(t, lines, places[k], requirements[k]))
    && (forall k, l :: 0 <= k < l < |places| ==> places[k] < places[l])
    && (forall i :: 0 <= i < |lines| && IsRequirement(t, lines, i) ==> i in places)
  }

  lemma PlacesSnoc(t: LineTests, lines: seq<string>, line: string, places: seq<nat>, requirements: seq<Requirement>)
    requires Places(t, lines, places, requirements)
    ensures var all := lines + [line];
            if IsRequirement(t, all, |lines|)
            then Places(t, all, places + [|lines|], requirements + [RequirementAt(t, all, |lines|)])
            else Places(t, all, places, requirements)
  {
    var all := lines + [line];
    assert all[..|lines|] == lines;
    forall i: nat, r | SaysWhat(t, lines, i, r) ensures SaysWhat(t, all, i, r) {
      PrefixKeepsRequirement(t, all, |lines|, i);
    }
    forall i: nat | i < |lines| && IsRequirement(t, all, i) ensures i in places {
      PrefixKeepsRequirement(t, all, |lines|, i);
    }
  }

  lemma {:induction false} DeclaredPlaces(t: LineTests, lines: seq<string>) returns (places: seq<nat>)
    ensures Places(t, lines, places, Declared(t, lines))
    decreases |lines|
  {
    if lines == [] {
      places := [];
    } else {
      var n := |lines| - 1;
      assert lines == lines[..n] + [lines[n]];
      var before := DeclaredPlaces(t, lines[..n]);
      PlacesSnoc(t, lines[..n], lines[n], before, Declared(t, lines[..n]));
      places := if IsRequirement(t, lines, n) then before + [n] else before;
    }
  }

  /** Line h is the nearest header before line i, which is no header, and mentions requirements. */
  ghost predicate Heads(t: LineTests, lines: seq<string>, h: int, i: int) {
    && 0 <= h < i < |lines|
    && t.isHeader(lines[h]) && t.mentionsRequirement(lines[h])
    && forall j :: h < j <= i ==> !t.isHeader(lines[j])
  }

  ghost predicate BulletWithText(t: LineTests, line: string) {
    t.isBullet(line) && t.bulletText(line) != ""
  }

  /** Line i is a bullet with text, and the requirement has that text and the category of its header. */
  ghost predicate Says(t: LineTests, lines: seq<string>, i: int, requirement: Requirement) {
    && 0 <= i < |lines| && BulletWithText(t, lines[i]) && requirement.text == t.bulletText(lines[i])
    && exists h :: Heads(t, lines, h, i) && requirement.category == t.categoryOf(lines[h])
  }

  lemma RequirementMeaning(t: LineTests, lines: seq<string>, i: nat)
    requires i < |lines|
    ensures IsRequirement(t, lines, i) <==> BulletWithText(t, lines[i]) && exists h :: Heads(t, lines, h, i)
    ensures IsRequirement(t, lines, i) ==> Says(t, lines, i, RequirementAt(t, lines, i))
  {
    var g := Governing(t, lines[..i]);
    forall h | Heads(t, lines, h, i)
      ensures g == Some(h) && IsRequirement(t, lines, i) == BulletWithText(t, lines[i])
    {
      assert lines[..i][h] == lines[h];
      assert g.Some? ==> lines[..i][g.value] == lines[g.value];
    }
    if IsRequirement(t, lines, i) {
      assert forall j :: 0 <= j < i ==> lines[..i][j] == lines[j];
      assert Heads(t, lines, g.value, i);
    }
  }

  /**
   The walk emits, in line order, exactly one requirement for each bullet line with text whose nearest
   preceding header mentions requirements, in that header's category.
   */
  lemma DeclaredMeaning(t: LineTests, lines: seq<string>) returns (places: seq<nat>)
    ensures |places| == |Declared(t, lines)|
    ensures forall k :: 0 <= k < |places| ==> Says(t, lines, places[k], Declared(t, lines)[k])
    ensures forall k, l :: 0 <= k < l < |places| ==> places[k] < places[l]
    ensures forall h, i :: Heads(t, lines, h, i) && BulletWithText(t, lines[i]) ==> i in places
  {
    places := DeclaredPlaces(t, lines);
    forall k | 0 <= k < |places|
      ensures Says(t, lines, places[k], Declared(t, lines)[k])
    {
      assert SaysWhat(t, lines, places[k], Declared(t, lines)[k]);
      RequirementMeaning(t, lines, places[k]);
    }
    forall h, i | Heads(t, lines, h, i) && BulletWithText(t, lines[i])
      ensures i in places
    {
      RequirementMeaning(t, lines, i);
    }
  }

  /** What a further line adds, by its own tests and the header above it. */
  function Added(t: LineTests, header: Option<string>, line: string): seq<Requirement> {
    if !t.isHeader(line) && t.isBullet(line) && t.bulletText(line) != ""
       && header.Some? && t.mentionsRequirement(header.value)
    then [Requirement(t.categoryOf(header.value), t.bulletText(line))]
    else []
  }

  lemma DeclaredSnoc(t: LineTests, lines: seq<string>, line: string)
    ensures var h := Governing(t, lines);
            Declared(t, lines + [line])
            == Declared(t, lines) + Added(t, if h.Some? then Some(lines[h.value]) else None, line)
  {
    assert (lines + [line])[..|lines|] == lines;
  }

  lemma {:induction false} GoverningInSection(t: LineTests, before: seq<string>, header: string, after: seq<string>)
    requires t.isHeader(header)
    ensures var h := Governing(t, [header] + after);
            h.Some? && Governing(t, before + [header] + after) == Some(|before| + h.value)
    decreases |after|
  {
    var lines := before + [header] + after;
    var section := [header] + after;
    if after == [] {
      assert lines[|before|] == header && section[0] == header;
    } else {
      var m := |after| - 1;
      assert lines[..|before| + 1 + m] == before + [header] + after[..m];
      assert section[..1 + m] == [header] + after[..m];
      GoverningInSection(t, before, header, after[..m]);
    }
  }

  /** Sections are independent: from a header on, nothing depends on what came before. */
  lemma {:induction false} SectionsIndependent(t: LineTests, before: seq<string>, header: string, after: seq<string>)
    requires t.isHeader(header)
    ensures Declared(t, before + [header] + after) == Declared(t, before) + Declared(t, [header] + after)
    decreases |after|
  {
    if after == [] {
      var lines := before + [header] + after;
      assert lines[..|before|] == before && lines[|before|] == header;
      assert ([header] + after)[..0] == [];
    } else {
      var m := |after| - 1;
      var start, section := before + [header] + after[..m], [header] + after[..m];
      SectionsIndependent(t, before, header, after[..m]);
      GoverningInSection(t, before, header, after[..m]);
      assert before + [header] + after == start + [after[m]];
      assert [header] + after == section + [after[m]];
      var h := Governing(t, section).value;
      assert start[|before| + h] == section[h];
      DeclaredSnoc(t, start, after[m]);
      DeclaredSnoc(t, section, after[m]);
    }
  }
}

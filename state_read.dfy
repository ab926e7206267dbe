/**
 * The readers of the markdown state store (src/state-read.js): the heading
 * section splitter, the "Current Position" block parser, the progress
 * ledger parser, the plan frontmatter parser and the config defaults merge.
 * Each takes the file content as a string; reading the file is left out.
 */
module StateRead {
  import opened Wrappers
  import opened Text

  // =====================================================================
  // parseSections
  // =====================================================================

  /** The key under which text before the first heading is stored. */
  const PreambleKey := "_preamble"

  /**
   * A line the heading regex `^#{level}(?!#)\s+(.+)$` matches: the `#`
   * prefix, then a blank, then at least one more character.
   */
  predicate IsHeading(l: string, level: nat)
  {
    |l| >= level + 2 && l[..level] == Repeat('#', level) && IsWs(l[level])
  }

  /** The section name: the captured rest of the heading line, trimmed. */
  function HeadingName(l: string, level: nat): string
    requires |l| >= level
  {
    Trim(l[level..])
  }

  /** Index of the first heading line in `ls`, or `|ls|` when there is none. */
  function FirstHeading(ls: seq<string>, level: nat): (n: nat)
    ensures n <= |ls|
    ensures forall k :: 0 <= k < n ==> !IsHeading(ls[k], level)
    ensures n < |ls| ==> IsHeading(ls[n], level)
  {
    if ls == [] then 0
    else if IsHeading(ls[0], level) then 0
    else 1 + FirstHeading(ls[1..], level)
  }

  /**
   * The sections owned by heading line `hd` and the headings after it:
   * each heading owns the lines up to the next heading of the same level.
   */
  function Groups(hd: string, ls: seq<string>, level: nat): (gs: seq<(string, seq<string>)>)
    ensures |gs| >= 1 && gs[0].0 == hd
    decreases |ls|
  {
    var n := FirstHeading(ls, level);
    if n == |ls| then [(hd, ls)]
    else [(hd, ls[..n])] + Groups(ls[n], ls[n + 1..], level)
  }

  /** All heading-owned sections of a document, in document order. */
  function TopGroups(lines: seq<string>, level: nat): seq<(string, seq<string>)>
  {
    var h := FirstHeading(lines, level);
    if h == |lines| then [] else Groups(lines[h], lines[h + 1..], level)
  }

  /** Section name and trimmed body of each group. */
  function EntriesOf(gs: seq<(string, seq<string>)>, level: nat): (es: seq<(string, string)>)
    ensures |es| == |gs|
  {
    if gs == [] then [] else [Entry(gs[0], level)] + EntriesOf(gs[1..], level)
  }

  /** The name of a section's heading line and its trimmed body. */
  function Entry(g: (string, seq<string>), level: nat): (string, string)
  {
    (if |g.0| >= level then HeadingName(g.0, level) else "", Trim(Join(g.1)))
  }

  /** Successive assignment `sections[name] = body`: later entries win. */
  function Fold(m: map<string, string>, es: seq<(string, string)>): map<string, string>
    decreases |es|
  {
    if es == [] then m else Fold(m[es[0].0 := es[0].1], es[1..])
  }

  /** The trimmed text before the first heading (the whole text when there is none). */
  function Preamble(content: string, level: nat): string
  {
    PreambleOf(HeadingLines(content, level), level)
  }

  function PreambleOf(lines: seq<string>, level: nat): string
  {
    Trim(Join(lines[..FirstHeading(lines, level)]))
  }

  function PreambleMap(pre: string): map<string, string>
  {
    if pre == "" then map[] else map[PreambleKey := pre]
  }

  /**
   * A line holding only the `#` prefix and blanks. The `\s+` of the heading
   * regex runs on across the line end there, so the heading, if there is
   * one, is named by a later line.
   */
  predicate IsBareMarker(l: string, level: nat)
  {
    |l| >= level && l[..level] == Repeat('#', level) && AllWs(l[level..])
  }

  predicate NoBareMarker(ls: seq<string>, level: nat)
  {
    forall k :: 0 <= k < |ls| ==> !IsBareMarker(ls[k], level)
  }

  lemma NoBareMarkerConcat(a: seq<string>, b: seq<string>, level: nat)
    requires NoBareMarker(a, level) && NoBareMarker(b, level)
    ensures NoBareMarker(a + b, level)
  {
    forall k | 0 <= k < |a + b| ensures !IsBareMarker((a + b)[k], level) {
      if k >= |a| {
        assert (a + b)[k] == b[k - |a|];
      }
    }
  }

  lemma NoBareMarkerPart(ls: seq<string>, i: nat, j: nat, level: nat)
    requires i <= j <= |ls| && NoBareMarker(ls, level)
    ensures NoBareMarker(ls[i..j], level)
  {
    forall k | 0 <= k < j - i ensures !IsBareMarker(ls[i..j][k], level) {
      assert ls[i..j][k] == ls[i + k];
    }
  }

  /** Index of the first line from `k` on with a non-blank character, or `|ls|`. */
  function FirstNonBlank(ls: seq<string>, k: nat): (j: nat)
    requires k <= |ls|
    ensures k <= j <= |ls|
    ensures forall m :: k <= m < j ==> AllWs(ls[m])
    ensures j < |ls| ==> !AllWs(ls[j])
    decreases |ls| - k
  {
    if k == |ls| || !AllWs(ls[k]) then k else FirstNonBlank(ls, k + 1)
  }

  /** Some line of `ls` from index `k` on is not empty. */
  predicate HasCharFrom(ls: seq<string>, k: nat)
  {
    exists m :: k <= m < |ls| && ls[m] != ""
  }

  /**
   * The lines as the global `matchAll` over the whole text sees them, with
   * one heading line per match. A bare marker whose `\s+` reaches a later
   * non-blank line is one heading named by that line, and the blank lines
   * and the naming line are consumed. A bare marker followed by blanks only
   * still matches, with an empty name, when `\s+` and `(.+)` each find a
   * blank, the second one not a newline; otherwise it is no heading.
   */
  function Normalize(ls: seq<string>, level: nat): seq<string>
    decreases |ls|
  {
    if ls == [] then []
    else if IsBareMarker(ls[0], level) then
      var j := FirstNonBlank(ls, 1);
      if j < |ls| then [Repeat('#', level) + " " + Trim(ls[j])] + Normalize(ls[j + 1..], level)
      else if |ls[0]| >= level + 2 || HasCharFrom(ls, 1) then [Repeat('#', level) + "  "] + ls[1..]
      else ls
    else [ls[0]] + Normalize(ls[1..], level)
  }

  /** The document's lines with every regex match as one heading line. */
  function HeadingLines(content: string, level: nat): seq<string>
  {
    Normalize(Split(content), level)
  }

  /** What `parseSections(content, level)` returns. */
  function Sections(content: string, level: nat): map<string, string>
  {
    LineSections(HeadingLines(content, level), level)
  }

  /** The sections of a document given as its lines. */
  function LineSections(lines: seq<string>, level: nat): map<string, string>
  {
    Fold(PreambleMap(PreambleOf(lines, level)), EntriesOf(TopGroups(lines, level), level))
  }

  /**
   * `parseSections`: collect the preamble, then give each heading the text
   * up to the next same-level heading.
   */
  method ParseSections(content: string, level: nat) returns (sections: map<string, string>)
    ensures sections == Sections(content, level)
  {
    var lines := HeadingLines(content, level);
    var groups := TopGroups(lines, level);
    sections := map[];
    if |groups| == 0 {
      var trimmed := Trim(content);
      assert FirstHeading(lines, level) == |lines|;
      NormalizeNoHeading(Split(content), level);
      JoinSplit(content);
      assert lines[..FirstHeading(lines, level)] == lines;
      if trimmed != "" {
        sections := sections[PreambleKey := trimmed];
      }
      return;
    }
    var preamble := Trim(Join(lines[..FirstHeading(lines, level)]));
    if preamble != "" {
      sections := sections[PreambleKey := preamble];
    }
    var es := EntriesOf(groups, level);
    for i := 0 to |groups|
      invariant Fold(sections, EntriesOf(groups[i..], level)) == Sections(content, level)
    {
      assert groups[i..][1..] == groups[i + 1..];
      var heading := groups[i].0;
      var name := if |heading| >= level then HeadingName(heading, level) else "";
      var body := Trim(Join(groups[i].1));
      sections := sections[name := body];
    }
    assert groups[|groups|..] == [];
  }

  // ---------------------------------------------------------------------
  // facts about the section structure
  // ---------------------------------------------------------------------

  predicate NoHeading(ls: seq<string>, level: nat)
  {
    forall k :: 0 <= k < |ls| ==> !IsHeading(ls[k], level)
  }

  /** A `#` prefix, one blank and a non-empty rest make a heading line. */
  lemma HeadingLineShape(t: string, level: nat)
    requires |t| >= 2 && IsWs(t[0])
    ensures IsHeading(Repeat('#', level) + t, level)
    ensures HeadingName(Repeat('#', level) + t, level) == Trim(t)
  {
    assert (Repeat('#', level) + t)[level..] == t;
    assert (Repeat('#', level) + t)[..level] == Repeat('#', level);
  }

  /** A bare marker line that matches becomes a heading line. */
  lemma MarkerHeads(ls: seq<string>, level: nat)
    requires ls != [] && IsBareMarker(ls[0], level)
    requires FirstNonBlank(ls, 1) < |ls| || |ls[0]| >= level + 2 || HasCharFrom(ls, 1)
    ensures Normalize(ls, level) != [] && IsHeading(Normalize(ls, level)[0], level)
  {
    var j := FirstNonBlank(ls, 1);
    if j < |ls| {
      if Trim(ls[j]) == "" {
        TrimEmptyIsBlank(ls[j]);
      }
      HeadingLineShape(" " + Trim(ls[j]), level);
      assert Repeat('#', level) + " " + Trim(ls[j]) == Repeat('#', level) + (" " + Trim(ls[j]));
      assert Normalize(ls, level)[0] == Repeat('#', level) + " " + Trim(ls[j]);
    } else {
      HeadingLineShape("  ", level);
      assert Normalize(ls, level)[0] == Repeat('#', level) + "  ";
    }
  }

  /** Without a match anywhere, the lines are the document's own. */
  lemma {:induction false} NormalizeNoHeading(ls: seq<string>, level: nat)
    requires NoHeading(Normalize(ls, level), level)
    ensures Normalize(ls, level) == ls
    decreases |ls|
  {
    if ls != [] && IsBareMarker(ls[0], level) {
      var j := FirstNonBlank(ls, 1);
      if j < |ls| || |ls[0]| >= level + 2 || HasCharFrom(ls, 1) {
        MarkerHeads(ls, level);
        assert false;
      }
    } else if ls != [] {
      var r := Normalize(ls[1..], level);
      assert Normalize(ls, level) == [ls[0]] + r;
      assert forall k :: 0 <= k < |r| ==> r[k] == Normalize(ls, level)[k + 1];
      NormalizeNoHeading(ls[1..], level);
    }
  }

  /** Without a bare marker line, every match lies within one line. */
  lemma {:induction false} NormalizePlain(ls: seq<string>, level: nat)
    requires NoBareMarker(ls, level)
    ensures Normalize(ls, level) == ls
    decreases |ls|
  {
    if ls != [] {
      assert !IsBareMarker(ls[0], level);
      assert NoBareMarker(ls[1..], level) by {
        forall k | 0 <= k < |ls[1..]| ensures !IsBareMarker(ls[1..][k], level) {
          assert ls[1..][k] == ls[k + 1];
        }
      }
      NormalizePlain(ls[1..], level);
    }
  }

  /**
   * A bare marker line followed, after blank lines only, by a non-blank
   * line is one heading named by that line's trimmed text.
   */
  lemma {:induction false} BareMarkerNamed(ls: seq<string>, level: nat, j: nat)
    requires 0 < j < |ls| && IsBareMarker(ls[0], level)
    requires forall m :: 0 < m < j ==> AllWs(ls[m])
    requires !AllWs(ls[j])
    ensures IsHeading(Normalize(ls, level)[0], level)
    ensures HeadingName(Normalize(ls, level)[0], level) == Trim(ls[j])
    ensures Normalize(ls, level)[1..] == Normalize(ls[j + 1..], level)
  {
    assert FirstNonBlank(ls, 1) == j;
    if Trim(ls[j]) == "" {
      TrimEmptyIsBlank(ls[j]);
    }
    HeadingLineShape(" " + Trim(ls[j]), level);
    assert Repeat('#', level) + " " + Trim(ls[j]) == Repeat('#', level) + (" " + Trim(ls[j]));
    TrimPadded(" ", Trim(ls[j]), "");
    assert " " + Trim(ls[j]) + "" == " " + Trim(ls[j]);
    TrimOfTrimmed(Trim(ls[j]));
  }

  lemma {:induction false} FirstHeadingAppend(a: seq<string>, b: seq<string>, level: nat)
    ensures FirstHeading(a + b, level)
         == if FirstHeading(a, level) < |a| then FirstHeading(a, level) else |a| + FirstHeading(b, level)
  {
    if a != [] {
      assert (a + b)[0] == a[0];
      assert (a + b)[1..] == a[1..] + b;
      FirstHeadingAppend(a[1..], b, level);
    } else {
      assert a + b == b;
    }
  }

  /** A heading line ends the groups before it and starts its own. */
  lemma {:induction false} GroupsSplice(h: string, p: seq<string>, hd: string, z: seq<string>, level: nat)
    requires IsHeading(hd, level)
    ensures Groups(h, p + [hd] + z, level) == Groups(h, p, level) + Groups(hd, z, level)
    decreases |p|
  {
    var ls := p + [hd] + z;
    FirstHeadingAppend(p, [hd] + z, level);
    assert ls == p + ([hd] + z);
    var n := FirstHeading(p, level);
    if n == |p| {
      assert FirstHeading([hd] + z, level) == 0;
      assert ls[..n] == p;
      assert ls[n] == hd;
      assert ls[n + 1..] == z;
    } else {
      assert ls[..n] == p[..n];
      assert ls[n] == p[n];
      assert ls[n + 1..] == p[n + 1..] + [hd] + z;
      GroupsSplice(p[n], p[n + 1..], hd, z, level);
      assert ([(h, p[..n])] + Groups(p[n], p[n + 1..], level)) + Groups(hd, z, level)
          == [(h, p[..n])] + (Groups(p[n], p[n + 1..], level) + Groups(hd, z, level));
    }
  }

  lemma {:induction false} TopGroupsSplice(p: seq<string>, hd: string, z: seq<string>, level: nat)
    requires IsHeading(hd, level)
    ensures TopGroups(p + [hd] + z, level) == TopGroups(p, level) + Groups(hd, z, level)
  {
    var ls := p + [hd] + z;
    FirstHeadingAppend(p, [hd] + z, level);
    assert ls == p + ([hd] + z);
    var h := FirstHeading(p, level);
    if h == |p| {
      assert FirstHeading([hd] + z, level) == 0;
      assert ls[h] == hd && ls[h + 1..] == z;
    } else {
      assert ls[h] == p[h];
      assert ls[h + 1..] == p[h + 1..] + [hd] + z;
      GroupsSplice(p[h], p[h + 1..], hd, z, level);
    }
  }

  /** A heading followed by heading-free lines and then the rest of the document. */
  lemma {:induction false} GroupsHead(hd: string, m: seq<string>, rest: seq<string>, level: nat)
    requires NoHeading(m, level)
    requires rest == [] || IsHeading(rest[0], level)
    ensures Groups(hd, m + rest, level) == [(hd, m)] + TopGroups(rest, level)
  {
    FirstHeadingAppend(m, rest, level);
    var ls := m + rest;
    if rest == [] {
      assert ls == m;
    } else {
      assert FirstHeading(rest, level) == 0;
      assert ls[..|m|] == m;
      assert ls[|m|] == rest[0];
      assert ls[|m| + 1..] == rest[1..];
    }
  }

  lemma {:induction false} EntriesAppend(a: seq<(string, seq<string>)>, b: seq<(string, seq<string>)>, level: nat)
    ensures EntriesOf(a + b, level) == EntriesOf(a, level) + EntriesOf(b, level)
  {
    if a != [] {
      assert (a + b)[0] == a[0];
      assert (a + b)[1..] == a[1..] + b;
      EntriesAppend(a[1..], b, level);
    } else {
      assert a + b == b;
    }
  }

  /** The name of each group is a heading line of the document: the one at index `i`. */
  lemma {:induction false} TopGroupsHeads(lines: seq<string>, level: nat, k: nat) returns (i: nat)
    requires k < |TopGroups(lines, level)|
    ensures i < |lines| && IsHeading(lines[i], level) && TopGroups(lines, level)[k].0 == lines[i]
  {
    var h := FirstHeading(lines, level);
    assert h < |lines|;
    var rest := lines[h + 1..];
    var gs := Groups(lines[h], rest, level);
    assert TopGroups(lines, level) == gs;
    if k == 0 {
      i := h;
    } else {
      var r := GroupsHeads(lines[h], rest, level, k);
      assert rest[r] == lines[h + 1 + r];
      i := h + 1 + r;
    }
  }

  lemma {:induction false} GroupsHeads(hd: string, ls: seq<string>, level: nat, k: nat) returns (i: nat)
    requires 0 < k < |Groups(hd, ls, level)|
    ensures i < |ls| && IsHeading(ls[i], level) && Groups(hd, ls, level)[k].0 == ls[i]
    decreases |ls|
  {
    var n, rest := GroupsLater(hd, ls, level, k);
    if k == 1 {
      i := n;
    } else {
      var r := GroupsHeads(ls[n], rest, level, k - 1);
      i := n + 1 + r;
      assert rest[r] == ls[i];
    }
  }

  /** Past the first, the groups are those of the next heading, at `n`, and of the lines after it. */
  lemma GroupsLater(hd: string, ls: seq<string>, level: nat, k: nat) returns (n: nat, rest: seq<string>)
    requires 0 < k < |Groups(hd, ls, level)|
    ensures n < |ls| && IsHeading(ls[n], level) && rest == ls[n + 1..]
    ensures k - 1 < |Groups(ls[n], rest, level)|
    ensures Groups(hd, ls, level)[k] == Groups(ls[n], rest, level)[k - 1]
    ensures k == 1 ==> Groups(hd, ls, level)[k].0 == ls[n]
  {
    n := FirstHeading(ls, level);
    rest := ls[n + 1..];
    ConsIndex((hd, ls[..n]), Groups(ls[n], rest, level), k);
  }

  lemma ConsIndex<T>(x: T, g: seq<T>, k: nat)
    requires 0 < k <= |g|
    ensures ([x] + g)[k] == g[k - 1]
  {
  }

  lemma {:induction false} FoldUpdate(m: map<string, string>, es: seq<(string, string)>, x: string, v: string)
    requires forall k :: 0 <= k < |es| ==> es[k].0 != x
    ensures Fold(m[x := v], es) == Fold(m, es)[x := v]
    decreases |es|
  {
    if es != [] {
      assert m[x := v][es[0].0 := es[0].1] == m[es[0].0 := es[0].1][x := v];
      FoldUpdate(m[es[0].0 := es[0].1], es[1..], x, v);
    }
  }

  lemma {:induction false} FoldAppend(m: map<string, string>, a: seq<(string, string)>, b: seq<(string, string)>)
    ensures Fold(m, a + b) == Fold(Fold(m, a), b)
    decreases |a|
  {
    if a != [] {
      assert (a + b)[0] == a[0];
      assert (a + b)[1..] == a[1..] + b;
      FoldAppend(m[a[0].0 := a[0].1], a[1..], b);
    } else {
      assert a + b == b;
    }
  }

  /** The last assignment to a key decides its value; keys never assigned keep theirs. */
  lemma {:induction false} FoldLookup(m: map<string, string>, es: seq<(string, string)>, k: nat)
    requires k < |es|
    requires forall k' :: k < k' < |es| ==> es[k'].0 != es[k].0
    ensures es[k].0 in Fold(m, es) && Fold(m, es)[es[k].0] == es[k].1
    decreases |es|
  {
    if k == 0 {
      FoldUpdate(m, es[1..], es[0].0, es[0].1);
    } else {
      FoldLookup(m[es[0].0 := es[0].1], es[1..], k - 1);
    }
  }

  lemma {:induction false} FoldUntouched(m: map<string, string>, es: seq<(string, string)>, x: string)
    requires forall k :: 0 <= k < |es| ==> es[k].0 != x
    ensures (x in Fold(m, es)) == (x in m)
    ensures x in m ==> Fold(m, es)[x] == m[x]
    decreases |es|
  {
    if es != [] {
      FoldUntouched(m[es[0].0 := es[0].1], es[1..], x);
    }
  }

  /** Without a heading the whole trimmed text is the preamble, or the map is empty. */
  lemma {:induction false} NoHeadingIsPreamble(content: string, level: nat)
    requires NoHeading(HeadingLines(content, level), level)
    ensures Sections(content, level)
         == if Trim(content) == "" then map[] else map[PreambleKey := Trim(content)]
  {
    NormalizeNoHeading(Split(content), level);
    var lines := HeadingLines(content, level);
    assert FirstHeading(lines, level) == |lines|;
    assert TopGroups(lines, level) == [];
    assert lines[..|lines|] == lines;
    JoinSplit(content);
    assert Preamble(content, level) == Trim(content);
  }

  /**
   * A heading line whose name no later heading repeats owns the trimmed
   * text up to the next heading, with deeper headings left inside.
   */
  lemma {:induction false} SectionBody(content: string, level: nat, i: nat, j: nat)
    requires i < j <= |HeadingLines(content, level)|
    requires IsHeading(HeadingLines(content, level)[i], level)
    requires NoHeading(HeadingLines(content, level)[i + 1..j], level)
    requires j == |HeadingLines(content, level)| || IsHeading(HeadingLines(content, level)[j], level)
    requires forall k :: i < k < |HeadingLines(content, level)| && IsHeading(HeadingLines(content, level)[k], level)
               ==> HeadingName(HeadingLines(content, level)[k], level) != HeadingName(HeadingLines(content, level)[i], level)
    ensures HeadingName(HeadingLines(content, level)[i], level) in Sections(content, level)
    ensures Sections(content, level)[HeadingName(HeadingLines(content, level)[i], level)]
         == Trim(Join(HeadingLines(content, level)[i + 1..j]))
  {
    var lines := HeadingLines(content, level);
    var name := HeadingName(lines[i], level);
    var es := EntriesAround(lines, level, i, j);
    var before := EntriesOf(TopGroups(lines[..i], level), level);
    var after := EntriesOf(TopGroups(lines[j..], level), level);
    LaterNames(lines, level, i, j);
    FoldLookup(PreambleMap(Preamble(content, level)), es, |before|);
  }

  /** The entries of a document cut around the section of heading line `i`. */
  lemma {:induction false} EntriesAround(lines: seq<string>, level: nat, i: nat, j: nat)
    returns (es: seq<(string, string)>)
    requires i < j <= |lines|
    requires IsHeading(lines[i], level)
    requires NoHeading(lines[i + 1..j], level)
    requires j == |lines| || IsHeading(lines[j], level)
    ensures es == EntriesOf(TopGroups(lines, level), level)
    ensures es == EntriesOf(TopGroups(lines[..i], level), level)
                  + [(HeadingName(lines[i], level), Trim(Join(lines[i + 1..j])))]
                  + EntriesOf(TopGroups(lines[j..], level), level)
  {
    var p, m, rest := lines[..i], lines[i + 1..j], lines[j..];
    GroupsAround(lines, level, i, j);
    var g := (lines[i], m);
    EntriesAppend(TopGroups(p, level) + [g], TopGroups(rest, level), level);
    EntriesAppend(TopGroups(p, level), [g], level);
    assert EntriesOf([g], level) == [Entry(g, level)];
    es := EntriesOf(TopGroups(lines, level), level);
  }

  lemma {:induction false} GroupsAround(lines: seq<string>, level: nat, i: nat, j: nat)
    requires i < j <= |lines|
    requires IsHeading(lines[i], level)
    requires NoHeading(lines[i + 1..j], level)
    requires j == |lines| || IsHeading(lines[j], level)
    ensures TopGroups(lines, level)
         == TopGroups(lines[..i], level) + [(lines[i], lines[i + 1..j])] + TopGroups(lines[j..], level)
  {
    var p, m, rest := lines[..i], lines[i + 1..j], lines[j..];
    CutAround(lines, i, j);
    TopGroupsSplice(p, lines[i], m + rest, level);
    GroupsHead(lines[i], m, rest, level);
    ConcatAssoc(TopGroups(p, level), [(lines[i], m)], TopGroups(rest, level));
  }

  /** No section after line `j` is named like heading line `i` when names do not repeat. */
  lemma {:induction false} LaterNames(lines: seq<string>, level: nat, i: nat, j: nat)
    requires i < j <= |lines|
    requires IsHeading(lines[i], level)
    requires forall k :: i < k < |lines| && IsHeading(lines[k], level)
               ==> HeadingName(lines[k], level) != HeadingName(lines[i], level)
    ensures forall k :: 0 <= k < |EntriesOf(TopGroups(lines[j..], level), level)| ==>
              EntriesOf(TopGroups(lines[j..], level), level)[k].0 != HeadingName(lines[i], level)
  {
    var rest := lines[j..];
    var after := EntriesOf(TopGroups(rest, level), level);
    forall k | 0 <= k < |after| ensures after[k].0 != HeadingName(lines[i], level) {
      var r := TopGroupsHeads(rest, level, k);
      assert rest[r] == lines[j + r];
      EntryName(TopGroups(rest, level), level, k);
    }
  }

  lemma {:induction false} EntryName(gs: seq<(string, seq<string>)>, level: nat, k: nat)
    requires k < |gs| && |gs[k].0| >= level
    ensures EntriesOf(gs, level)[k] == Entry(gs[k], level)
  {
    if k > 0 {
      EntryName(gs[1..], level, k - 1);
    }
  }

  /** The sections contributed by the lines before and after one section. */
  function Outside(pre: seq<string>, post: seq<string>, level: nat): map<string, string>
  {
    var m := PreambleMap(Trim(Join(pre[..FirstHeading(pre, level)])));
    Fold(Fold(m, EntriesOf(TopGroups(pre, level), level)), EntriesOf(TopGroups(post, level), level))
  }

  /**
   * Cutting a document around the section of heading line `i` (which ends
   * at line `j`): the parsed map is what the rest contributes, plus that section.
   */
  lemma {:induction false} SectionsAround(lines: seq<string>, level: nat, i: nat, j: nat)
    requires i < j <= |lines|
    requires IsHeading(lines[i], level)
    requires NoHeading(lines[i + 1..j], level)
    requires j == |lines| || IsHeading(lines[j], level)
    requires forall k :: 0 <= k < |EntriesOf(TopGroups(lines[j..], level), level)| ==>
               EntriesOf(TopGroups(lines[j..], level), level)[k].0 != HeadingName(lines[i], level)
    ensures LineSections(lines, level)
         == Outside(lines[..i], lines[j..], level)[HeadingName(lines[i], level) := Trim(Join(lines[i + 1..j]))]
  {
    var pre := lines[..i];
    var es := EntriesAround(lines, level, i, j);
    PreambleBefore(lines, level, i);
    var pm := PreambleMap(Trim(Join(pre[..FirstHeading(pre, level)])));
    assert PreambleMap(PreambleOf(lines, level)) == pm;
    FoldMiddle(pm, EntriesOf(TopGroups(pre, level), level), HeadingName(lines[i], level),
               Trim(Join(lines[i + 1..j])), EntriesOf(TopGroups(lines[j..], level), level));
  }

  /** The lines before the first heading lie before any heading line `i`. */
  lemma {:induction false} PreambleBefore(lines: seq<string>, level: nat, i: nat)
    requires i < |lines| && IsHeading(lines[i], level)
    ensures lines[..FirstHeading(lines, level)] == lines[..i][..FirstHeading(lines[..i], level)]
  {
    var pre := lines[..i];
    assert lines == pre + lines[i..];
    FirstHeadingAppend(pre, lines[i..], level);
  }

  lemma {:induction false} FoldMiddle(m: map<string, string>, a: seq<(string, string)>, x: string, v: string,
                                      b: seq<(string, string)>)
    requires forall k :: 0 <= k < |b| ==> b[k].0 != x
    ensures Fold(m, a + [(x, v)] + b) == Fold(Fold(m, a), b)[x := v]
  {
    FoldAppend(m, a + [(x, v)], b);
    FoldAppend(m, a, [(x, v)]);
    assert Fold(Fold(m, a), [(x, v)]) == Fold(m, a)[x := v];
    FoldUpdate(Fold(m, a), b, x, v);
  }

  /** A bare `##` line takes its name from the next line: "##\nfoo\nbar" is section foo. */
  lemma MarkerExample()
    ensures Sections("##\nfoo\nbar", 2) == map["foo" := "bar"]
  {
    var ls := ["##", "foo", "bar"];
    SplitJoin(ls);
    assert Join(ls) == "##\nfoo\nbar" by {
      assert Join(ls[2..]) == "bar";
      assert Join(ls[1..]) == "foo\nbar";
    }
    MarkerExampleLines(ls);
    MarkerExampleRead();
  }

  lemma MarkerExampleLines(ls: seq<string>)
    requires ls == ["##", "foo", "bar"]
    ensures Normalize(ls, 2) == ["## foo", "bar"]
  {
    assert ls[0][..2] == Repeat('#', 2);
    assert IsBareMarker(ls[0], 2);
    assert !IsWs(ls[1][0]);
    assert FirstNonBlank(ls, 1) == 1;
    TrimOfTrimmed("foo");
    assert !IsBareMarker(ls[2], 2) by { assert ls[2][0] != '#'; }
    assert Normalize(ls[2..], 2) == ["bar"];
    assert Repeat('#', 2) + " " + "foo" == "## foo";
  }

  lemma MarkerExampleRead()
    ensures LineSections(["## foo", "bar"], 2) == map["foo" := "bar"]
  {
    var ls := ["## foo", "bar"];
    assert IsHeading(ls[0], 2);
    assert !IsHeading(ls[1], 2) by { assert ls[1][0] != '#'; }
    assert FirstHeading(ls[1..], 2) == 1;
    assert TopGroups(ls, 2) == [("## foo", ["bar"])];
    TrimPadded(" ", "foo", "");
    assert ls[0][2..] == " " + "foo" + "";
    TrimOfTrimmed("foo");
    TrimOfTrimmed("bar");
    assert Join(["bar"]) == "bar";
    assert EntriesOf(TopGroups(ls, 2), 2) == [("foo", "bar")];
    assert ls[..FirstHeading(ls, 2)] == [];
  }

  // =====================================================================
  // parseStatePosition
  // =====================================================================

  /** The position record; `None` stands for JavaScript's `null`. */
  datatype Position = Position(
    phaseNum: nat, totalPhases: nat, phaseName: Option<string>,
    planNum: nat, totalPlans: nat,
    status: Option<string>, lastActivity: Option<string>,
    progressPct: nat)

  /** The two numbers of `\s*(\d+)\s+of\s+(\d+)` and where the second ends. */
  datatype Counts = Counts(first: string, second: string, end: nat)

  /**
   * `\s*(\d+)\s+of\s+(\d+)` matched from `p`. Every run is taken whole:
   * a shorter digit or blank run is followed by a digit or blank and
   * cannot continue the pattern.
   */
  function CountsAt(s: string, p: nat): (r: Option<Counts>)
    requires p <= |s|
    ensures r.Some? ==> p < r.value.end <= |s|
    ensures r.Some? ==> AllDigits(r.value.first) && r.value.first != ""
    ensures r.Some? ==> AllDigits(r.value.second) && r.value.second != ""
  {
    var a := WsEnd(s, p);
    var b := DigitsEnd(s, a);
    var c := WsEnd(s, b);
    if b == a || c == b || !OccursAt(s, "of", c) then None
    else
      var d := WsEnd(s, c + 2);
      var e := DigitsEnd(s, d);
      if d == c + 2 || e == d then None else Some(Counts(s[a..b], s[d..e], e))
  }

  /**
   * The lazy `(.+?)\)` from `lo`: the first `)` at `k > lo` with no line
   * terminator in `s[lo..k]`; `k` is the candidate being tried.
   */
  function CloseParen(s: string, lo: nat, k: nat): (r: Option<nat>)
    requires lo < k <= |s|
    requires forall i :: lo <= i < k - 1 ==> !IsLineTerminator(s[i])
    decreases |s| - k
    ensures r.Some? ==> k <= r.value < |s| && s[r.value] == ')'
    ensures r.Some? ==> forall i :: lo <= i < r.value ==> !IsLineTerminator(s[i])
  {
    if k == |s| || IsLineTerminator(s[k - 1]) then None
    else if s[k] == ')' then Some(k)
    else CloseParen(s, lo, k + 1)
  }

  /** The optional `(?:\s*\((.+?)\))?` after the phase counts. */
  function PhaseNameAt(s: string, e: nat): Option<string>
    requires e <= |s|
  {
    var f := WsEnd(s, e);
    if f + 1 < |s| && s[f] == '(' then
      match CloseParen(s, f + 1, f + 2)
      case Some(k) => Some(Trim(s[f + 1..k]))
      case None => None
    else None
  }

  /**
   * `\s*(.+)` from `q`: the span of the captured text. The blank run is
   * taken whole when a character of the line follows it; otherwise the
   * run gives back its last non-terminator blank, which the capture then
   * holds alone.
   */
  function LineValueAt(s: string, q: nat): (r: Option<(nat, nat)>)
    requires q <= |s|
    ensures r.Some? ==> q <= r.value.0 < r.value.1 <= |s|
    ensures r.Some? ==> forall i :: r.value.0 <= i < r.value.1 ==> !IsLineTerminator(s[i])
    ensures r.Some? ==> r.value.1 == |s| || IsLineTerminator(s[r.value.1])
  {
    var w := WsEnd(s, q);
    if w < |s| && !IsLineTerminator(s[w]) then LineEndRun(s, w); Some((w, LineEnd(s, w)))
    else
      match LastNonTerminator(s, q, w)
      case Some(k) => Some((k, k + 1))
      case None => None
  }

  /** The last index in `[q, w)` that is not a line terminator. */
  function LastNonTerminator(s: string, q: nat, w: nat): (r: Option<nat>)
    requires q <= w <= |s|
    decreases w
    ensures r.Some? ==> q <= r.value < w && !IsLineTerminator(s[r.value])
    ensures r.Some? ==> forall i :: r.value < i < w ==> IsLineTerminator(s[i])
    ensures r.None? ==> forall i :: q <= i < w ==> IsLineTerminator(s[i])
  {
    if w == q then None
    else if !IsLineTerminator(s[w - 1]) then Some(w - 1)
    else LastNonTerminator(s, q, w - 1)
  }

  /**
   * `\s*\[.*?\]\s*(\d+)%` from `q`, and with `anchored` a line end right
   * after the `%`: the span of the percentage's digits.
   */
  function ProgressAt(s: string, q: nat, anchored: bool): (r: Option<(nat, nat)>)
    requires q <= |s|
    ensures r.Some? ==> q < r.value.0 < r.value.1 < |s| && s[r.value.1] == '%'
    ensures r.Some? ==> AllDigits(s[r.value.0..r.value.1])
    ensures anchored && r.Some? ==> r.value.1 + 1 == |s| || IsLineTerminator(s[r.value.1 + 1])
  {
    var w := WsEnd(s, q);
    if w < |s| && s[w] == '[' then CloseBracket(s, w + 1, anchored) else None
  }

  /** The lazy `.*?\]` part: try each `]` of the line from `b` on in turn. */
  function CloseBracket(s: string, b: nat, anchored: bool): (r: Option<(nat, nat)>)
    requires b <= |s|
    decreases |s| - b
    ensures r.Some? ==> b < r.value.0 < r.value.1 < |s| && s[r.value.1] == '%'
    ensures r.Some? ==> AllDigits(s[r.value.0..r.value.1])
    ensures anchored && r.Some? ==> r.value.1 + 1 == |s| || IsLineTerminator(s[r.value.1 + 1])
  {
    if b == |s| then None
    else if s[b] == ']' && PercentAt(s, b + 1, anchored).Some? then PercentAt(s, b + 1, anchored)
    else if IsLineTerminator(s[b]) then None
    else CloseBracket(s, b + 1, anchored)
  }

  /** `\s*(\d+)%` from `x` (followed by the end of a line when `anchored`). */
  function PercentAt(s: string, x: nat, anchored: bool): (r: Option<(nat, nat)>)
    requires x <= |s|
    ensures r.Some? ==> x <= r.value.0 < r.value.1 < |s| && s[r.value.1] == '%'
    ensures r.Some? ==> AllDigits(s[r.value.0..r.value.1])
    ensures anchored && r.Some? ==> r.value.1 + 1 == |s| || IsLineTerminator(s[r.value.1 + 1])
  {
    var y := WsEnd(s, x);
    var z := DigitsEnd(s, y);
    if z > y && z < |s| && s[z] == '%' && (!anchored || z + 1 == |s| || IsLineTerminator(s[z + 1]))
    then Some((y, z))
    else None
  }

  /**
   * One blank, a digit run `x`, ` of ` and a digit run `y` that ends the
   * number: `\s*(\d+)\s+of\s+(\d+)` captures `x` and `y`.
   */
  lemma CountsOf(s: string, q: nat, x: string, y: string)
    requires x != "" && y != "" && AllDigits(x) && AllDigits(y) && q + |x| + |y| + 5 <= |s|
    requires s[q] == ' ' && forall i :: 0 <= i < |x| ==> s[q + 1 + i] == x[i]
    requires s[q + 1 + |x|] == ' ' && s[q + 2 + |x|] == 'o' && s[q + 3 + |x|] == 'f' && s[q + 4 + |x|] == ' '
    requires forall i :: 0 <= i < |y| ==> s[q + 5 + |x| + i] == y[i]
    requires q + |x| + |y| + 5 == |s| || !IsDigit(s[q + |x| + |y| + 5])
    ensures CountsAt(s, q) == Some(Counts(x, y, q + |x| + |y| + 5))
  {
    var b, c := q + 1 + |x|, q + 5 + |x|;
    FirstCount(s, q, x);
    SecondCount(s, c, y);
    CountsAtEnds(s, q, q + 1, b, b + 1, c, c + |y|, x, y);
  }

  /** The first number of `CountsOf`, and the ` of ` after it. */
  lemma FirstCount(s: string, q: nat, x: string)
    requires x != "" && AllDigits(x) && q + |x| + 5 <= |s|
    requires s[q] == ' ' && forall i :: 0 <= i < |x| ==> s[q + 1 + i] == x[i]
    requires s[q + 1 + |x|] == ' ' && s[q + 2 + |x|] == 'o' && s[q + 3 + |x|] == 'f' && s[q + 4 + |x|] == ' '
    ensures var b := q + 1 + |x|;
      WsEnd(s, q) == q + 1 && DigitsEnd(s, q + 1) == b && s[q + 1..b] == x &&
      WsEnd(s, b) == b + 1 && OccursAt(s, "of", b + 1)
  {
    var b := q + 1 + |x|;
    assert s[b + 1..b + 3] == "of";
    DigitRunAt(s, q + 1, x);
    OneBlank(s, q);
    OneBlank(s, b);
  }

  /** The second number of `CountsOf`, after the blank at `c - 1`. */
  lemma SecondCount(s: string, c: nat, y: string)
    requires y != "" && AllDigits(y) && 0 < c && c + |y| <= |s| && s[c - 1] == ' '
    requires forall i :: 0 <= i < |y| ==> s[c + i] == y[i]
    requires c + |y| == |s| || !IsDigit(s[c + |y|])
    ensures WsEnd(s, c - 1) == c && DigitsEnd(s, c) == c + |y| && s[c..c + |y|] == y
  {
    DigitRunAt(s, c, y);
    OneBlank(s, c - 1);
  }

  /** A digit string in place at `p`, not followed by a digit: the digit run there. */
  lemma DigitRunAt(s: string, p: nat, x: string)
    requires x != "" && AllDigits(x) && p + |x| <= |s|
    requires forall i :: 0 <= i < |x| ==> s[p + i] == x[i]
    requires p + |x| == |s| || !IsDigit(s[p + |x|])
    ensures DigitsEnd(s, p) == p + |x| && s[p..p + |x|] == x
    ensures IsDigit(s[p]) && !IsWs(s[p])
  {
    forall i | p <= i < p + |x| ensures IsDigit(s[i]) { assert s[i] == x[i - p]; }
    DigitsEndAt(s, p, p + |x|);
    assert s[p] == x[0];
  }

  lemma OneBlank(s: string, p: nat)
    requires p + 1 < |s| && s[p] == ' ' && !IsWs(s[p + 1])
    ensures WsEnd(s, p) == p + 1
  {
    WsEndAt(s, p, p + 1);
  }

  /** `CountsAt` from the ends of its runs. */
  lemma CountsAtEnds(s: string, q: nat, a: nat, b: nat, c: nat, d: nat, e: nat, x: string, y: string)
    requires q <= |s| && WsEnd(s, q) == a && DigitsEnd(s, a) == b && b > a && s[a..b] == x
    requires WsEnd(s, b) == c && c > b && OccursAt(s, "of", c)
    requires WsEnd(s, c + 2) == d && d > c + 2 && DigitsEnd(s, d) == e && e > d && s[d..e] == y
    ensures CountsAt(s, q) == Some(Counts(x, y, e))
  {
  }

  /**
   * A line from `q` to the terminator at `e` that holds a non-blank at
   * `k`: `\s*(.+)` captures the line's text after its leading blanks.
   */
  lemma LineValueOf(s: string, q: nat, k: nat, e: nat)
    requires q <= k < e < |s| && !IsWs(s[k]) && IsLineTerminator(s[e])
    requires forall i :: q <= i < e ==> !IsLineTerminator(s[i])
    ensures LineValueAt(s, q).Some?
    ensures var v := LineValueAt(s, q).value; Trim(s[v.0..v.1]) == Trim(s[q..e])
  {
    var w := WsEnd(s, q);
    WsEndStops(s, q, k);
    LineEndAt(s, w, e);
    WsRun(s, q);
    assert s[q..e] == s[q..w] + s[w..e];
    TrimPadded(s[q..w], s[w..e], "");
    assert s[q..w] + s[w..e] + "" == s[q..e];
  }

  /**
   * The lazy `.*?\]` from `b` meets no `]` and no line terminator before
   * `k`, and the percentage follows the `]` at `k`.
   */
  lemma {:induction false} CloseBracketAt(s: string, b: nat, k: nat, anchored: bool)
    requires b <= k < |s| && s[k] == ']' && PercentAt(s, k + 1, anchored).Some?
    requires forall i :: b <= i < k ==> s[i] != ']' && !IsLineTerminator(s[i])
    decreases k - b
    ensures CloseBracket(s, b, anchored) == PercentAt(s, k + 1, anchored)
  {
    if b < k {
      CloseBracketAt(s, b + 1, k, anchored);
    }
  }

  /** The five patterns `parseStatePosition` searches the text for. */
  datatype Field = PhaseField | PlanField | StatusField | ActivityField | ProgressField

  function Label(f: Field): string
  {
    match f
    case PhaseField => "Phase:"
    case PlanField => "Plan:"
    case StatusField => "Status:"
    case ActivityField => "Last activity:"
    case ProgressField => "Progress:"
  }

  /** The field's pattern matches at `p`. */
  predicate MatchesAt(f: Field, s: string, p: nat)
  {
    OccursAt(s, Label(f), p) &&
    var q := p + |Label(f)|;
    match f
    case PhaseField => CountsAt(s, q).Some?
    case PlanField => CountsAt(s, q).Some?
    case StatusField => LineValueAt(s, q).Some?
    case ActivityField => LineValueAt(s, q).Some?
    case ProgressField => ProgressAt(s, q, false).Some?
  }

  /** The field's pattern as a test on start positions. */
  function MatchTest(f: Field, s: string): nat -> bool
  {
    (i: nat) => MatchesAt(f, s, i)
  }

  /** The leftmost match of the field's pattern at or after `p`. */
  function FirstMatch(f: Field, s: string, p: nat): (r: Option<nat>)
    requires p <= |s|
    ensures r.Some? ==> p <= r.value <= |s| && MatchesAt(f, s, r.value)
  {
    FirstIndex(MatchTest(f, s), p, |s|)
  }

  /** The match `FirstMatch` finds is the leftmost one, and `None` means there is none. */
  lemma FirstMatchLeftmost(f: Field, s: string, p: nat)
    requires p <= |s|
    ensures FirstMatch(f, s, p).Some? ==> forall i :: p <= i < FirstMatch(f, s, p).value ==> !MatchesAt(f, s, i)
    ensures FirstMatch(f, s, p).None? ==> forall i :: p <= i <= |s| ==> !MatchesAt(f, s, i)
  {
    FirstIndexLeftmost(MatchTest(f, s), p, |s|);
    forall i | p <= i <= |s| ensures MatchTest(f, s)(i) == MatchesAt(f, s, i) { }
  }

  /** A match with no occurrence of the label before it is the one `FirstMatch` finds. */
  lemma FirstMatchAt(f: Field, s: string, p: nat)
    requires MatchesAt(f, s, p)
    requires forall i :: 0 <= i < p ==> !OccursAt(s, Label(f), i)
    ensures FirstMatch(f, s, 0) == Some(p)
  {
    forall i | 0 <= i < p ensures !MatchTest(f, s)(i) { }
    FirstIndexAt(MatchTest(f, s), 0, |s|, p);
  }

  /** The trimmed capture of a text field at its first match, or `null`. */
  function TextField(f: Field, s: string): Option<string>
    requires f == StatusField || f == ActivityField
  {
    match FirstMatch(f, s, 0)
    case Some(p) =>
      var v := LineValueAt(s, p + |Label(f)|).value;
      Some(Trim(s[v.0..v.1]))
    case None => None
  }

  /** A counts field's match has its counts right after the label. */
  lemma CountsMatch(f: Field, s: string, p: nat)
    requires f == PhaseField || f == PlanField
    requires MatchesAt(f, s, p)
    ensures p + |Label(f)| <= |s| && CountsAt(s, p + |Label(f)|).Some?
  {
  }

  /** The numbers of a counts field at its first match, or `0 of 0`. */
  function CountsField(f: Field, s: string): (nat, nat, Option<string>)
    requires f == PhaseField || f == PlanField
  {
    match FirstMatch(f, s, 0)
    case Some(p) =>
      CountsMatch(f, s, p);
      var c := CountsAt(s, p + |Label(f)|).value;
      (DigitsValue(c.first), DigitsValue(c.second), if f == PhaseField then PhaseNameAt(s, c.end) else None)
    case None => (0, 0, None)
  }

  /** The percentage at the first progress match, or 0. */
  function PercentField(s: string): nat
  {
    match FirstMatch(ProgressField, s, 0)
    case Some(p) =>
      var d := ProgressAt(s, p + |Label(ProgressField)|, false).value;
      DigitsValue(s[d.0..d.1])
    case None => 0
  }

  /**
   * `parseStatePosition`: null exactly when there is no `Phase: N of M`;
   * otherwise each other field at its first match, or its default.
   */
  function ParseStatePosition(s: string): (r: Option<Position>)
    ensures r.None? <==> forall i :: 0 <= i <= |s| ==> !MatchesAt(PhaseField, s, i)
    ensures r.Some? && FirstMatch(PlanField, s, 0).None? ==> r.value.planNum == 0 && r.value.totalPlans == 0
    ensures r.Some? && FirstMatch(StatusField, s, 0).None? ==> r.value.status.None?
    ensures r.Some? && FirstMatch(ActivityField, s, 0).None? ==> r.value.lastActivity.None?
    ensures r.Some? && FirstMatch(ProgressField, s, 0).None? ==> r.value.progressPct == 0
  {
    FirstMatchLeftmost(PhaseField, s, 0);
    if FirstMatch(PhaseField, s, 0).None? then None
    else
      var phase := CountsField(PhaseField, s);
      var plan := CountsField(PlanField, s);
      Some(Position(phase.0, phase.1, phase.2, plan.0, plan.1,
                    TextField(StatusField, s), TextField(ActivityField, s), PercentField(s)))
  }

  // =====================================================================
  // parseRoadmapProgress
  // =====================================================================

  /** One parsed ledger row `| N. Name | c/t | Status | Date |`. */
  datatype PhaseRow = PhaseRow(
    number: nat, name: string, completedPlans: nat, totalPlans: nat,
    status: string, completedDate: Option<string>)

  /** The columns after the name cell, the `|` that opens them, and where the match ends. */
  datatype RowRest = RowRest(completed: nat, total: nat, status: string, date: Option<string>, cell: nat, end: nat)

  /** The first index from `k` on that is neither a word character nor a blank. */
  function WordOrWsEnd(s: string, k: nat): (x: nat)
    requires k <= |s|
    decreases |s| - k
    ensures k <= x <= |s|
    ensures forall i :: k <= i < x ==> IsWordChar(s[i]) || IsWs(s[i])
    ensures x == |s| || !(IsWordChar(s[x]) || IsWs(s[x]))
  {
    if k < |s| && (IsWordChar(s[k]) || IsWs(s[k])) then WordOrWsEnd(s, k + 1) else k
  }

  /**
   * The lazy date `(.*?)\s*\|` from `j`: the first end `k` (no line
   * break in `s[j..k]`) after which blanks and then `|` follow.
   */
  function DateEnd(s: string, j: nat, k: nat): (r: Option<nat>)
    requires j <= k <= |s|
    decreases |s| - k
    ensures r.Some? ==> k <= r.value <= |s| && WsEnd(s, r.value) < |s| && s[WsEnd(s, r.value)] == '|'
  {
    var w := WsEnd(s, k);
    if w < |s| && s[w] == '|' then Some(k)
    else if k == |s| || IsLineTerminator(s[k]) then None
    else DateEnd(s, j, k + 1)
  }

  /**
   * `\s*\|\s*(\d+)\/(\d+)\s*\|\s*(\w[\w\s]*?)\s*\|\s*(.*?)\s*\|` from `e`.
   * The status runs over word characters and blanks up to the next `|`
   * (nothing else may stand before it), and both captures are trimmed.
   */
  function RestAt(s: string, e: nat): (r: Option<RowRest>)
    requires e <= |s|
    ensures r.Some? ==> e < r.value.end <= |s|
    ensures r.Some? ==> r.value.cell == WsEnd(s, e) && r.value.cell < r.value.end && s[r.value.cell] == '|'
  {
    var c := WsEnd(s, e);
    if c == |s| || s[c] != '|' then None
    else RowCountsAt(s, c)
  }

  /** `\s*(\d+)\/(\d+)\s*\|` after the cell bar at `c`, then the status and the date. */
  function RowCountsAt(s: string, c: nat): (r: Option<RowRest>)
    requires c < |s|
    ensures r.Some? ==> r.value.cell == c < r.value.end <= |s|
  {
    var d := WsEnd(s, c + 1);
    var d1 := DigitsEnd(s, d);
    if d1 == d || d1 == |s| || s[d1] != '/' then None
    else
      var d2 := DigitsEnd(s, d1 + 1);
      var f := WsEnd(s, d2);
      if d2 == d1 + 1 || f == |s| || s[f] != '|' then None
      else RowStatusAt(s, c, DigitsValue(s[d..d1]), DigitsValue(s[d1 + 1..d2]), f)
  }

  /** `\s*(\w[\w\s]*?)\s*\|\s*(.*?)\s*\|` after the counts' closing bar at `f`. */
  function RowStatusAt(s: string, c: nat, done: nat, total: nat, f: nat): (r: Option<RowRest>)
    requires c < f < |s|
    ensures r.Some? ==> r.value.cell == c < r.value.end <= |s|
  {
    var g := WsEnd(s, f + 1);
    if g == |s| || !IsWordChar(s[g]) then None
    else
      var x := WordOrWsEnd(s, g + 1);
      if x == |s| || s[x] != '|' then None
      else
        var j := WsEnd(s, x + 1);
        match DateEnd(s, j, j)
        case None => None
        case Some(k) =>
          var date := Trim(s[j..k]);
          Some(RowRest(done, total, Trim(s[g..x]), if date == "" then None else Some(date), c, WsEnd(s, k) + 1))
  }

  /**
   * The lazy name `(.+?)` from `b`, tried with each end `e` in turn: the
   * trimmed name and the rest of the row at the first end that fits.
   */
  function NamedRest(s: string, b: nat, e: nat): (r: Option<(string, RowRest)>)
    requires b < e <= |s|
    decreases |s| - e
    ensures r.Some? ==> e <= r.value.1.cell < r.value.1.end <= |s|
  {
    if IsLineTerminator(s[e - 1]) then None
    else
      match RestAt(s, e)
      case Some(rest) => Some((Trim(s[b..e]), rest))
      case None => if e == |s| then None else NamedRest(s, b, e + 1)
  }

  /**
   * When no name end fits after the blanks `s[m..b]`, the blank run gives
   * back its last non-terminator blank, which the name then holds alone
   * (so the trimmed name is empty).
   */
  function BlankNamedRest(s: string, m: nat, b: nat): (r: Option<(string, RowRest)>)
    requires m <= b <= |s|
    ensures r.Some? ==> b <= r.value.1.cell < r.value.1.end <= |s|
  {
    if LastNonTerminator(s, m, b).None? then None
    else
      match RestAt(s, b)
      case Some(rest) => Some(("", rest))
      case None => None
  }

  /** `\s*(.+?)\s*\|...` after the `N.` of a row: the trimmed name and the other cells. */
  function CellsFrom(s: string, m: nat): (r: Option<(string, RowRest)>)
    requires m <= |s|
    ensures r.Some? ==> m < r.value.1.cell < r.value.1.end <= |s|
  {
    var b := WsEnd(s, m);
    var named := if b < |s| then NamedRest(s, b, b + 1) else None;
    if named.Some? then named else BlankNamedRest(s, m, b)
  }

  /** `\|\s*(\d+)\.` at `p`: the phase number and where the text after its dot starts. */
  function NumberAt(s: string, p: nat): (r: Option<(nat, nat)>)
    requires p <= |s|
    ensures r.Some? ==> p < r.value.1 <= |s|
  {
    if p == |s| || s[p] != '|' then None
    else
      var a := WsEnd(s, p + 1);
      var n := DigitsEnd(s, a);
      if n == a || n == |s| || s[n] != '.' then None
      else Some((DigitsValue(s[a..n]), n + 1))
  }

  /** The row with number `number` and the cells `cells`, with the end of the match. */
  function RowOf(number: nat, cells: Option<(string, RowRest)>): Option<(PhaseRow, nat)>
  {
    match cells
    case None => None
    case Some((name, rest)) =>
      Some((PhaseRow(number, name, rest.completed, rest.total, rest.status, rest.date), rest.end))
  }

  /** The row pattern matched at `p`, with the end of the match. */
  function RowAt(s: string, p: nat): (r: Option<(PhaseRow, nat)>)
    requires p <= |s|
    ensures r.Some? ==> p < r.value.1 <= |s|
  {
    match NumberAt(s, p)
    case None => None
    case Some((number, m)) => RowOf(number, CellsFrom(s, m))
  }

  /** A row match starts at `i`. */
  predicate RowStartsAt(s: string, i: nat)
  {
    i <= |s| && RowAt(s, i).Some?
  }

  /** The row pattern as a test on start positions. */
  function RowTest(s: string): nat -> bool
  {
    (i: nat) => RowStartsAt(s, i)
  }

  /** `rowRegex.exec` from `p`: where the leftmost row match starts. */
  function FirstRow(s: string, p: nat): (r: Option<nat>)
    requires p <= |s|
    ensures r.Some? ==> p <= r.value <= |s| && RowAt(s, r.value).Some?
  {
    FirstIndex(RowTest(s), p, |s|)
  }

  /** The row `FirstRow` finds is the leftmost one, and `None` means there is none. */
  lemma FirstRowLeftmost(s: string, p: nat)
    requires p <= |s|
    ensures FirstRow(s, p).Some? ==> forall i :: p <= i < FirstRow(s, p).value ==> RowAt(s, i).None?
    ensures FirstRow(s, p).None? ==> forall i :: p <= i <= |s| ==> RowAt(s, i).None?
  {
    FirstIndexLeftmost(RowTest(s), p, |s|);
    forall i | p <= i <= |s| ensures RowTest(s)(i) == RowAt(s, i).Some? { }
  }

  /** One step of the `while (exec)` loop from `p`: the next row and where the search resumes. */
  function NextRow(s: string, p: nat): (r: Option<(PhaseRow, nat)>)
    requires p <= |s|
    ensures r.Some? ==> p < r.value.1 <= |s|
  {
    match FirstRow(s, p)
    case Some(q) => RowAt(s, q)
    case None => None
  }

  /**
   * The rows the `while (exec)` loop holds when it stops, given the rows
   * `found` before position `p`.
   */
  function RowsFrom(s: string, p: nat, found: seq<PhaseRow>): seq<PhaseRow>
    requires p <= |s|
    decreases |s| - p
  {
    match NextRow(s, p)
    case Some(next) => RowsFrom(s, next.1, found + [next.0])
    case None => found
  }

  /** The ledger rows of a document, in document order. */
  function Rows(s: string): seq<PhaseRow>
  {
    RowsFrom(s, 0, [])
  }

  function SumTotals(rows: seq<PhaseRow>): nat
  {
    if rows == [] then 0 else SumTotals(rows[..|rows| - 1]) + rows[|rows| - 1].totalPlans
  }

  function SumCompleted(rows: seq<PhaseRow>): nat
  {
    if rows == [] then 0 else SumCompleted(rows[..|rows| - 1]) + rows[|rows| - 1].completedPlans
  }

  /** Adding a row to the list adds its counts to the sums. */
  lemma SumAppend(rows: seq<PhaseRow>, row: PhaseRow)
    ensures SumTotals(rows + [row]) == SumTotals(rows) + row.totalPlans
    ensures SumCompleted(rows + [row]) == SumCompleted(rows) + row.completedPlans
  {
    assert (rows + [row])[..|rows|] == rows;
  }

  /**
   * `parseRoadmapProgress`: every ledger row in document order, and the
   * plan totals summed over them.
   */
  method ParseRoadmapProgress(content: string) returns (phases: seq<PhaseRow>, totalPlans: nat, completedPlans: nat)
    ensures phases == Rows(content)
    ensures totalPlans == SumTotals(phases) && completedPlans == SumCompleted(phases)
  {
    phases, totalPlans, completedPlans := [], 0, 0;
    var pos := 0;
    var m := NextRow(content, 0);
    while m.Some?
      invariant pos <= |content| && m == NextRow(content, pos)
      invariant RowsFrom(content, pos, phases) == Rows(content)
      invariant totalPlans == SumTotals(phases) && completedPlans == SumCompleted(phases)
      decreases |content| - pos
    {
      var (row, end) := m.value;
      SumAppend(phases, row);
      phases := phases + [row];
      totalPlans := totalPlans + row.totalPlans;
      completedPlans := completedPlans + row.completedPlans;
      pos := end;
      m := NextRow(content, pos);
    }
  }
}

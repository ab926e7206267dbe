/**
 * The discuss-phase helpers of `src/discuss-phase.js`: the details of one
 * phase cut out of ROADMAP.md (`getPhaseDetails`) and the section list of
 * the CONTEXT.md template (`getContextTemplateSections`).
 *
 * Each regular expression is modelled by the position at which a search
 * succeeds first, as in the other parsers of the model, with JavaScript's
 * greedy matching and backtracking written out.
 */
module DiscussPhase {
  import opened Wrappers
  import opened Text
  import opened Lines

  // ---------------------------------------------------------------------
  // the pieces of `\s*(.+)`
  // ---------------------------------------------------------------------

  /** The last index in `[q, e)` that `.` matches, if there is one. */
  function LastDot(s: string, q: nat, e: nat): (r: Option<nat>)
    requires q <= e <= |s|
    decreases e - q
    ensures r.Some? ==> q <= r.value < e && !IsLineTerminator(s[r.value])
  {
    if e == q then None
    else if !IsLineTerminator(s[e - 1]) then Some(e - 1)
    else LastDot(s, q, e - 1)
  }

  /**
   * Where the group of `\s*(.+)` tried at `q` begins: after the greedy run
   * of whitespace, or, when that run reaches the end of the text, at the
   * last character `.` accepts once `\s*` gives characters back. `None`
   * when the pattern cannot match at `q`. The group ends at the line end.
   */
  function CaptureStart(s: string, q: nat): (r: Option<nat>)
    requires q <= |s|
    ensures r.Some? ==> q <= r.value < |s| && !IsLineTerminator(s[r.value])
    ensures r.Some? ==> AllWs(s[q..r.value])
  {
    var e := WsEnd(s, q);
    WsRun(s, q);
    if e < |s| then Some(e)
    else
      var d := LastDot(s, q, e);
      if d.Some? then assert s[q..d.value] == s[q..e][..d.value - q]; d else d
  }

  /** The text of the group of `\s*(.+)` tried at `q`, trimmed. */
  function Group(s: string, q: nat): string
    requires q <= |s| && CaptureStart(s, q).Some?
  {
    var c := CaptureStart(s, q).value;
    Trim(s[c..LineEnd(s, c)])
  }

  /** Where the match of `\s*(.+)` tried at `q` ends. */
  function GroupEnd(s: string, q: nat): (e: nat)
    requires q <= |s| && CaptureStart(s, q).Some?
    ensures e <= |s|
  {
    LineEnd(s, CaptureStart(s, q).value)
  }

  // ---------------------------------------------------------------------
  // the phase heading: `^### Phase ${phaseNum}:\s*(.+)$` with the `m` flag
  // ---------------------------------------------------------------------

  function HeaderPrefix(n: nat): string
  {
    PhaseWord + (NatToString(n) + ":")
  }

  /** The heading pattern matches at `p`. */
  predicate HeaderAt(s: string, n: nat, p: nat)
  {
    OccursAt(s, HeaderPrefix(n), p) && LineStart(s, p) && CaptureStart(s, p + |HeaderPrefix(n)|).Some?
  }

  function HeaderTest(s: string, n: nat): nat -> bool
  {
    (p: nat) => HeaderAt(s, n, p)
  }

  /** The name of the phase and the index just past the match. */
  datatype Heading = Heading(name: string, end: nat)

  /** The trimmed group of the heading matched at `p`, and the end of the match. */
  function HeadingAt(s: string, n: nat, p: nat): (h: Heading)
    requires HeaderAt(s, n, p)
    ensures h.end <= |s|
  {
    var q := p + |HeaderPrefix(n)|;
    Heading(Group(s, q), GroupEnd(s, q))
  }

  /** `raw.match(headerRegex)`: the trimmed group and the end of `match[0]`. */
  function FindHeading(s: string, n: nat): (r: Option<Heading>)
    ensures r.Some? ==> r.value.end <= |s|
  {
    match FirstIndex(HeaderTest(s, n), 0, |s|)
    case None => None
    case Some(p) => Some(HeadingAt(s, n, p))
  }

  // ---------------------------------------------------------------------
  // the section: up to `/^### Phase \d+:/m`
  // ---------------------------------------------------------------------

  const PhaseWord := "### Phase "

  /** The next-heading pattern matches at `i`: digits and a colon after the words. */
  predicate NextAt(t: string, i: nat)
  {
    OccursAt(t, PhaseWord, i) && LineStart(t, i)
    && var j := DigitsEnd(t, i + |PhaseWord|); i + |PhaseWord| < j < |t| && t[j] == ':'
  }

  function NextTest(t: string): nat -> bool
  {
    (i: nat) => NextAt(t, i)
  }

  /** Where the phase's text ends: the next phase heading or the end. */
  function SectionEnd(after: string): (k: nat)
    ensures k <= |after|
  {
    match FirstIndex(NextTest(after), 0, |after|)
    case None => |after|
    case Some(k) => k
  }

  /** `phaseSection`. */
  function PhaseSection(after: string): string
  {
    Trim(after[..SectionEnd(after)])
  }

  // ---------------------------------------------------------------------
  // `**Goal**:` and `**Requirements**:`
  // ---------------------------------------------------------------------

  const GoalLabel := "**Goal**:"

  const RequirementsLabel := "**Requirements**:"

  /** `tag\s*(.+)` matches at `i` (no anchors, no flags). */
  predicate FieldAt(t: string, tag: string, i: nat)
  {
    OccursAt(t, tag, i) && CaptureStart(t, i + |tag|).Some?
  }

  function FieldTest(t: string, tag: string): nat -> bool
  {
    (i: nat) => FieldAt(t, tag, i)
  }

  /** `match ? match[1].trim() : ''`. */
  function Field(t: string, tag: string): string
  {
    match FirstIndex(FieldTest(t, tag), 0, |t|)
    case None => ""
    case Some(i) => FieldValue(t, tag, i)
  }

  /** The capture group after the label found at `i`. */
  function FieldValue(t: string, tag: string, i: nat): string
    requires FieldAt(t, tag, i)
  {
    Group(t, i + |tag|)
  }

  // ---------------------------------------------------------------------
  // success criteria
  // ---------------------------------------------------------------------

  const CriteriaLabel := "**Success Criteria**"

  /** The first `:` at or after `j`: where `[^:]*:` stops. */
  function ColonFrom(t: string, j: nat): (r: Option<nat>)
    requires j <= |t|
    decreases |t| - j
    ensures r.Some? ==> j <= r.value < |t| && t[r.value] == ':'
    ensures r.Some? ==> forall i :: j <= i < r.value ==> t[i] != ':'
    ensures r.None? ==> forall i :: j <= i < |t| ==> t[i] != ':'
  {
    if j == |t| then None else if t[j] == ':' then Some(j) else ColonFrom(t, j + 1)
  }

  /** `/\*\*Success Criteria\*\*[^:]*:/` matches at `i`. */
  predicate CriteriaAt(t: string, i: nat)
  {
    i + |CriteriaLabel| <= |t| && t[i..i + |CriteriaLabel|] == CriteriaLabel
    && ColonFrom(t, i + |CriteriaLabel|).Some?
  }

  function CriteriaTest(t: string): nat -> bool
  {
    (i: nat) => CriteriaAt(t, i)
  }

  /** `afterCriteria.split('\n')`, or no lines when the tag is absent. */
  function CriteriaSource(t: string): seq<string>
  {
    match FirstIndex(CriteriaTest(t), 0, |t|)
    case None => []
    case Some(i) => Split(t[ColonFrom(t, i + |CriteriaLabel|).value + 1..])
  }

  /**
   * `/^\d+\.\s+/` on the trimmed line, and what `.replace(…, '').trim()`
   * leaves of it: never empty, and already trimmed.
   */
  function ItemOf(line: string): (r: Option<string>)
    ensures r.Some? ==> r.value != "" && IsTrimmed(r.value)
  {
    NumberedItem(Trim(line))
  }

  /** The item of a trimmed line that starts with digits, a dot and a blank. */
  function NumberedItem(l: string): (r: Option<string>)
    requires IsTrimmed(l)
    ensures r.Some? ==> r.value != "" && IsTrimmed(r.value)
  {
    var d := DigitsEnd(l, 0);
    if 0 < d && d + 1 < |l| && l[d] == '.' && IsWs(l[d + 1]) then Some(ItemText(l, d)) else None
  }

  /** What is left once the number, the dot and the blanks after it are gone. */
  function ItemText(l: string, d: nat): (x: string)
    requires IsTrimmed(l) && d + 1 < |l| && IsWs(l[d + 1])
    ensures x != "" && IsTrimmed(x)
  {
    var w := WsEnd(l, d + 1);
    var x := l[w..];
    WsEndBeforeLast(l, d + 1);
    assert x[|x| - 1] == l[|l| - 1];
    TrimOfTrimmed(x);
    Trim(x)
  }

  /** Skipping blanks stops before a last character that is not one. */
  lemma {:induction false} WsEndBeforeLast(s: string, q: nat)
    requires q < |s| && !IsWs(s[|s| - 1])
    decreases |s| - q
    ensures WsEnd(s, q) < |s|
  {
    if IsWs(s[q]) {
      WsEndBeforeLast(s, q + 1);
    }
  }

  /** A blank line or a `**` line. */
  predicate IsStopLine(line: string)
  {
    var l := Trim(line);
    l == "" || StartsWith(l, "**")
  }

  /** A numbered line is never a stop line. */
  lemma ItemNotStop(line: string)
    requires ItemOf(line).Some?
    ensures !IsStopLine(line)
  {
    var l := Trim(line);
    assert IsDigit(l[0]);
    FirstCharOf(l, "**");
  }

  lemma FirstCharOf(t: string, p: string)
    ensures StartsWith(t, p) && p != [] ==> t[0] == p[0]
  {
    if StartsWith(t, p) && p != [] {
      assert t[..|p|][0] == t[0];
    }
  }

  /** The items of the numbered lines among `ls`, in order. */
  function Items(ls: seq<string>): seq<string>
  {
    if ls == [] then []
    else
      var x := ItemOf(ls[|ls| - 1]);
      Items(ls[..|ls| - 1]) + (if x.Some? then [x.value] else [])
  }

  /** Every criterion is non-empty and trimmed. */
  lemma {:induction false} ItemsTrimmed(ls: seq<string>)
    ensures forall k :: 0 <= k < |Items(ls)| ==> Items(ls)[k] != "" && IsTrimmed(Items(ls)[k])
  {
    if ls != [] {
      ItemsTrimmed(ls[..|ls| - 1]);
    }
  }

  /** Line `j` ends the collection: a stop line after at least one item. */
  predicate CutAt(ls: seq<string>, j: nat)
  {
    j < |ls| && IsStopLine(ls[j]) && Items(ls[..j]) != []
  }

  function CutTest(ls: seq<string>): nat -> bool
  {
    (j: nat) => CutAt(ls, j)
  }

  /** Where the loop breaks, or the number of lines when it does not. */
  function Cut(ls: seq<string>): (k: nat)
    ensures k <= |ls|
  {
    match FirstIndex(CutTest(ls), 0, |ls|)
    case None => |ls|
    case Some(k) => k
  }

  /** The criteria: the items before the break. */
  function Criteria(ls: seq<string>): seq<string>
  {
    Items(ls[..Cut(ls)])
  }

  lemma ItemsStep(ls: seq<string>, i: nat)
    requires i < |ls|
    ensures Items(ls[..i + 1]) == Items(ls[..i]) + (if ItemOf(ls[i]).Some? then [ItemOf(ls[i]).value] else [])
  {
    assert ls[..i + 1][..i] == ls[..i];
  }

  lemma CutLeftmost(ls: seq<string>)
    ensures Cut(ls) == |ls| || CutAt(ls, Cut(ls))
    ensures forall j :: 0 <= j < Cut(ls) ==> !CutAt(ls, j)
  {
    FirstIndexLeftmost(CutTest(ls), 0, |ls|);
    forall j | 0 <= j <= |ls| ensures CutTest(ls)(j) == CutAt(ls, j) { }
  }

  lemma CutFirstAt(ls: seq<string>, k: nat)
    requires k <= |ls| && (k == |ls| || CutAt(ls, k))
    requires forall j :: 0 <= j < k ==> !CutAt(ls, j)
    ensures Cut(ls) == k
  {
    forall j | 0 <= j <= k ensures CutTest(ls)(j) == CutAt(ls, j) { }
    if k < |ls| {
      FirstIndexAt(CutTest(ls), 0, |ls|, k);
    } else {
      FirstIndexLeftmost(CutTest(ls), 0, |ls|);
    }
  }

  lemma CriteriaUpTo(ls: seq<string>, k: nat)
    requires k <= |ls| && (k == |ls| || CutAt(ls, k))
    requires forall j :: 0 <= j < k ==> !CutAt(ls, j)
    ensures Criteria(ls) == Items(ls[..k])
  {
    CutFirstAt(ls, k);
  }

  /** One line of the loop: what it adds, and whether it is the break. */
  lemma CriteriaStep(ls: seq<string>, i: nat, x: Option<string>, stop: bool)
    requires i < |ls| && x == ItemOf(ls[i]) && stop == IsStopLine(ls[i])
    requires forall j :: 0 <= j < i ==> !CutAt(ls, j)
    ensures Items(ls[..i + 1]) == Items(ls[..i]) + (if x.Some? then [x.value] else [])
    ensures x.Some? ==> !stop
    ensures stop && Items(ls[..i]) != [] ==> CutAt(ls, i)
    ensures !stop || Items(ls[..i]) == [] ==> forall j :: 0 <= j < i + 1 ==> !CutAt(ls, j)
  {
    ItemsStep(ls, i);
    if x.Some? {
      ItemNotStop(ls[i]);
    }
  }

  /** `criteriaLines`: the loop of `getPhaseDetails`, with its `break`. */
  method CollectCriteria(lines: seq<string>) returns (criteria: seq<string>)
    ensures criteria == Criteria(lines)
  {
    criteria := [];
    var i := 0;
    while i < |lines|
      invariant i <= |lines|
      invariant criteria == Items(lines[..i])
      invariant forall j :: 0 <= j < i ==> !CutAt(lines, j)
    {
      var x := ItemOf(lines[i]);
      var stop := IsStopLine(lines[i]);
      CriteriaStep(lines, i, x, stop);
      if x.Some? {
        criteria := criteria + [x.value];
      } else if stop && |criteria| > 0 {
        CriteriaUpTo(lines, i);
        return;
      }
      i := i + 1;
    }
    CriteriaUpTo(lines, i);
    assert lines[..i] == lines;
  }

  /**
   * The stop rule: the criteria are the items of the lines before the
   * first blank or `**` line that follows an item; earlier such lines are
   * passed over.
   */
  lemma CriteriaStopRule(ls: seq<string>)
    ensures var k := Cut(ls);
      Criteria(ls) == Items(ls[..k])
      && (k == |ls| || (IsStopLine(ls[k]) && Items(ls[..k]) != []))
      && forall j :: 0 <= j < k && IsStopLine(ls[j]) ==> Items(ls[..j]) == []
  {
    CutLeftmost(ls);
    forall j | 0 <= j < Cut(ls) && IsStopLine(ls[j]) ensures Items(ls[..j]) == [] {
      assert !CutAt(ls, j);
    }
  }

  /** A numbered line's item: the text after the number, the dot and the blanks. */
  lemma ItemOfNumbered(digits: string, ws: string, x: string)
    requires digits != "" && AllDigits(digits) && ws != "" && AllWs(ws)
    requires x != "" && IsTrimmed(x)
    ensures ItemOf(digits + ("." + (ws + x))) == Some(x)
  {
    var l := digits + ("." + (ws + x));
    NumberedEnds(l, digits, ws, x);
    NumberedDigits(l, digits, ws + x);
    BlanksThenText(l, |digits| + 1, ws, x, |digits| + 1 + |ws|);
    NumberedLine(l, |digits|, |digits| + 1 + |ws|, x);
  }

  lemma NumberedEnds(l: string, digits: string, ws: string, x: string)
    requires digits != "" && AllDigits(digits) && x != "" && IsTrimmed(x)
    requires l == digits + ("." + (ws + x))
    ensures IsTrimmed(l)
  {
    var tail := ws + x;
    var rest := "." + tail;
    assert l[0] == digits[0];
    assert l[|l| - 1] == rest[|rest| - 1] == tail[|tail| - 1] == x[|x| - 1];
    assert IsDigit(l[0]);
  }

  lemma NumberedDigits(l: string, digits: string, tail: string)
    requires AllDigits(digits) && l == digits + ("." + tail)
    ensures DigitsEnd(l, 0) == |digits| && l[|digits|] == '.' && l[|digits| + 1..] == tail
  {
    var d := |digits|;
    assert l[d] == '.';
    DigitsEndAt(l, 0, d);
    assert l[d + 1..] == tail;
  }

  /** Where `ws + x` sits at `p`, skipping blanks from `p` lands on `x`. */
  lemma BlanksThenText(l: string, p: nat, ws: string, x: string, w: nat)
    requires p <= |l| && l[p..] == ws + x && w == p + |ws|
    requires ws != "" && AllWs(ws) && x != "" && !IsWs(x[0])
    ensures p < |l| && IsWs(l[p]) && WsEnd(l, p) == w && l[w..] == x
  {
    var tail := ws + x;
    forall i | p <= i < p + |ws| ensures IsWs(l[i]) {
      assert l[i] == tail[i - p] == ws[i - p];
    }
    assert l[p + |ws|] == tail[|ws|] == x[0];
    WsEndOver(l, p, |ws|);
    assert l[p + |ws|..] == tail[|ws|..] == x;
  }

  lemma NumberedLine(l: string, d: nat, w: nat, x: string)
    requires IsTrimmed(l) && 0 < d && d + 1 < |l| && DigitsEnd(l, 0) == d
    requires l[d] == '.' && IsWs(l[d + 1])
    requires WsEnd(l, d + 1) == w && l[w..] == x && IsTrimmed(x)
    ensures ItemOf(l) == Some(x)
  {
    TrimOfTrimmed(l);
    TrimOfTrimmed(x);
    assert ItemText(l, d) == x;
  }

  lemma {:induction false} WsEndOver(l: string, p: nat, k: nat)
    requires p + k < |l| && !IsWs(l[p + k])
    requires forall i :: p <= i < p + k ==> IsWs(l[i])
    decreases k
    ensures WsEnd(l, p) == p + k
  {
    if k > 0 {
      WsEndOver(l, p + 1, k - 1);
    }
  }

  // ---------------------------------------------------------------------
  // `details`
  // ---------------------------------------------------------------------

  /** `criteria.map((c, i) => `  ${i + 1}. ${c}`)`. */
  function Renumbered(cs: seq<string>): (r: seq<string>)
    ensures |r| == |cs|
    ensures forall i :: 0 <= i < |cs| ==> r[i] == "  " + NatToString(i + 1) + ". " + cs[i]
  {
    if cs == [] then [] else Renumbered(cs[..|cs| - 1]) + ["  " + NatToString(|cs|) + ". " + cs[|cs| - 1]]
  }

  /** `.filter(Boolean)`. */
  function NonEmpty(ps: seq<string>): seq<string>
  {
    if ps == [] then [] else (if ps[0] == "" then [] else [ps[0]]) + NonEmpty(ps[1..])
  }

  const CriteriaHeading := "**Success Criteria**:"

  /** The three candidate parts of `details`; a missing part is `''`. */
  function DetailParts(goal: string, requirements: string, criteria: seq<string>): seq<string>
  {
    ["**Goal**: " + goal,
     if requirements != "" then "**Requirements**: " + requirements else "",
     if criteria != [] then CriteriaHeading + "\n" + Join(Renumbered(criteria)) else ""]
  }

  /** The details text: the non-empty parts, one per line. */
  function Details(goal: string, requirements: string, criteria: seq<string>): string
  {
    Join(NonEmpty(DetailParts(goal, requirements, criteria)))
  }

  /** The lines of `details` in the order given, with no line for a missing part. */
  function DetailLines(goal: string, requirements: string, criteria: seq<string>): seq<string>
  {
    ["**Goal**: " + goal]
    + (if requirements != "" then ["**Requirements**: " + requirements] else [])
    + (if criteria != [] then [CriteriaHeading] + Renumbered(criteria) else [])
  }

  lemma PrefixedPlain(a: string, b: string)
    requires NoNewline(a) && NoNewline(b)
    ensures NoNewline(a + b)
  {
    assert forall k :: 0 <= k < |a + b| ==> (a + b)[k] == if k < |a| then a[k] else b[k - |a|];
  }

  lemma RenumberedPlain(cs: seq<string>)
    requires forall i :: 0 <= i < |cs| ==> NoNewline(cs[i])
    ensures forall i :: 0 <= i < |cs| ==> NoNewline(Renumbered(cs)[i])
  {
    forall i | 0 <= i < |cs| ensures NoNewline(Renumbered(cs)[i]) {
      var d := NatToString(i + 1);
      assert NoNewline(d) by { assert forall k :: 0 <= k < |d| ==> IsDigit(d[k]); }
      PrefixedPlain("  ", d);
      PrefixedPlain("  " + d, ". ");
      PrefixedPlain("  " + d + ". ", cs[i]);
    }
  }

  lemma NonEmpty3(a: string, b: string, c: string)
    ensures NonEmpty([a, b, c]) == (if a == "" then [] else [a]) + (if b == "" then [] else [b]) + (if c == "" then [] else [c])
  {
    var x, y, z := (if a == "" then [] else [a]), (if b == "" then [] else [b]), (if c == "" then [] else [c]);
    assert [c][1..] == [];
    assert NonEmpty([c]) == z;
    assert [b, c][1..] == [c];
    assert NonEmpty([b, c]) == y + z;
    assert [a, b, c][1..] == [b, c];
    assert NonEmpty([a, b, c]) == x + (y + z);
    assert x + (y + z) == x + y + z;
  }

  /**
   * `details` reads back, line by line, as the goal line, the requirements
   * line when there are requirements, and the criteria heading followed by
   * the criteria numbered 1 to n when there are criteria.
   */
  lemma DetailsLines(goal: string, requirements: string, criteria: seq<string>)
    requires NoNewline(goal) && NoNewline(requirements)
    requires forall i :: 0 <= i < |criteria| ==> NoNewline(criteria[i])
    ensures Split(Details(goal, requirements, criteria)) == DetailLines(goal, requirements, criteria)
  {
    var ps := DetailParts(goal, requirements, criteria);
    NonEmpty3(ps[0], ps[1], ps[2]);
    assert ps == [ps[0], ps[1], ps[2]];
    PrefixedPlain("**Goal**: ", goal);
    PrefixedPlain("**Requirements**: ", requirements);
    var head := [ps[0]] + (if requirements != "" then [ps[1]] else []);
    RenumberedPlain(criteria);
    if criteria == [] {
      assert NonEmpty(ps) == head;
      SplitJoin(head);
    } else {
      assert ps[2] != "";
      assert NonEmpty(ps) == head + [ps[2]];
      CriteriaHeadingPlain();
      NestedJoinLines(head, CriteriaHeading, Renumbered(criteria));
    }
  }

  /** A last part that is a heading and a joined list reads as the heading line and then the list's lines. */
  lemma NestedJoinLines(head: seq<string>, h: string, ns: seq<string>)
    requires head != [] && ns != [] && NoNewline(h)
    requires forall k :: 0 <= k < |head| ==> NoNewline(head[k])
    requires forall i :: 0 <= i < |ns| ==> NoNewline(ns[i])
    ensures Split(Join(head + [h + "\n" + Join(ns)])) == head + ([h] + ns)
  {
    NestedJoin(head, h, ns);
    ConsPlain(head, h, ns);
    SplitJoin(head + ([h] + ns));
  }

  lemma NestedJoin(head: seq<string>, h: string, ns: seq<string>)
    requires head != [] && ns != []
    ensures Join(head + [h + "\n" + Join(ns)]) == Join(head + ([h] + ns))
  {
    JoinAppend(head, [h + "\n" + Join(ns)]);
    JoinAppend([h], ns);
    JoinAppend(head, [h] + ns);
  }

  lemma ConsPlain(head: seq<string>, h: string, ns: seq<string>)
    requires NoNewline(h)
    requires forall k :: 0 <= k < |head| ==> NoNewline(head[k])
    requires forall i :: 0 <= i < |ns| ==> NoNewline(ns[i])
    ensures forall k :: 0 <= k < |head + ([h] + ns)| ==> NoNewline((head + ([h] + ns))[k])
  {
    var all := head + ([h] + ns);
    forall k | 0 <= k < |all| ensures NoNewline(all[k]) {
      if k < |head| {
        assert all[k] == head[k];
      } else if k == |head| {
        assert all[k] == h;
      } else {
        assert all[k] == ns[k - |head| - 1];
      }
    }
  }

  lemma CriteriaHeadingPlain()
    ensures NoNewline(CriteriaHeading)
  {
  }

  // ---------------------------------------------------------------------
  // getPhaseDetails
  // ---------------------------------------------------------------------

  datatype PhaseDetails = PhaseDetails(name: string, details: string, requirements: string, successCriteria: seq<string>)

  function NotFound(n: nat): string
  {
    "Phase " + NatToString(n) + " not found in ROADMAP.md"
  }

  /** What is read out of the phase's text. */
  function SectionDetails(name: string, section: string): PhaseDetails
  {
    var goal := Field(section, GoalLabel);
    var requirements := Field(section, RequirementsLabel);
    var criteria := Criteria(CriteriaSource(section));
    PhaseDetails(name, Details(goal, requirements, criteria), requirements, criteria)
  }

  /**
   * What `getPhaseDetails` returns for the outcome of `readRoadmap` (the
   * text of ROADMAP.md, or the error it reported).
   */
  function PhaseDetailsOf(roadmap: Result<string>, n: nat): Result<PhaseDetails>
  {
    if roadmap.Err? then Err(roadmap.error)
    else
      match FindHeading(roadmap.value, n)
      case None => Err(NotFound(n))
      case Some(h) => Ok(SectionDetails(h.name, PhaseSection(roadmap.value[h.end..])))
  }

  /** `getPhaseDetails`, with the collection loop run as the source runs it. */
  method GetPhaseDetails(roadmap: Result<string>, n: nat) returns (r: Result<PhaseDetails>)
    ensures r == PhaseDetailsOf(roadmap, n)
  {
    if roadmap.Err? {
      return Err(roadmap.error);
    }
    var raw := roadmap.value;
    var h := FindHeading(raw, n);
    if h.None? {
      return Err(NotFound(n));
    }
    var section := PhaseSection(raw[h.value.end..]);
    var goal := Field(section, GoalLabel);
    var requirements := Field(section, RequirementsLabel);
    var criteria := CollectCriteria(CriteriaSource(section));
    r := Ok(PhaseDetails(h.value.name, Details(goal, requirements, criteria), requirements, criteria));
  }

  // ---------------------------------------------------------------------
  // the heading
  // ---------------------------------------------------------------------

  lemma HeadingLeftmost(s: string, n: nat)
    ensures FirstIndex(HeaderTest(s, n), 0, |s|).Some? ==> forall i :: 0 <= i < FirstIndex(HeaderTest(s, n), 0, |s|).value ==> !HeaderAt(s, n, i)
    ensures FirstIndex(HeaderTest(s, n), 0, |s|).None? ==> forall i :: 0 <= i <= |s| ==> !HeaderAt(s, n, i)
  {
    FirstIndexLeftmost(HeaderTest(s, n), 0, |s|);
    forall i | 0 <= i <= |s| ensures HeaderTest(s, n)(i) == HeaderAt(s, n, i) { }
  }

  lemma HeadingFirstAt(s: string, n: nat, p: nat)
    requires p <= |s| && HeaderAt(s, n, p)
    requires forall i :: 0 <= i < p ==> !HeaderAt(s, n, i)
    ensures FirstIndex(HeaderTest(s, n), 0, |s|) == Some(p)
  {
    forall i | 0 <= i <= p ensures HeaderTest(s, n)(i) == HeaderAt(s, n, i) { }
    FirstIndexAt(HeaderTest(s, n), 0, |s|, p);
  }

  /** A text that starts with two digit strings, each followed by `:`, starts with one of them twice. */
  lemma DigitsColon(t: string, a: string, b: string)
    requires AllDigits(a) && AllDigits(b)
    requires StartsWith(t, a + ":") && StartsWith(t, b + ":")
    ensures a == b
  {
    var i := if |a| < |b| then |a| else |b|;
    CharAt(t, a + ":", i);
    CharAt(t, b + ":", i);
    assert |a| == |b|;
    assert a == t[..|a|] by { assert (a + ":")[..|a|] == a; }
    assert b == t[..|b|] by { assert (b + ":")[..|b|] == b; }
  }

  lemma CharAt(t: string, p: string, i: nat)
    requires StartsWith(t, p) && i < |p|
    ensures t[i] == p[i]
  {
    assert t[..|p|][i] == t[i];
  }

  /** A heading line for one phase number is never one for another: `N` is followed by `:`. */
  lemma HeadingPrefixesExclusive(t: string, m: nat, n: nat)
    requires StartsWith(t, HeaderPrefix(m)) && StartsWith(t, HeaderPrefix(n))
    ensures m == n
  {
    var a, b := NatToString(m), NatToString(n);
    var w := |PhaseWord|;
    var u := t[w..];
    var hm, hn := HeaderPrefix(m), HeaderPrefix(n);
    assert hm == PhaseWord + (a + ":") && hn == PhaseWord + (b + ":");
    assert hm[w..] == a + ":";
    assert hn[w..] == b + ":";
    assert u[..|a| + 1] == t[w..|hm|] == t[..|hm|][w..];
    assert u[..|b| + 1] == t[w..|hn|] == t[..|hn|][w..];
    DigitsColon(u, a, b);
    DigitsValueOfNatToString(m);
    DigitsValueOfNatToString(n);
  }

  /** The heading found at `p` gives the name and end of the group there. */
  lemma FindHeadingAt(s: string, n: nat, p: nat)
    requires FirstIndex(HeaderTest(s, n), 0, |s|) == Some(p)
    ensures FindHeading(s, n) == Some(HeadingAt(s, n, p))
  {
  }

  /** Without a line that starts `### Phase N:`, the phase is reported missing, by number. */
  lemma MissingPhase(raw: string, n: nat)
    requires forall p :: 0 <= p <= |raw| && LineStart(raw, p) ==> !OccursAt(raw, HeaderPrefix(n), p)
    ensures PhaseDetailsOf(Ok(raw), n) == Err(NotFound(n))
  {
    forall i | 0 <= i <= |raw| ensures !HeaderAt(raw, n, i) {
      assert !(LineStart(raw, i) && OccursAt(raw, HeaderPrefix(n), i));
    }
    NoHeading(raw, n);
  }

  lemma NoHeading(raw: string, n: nat)
    requires forall i :: 0 <= i <= |raw| ==> !HeaderAt(raw, n, i)
    ensures FindHeading(raw, n) == None
  {
    forall i | 0 <= i <= |raw| ensures HeaderTest(raw, n)(i) == HeaderAt(raw, n, i) { }
  }

  /** The search fails, naming the phase, exactly when no line matches the heading pattern. */
  lemma NotFoundIff(raw: string, n: nat)
    ensures PhaseDetailsOf(Ok(raw), n) == Err(NotFound(n)) <==> forall p :: 0 <= p <= |raw| ==> !HeaderAt(raw, n, p)
  {
    HeadingLeftmost(raw, n);
  }

  /** At a line that starts `### Phase N:`, with text after the colon, the heading pattern matches. */
  lemma HeadingLine(raw: string, n: nat, p: nat)
    requires p <= |raw| && LineStart(raw, p) && OccursAt(raw, HeaderPrefix(n), p)
    requires var q := p + |HeaderPrefix(n)|; !AllWs(raw[q..LineEnd(raw, q)])
    ensures HeaderAt(raw, n, p)
    ensures var q := p + |HeaderPrefix(n)|; Group(raw, q) == Trim(raw[q..LineEnd(raw, q)])
  {
    RestOfLine(raw, p + |HeaderPrefix(n)|);
    HeaderFound(raw, n, p);
  }

  /** A `### Phase N:` line start whose rest can be captured matches the heading pattern. */
  lemma HeaderFound(raw: string, n: nat, p: nat)
    requires LineStart(raw, p) && OccursAt(raw, HeaderPrefix(n), p)
    requires CaptureStart(raw, p + |HeaderPrefix(n)|).Some?
    ensures HeaderAt(raw, n, p)
  {
  }

  /** The first line that starts `### Phase N:` is the one the search finds. */
  lemma FirstHeadingLine(raw: string, n: nat, p: nat)
    requires p <= |raw| && HeaderAt(raw, n, p)
    requires forall i :: 0 <= i < p && LineStart(raw, i) ==> !OccursAt(raw, HeaderPrefix(n), i)
    ensures FirstIndex(HeaderTest(raw, n), 0, |raw|) == Some(p)
  {
    HeadingFirstAt(raw, n, p);
  }

  /**
   * On the first line that starts `### Phase N:`, with text after the
   * colon, the name is the rest of that line, trimmed.
   */
  lemma NameFromHeadingLine(raw: string, n: nat, p: nat)
    requires p <= |raw| && LineStart(raw, p) && OccursAt(raw, HeaderPrefix(n), p)
    requires forall i :: 0 <= i < p && LineStart(raw, i) ==> !OccursAt(raw, HeaderPrefix(n), i)
    requires var q := p + |HeaderPrefix(n)|; !AllWs(raw[q..LineEnd(raw, q)])
    ensures var q := p + |HeaderPrefix(n)|;
      PhaseDetailsOf(Ok(raw), n).Ok? && PhaseDetailsOf(Ok(raw), n).value.name == Trim(raw[q..LineEnd(raw, q)])
  {
    HeadingLine(raw, n, p);
    HeadingName(raw, n, p);
    NameIsGroup(raw, n, p);
  }

  /** At the first match, the phase's name is the heading's, and so the capture group after the colon. */
  lemma NameIsGroup(raw: string, n: nat, p: nat)
    requires p <= |raw| && HeaderAt(raw, n, p)
    requires forall i :: 0 <= i < p && LineStart(raw, i) ==> !OccursAt(raw, HeaderPrefix(n), i)
    ensures PhaseDetailsOf(Ok(raw), n).Ok? && PhaseDetailsOf(Ok(raw), n).value.name == HeadingAt(raw, n, p).name
  {
    FirstHeadingLine(raw, n, p);
    FindHeadingAt(raw, n, p);
    var h := HeadingAt(raw, n, p);
    assert SectionDetails(h.name, PhaseSection(raw[h.end..])).name == h.name;
  }

  lemma HeadingName(raw: string, n: nat, p: nat)
    requires HeaderAt(raw, n, p)
    ensures HeadingAt(raw, n, p).name == Group(raw, p + |HeaderPrefix(n)|)
  {
  }

  /** Where some text is left before `LineEnd`, the blanks `WsEnd` skips stop before it. */
  lemma {:induction false} WsEndInLine(s: string, q: nat)
    requires q <= |s| && !AllWs(s[q..LineEnd(s, q)])
    decreases |s| - q
    ensures WsEnd(s, q) < LineEnd(s, q)
    ensures LineEnd(s, WsEnd(s, q)) == LineEnd(s, q)
  {
    if q < |s| && IsWs(s[q]) {
      assert s[q..LineEnd(s, q)] == [s[q]] + s[q + 1..LineEnd(s, q)];
      WsEndInLine(s, q + 1);
    }
  }

  /**
   * Where the rest of the line from `q` is not all blank, `\s*(.+)` tried
   * at `q` captures that rest, up to blanks at its start.
   */
  lemma RestOfLine(s: string, q: nat)
    requires q <= |s| && !AllWs(s[q..LineEnd(s, q)])
    ensures CaptureStart(s, q).Some?
    ensures Group(s, q) == Trim(s[q..LineEnd(s, q)])
  {
    var L := LineEnd(s, q);
    var e := WsEnd(s, q);
    WsEndInLine(s, q);
    WsRun(s, q);
    assert s[q..L] == s[q..e] + s[e..L];
    TrimWithStart(s[q..e], s[e..L]);
  }

  /** Trimming drops a blank start. */
  lemma TrimWithStart(a: string, b: string)
    requires AllWs(a)
    ensures Trim(a + b) == Trim(b)
  {
    TrimPadded(a, b, "");
    assert a + b + "" == a + b;
  }

  /**
   * `\s` crosses lines: when nothing but blanks follows the colon on the
   * first heading line and the next line has text, the name is that next
   * line.
   */
  lemma NameMayComeFromNextLine(raw: string, n: nat, p: nat)
    requires p <= |raw| && LineStart(raw, p) && OccursAt(raw, HeaderPrefix(n), p)
    requires forall i :: 0 <= i < p && LineStart(raw, i) ==> !OccursAt(raw, HeaderPrefix(n), i)
    requires var q := p + |HeaderPrefix(n)|; var L := LineEnd(raw, q);
      AllWs(raw[q..L]) && L < |raw| && !AllWs(raw[L + 1..LineEnd(raw, L + 1)])
    ensures var L := LineEnd(raw, p + |HeaderPrefix(n)|);
      PhaseDetailsOf(Ok(raw), n).Ok? && PhaseDetailsOf(Ok(raw), n).value.name == Trim(raw[L + 1..LineEnd(raw, L + 1)])
  {
    var q := p + |HeaderPrefix(n)|;
    var L := LineEnd(raw, q);
    BlankRest(raw, q, L, LineEnd(raw, L + 1));
    HeaderFound(raw, n, p);
    HeadingName(raw, n, p);
    NameIsGroup(raw, n, p);
  }

  /** A blank rest of line lets the capture start on the next line. */
  lemma BlankRest(raw: string, q: nat, L: nat, M: nat)
    requires q <= L < |raw| && L == LineEnd(raw, q) && M == LineEnd(raw, L + 1)
    requires AllWs(raw[q..L]) && !AllWs(raw[L + 1..M])
    ensures CaptureStart(raw, q).Some? && Group(raw, q) == Trim(raw[L + 1..M])
  {
    CaptureOnNextLine(raw, q, L, M);
    RestOfLine(raw, L + 1);
    GroupFrom(raw, q, L + 1);
  }

  lemma CaptureOnNextLine(raw: string, q: nat, L: nat, M: nat)
    requires q <= L < |raw| && L == LineEnd(raw, q) && M == LineEnd(raw, L + 1)
    requires AllWs(raw[q..L]) && !AllWs(raw[L + 1..M])
    ensures CaptureStart(raw, q) == CaptureStart(raw, L + 1)
  {
    BlankLineSkipped(raw, q, L);
    WsEndInLine(raw, L + 1);
    SameCapture(raw, q, L + 1);
  }

  /** Blanks up to and including the line end are skipped together. */
  lemma BlankLineSkipped(raw: string, q: nat, L: nat)
    requires q <= L < |raw| && AllWs(raw[q..L]) && IsWs(raw[L])
    ensures WsEnd(raw, q) == WsEnd(raw, L + 1)
  {
    forall i | q <= i < L + 1 ensures IsWs(raw[i]) {
      if i < L { assert raw[i] == raw[q..L][i - q]; }
    }
    WsEndSkip(raw, q, L + 1);
  }

  lemma SameCapture(raw: string, q: nat, q': nat)
    requires q <= q' <= |raw| && WsEnd(raw, q) == WsEnd(raw, q') && WsEnd(raw, q') < |raw|
    ensures CaptureStart(raw, q) == CaptureStart(raw, q')
  {
  }

  lemma GroupFrom(s: string, q: nat, q': nat)
    requires q <= |s| && q' <= |s| && CaptureStart(s, q).Some? && CaptureStart(s, q) == CaptureStart(s, q')
    ensures Group(s, q) == Group(s, q')
  {
  }

  lemma {:induction false} WsEndSkip(s: string, q: nat, e: nat)
    requires q <= e <= |s| && forall i :: q <= i < e ==> IsWs(s[i])
    decreases e - q
    ensures WsEnd(s, q) == WsEnd(s, e)
  {
    if q < e {
      WsEndSkip(s, q + 1, e);
    }
  }

  // ---------------------------------------------------------------------
  // the section and the fields
  // ---------------------------------------------------------------------

  /**
   * The phase's text runs to the first later `### Phase <digits>:` line,
   * or to the end, and holds no such line itself.
   */
  lemma SectionStopsAtNextHeading(after: string)
    ensures var k := SectionEnd(after);
      PhaseSection(after) == Trim(after[..k])
      && (k == |after| || NextAt(after, k))
      && forall i :: 0 <= i <= k ==> !NextAt(after[..k], i)
  {
    FirstIndexLeftmost(NextTest(after), 0, |after|);
    var k := SectionEnd(after);
    forall i | 0 <= i <= |after| ensures NextTest(after)(i) == NextAt(after, i) { }
    forall i | 0 <= i <= k ensures !NextAt(after[..k], i) {
      NextWithin(after, k, i);
    }
  }

  /** A heading seen in a prefix is a heading of the whole text. */
  lemma NextWithin(t: string, k: nat, i: nat)
    requires k <= |t|
    ensures NextAt(t[..k], i) ==> i < k && NextAt(t, i)
  {
    if NextAt(t[..k], i) {
      NextWithinPrefix(t, k, i);
    }
  }

  lemma NextWithinPrefix(t: string, k: nat, i: nat)
    requires k <= |t| && NextAt(t[..k], i)
    ensures i < k && NextAt(t, i)
  {
    var u := t[..k];
    var a := i + |PhaseWord|;
    var j := DigitsEnd(u, a);
    forall x | a <= x < j ensures IsDigit(t[x]) {
      assert u[a..j][x - a] == t[x];
    }
    DigitsEndAt(t, a, j);
    OccursInPrefix(t, k, PhaseWord, i);
    if i > 0 {
      assert u[i - 1] == t[i - 1];
    }
  }

  lemma OccursInPrefix(t: string, k: nat, w: string, i: nat)
    requires k <= |t| && OccursAt(t[..k], w, i)
    ensures OccursAt(t, w, i)
  {
    assert t[i..i + |w|] == t[..k][i..i + |w|];
  }

  lemma FieldLeftmost(t: string, tag: string)
    ensures FirstIndex(FieldTest(t, tag), 0, |t|).Some? ==> forall i :: 0 <= i < FirstIndex(FieldTest(t, tag), 0, |t|).value ==> !FieldAt(t, tag, i)
    ensures FirstIndex(FieldTest(t, tag), 0, |t|).None? ==> forall i :: 0 <= i <= |t| ==> !FieldAt(t, tag, i)
  {
    FirstIndexLeftmost(FieldTest(t, tag), 0, |t|);
    forall i | 0 <= i <= |t| ensures FieldTest(t, tag)(i) == FieldAt(t, tag, i) { }
  }

  /** Without the label, the field is empty. */
  lemma FieldAbsent(t: string, tag: string)
    requires forall i :: 0 <= i <= |t| ==> !OccursAt(t, tag, i)
    ensures Field(t, tag) == ""
  {
    forall i | 0 <= i <= |t| ensures !FieldAt(t, tag, i) {
      assert !OccursAt(t, tag, i);
    }
    FieldLeftmost(t, tag);
  }

  lemma FieldFirstAt(t: string, tag: string, i: nat)
    requires i <= |t| && FieldAt(t, tag, i)
    requires forall j :: 0 <= j < i ==> !FieldAt(t, tag, j)
    ensures FirstIndex(FieldTest(t, tag), 0, |t|) == Some(i)
  {
    forall j | 0 <= j <= i ensures FieldTest(t, tag)(j) == FieldAt(t, tag, j) { }
    FirstIndexAt(FieldTest(t, tag), 0, |t|, i);
  }

  /** At the label's first occurrence, with text after it on its line, the field is that rest of the line, trimmed. */
  lemma FieldFromLine(t: string, tag: string, i: nat)
    requires OccursAt(t, tag, i)
    requires forall j :: 0 <= j < i ==> !OccursAt(t, tag, j)
    requires var q := i + |tag|; !AllWs(t[q..LineEnd(t, q)])
    ensures var q := i + |tag|; Field(t, tag) == Trim(t[q..LineEnd(t, q)])
  {
    RestOfLine(t, i + |tag|);
    forall j | 0 <= j < i ensures !FieldAt(t, tag, j) {
      assert !OccursAt(t, tag, j);
    }
    FieldIsGroup(t, tag, i);
  }

  /** At the first match of the label, the field is the capture group after it. */
  lemma FieldIsGroup(t: string, tag: string, i: nat)
    requires FieldAt(t, tag, i)
    requires forall j :: 0 <= j < i ==> !FieldAt(t, tag, j)
    ensures Field(t, tag) == Group(t, i + |tag|)
  {
    FieldFirstAt(t, tag, i);
    assert Field(t, tag) == FieldValue(t, tag, i);
  }

  // ---------------------------------------------------------------------
  // getContextTemplateSections
  // ---------------------------------------------------------------------

  const TemplateSections := ["Decisions", "Claude's Discretion", "Deferred Ideas"]

  const TemplateLines := [
    "# Phase {N}: {Name} - Context",
    "",
    "**Discussed:** {date}",
    "",
    "## Decisions",
    "{user decisions listed as bullet points}",
    "",
    "## Claude's Discretion",
    "{areas where Claude can decide freely}",
    "",
    "## Deferred Ideas",
    "{ideas explicitly deferred to later phases}"]

  datatype ContextTemplate = ContextTemplate(sections: seq<string>, template: string)

  /** The names of the `## ` headings among `ls`, in order. */
  function H2Names(ls: seq<string>): seq<string>
  {
    if ls == [] then []
    else (if StartsWith(ls[0], "## ") then [ls[0][3..]] else []) + H2Names(ls[1..])
  }

  /** `getContextTemplateSections`: the section names and the CONTEXT.md template. */
  function ContextTemplateSections(): (r: ContextTemplate)
    ensures r.sections == ["Decisions", "Claude's Discretion", "Deferred Ideas"]
  {
    ContextTemplate(TemplateSections, Block(TemplateLines))
  }

  /** The listed sections are exactly the template's `## ` headings, in order. */
  lemma SectionsAreTemplateHeadings()
    ensures var r := ContextTemplateSections();
      var ls := Split(r.template);
      ls == TemplateLines + [""] && H2Names(ls) == r.sections
  {
    TemplateChunks();
    TemplatePlain();
    SplitBlock(TemplateLines);
    SplitAllPlain(TemplateLines);
    TemplateHeadings();
  }

  // The template's lines in four runs: the title block and one run per section.

  const TitleRun := ["# Phase {N}: {Name} - Context", "", "**Discussed:** {date}", ""]

  const DecisionsRun := ["## Decisions", "{user decisions listed as bullet points}", ""]

  const DiscretionRun := ["## Claude's Discretion", "{areas where Claude can decide freely}", ""]

  const DeferredRun := ["## Deferred Ideas", "{ideas explicitly deferred to later phases}", ""]

  lemma TemplateChunks()
    ensures TemplateLines + [""] == TitleRun + DecisionsRun + DiscretionRun + DeferredRun
  {
  }

  predicate PlainRun(ls: seq<string>)
  {
    forall k :: 0 <= k < |ls| ==> NoNewline(ls[k])
  }

  lemma TitlePlain()
    ensures PlainRun(TitleRun)
  {
    assert NoNewline(TitleRun[0]);
    assert NoNewline(TitleRun[2]);
  }

  lemma DecisionsPlain()
    ensures PlainRun(DecisionsRun)
  {
    assert NoNewline(DecisionsRun[0]);
    assert NoNewline(DecisionsRun[1]);
  }

  lemma DiscretionPlain()
    ensures PlainRun(DiscretionRun)
  {
    assert NoNewline(DiscretionRun[0]);
    assert NoNewline(DiscretionRun[1]);
  }

  lemma DeferredPlain()
    ensures PlainRun(DeferredRun)
  {
    assert NoNewline(DeferredRun[0]);
    assert NoNewline(DeferredRun[1]);
  }

  lemma TemplatePlain()
    ensures forall i :: 0 <= i < |TemplateLines| ==> NoNewline(TemplateLines[i])
  {
    TemplateChunks();
    TitlePlain();
    DecisionsPlain();
    DiscretionPlain();
    DeferredPlain();
    NoNewlinesConcat(TitleRun, DecisionsRun);
    NoNewlinesConcat(TitleRun + DecisionsRun, DiscretionRun);
    NoNewlinesConcat(TitleRun + DecisionsRun + DiscretionRun, DeferredRun);
    var all := TemplateLines + [""];
    forall i | 0 <= i < |TemplateLines| ensures NoNewline(TemplateLines[i]) {
      assert TemplateLines[i] == all[i];
    }
  }

  lemma H2Cons(l: string, rest: seq<string>)
    ensures H2Names([l] + rest) == (if StartsWith(l, "## ") then [l[3..]] else []) + H2Names(rest)
  {
    assert ([l] + rest)[1..] == rest;
  }

  lemma {:induction false} H2Append(a: seq<string>, b: seq<string>)
    ensures H2Names(a + b) == H2Names(a) + H2Names(b)
  {
    if a == [] {
      assert a + b == b;
    } else {
      assert (a + b)[1..] == a[1..] + b;
      H2Append(a[1..], b);
    }
  }

  lemma {:induction false} H2None(ls: seq<string>)
    requires forall i :: 0 <= i < |ls| ==> !StartsWith(ls[i], "## ")
    ensures H2Names(ls) == []
  {
    if ls != [] {
      H2None(ls[1..]);
    }
  }

  /** A line that differs from `## ` at one of its first three places is no `## ` heading. */
  lemma NotH2(l: string, k: nat)
    requires k < 3 && (|l| <= k || l[k] != "## "[k])
    ensures !StartsWith(l, "## ")
  {
    if |l| >= 3 {
      assert l[..3][k] == l[k];
    }
  }

  /** A section run: its heading, then lines that are no headings. */
  lemma H2Run(name: string, rest: seq<string>)
    requires forall i :: 0 <= i < |rest| ==> !StartsWith(rest[i], "## ")
    ensures H2Names(["## " + name] + rest) == [name]
  {
    H2Cons("## " + name, rest);
    H2None(rest);
    assert ("## " + name)[3..] == name;
  }

  lemma TitleHeadings()
    ensures H2Names(TitleRun) == []
  {
    NotH2(TitleRun[0], 1);
    NotH2(TitleRun[1], 0);
    NotH2(TitleRun[2], 0);
    NotH2(TitleRun[3], 0);
    H2None(TitleRun);
  }

  lemma DecisionsHeadings()
    ensures H2Names(DecisionsRun) == ["Decisions"]
  {
    var rest := DecisionsRun[1..];
    NotH2(rest[0], 0);
    NotH2(rest[1], 0);
    assert DecisionsRun[0] == "## " + "Decisions";
    assert DecisionsRun == [DecisionsRun[0]] + rest;
    H2Run("Decisions", rest);
  }

  lemma DiscretionHeadings()
    ensures H2Names(DiscretionRun) == ["Claude's Discretion"]
  {
    var rest := DiscretionRun[1..];
    NotH2(rest[0], 0);
    NotH2(rest[1], 0);
    assert DiscretionRun[0] == "## " + "Claude's Discretion";
    assert DiscretionRun == [DiscretionRun[0]] + rest;
    H2Run("Claude's Discretion", rest);
  }

  lemma DeferredHeadings()
    ensures H2Names(DeferredRun) == ["Deferred Ideas"]
  {
    var rest := DeferredRun[1..];
    NotH2(rest[0], 0);
    NotH2(rest[1], 0);
    assert DeferredRun[0] == "## " + "Deferred Ideas";
    assert DeferredRun == [DeferredRun[0]] + rest;
    H2Run("Deferred Ideas", rest);
  }

  lemma TemplateHeadings()
    ensures H2Names(TemplateLines + [""]) == TemplateSections
  {
    TemplateChunks();
    TitleHeadings();
    DecisionsHeadings();
    DiscretionHeadings();
    DeferredHeadings();
    H2Append(TitleRun + DecisionsRun + DiscretionRun, DeferredRun);
    H2Append(TitleRun + DecisionsRun, DiscretionRun);
    H2Append(TitleRun, DecisionsRun);
  }
}

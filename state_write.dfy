/**
 * Targeted rewriters over STATE.md and ROADMAP.md text. Each edit reads the
 * whole document, changes one section or line and hands back the full new
 * document, or an error (and no new document) when its target is missing.
 * Documents are modelled as lines, as in the readers.
 */
module StateWrite {
  import opened Wrappers
  import opened Text
  import StateRead
  import StateInit

  // ---------------------------------------------------------------------
  // escapeRegex
  // ---------------------------------------------------------------------

  /** The characters `escapeRegex` puts a backslash before. */
  const RegexSpecials: set<char> := {'.', '*', '+', '?', '^', '$', '{', '}', '(', ')', '|', '[', ']', '\\'}

  /** `escapeRegex(str)`: a backslash before every special character. */
  function EscapeRegex(s: string): (r: string)
    ensures |r| >= |s|
  {
    if s == [] then ""
    else (if s[0] in RegexSpecials then ['\\', s[0]] else [s[0]]) + EscapeRegex(s[1..])
  }

  /**
   * The text a regular expression built only from literal characters and
   * escaped special characters matches, or None when it contains anything
   * else (an operator, a class escape such as `\d`, a dangling backslash).
   */
  function LiteralPattern(re: string): Option<string>
  {
    if re == [] then Some("")
    else if re[0] == '\\' then
      if |re| >= 2 && re[1] in RegexSpecials then
        match LiteralPattern(re[2..])
        case Some(rest) => Some([re[1]] + rest)
        case None => None
      else None
    else if re[0] in RegexSpecials then None
    else
      match LiteralPattern(re[1..])
      case Some(rest) => Some([re[0]] + rest)
      case None => None
  }

  /** An escaped name is a pattern that matches exactly that name and nothing else. */
  lemma {:induction false} EscapeRegexIsLiteral(s: string)
    ensures LiteralPattern(EscapeRegex(s)) == Some(s)
  {
    if s != [] {
      EscapeRegexIsLiteral(s[1..]);
      var head := if s[0] in RegexSpecials then ['\\', s[0]] else [s[0]];
      var e := head + EscapeRegex(s[1..]);
      if s[0] in RegexSpecials {
        assert e[2..] == EscapeRegex(s[1..]);
      } else {
        assert e[1..] == EscapeRegex(s[1..]);
      }
      assert [s[0]] + s[1..] == s;
    }
  }

  /** Two names escape alike only when they are the same name. */
  lemma EscapeRegexInjective(s: string, t: string)
    requires EscapeRegex(s) == EscapeRegex(t)
    ensures s == t
  {
    EscapeRegexIsLiteral(s);
    EscapeRegexIsLiteral(t);
  }

  // ---------------------------------------------------------------------
  // updateStateSection
  // ---------------------------------------------------------------------

  /** Spaces and tabs, then at most one carriage return: `[ \t]*\r?`. */
  predicate HeadingTail(t: string)
  {
    forall k :: 0 <= k < |t| ==> t[k] == ' ' || t[k] == '\t' || (k == |t| - 1 && t[k] == '\r')
  }

  /** A line the pattern `^## <name>[ \t]*\r?` covers entirely. */
  predicate IsTargetLine(l: string, name: string)
  {
    StartsWith(l, "## " + name) && HeadingTail(l[|name| + 3..])
  }

  /** The first line from `k` on that is `## <name>` and has a newline after it. */
  function FindTarget(ls: seq<string>, name: string, k: nat): (r: Option<nat>)
    decreases |ls| - k
    ensures r.Some? ==> k <= r.value && r.value + 1 < |ls| && IsTargetLine(ls[r.value], name)
    ensures r.Some? ==> forall m :: k <= m < r.value ==> !IsTargetLine(ls[m], name)
    ensures r.None? ==> forall m :: k <= m < |ls| - 1 ==> !IsTargetLine(ls[m], name)
  {
    if k + 1 >= |ls| then None
    else if IsTargetLine(ls[k], name) then Some(k)
    else FindTarget(ls, name, k + 1)
  }

  /**
   * Which lines end the replaced section. `NextSameLevel` is the writer's own
   * pattern `^## (?!#)`; `ReaderHeading` is the heading the section reader
   * splits on.
   */
  datatype SectionEnd = NextSameLevel | ReaderHeading

  predicate EndsSection(e: SectionEnd, l: string)
  {
    match e
    case NextSameLevel => StartsWith(l, "## ") && (|l| == 3 || l[3] != '#')
    case ReaderHeading => StateRead.IsHeading(l, 2)
  }

  /** The first line from `k` on that ends the section, or the line count. */
  function NextEnd(e: SectionEnd, ls: seq<string>, k: nat): (j: nat)
    requires k <= |ls|
    decreases |ls| - k
    ensures k <= j <= |ls|
    ensures forall m :: k <= m < j ==> !EndsSection(e, ls[m])
    ensures j < |ls| ==> EndsSection(e, ls[j])
  {
    if k == |ls| then k
    else if EndsSection(e, ls[k]) then k
    else NextEnd(e, ls, k + 1)
  }

  /** The document up to and including the heading line `i` and its newline. */
  function Head(ls: seq<string>, i: nat): string
    requires i < |ls|
  {
    Block(ls[..i + 1])
  }

  /** The document from line `j` on (nothing when `j` is past the end). */
  function Tail(ls: seq<string>, j: nat): string
    requires j <= |ls|
  {
    if j < |ls| then Join(ls[j..]) else ""
  }

  function SectionNotFound(name: string): string
  {
    "Section \"## " + name + "\" not found in STATE.md"
  }

  /**
   * The edit of `updateStateSection`, with the section end chosen by `e`:
   * the first `## <name>` line keeps its place and the body up to the next
   * section end becomes a blank line, the trimmed new content and a blank line.
   */
  function UpdateSectionBy(e: SectionEnd, raw: string, name: string, newContent: string): (r: Result<string>)
    ensures r.Err? ==> forall m :: 0 <= m < |Split(raw)| - 1 ==> !IsTargetLine(Split(raw)[m], name)
    ensures (forall m :: 0 <= m < |Split(raw)| - 1 ==> !IsTargetLine(Split(raw)[m], name)) ==> r.Err?
    ensures r.Err? ==> r.error == SectionNotFound(name)
  {
    UpdateLines(e, Split(raw), name, newContent)
  }

  /** The same edit on the document's lines. */
  function UpdateLines(e: SectionEnd, ls: seq<string>, name: string, newContent: string): (r: Result<string>)
    ensures r.Err? <==> forall m :: 0 <= m < |ls| - 1 ==> !IsTargetLine(ls[m], name)
    ensures r.Err? ==> r.error == SectionNotFound(name)
  {
    match FindTarget(ls, name, 0)
    case None => Err(SectionNotFound(name))
    case Some(i) =>
      var j := NextEnd(e, ls, i + 1);
      Ok(Head(ls, i) + "\n" + Trim(newContent) + "\n\n" + Tail(ls, j))
  }

  /** The old body: the lines between the heading line and the section end. */
  function OldBody(ls: seq<string>, i: nat, j: nat): string
    requires i < j <= |ls|
  {
    if j < |ls| then Block(ls[i + 1..j]) else Join(ls[i + 1..])
  }

  /**
   * The document and the edited document share the text up to and
   * including the heading line, and everything from the section end on;
   * only the body between them is replaced.
   */
  lemma {:induction false} UpdateSectionSplice(e: SectionEnd, raw: string, name: string, newContent: string)
    returns (i: nat, j: nat)
    requires UpdateSectionBy(e, raw, name, newContent).Ok?
    ensures FindTarget(Split(raw), name, 0) == Some(i) && j == NextEnd(e, Split(raw), i + 1)
    ensures IsTargetLine(Split(raw)[i], name)
    ensures EndsWith(Head(Split(raw), i), Split(raw)[i] + "\n")
    ensures j < |Split(raw)| ==> EndsSection(e, Split(raw)[j]) && StartsWith(Tail(Split(raw), j), Split(raw)[j])
    ensures raw == Head(Split(raw), i) + OldBody(Split(raw), i, j) + Tail(Split(raw), j)
    ensures UpdateSectionBy(e, raw, name, newContent).value
         == Head(Split(raw), i) + "\n" + Trim(newContent) + "\n\n" + Tail(Split(raw), j)
  {
    JoinSplit(raw);
    i, j := SpliceLines(e, Split(raw), name, newContent);
  }

  lemma {:induction false} SpliceLines(e: SectionEnd, ls: seq<string>, name: string, newContent: string)
    returns (i: nat, j: nat)
    requires UpdateLines(e, ls, name, newContent).Ok?
    ensures FindTarget(ls, name, 0) == Some(i) && j == NextEnd(e, ls, i + 1)
    ensures IsTargetLine(ls[i], name)
    ensures EndsWith(Head(ls, i), ls[i] + "\n")
    ensures j < |ls| ==> EndsSection(e, ls[j]) && StartsWith(Tail(ls, j), ls[j])
    ensures Join(ls) == Head(ls, i) + OldBody(ls, i, j) + Tail(ls, j)
    ensures UpdateLines(e, ls, name, newContent).value
         == Head(ls, i) + "\n" + Trim(newContent) + "\n\n" + Tail(ls, j)
  {
    i, j := UpdateLinesValue(e, ls, name, newContent);
    assert Join(ls) == Head(ls, i) + OldBody(ls, i, j) + Tail(ls, j) by { LinesAround(ls, i, j); }
    assert EndsWith(Head(ls, i), ls[i] + "\n") by { HeadEnds(ls, i); }
    assert j < |ls| ==> StartsWith(Tail(ls, j), ls[j]) by {
      if j < |ls| {
        JoinStartsWith(ls[j..]);
      }
    }
  }

  /** The edited text, in terms of the heading line and the section end. */
  lemma UpdateLinesValue(e: SectionEnd, ls: seq<string>, name: string, newContent: string)
    returns (i: nat, j: nat)
    requires UpdateLines(e, ls, name, newContent).Ok?
    ensures FindTarget(ls, name, 0) == Some(i) && j == NextEnd(e, ls, i + 1)
    ensures UpdateLines(e, ls, name, newContent).value
         == Head(ls, i) + "\n" + Trim(newContent) + "\n\n" + Tail(ls, j)
  {
    i := FindTarget(ls, name, 0).value;
    j := NextEnd(e, ls, i + 1);
  }

  /** The head ends with the heading line and its newline. */
  lemma HeadEnds(ls: seq<string>, i: nat)
    requires i < |ls|
    ensures EndsWith(Head(ls, i), ls[i] + "\n")
  {
    assert ls[..i + 1] == ls[..i] + [ls[i]];
    BlockAppendOne(ls[..i], ls[i]);
    assert Head(ls, i) == Block(ls[..i]) + (ls[i] + "\n");
  }

  lemma {:induction false} LinesAround(ls: seq<string>, i: nat, j: nat)
    requires i < j <= |ls| && i + 1 < |ls|
    ensures Join(ls) == Head(ls, i) + OldBody(ls, i, j) + Tail(ls, j)
  {
    BodyAndTail(ls, i + 1);
    if j < |ls| {
      BodyBetween(ls, i + 1, j);
    }
  }

  /** The lines from `a` on: the block of those before `j`, then the join of the rest. */
  lemma BodyBetween(ls: seq<string>, a: nat, j: nat)
    requires a <= j < |ls|
    ensures Join(ls[a..]) == Block(ls[a..j]) + Join(ls[j..])
  {
    BodyAndTail(ls[a..], j - a);
    assert ls[a..][..j - a] == ls[a..j];
    assert ls[a..][j - a..] == ls[j..];
  }

  /** Lines cut at `n`: the block of the first `n` and the join of the rest. */
  lemma {:induction false} BodyAndTail(ls: seq<string>, n: nat)
    requires n < |ls|
    ensures Join(ls) == Block(ls[..n]) + Join(ls[n..])
  {
    assert ls == ls[..n] + ls[n..];
    JoinBlock(ls[..n], ls[n..]);
  }

  /** At most one heading line of the document is named `name`. */
  predicate HeadsAtMostOnce(ls: seq<string>, name: string)
  {
    forall k, k' :: 0 <= k < k' < |ls| && StateRead.IsHeading(ls[k], 2) && StateRead.IsHeading(ls[k'], 2)
      ==> StateRead.HeadingName(ls[k], 2) != name || StateRead.HeadingName(ls[k'], 2) != name
  }

  /**
   * Round trip with the section reader: after the edit the section is the
   * trimmed new content and every other section is as before. The new body
   * must not itself hold a `## ` heading line, and the name must head at
   * most one section, be non-empty and carry no surrounding blanks.
   */
  lemma {:induction false} UpdateThenRead(raw: string, name: string, newContent: string)
    requires UpdateSectionBy(ReaderHeading, raw, name, newContent).Ok?
    requires name != [] && IsTrimmed(name)
    requires HeadsAtMostOnce(Split(raw), name)
    requires StateRead.NoHeading(Split(Trim(newContent)), 2)
    requires StateRead.NoBareMarker(Split(raw), 2) && StateRead.NoBareMarker(Split(Trim(newContent)), 2)
    ensures StateRead.Sections(UpdateSectionBy(ReaderHeading, raw, name, newContent).value, 2)
         == StateRead.Sections(raw, 2)[name := Trim(newContent)]
  {
    var i, j := UpdateSectionSplice(ReaderHeading, raw, name, newContent);
    EditReads(Split(raw), i, j, name, Trim(newContent));
    EditKeepsPlain(Split(raw), i, j, Trim(newContent));
    StateRead.NormalizePlain(Split(raw), 2);
    StateRead.NormalizePlain(Split(UpdateSectionBy(ReaderHeading, raw, name, newContent).value), 2);
  }

  /** The edit brings in no bare marker line when neither side has one. */
  lemma {:induction false} EditKeepsPlain(ls: seq<string>, i: nat, j: nat, t: string)
    requires i + 1 < |ls| && i < j <= |ls|
    requires forall k :: 0 <= k < |ls| ==> NoNewline(ls[k])
    requires IsTrimmed(t)
    requires StateRead.NoBareMarker(ls, 2) && StateRead.NoBareMarker(Split(t), 2)
    ensures StateRead.NoBareMarker(Split(Head(ls, i) + "\n" + t + "\n\n" + Tail(ls, j)), 2)
  {
    var rs := EditedLines(ls, i, j, t);
    SplitJoin(rs);
    NewLinesPlain(t, j == |ls|);
    StateRead.NoBareMarkerPart(ls, 0, i + 1, 2);
    StateRead.NoBareMarkerPart(ls, j, |ls|, 2);
    assert ls[0..i + 1] == ls[..i + 1] && ls[j..|ls|] == ls[j..];
    StateRead.NoBareMarkerConcat(ls[..i + 1], NewLines(t, j == |ls|), 2);
    StateRead.NoBareMarkerConcat(ls[..i + 1] + NewLines(t, j == |ls|), ls[j..], 2);
  }

  lemma NewLinesPlain(t: string, atEnd: bool)
    requires StateRead.NoBareMarker(Split(t), 2)
    ensures StateRead.NoBareMarker(NewLines(t, atEnd), 2)
  {
    assert !StateRead.IsBareMarker("", 2);
    StateRead.NoBareMarkerConcat([""], Split(t), 2);
    StateRead.NoBareMarkerConcat([""] + Split(t), if atEnd then ["", ""] else [""], 2);
  }

  /** The edit on lines, read back: only the target section changes. */
  lemma {:induction false} EditReads(ls: seq<string>, i: nat, j: nat, name: string, t: string)
    requires i + 1 < |ls| && j == NextEnd(ReaderHeading, ls, i + 1)
    requires forall k :: 0 <= k < |ls| ==> NoNewline(ls[k])
    requires IsTargetLine(ls[i], name) && name != [] && IsTrimmed(name)
    requires HeadsAtMostOnce(ls, name)
    requires IsTrimmed(t) && StateRead.NoHeading(Split(t), 2)
    ensures StateRead.LineSections(Split(Head(ls, i) + "\n" + t + "\n\n" + Tail(ls, j)), 2)
         == StateRead.LineSections(ls, 2)[name := t]
  {
    TargetIsHeading(ls[i], name);
    StateRead.LaterNames(ls, 2, i, j);
    var rs := EditedLines(ls, i, j, t);
    SplitJoin(rs);
    assert Split(Head(ls, i) + "\n" + t + "\n\n" + Tail(ls, j)) == rs;
    ReplacedSectionReads(ls, rs, i, j, NewLines(t, j == |ls|));
  }

  /**
   * Replacing the body lines of one section (heading line `i`, ending at
   * line `j`) by heading-free lines `m` changes only that section's entry.
   */
  lemma {:induction false} ReplacedSectionReads(ls: seq<string>, rs: seq<string>, i: nat, j: nat, m: seq<string>)
    requires i < j <= |ls|
    requires rs == ls[..i + 1] + m + ls[j..]
    requires StateRead.IsHeading(ls[i], 2)
    requires StateRead.NoHeading(ls[i + 1..j], 2) && StateRead.NoHeading(m, 2)
    requires j == |ls| || StateRead.IsHeading(ls[j], 2)
    requires forall k :: 0 <= k < |StateRead.EntriesOf(StateRead.TopGroups(ls[j..], 2), 2)| ==>
               StateRead.EntriesOf(StateRead.TopGroups(ls[j..], 2), 2)[k].0 != StateRead.HeadingName(ls[i], 2)
    ensures StateRead.LineSections(rs, 2)
         == StateRead.LineSections(ls, 2)[StateRead.HeadingName(ls[i], 2) := Trim(Join(m))]
  {
    var e := i + 1 + |m|;
    assert rs[i + 1..e] == m;
    assert rs[e..] == ls[j..];
    assert rs[..i] == ls[..i] && rs[i] == ls[i];
    assert e == |rs| || StateRead.IsHeading(rs[e], 2) by {
      if j < |ls| {
        assert rs[e] == ls[j];
      }
    }
    var name := StateRead.HeadingName(ls[i], 2);
    var out := StateRead.Outside(ls[..i], ls[j..], 2);
    assert StateRead.Outside(rs[..i], rs[e..], 2) == out;
    StateRead.SectionsAround(ls, 2, i, j);
    StateRead.SectionsAround(rs, 2, i, e);
    assert StateRead.LineSections(rs, 2) == out[name := Trim(Join(m))];
    OverrideTwice(out, name, Trim(Join(ls[i + 1..j])), Trim(Join(m)));
  }

  lemma OverrideTwice(mp: map<string, string>, k: string, a: string, b: string)
    ensures mp[k := a][k := b] == mp[k := b]
  {
  }

  /** A `## <name>` target line is a level-2 heading the reader names `name`. */
  lemma {:induction false} TargetIsHeading(l: string, name: string)
    requires IsTargetLine(l, name) && name != [] && IsTrimmed(name)
    ensures StateRead.IsHeading(l, 2) && StateRead.HeadingName(l, 2) == name
  {
    var tail := l[|name| + 3..];
    assert l == "## " + name + tail;
    assert l[2..] == " " + name + tail;
    assert l[..2] == Repeat('#', 2);
    assert AllWs(tail);
    TrimPadded(" ", name, tail);
    TrimOfTrimmed(name);
  }

  /** The lines of the new body: a blank line, the content, and the closing blank lines. */
  function NewLines(t: string, atEnd: bool): seq<string>
  {
    if atEnd then [""] + Split(t) + ["", ""] else [""] + Split(t) + [""]
  }

  /** The edited document, seen as lines. */
  lemma {:induction false} EditedLines(ls: seq<string>, i: nat, j: nat, t: string) returns (rs: seq<string>)
    requires i < j <= |ls| && i + 1 < |ls|
    requires forall k :: 0 <= k < |ls| ==> NoNewline(ls[k])
    requires IsTrimmed(t)
    ensures rs == ls[..i + 1] + NewLines(t, j == |ls|) + ls[j..]
    ensures Join(rs) == Head(ls, i) + "\n" + t + "\n\n" + Tail(ls, j)
    ensures |rs| >= 1 && forall k :: 0 <= k < |rs| ==> NoNewline(rs[k])
    ensures Trim(Join(NewLines(t, j == |ls|))) == t
    ensures StateRead.NoHeading(Split(t), 2) ==> StateRead.NoHeading(NewLines(t, j == |ls|), 2)
  {
    var m := NewLines(t, j == |ls|);
    rs := ls[..i + 1] + m + ls[j..];
    EditedJoin(ls, i, j, t);
    NewLinesShape(t, j == |ls|);
    NewLinesTrim(t, j == |ls|);
    var pre, post := ls[..i + 1], ls[j..];
    assert forall k :: 0 <= k < |pre| ==> NoNewline(pre[k]);
    assert forall k :: 0 <= k < |post| ==> NoNewline(post[k]);
    NoNewlinesConcat(pre, m);
    NoNewlinesConcat(pre + m, post);
  }

  lemma {:induction false} EditedJoin(ls: seq<string>, i: nat, j: nat, t: string)
    requires i < j <= |ls| && i + 1 < |ls|
    ensures Join(ls[..i + 1] + NewLines(t, j == |ls|) + ls[j..]) == Head(ls, i) + "\n" + t + "\n\n" + Tail(ls, j)
  {
    var m := NewLines(t, j == |ls|);
    NewLinesJoin(t, j == |ls|);
    if j < |ls| {
      JoinThree(ls[..i + 1], m, ls[j..]);
      BlockIsJoin(m);
    } else {
      assert ls[..i + 1] + m + ls[j..] == ls[..i + 1] + m;
      JoinBlock(ls[..i + 1], m);
    }
  }

  lemma {:induction false} JoinThree(a: seq<string>, m: seq<string>, b: seq<string>)
    requires |b| >= 1
    ensures Join(a + m + b) == Block(a) + Block(m) + Join(b)
  {
    assert a + m + b == a + (m + b);
    JoinBlock(a, m + b);
    JoinBlock(m, b);
  }

  lemma {:induction false} NewLinesJoin(t: string, atEnd: bool)
    ensures Join(NewLines(t, atEnd)) == "\n" + t + (if atEnd then "\n\n" else "\n")
  {
    var s := Split(t);
    var tail := if atEnd then ["", ""] else [""];
    assert NewLines(t, atEnd) == [""] + (s + tail);
    JoinSplit(t);
    JoinAppend([""], s + tail);
    JoinAppend(s, tail);
    assert Join([""]) == "";
    assert Join(tail) == if atEnd then "\n" else "";
  }

  lemma {:induction false} NewLinesTrim(t: string, atEnd: bool)
    requires IsTrimmed(t)
    ensures Trim(Join(NewLines(t, atEnd))) == t
  {
    NewLinesJoin(t, atEnd);
    TrimPadded("\n", t, if atEnd then "\n\n" else "\n");
    TrimOfTrimmed(t);
  }

  lemma {:induction false} NewLinesShape(t: string, atEnd: bool)
    ensures forall k :: 0 <= k < |NewLines(t, atEnd)| ==> NoNewline(NewLines(t, atEnd)[k])
    ensures StateRead.NoHeading(Split(t), 2) ==> StateRead.NoHeading(NewLines(t, atEnd), 2)
  {
    var s := Split(t);
    var m := NewLines(t, atEnd);
    forall k | 0 <= k < |m| ensures NoNewline(m[k]) && (StateRead.NoHeading(s, 2) ==> !StateRead.IsHeading(m[k], 2)) {
      if 1 <= k < 1 + |s| {
        assert m[k] == s[k - 1];
      } else {
        assert m[k] == "";
      }
    }
  }

  /** Where both notions of section end agree, the two edits coincide. */
  lemma {:induction false} AgreeingEndsSameEdit(raw: string, name: string, newContent: string)
    requires forall k :: 0 <= k < |Split(raw)| ==>
               (EndsSection(NextSameLevel, Split(raw)[k]) <==> EndsSection(ReaderHeading, Split(raw)[k]))
    ensures UpdateSectionBy(NextSameLevel, raw, name, newContent) == UpdateSectionBy(ReaderHeading, raw, name, newContent)
  {
    var ls := Split(raw);
    if FindTarget(ls, name, 0).Some? {
      NextEndAgree(ls, FindTarget(ls, name, 0).value + 1);
    }
  }

  lemma {:induction false} NextEndAgree(ls: seq<string>, k: nat)
    requires k <= |ls|
    requires forall m :: 0 <= m < |ls| ==> (EndsSection(NextSameLevel, ls[m]) <==> EndsSection(ReaderHeading, ls[m]))
    decreases |ls| - k
    ensures NextEnd(NextSameLevel, ls, k) == NextEnd(ReaderHeading, ls, k)
  {
    if k < |ls| && !EndsSection(NextSameLevel, ls[k]) {
      NextEndAgree(ls, k + 1);
    }
  }

  // ---------------------------------------------------------------------
  // The writer's section end as written: a tab-separated heading
  // ---------------------------------------------------------------------

  /*
   * The document "## A", "x", "##\tB", "y" (with a final newline). The
   * reader sees two sections, A and B; the writer's own end pattern needs a
   * space after `##`, so replacing A's body runs to the end of the file and
   * section B is gone.
   */
  const TabExample := ["## A", "x", "##\tB", "y", ""]

  lemma TabExampleSplit()
    ensures Split(Join(TabExample)) == TabExample
  {
    SplitJoin(TabExample);
  }

  lemma TabExampleTarget()
    ensures FindTarget(TabExample, "A", 0) == Some(0)
  {
    assert IsTargetLine(TabExample[0], "A");
  }

  lemma TabExampleParts()
    ensures NextEnd(NextSameLevel, TabExample, 1) == 5
    ensures Head(TabExample, 0) == "## A\n"
    ensures Tail(TabExample, 5) == ""
  {
    assert TabExample[..1] == ["## A"];
    assert NextEnd(NextSameLevel, TabExample, 4) == 5;
    assert NextEnd(NextSameLevel, TabExample, 3) == 5;
    assert TabExample[2][..3] != "## " by { assert TabExample[2][..3][2] == '\t'; }
    assert NextEnd(NextSameLevel, TabExample, 2) == 5;
  }

  /** Replacing A's body in the example deletes section B. */
  lemma WriterDropsTabSection()
    ensures UpdateSectionBy(NextSameLevel, Join(TabExample), "A", "z") == Ok(Join(EditedExample))
    ensures "B" in StateRead.Sections(Join(TabExample), 2)
    ensures "B" !in StateRead.Sections(Join(EditedExample), 2)
  {
    TabExampleRead();
    TabExampleEdit();
  }

  lemma TabExampleEdit()
    ensures UpdateSectionBy(NextSameLevel, Join(TabExample), "A", "z") == Ok(Join(EditedExample))
  {
    TabExampleSplit();
    TabExampleTarget();
    TabExampleParts();
    assert Trim("z") == "z";
    EditedExampleJoin();
    assert "## A\n" + "\n" + "z" + "\n\n" + "" == "## A\n\nz\n\n";
  }

  const EditedExample := ["## A", "", "z", "", ""]

  lemma TabExampleRead()
    ensures "B" in StateRead.Sections(Join(TabExample), 2)
    ensures StateRead.Sections(Join(EditedExample), 2) == map["A" := "z"]
  {
    TabExampleSplit();
    TabHeadingB();
    assert StateRead.NoHeading(TabExample[3..5], 2);
    TabExamplePlain();
    StateRead.SectionBody(Join(TabExample), 2, 2, 5);
    EditedExampleRead();
  }

  lemma TabHeadingB()
    ensures StateRead.IsHeading(TabExample[2], 2) && StateRead.HeadingName(TabExample[2], 2) == "B"
  {
    assert TabExample[2][2..] == "\tB";
    TrimPadded("\t", "B", "");
    assert "\t" + "B" + "" == "\tB";
  }

  lemma TabExamplePlain()
    ensures StateRead.Normalize(TabExample, 2) == TabExample
  {
    assert TabExample[0][2..] == " A" && !IsWs(TabExample[0][3]);
    assert TabExample[2][2..] == "\tB" && !IsWs(TabExample[2][3]);
    StateRead.NormalizePlain(TabExample, 2);
  }

  lemma EditedExamplePlain()
    ensures StateRead.Normalize(EditedExample, 2) == EditedExample
  {
    assert EditedExample[0][2..] == " A" && !IsWs(EditedExample[0][3]);
    StateRead.NormalizePlain(EditedExample, 2);
  }

  lemma EditedExampleJoin()
    ensures Join(EditedExample[1..]) == "\nz\n\n"
    ensures Join(EditedExample) == "## A\n\nz\n\n"
  {
    assert Join(EditedExample[4..]) == "";
    assert Join(EditedExample[3..]) == "\n";
    assert Join(EditedExample[2..]) == "z\n\n";
  }

  lemma EditedExampleEntry()
    ensures StateRead.Entry(("## A", EditedExample[1..]), 2) == ("A", "z")
  {
    EditedExampleJoin();
    EditedExampleBody();
    ExampleHeadingA();
  }

  lemma EditedExampleBody()
    ensures Trim("\nz\n\n") == "z"
  {
    TrimPadded("\n", "z", "\n\n");
    assert "\n" + "z" + "\n\n" == "\nz\n\n";
  }

  lemma ExampleHeadingA()
    ensures StateRead.HeadingName("## A", 2) == "A"
  {
    TrimPadded(" ", "A", "");
    assert " " + "A" + "" == " A";
    assert "## A"[2..] == " A";
  }

  lemma EditedExampleRead()
    ensures StateRead.Sections(Join(EditedExample), 2) == map["A" := "z"]
  {
    SplitJoin(EditedExample);
    EditedExamplePlain();
    EditedExampleGroups();
    EditedExampleEntry();
    assert StateRead.EntriesOf([("## A", EditedExample[1..])], 2) == [("A", "z")];
  }

  lemma EditedExampleGroups()
    ensures StateRead.TopGroups(EditedExample, 2) == [("## A", EditedExample[1..])]
    ensures StateRead.PreambleOf(EditedExample, 2) == ""
  {
    var ls := EditedExample;
    assert StateRead.FirstHeading(ls, 2) == 0;
    assert StateRead.NoHeading(ls[1..], 2);
  }

  // =====================================================================
  // updateStatePosition
  // =====================================================================

  /** The lines `updateStatePosition` rewrites, in the order it rewrites them. */
  datatype PositionLine = PhaseLine | PlanLine | StatusLine | ActivityLine | ProgressLine | FocusLine

  function LineLabel(t: PositionLine): string
  {
    match t
    case PhaseLine => "Phase:"
    case PlanLine => "Plan:"
    case StatusLine => "Status:"
    case ActivityLine => "Last activity:"
    case ProgressLine => "Progress:"
    case FocusLine => "**Current focus:**"
  }

  /** `\s*\d+\s+of\s+\d+.*$` from `q`: the counts, then the rest of that line. */
  function CountsEnd(s: string, q: nat): (r: Option<nat>)
    requires q <= |s|
    ensures r.Some? ==> q < r.value <= |s| && (r.value == |s| || IsLineTerminator(s[r.value]))
  {
    match StateRead.CountsAt(s, q)
    case Some(c) => Some(LineEnd(s, c.end))
    case None => None
  }

  /**
   * Where the match of `t`'s pattern that starts at `p` ends, if one does.
   * Each pattern is the label at the start of a line followed by the
   * reader's pattern for that field (`\s*.+$` for the text fields, and the
   * progress pattern with its `%` at the end of a line).
   */
  function MatchEnd(t: PositionLine, s: string, p: nat): (r: Option<nat>)
    ensures r.Some? ==> LineStart(s, p) && OccursAt(s, LineLabel(t), p)
    ensures r.Some? ==> p + |LineLabel(t)| < r.value <= |s|
    ensures r.Some? ==> r.value == |s| || IsLineTerminator(s[r.value])
  {
    if !(LineStart(s, p) && OccursAt(s, LineLabel(t), p)) then None
    else
      var q := p + |LineLabel(t)|;
      match t
      case PhaseLine => CountsEnd(s, q)
      case PlanLine => CountsEnd(s, q)
      case ProgressLine =>
        (match StateRead.ProgressAt(s, q, true) case Some(d) => Some(d.1 + 1) case None => None)
      case _ =>
        (match StateRead.LineValueAt(s, q) case Some(v) => Some(v.1) case None => None)
  }

  predicate LineMatch(t: PositionLine, s: string, p: nat) { MatchEnd(t, s, p).Some? }

  function LineTest(t: PositionLine, s: string): nat -> bool
  {
    (i: nat) => LineMatch(t, s, i)
  }

  /** Where `String.replace` finds `t`'s pattern: its leftmost match. */
  function FirstLineMatch(t: PositionLine, s: string): (r: Option<nat>)
    ensures r.Some? ==> r.value <= |s| && LineMatch(t, s, r.value)
  {
    FirstIndex(LineTest(t, s), 0, |s|)
  }

  /** `content.replace(re, text)` with `t`'s pattern. */
  function ReplaceFirst(t: PositionLine, s: string, text: string): string
  {
    match FirstLineMatch(t, s)
    case None => s
    case Some(p) => s[..p] + text + s[MatchEnd(t, s, p).value..]
  }

  /**
   * A text without a match is returned unchanged; otherwise exactly the
   * span of the leftmost match is replaced, and all text before and after
   * it is kept.
   */
  lemma ReplaceFirstSpan(t: PositionLine, s: string, text: string, p: nat)
    ensures (forall i :: 0 <= i <= |s| ==> !LineMatch(t, s, i)) ==> ReplaceFirst(t, s, text) == s
    ensures p <= |s| && LineMatch(t, s, p) && (forall i :: 0 <= i < p ==> !LineMatch(t, s, i)) ==>
      ReplaceFirst(t, s, text) == s[..p] + text + s[MatchEnd(t, s, p).value..]
  {
    FirstIndexLeftmost(LineTest(t, s), 0, |s|);
    forall i | 0 <= i <= |s| ensures LineTest(t, s)(i) == LineMatch(t, s, i) { }
    if p <= |s| && LineMatch(t, s, p) && (forall i :: 0 <= i < p ==> !LineMatch(t, s, i)) {
      FirstIndexAt(LineTest(t, s), 0, |s|, p);
    }
  }

  /** The values `updateStatePosition` writes. */
  datatype PositionUpdate = PositionUpdate(
    phaseNum: nat, totalPhases: nat, phaseName: Option<string>,
    planNum: nat, totalPlans: nat, status: string, lastActivity: string,
    completedPlans: nat, totalPlansGlobal: nat)

  /** `phaseName` is truthy: given and not empty. */
  predicate Named(u: PositionUpdate) { u.phaseName.Some? && u.phaseName.value != "" }

  function PhaseText(u: PositionUpdate): string
  {
    "Phase: " + NatToString(u.phaseNum) + " of " + NatToString(u.totalPhases) +
    (if Named(u) then " (" + u.phaseName.value + ")" else "")
  }

  /** The phase line names the phase, in parentheses, exactly when a name is given. */
  lemma PhaseTextNamed(u: PositionUpdate)
    ensures Named(u) ==> EndsWith(PhaseText(u), " (" + u.phaseName.value + ")")
    ensures !Named(u) ==> '(' !in PhaseText(u)
  {
    if !Named(u) {
      var d := NatToString(u.phaseNum);
      var e := NatToString(u.totalPhases);
      assert forall i :: 0 <= i < |d| ==> d[i] != '(';
      assert forall i :: 0 <= i < |e| ==> e[i] != '(';
      assert PhaseText(u) == "Phase: " + d + " of " + e;
    }
  }

  /** The edits in order: each line pattern with the text that replaces its first match. */
  function PositionEdits(u: PositionUpdate, bar: string): (es: seq<(PositionLine, string)>)
    ensures |es| == if Named(u) then 6 else 5
  {
    [(PhaseLine, PhaseText(u)),
     (PlanLine, "Plan: " + NatToString(u.planNum) + " of " + NatToString(u.totalPlans) + " in current phase"),
     (StatusLine, "Status: " + u.status),
     (ActivityLine, "Last activity: " + u.lastActivity),
     (ProgressLine, "Progress: " + bar)] +
    (if Named(u) then [(FocusLine, "**Current focus:** Phase " + NatToString(u.phaseNum) + " - " + u.phaseName.value)]
     else [])
  }

  /** The `**Current focus:**` line is among the edits exactly when a phase name is given. */
  lemma FocusOnlyWhenNamed(u: PositionUpdate, bar: string)
    ensures (exists k :: 0 <= k < |PositionEdits(u, bar)| && PositionEdits(u, bar)[k].0 == FocusLine) <==> Named(u)
  {
    if Named(u) {
      assert PositionEdits(u, bar)[5].0 == FocusLine;
    }
  }

  /** The edits applied one after another. */
  function ApplyEdits(s: string, es: seq<(PositionLine, string)>): string
    decreases |es|
  {
    if es == [] then s else ApplyEdits(ReplaceFirst(es[0].0, s, es[0].1), es[1..])
  }

  /** A text in which no edited pattern matches comes back unchanged. */
  lemma {:induction false} NoMatchNoEdit(s: string, es: seq<(PositionLine, string)>)
    requires forall k, i :: 0 <= k < |es| && 0 <= i <= |s| ==> !LineMatch(es[k].0, s, i)
    ensures ApplyEdits(s, es) == s
    decreases |es|
  {
    if es != [] {
      ReplaceFirstSpan(es[0].0, s, es[0].1, 0);
      assert forall k :: 0 <= k < |es| - 1 ==> es[1..][k] == es[k + 1];
      NoMatchNoEdit(s, es[1..]);
    }
  }

  lemma EditStep(s: string, es: seq<(PositionLine, string)>)
    requires es != []
    ensures ApplyEdits(s, es) == ApplyEdits(ReplaceFirst(es[0].0, s, es[0].1), es[1..])
  {
  }

  function PositionFailed(message: string): string
  {
    "Failed to update STATE.md position: " + message
  }

  /**
   * `updateStatePosition` on the text of STATE.md: the new text, or the
   * error the progress bar raised (and then nothing is written).
   */
  method UpdateStatePosition(content: string, u: PositionUpdate) returns (r: Result<string>)
    ensures var bar := StateInit.RenderProgressBar(u.completedPlans, u.totalPlansGlobal);
      (bar.Err? ==> r == Err(PositionFailed(bar.error))) &&
      (bar.Ok? ==> r == Ok(ApplyEdits(content, PositionEdits(u, bar.value))))
  {
    var bar := StateInit.RenderProgressBar(u.completedPlans, u.totalPlansGlobal);
    ghost var es := PositionEdits(u, if bar.Ok? then bar.value else "");
    ghost var rest := es;
    var c := content;
    EditStep(c, rest);
    c, rest := ReplaceFirst(PhaseLine, c, PhaseText(u)), rest[1..];
    EditStep(c, rest);
    c, rest := ReplaceFirst(PlanLine, c, "Plan: " + NatToString(u.planNum) + " of " + NatToString(u.totalPlans) + " in current phase"), rest[1..];
    EditStep(c, rest);
    c, rest := ReplaceFirst(StatusLine, c, "Status: " + u.status), rest[1..];
    EditStep(c, rest);
    c, rest := ReplaceFirst(ActivityLine, c, "Last activity: " + u.lastActivity), rest[1..];
    if bar.Err? {
      return Err(PositionFailed(bar.error));
    }
    EditStep(c, rest);
    c, rest := ReplaceFirst(ProgressLine, c, "Progress: " + bar.value), rest[1..];
    if Named(u) {
      EditStep(c, rest);
      c, rest := ReplaceFirst(FocusLine, c, "**Current focus:** Phase " + NatToString(u.phaseNum) + " - " + u.phaseName.value), rest[1..];
    }
    assert rest == [];
    r := Ok(c);
  }

  // =====================================================================
  // updateRoadmapProgress
  // =====================================================================

  /**
   * The writer's row pattern `(\|\s*N\.\s*.+?\s*\|)\s*\d+/\d+\s*\|...` at `p`
   * for phase `n`: the reader's row pattern with the number written out.
   * Gives where group 1 (the name cell, with its closing `|`) ends and
   * where the match ends.
   */
  function WriterRowAt(s: string, p: nat, n: nat): (r: Option<(nat, nat)>)
    requires p <= |s|
    ensures r.Some? ==> p < r.value.0 <= r.value.1 <= |s|
  {
    KeyRowAt(s, p, NatToString(n) + ".")
  }

  /** The writer's row pattern with `key` (the number and its dot) written out. */
  function KeyRowAt(s: string, p: nat, key: string): (r: Option<(nat, nat)>)
    requires p <= |s|
    ensures r.Some? ==> p < r.value.0 <= r.value.1 <= |s|
  {
    if p == |s| || s[p] != '|' then None else KeyCellsAt(s, WsEnd(s, p + 1), key)
  }

  /** `key` at `a`, then the cells after it. */
  function KeyCellsAt(s: string, a: nat, key: string): (r: Option<(nat, nat)>)
    requires a <= |s|
    ensures r.Some? ==> a < r.value.0 <= r.value.1 <= |s|
  {
    if !OccursAt(s, key, a) then None else CellsEnd(s, a + |key|)
  }

  /** Where the name cell (with its closing `|`) and the row end, after the number. */
  function CellsEnd(s: string, m: nat): (r: Option<(nat, nat)>)
    requires m <= |s|
    ensures r.Some? <==> StateRead.CellsFrom(s, m).Some?
    ensures r.Some? ==> r.value == (StateRead.CellsFrom(s, m).value.1.cell + 1, StateRead.CellsFrom(s, m).value.1.end)
  {
    var cells := StateRead.CellsFrom(s, m);
    if cells.None? then None else Some((cells.value.1.cell + 1, cells.value.1.end))
  }

  predicate WriterRowStartsAt(s: string, n: nat, i: nat)
  {
    i <= |s| && WriterRowAt(s, i, n).Some?
  }

  function WriterRowTest(s: string, n: nat): nat -> bool
  {
    (i: nat) => WriterRowStartsAt(s, n, i)
  }

  /** `content.match(rowRegex)`: where the leftmost row of phase `n` starts. */
  function FirstWriterRow(s: string, n: nat): (r: Option<nat>)
    ensures r.Some? ==> r.value <= |s| && WriterRowAt(s, r.value, n).Some?
  {
    FirstIndex(WriterRowTest(s, n), 0, |s|)
  }

  lemma FirstWriterRowLeftmost(s: string, n: nat)
    ensures FirstWriterRow(s, n).Some? ==> forall i :: 0 <= i < FirstWriterRow(s, n).value ==> WriterRowAt(s, i, n).None?
    ensures FirstWriterRow(s, n).None? ==> forall i :: 0 <= i <= |s| ==> WriterRowAt(s, i, n).None?
  {
    FirstIndexLeftmost(WriterRowTest(s, n), 0, |s|);
    forall i | 0 <= i <= |s| ensures WriterRowTest(s, n)(i) == WriterRowAt(s, i, n).Some? { }
  }

  /**
   * The writer's pattern matches at `p` exactly where the reader's row
   * pattern matches with `String(n)` as its number, and then it matches
   * the same text: a row of phase `n` as `parseRoadmapProgress` reads it.
   */
  lemma WriterRowIsRow(s: string, p: nat, n: nat)
    requires p < |s|
    ensures WriterRowAt(s, p, n).Some? <==>
      StateRead.RowAt(s, p).Some? && OccursAt(s, NatToString(n) + ".", WsEnd(s, p + 1))
    ensures WriterRowAt(s, p, n).Some? ==>
      StateRead.RowAt(s, p).value.0.number == n && StateRead.RowAt(s, p).value.1 == WriterRowAt(s, p, n).value.1
  {
    var a := WsEnd(s, p + 1);
    var key := NatToString(n) + ".";
    assert WriterRowAt(s, p, n) == KeyRowAt(s, p, key);
    if s[p] == '|' && OccursAt(s, key, a) {
      IdDigits(s, a, n);
      assert StateRead.NumberAt(s, p) == Some((n, a + |key|));
    }
  }


  /** `String(n) + "."` at `a` is the digit run the reader takes there, and it reads `n`. */
  lemma IdDigits(s: string, a: nat, n: nat)
    requires a <= |s| && OccursAt(s, NatToString(n) + ".", a)
    ensures DigitsEnd(s, a) == a + |NatToString(n)| < |s|
    ensures s[a + |NatToString(n)|] == '.'
    ensures DigitsValue(s[a..a + |NatToString(n)|]) == n
  {
    KeyDigits(s, a, NatToString(n));
    DigitsValueOfNatToString(n);
  }

  /** A digit string and a dot at `a`: the digit run there is that string. */
  lemma KeyDigits(s: string, a: nat, id: string)
    requires AllDigits(id) && a <= |s| && OccursAt(s, id + ".", a)
    ensures DigitsEnd(s, a) == a + |id| < |s|
    ensures s[a + |id|] == '.'
    ensures s[a..a + |id|] == id
  {
    var key := id + ".";
    assert s[a..a + |key|] == key;
    assert s[a..a + |id|] == s[a..a + |key|][..|id|] == key[..|id|] == id;
    assert s[a + |id|] == s[a..a + |key|][|id|] == key[|id|] == '.';
    forall i | a <= i < a + |id| ensures IsDigit(s[i]) { assert s[i] == id[i - a]; }
    DigitsEndAt(s, a, a + |id|);
  }

  function RowNotFound(n: nat): string
  {
    "Phase " + NatToString(n) + " row not found in ROADMAP.md progress table"
  }

  /** The replacement for everything after the name cell: ` c/t | status | date |`. */
  function RowTail(completed: nat, total: nat, status: string, completedDate: Option<string>): string
  {
    var dateStr := if completedDate.None? || completedDate.value == "" then "-" else completedDate.value;
    " " + NatToString(completed) + "/" + NatToString(total) + " | " + status + " | " + dateStr + " |"
  }

  /**
   * `out` is `s` with the row of phase `n` at `p` rewritten: all text up to
   * and including its name cell and all text after the row kept, `tail`
   * in between.
   */
  predicate RowEdited(s: string, n: nat, p: nat, tail: string, out: string)
  {
    p <= |s| && WriterRowAt(s, p, n).Some? &&
    out == s[..WriterRowAt(s, p, n).value.0] + tail + s[WriterRowAt(s, p, n).value.1..]
  }

  /**
   * `updateRoadmapProgress` on the text of ROADMAP.md. The error when no
   * row of phase `n` exists; otherwise the text up to and including the
   * name cell and the text after the row are kept, and the rest of the
   * row becomes the new counts, status and date.
   */
  function UpdateRoadmapProgress(content: string, n: nat, completed: nat, total: nat,
                                 status: string, completedDate: Option<string>): (r: Result<string>)
    ensures r.Err? <==> forall i :: 0 <= i <= |content| ==> WriterRowAt(content, i, n).None?
    ensures r.Err? ==> r.error == RowNotFound(n)
    ensures r.Ok? ==>
              FirstWriterRow(content, n).Some? &&
              RowEdited(content, n, FirstWriterRow(content, n).value, RowTail(completed, total, status, completedDate), r.value)
  {
    FirstWriterRowLeftmost(content, n);
    match FirstWriterRow(content, n)
    case None => Err(RowNotFound(n))
    case Some(p) =>
      var (g, e) := WriterRowAt(content, p, n).value;
      Ok(content[..g] + RowTail(completed, total, status, completedDate) + content[e..])
  }

  /**
   * The corrected row pattern: a row as `parseRoadmapProgress` reads it whose
   * number is `n`, whatever leading zeros it is written with. Gives where
   * the name cell (with its closing `|`) and the match end.
   */
  function PhaseRowAt(s: string, p: nat, n: nat): (r: Option<(nat, nat)>)
    requires p <= |s|
    ensures r.Some? ==> p < r.value.0 <= r.value.1 <= |s|
  {
    if p == |s| || s[p] != '|' then None else PhaseCellsAt(s, WsEnd(s, p + 1), n)
  }

  /** The number `n` and its dot at `a`, then the cells after it. */
  function PhaseCellsAt(s: string, a: nat, n: nat): (r: Option<(nat, nat)>)
    requires a <= |s|
    ensures r.Some? ==> a < r.value.0 <= r.value.1 <= |s|
  {
    match PhaseNumberEnd(s, a, n)
    case None => None
    case Some(m) => CellsEnd(s, m)
  }

  /** `(\d+)\.` at `a` reading `n`: where the text after the dot starts. */
  function PhaseNumberEnd(s: string, a: nat, n: nat): (r: Option<nat>)
    requires a <= |s|
    ensures r.Some? ==> a < r.value <= |s|
  {
    var d := DigitsEnd(s, a);
    if d == a || d == |s| || s[d] != '.' || DigitsValue(s[a..d]) != n then None
    else Some(d + 1)
  }

  /** `String(n) + "."` at `a`: the corrected pattern reads the number up to that dot. */
  lemma PhaseNumberKey(s: string, a: nat, n: nat)
    requires a <= |s| && OccursAt(s, NatToString(n) + ".", a)
    ensures PhaseNumberEnd(s, a, n) == Some(a + |NatToString(n)| + 1)
  {
    IdDigits(s, a, n);
  }

  /** The corrected pattern matches exactly the reader's rows of phase `n`, to the same end. */
  lemma PhaseRowIsRow(s: string, p: nat, n: nat)
    requires p <= |s|
    ensures PhaseRowAt(s, p, n).Some? <==> StateRead.RowAt(s, p).Some? && StateRead.RowAt(s, p).value.0.number == n
    ensures PhaseRowAt(s, p, n).Some? ==> PhaseRowAt(s, p, n).value.1 == StateRead.RowAt(s, p).value.1
  {
    if p < |s| && s[p] == '|' {
      var a := WsEnd(s, p + 1);
      var d := DigitsEnd(s, a);
      if d == a || d == |s| || s[d] != '.' {
        assert StateRead.NumberAt(s, p).None?;
      } else {
        assert StateRead.NumberAt(s, p) == Some((DigitsValue(s[a..d]), d + 1));
      }
    }
  }

  predicate PhaseRowStartsAt(s: string, n: nat, i: nat)
  {
    i <= |s| && PhaseRowAt(s, i, n).Some?
  }

  function PhaseRowTest(s: string, n: nat): nat -> bool
  {
    (i: nat) => PhaseRowStartsAt(s, n, i)
  }

  /** Where the leftmost row of phase `n` starts, by the corrected pattern. */
  function FirstPhaseRow(s: string, n: nat): (r: Option<nat>)
    ensures r.Some? ==> r.value <= |s| && PhaseRowAt(s, r.value, n).Some?
  {
    FirstIndex(PhaseRowTest(s, n), 0, |s|)
  }

  lemma FirstPhaseRowLeftmost(s: string, n: nat)
    ensures FirstPhaseRow(s, n).Some? ==> forall i :: 0 <= i < FirstPhaseRow(s, n).value ==> PhaseRowAt(s, i, n).None?
    ensures FirstPhaseRow(s, n).None? ==> forall i :: 0 <= i <= |s| ==> PhaseRowAt(s, i, n).None?
  {
    FirstIndexLeftmost(PhaseRowTest(s, n), 0, |s|);
    forall i | 0 <= i <= |s| ensures PhaseRowTest(s, n)(i) == PhaseRowAt(s, i, n).Some? { }
  }

  /** Wherever the pattern as written matches, the corrected one matches the same cells. */
  lemma WriterRowIsPhaseRow(s: string, p: nat, n: nat)
    requires p <= |s|
    ensures WriterRowAt(s, p, n).Some? ==> PhaseRowAt(s, p, n) == WriterRowAt(s, p, n)
  {
    if p < |s| && s[p] == '|' && OccursAt(s, NatToString(n) + ".", WsEnd(s, p + 1)) {
      KeyCellsArePhaseCells(s, WsEnd(s, p + 1), n);
    } else {
      KeyRowMissing(s, p, NatToString(n) + ".");
    }
  }

  /** Where the number and its dot are found, both patterns read the same cells after them. */
  lemma KeyCellsArePhaseCells(s: string, a: nat, n: nat)
    requires a <= |s| && OccursAt(s, NatToString(n) + ".", a)
    ensures PhaseCellsAt(s, a, n) == KeyCellsAt(s, a, NatToString(n) + ".")
  {
    DigitsValueOfNatToString(n);
    DigitCellsAgree(s, a, n, NatToString(n));
  }

  /** A digit string reading `n` and its dot at `a`: both patterns read the cells after the dot. */
  lemma DigitCellsAgree(s: string, a: nat, n: nat, id: string)
    requires id != [] && AllDigits(id) && DigitsValue(id) == n && a <= |s| && OccursAt(s, id + ".", a)
    ensures PhaseCellsAt(s, a, n) == KeyCellsAt(s, a, id + ".")
  {
    var m := a + |id| + 1;
    DigitNumberEnd(s, a, n, id);
    PhaseCellsFound(s, a, n, m);
    KeyCellsFound(s, a, id + ".");
    assert a + |id + "."| == m;
  }

  /** A digit string reading `n` and its dot at `a`: the corrected pattern reads `n` up to the dot. */
  lemma DigitNumberEnd(s: string, a: nat, n: nat, id: string)
    requires id != [] && AllDigits(id) && DigitsValue(id) == n && a <= |s| && OccursAt(s, id + ".", a)
    ensures PhaseNumberEnd(s, a, n) == Some(a + |id| + 1)
  {
    KeyDigits(s, a, id);
  }

  lemma PhaseCellsFound(s: string, a: nat, n: nat, m: nat)
    requires a <= |s| && PhaseNumberEnd(s, a, n) == Some(m)
    ensures PhaseCellsAt(s, a, n) == CellsEnd(s, m)
  {
  }

  lemma KeyCellsFound(s: string, a: nat, key: string)
    requires a <= |s| && OccursAt(s, key, a)
    ensures KeyCellsAt(s, a, key) == CellsEnd(s, a + |key|)
  {
  }

  /** Without a `|` and the key after it, the pattern as written does not match. */
  lemma KeyRowMissing(s: string, p: nat, key: string)
    requires p <= |s|
    requires !(p < |s| && s[p] == '|' && OccursAt(s, key, WsEnd(s, p + 1)))
    ensures KeyRowAt(s, p, key).None?
  {
  }

  /**
   * A row written `| 01. ...` reads as phase 1, and the pattern as written
   * for phase 1 (`\|\s*1\.`) does not match it; the corrected one does.
   */
  lemma PaddedRowMissed(s: string, p: nat)
    requires p + 3 < |s| && s[p] == '|' && s[p + 1] == '0' && s[p + 2] == '1' && s[p + 3] == '.'
    requires StateRead.RowAt(s, p).Some?
    ensures StateRead.RowAt(s, p).value.0.number == 1
    ensures WriterRowAt(s, p, 1).None?
    ensures PhaseRowAt(s, p, 1).Some?
  {
    PaddedNumber(s, p);
    assert NatToString(1) == "1";
    assert !OccursAt(s, "1.", p + 1) by { assert s[p + 1..p + 3][0] == '0'; }
    assert WriterRowAt(s, p, 1) == KeyRowAt(s, p, "1.");
    PhaseRowIsRow(s, p, 1);
  }

  /** `| 01.` at `p` is phase number 1, with the name cell starting after the dot. */
  lemma PaddedNumber(s: string, p: nat)
    requires p + 3 < |s| && s[p] == '|' && s[p + 1] == '0' && s[p + 2] == '1' && s[p + 3] == '.'
    ensures WsEnd(s, p + 1) == p + 1
    ensures StateRead.NumberAt(s, p) == Some((1, p + 4))
  {
    assert WsEnd(s, p + 1) == p + 1;
    assert DigitsEnd(s, p + 1) == p + 3 by {
      assert DigitsEnd(s, p + 3) == p + 3;
      assert DigitsEnd(s, p + 2) == p + 3;
    }
    assert s[p + 1..p + 3] == "01";
    assert DigitsValue("01") == 1 by { assert "01"[..1] == "0"; assert "0"[..0] == ""; }
  }

  /**
   * The corrected `updateRoadmapProgress`: the same edit, at the leftmost
   * row the reader gives phase `n`. It fails exactly when the reader sees
   * no row of phase `n` anywhere in the text.
   */
  function UpdateRoadmapProgressFixed(content: string, n: nat, completed: nat, total: nat,
                                      status: string, completedDate: Option<string>): (r: Result<string>)
    ensures r.Err? <==> forall i :: 0 <= i <= |content| ==> PhaseRowAt(content, i, n).None?
    ensures r.Err? ==> r.error == RowNotFound(n)
    ensures r.Ok? ==>
      FirstPhaseRow(content, n).Some? &&
      var (g, e) := PhaseRowAt(content, FirstPhaseRow(content, n).value, n).value;
      r.value == content[..g] + RowTail(completed, total, status, completedDate) + content[e..]
  {
    FirstPhaseRowLeftmost(content, n);
    match FirstPhaseRow(content, n)
    case None => Err(RowNotFound(n))
    case Some(p) =>
      var (g, e) := PhaseRowAt(content, p, n).value;
      Ok(content[..g] + RowTail(completed, total, status, completedDate) + content[e..])
  }

  /** The corrected writer fails exactly when the reader sees no row of phase `n` anywhere. */
  lemma FixedFailsIff(content: string, n: nat, completed: nat, total: nat, status: string, completedDate: Option<string>)
    ensures UpdateRoadmapProgressFixed(content, n, completed, total, status, completedDate).Err? <==>
      forall i :: 0 <= i <= |content| ==> StateRead.RowAt(content, i).None? || StateRead.RowAt(content, i).value.0.number != n
  {
    forall i | 0 <= i <= |content|
      ensures PhaseRowAt(content, i, n).None? <==> StateRead.RowAt(content, i).None? || StateRead.RowAt(content, i).value.0.number != n
    {
      PhaseRowIsRow(content, i, n);
    }
  }

  /**
   * Where every row the reader gives phase `n` is also written `n.` (no
   * leading zeros), the corrected writer and the one as written agree.
   */
  lemma FixedAgrees(content: string, n: nat, completed: nat, total: nat, status: string, completedDate: Option<string>)
    requires forall i :: 0 <= i <= |content| && PhaseRowAt(content, i, n).Some? ==> WriterRowAt(content, i, n).Some?
    ensures UpdateRoadmapProgressFixed(content, n, completed, total, status, completedDate)
         == UpdateRoadmapProgress(content, n, completed, total, status, completedDate)
  {
    SameFirstRow(content, n);
  }

  /** Under the same condition, both patterns find the same leftmost row, with the same cells. */
  lemma SameFirstRow(content: string, n: nat)
    requires forall i :: 0 <= i <= |content| && PhaseRowAt(content, i, n).Some? ==> WriterRowAt(content, i, n).Some?
    ensures FirstPhaseRow(content, n) == FirstWriterRow(content, n)
    ensures FirstPhaseRow(content, n).Some? ==>
      PhaseRowAt(content, FirstPhaseRow(content, n).value, n) == WriterRowAt(content, FirstPhaseRow(content, n).value, n)
  {
    forall i | 0 <= i <= |content| ensures PhaseRowTest(content, n)(i) == WriterRowTest(content, n)(i) {
      WriterRowIsPhaseRow(content, i, n);
    }
    FirstIndexSame(PhaseRowTest(content, n), WriterRowTest(content, n), 0, |content|);
    if FirstPhaseRow(content, n).Some? {
      WriterRowIsPhaseRow(content, FirstPhaseRow(content, n).value, n);
    }
  }

  /** Wherever the writer as written finds its row, the corrected one finds a row too. */
  lemma FixedFindsWritten(content: string, n: nat, completed: nat, total: nat, status: string, completedDate: Option<string>)
    requires UpdateRoadmapProgress(content, n, completed, total, status, completedDate).Ok?
    ensures UpdateRoadmapProgressFixed(content, n, completed, total, status, completedDate).Ok?
  {
    var p := FirstWriterRow(content, n).value;
    WriterRowIsPhaseRow(content, p, n);
  }

  // =====================================================================
  // updatePlanCheckbox
  // =====================================================================

  /** `XX-NN`: the phase and plan numbers padded to two digits. */
  function PlanId(phase: nat, plan: nat): string
  {
    Pad2(phase) + "-" + Pad2(plan)
  }

  predicate IsIdChar(c: char) { IsDigit(c) || c == '-' }

  /** A plan id starts and ends with a digit and holds only digits and `-`. */
  predicate IdShape(id: string)
  {
    id != [] && IsDigit(id[0]) && IsDigit(id[|id| - 1]) && forall i :: 0 <= i < |id| ==> IsIdChar(id[i])
  }

  /** The id is two runs of at least two digits joined by `-`, and `escapeRegex` leaves it as it is. */
  lemma PlanIdShape(phase: nat, plan: nat)
    ensures IdShape(PlanId(phase, plan)) && |PlanId(phase, plan)| >= 5
    ensures LiteralPattern(EscapeRegex(PlanId(phase, plan))) == Some(PlanId(phase, plan))
  {
    Pad2Value(phase);
    Pad2Value(plan);
    EscapeRegexIsLiteral(PlanId(phase, plan));
  }

  predicate IsMark(c: char) { c == ' ' || c == 'x' }

  function Mark(checked: bool): char { if checked then 'x' else ' ' }

  /**
   * `^(\s*- \[)[ x](\]\s+ID(?:-PLAN\.md|\b).*)$` at `p`: the position of
   * the mark and the end of the match. Both blank runs are taken whole
   * (a `-` and a digit follow them); `-PLAN.md` begins with a non-word
   * character, so the alternation is the word boundary after the id; and
   * `.*$` runs to the end of the line.
   */
  function CheckboxAt(s: string, id: string, p: nat): (r: Option<(nat, nat)>)
    requires id != []
    ensures r.Some? ==> p + 3 <= r.value.0 && r.value.0 + 1 < r.value.1 <= |s|
    ensures r.Some? ==> LineStart(s, p)
    ensures r.Some? ==> r.value.1 == |s| || IsLineTerminator(s[r.value.1])
  {
    if !(p <= |s| && LineStart(s, p)) then None else BoxAt(s, id, WsEnd(s, p))
  }

  /** A checkbox match holds its mark between `[` and `]`. */
  lemma CheckboxMark(s: string, id: string, p: nat)
    requires id != [] && CheckboxAt(s, id, p).Some?
    ensures var m := CheckboxAt(s, id, p).value.0;
      IsMark(s[m]) && s[m - 1] == '[' && s[m + 1] == ']'
  {

  }

  /** `- \[[ x]\]` at `w`, then the rest of the pattern. */
  function BoxAt(s: string, id: string, w: nat): (r: Option<(nat, nat)>)
    requires id != [] && w <= |s|
    ensures r.Some? ==> r.value.0 == w + 3 && r.value.0 + 1 < r.value.1 <= |s|
    ensures r.Some? ==> r.value.1 == |s| || IsLineTerminator(s[r.value.1])
  {
    var m := w + 3;
    if !(BoxOpenAt(s, w) && m + 1 < |s| && IsMark(s[m]) && s[m + 1] == ']') then None
    else IdAt(s, id, m)
  }

  /** `- \[` at `w`. */
  predicate BoxOpenAt(s: string, w: nat)
  {
    w + 2 < |s| && s[w] == '-' && s[w + 1] == ' ' && s[w + 2] == '['
  }

  /** `\s+ID\b.*$` after the `]` that follows the mark at `m`. */
  function IdAt(s: string, id: string, m: nat): (r: Option<(nat, nat)>)
    requires id != [] && m + 1 < |s|
    ensures r.Some? ==> r.value.0 == m && m + 1 < r.value.1 <= |s|
    ensures r.Some? ==> r.value.1 == |s| || IsLineTerminator(s[r.value.1])
  {
    match IdEnd(s, id, m)
    case None => None
    case Some(j) => Some((m, LineEnd(s, j)))
  }

  /** `\s+<id>\b` after the box at `m`: where the id ends. */
  function IdEnd(s: string, id: string, m: nat): (r: Option<nat>)
    requires id != [] && m + 1 < |s|
    ensures r.Some? ==> m + 2 < r.value <= |s|
  {
    var k := WsEnd(s, m + 2);
    var j := k + |id|;
    if k == m + 2 || !OccursAt(s, id, k) || (j < |s| && IsWordChar(s[j])) then None
    else Some(j)
  }

  predicate CheckboxStartsAt(s: string, id: string, i: nat)
  {
    id != [] && CheckboxAt(s, id, i).Some?
  }

  function CheckboxTest(s: string, id: string): nat -> bool
  {
    (i: nat) => CheckboxStartsAt(s, id, i)
  }

  /** `content.match(checkboxRegex)`: where the leftmost checkbox line of `id` starts. */
  function FirstCheckbox(s: string, id: string): (r: Option<nat>)
    ensures r.Some? ==> r.value <= |s| && id != [] && CheckboxAt(s, id, r.value).Some?
  {
    FirstIndex(CheckboxTest(s, id), 0, |s|)
  }

  lemma FirstCheckboxLeftmost(s: string, id: string)
    requires id != []
    ensures FirstCheckbox(s, id).Some? ==> forall i :: 0 <= i < FirstCheckbox(s, id).value ==> CheckboxAt(s, id, i).None?
    ensures FirstCheckbox(s, id).None? ==> forall i :: 0 <= i <= |s| ==> CheckboxAt(s, id, i).None?
  {
    FirstIndexLeftmost(CheckboxTest(s, id), 0, |s|);
    forall i | 0 <= i <= |s| ensures CheckboxTest(s, id)(i) == CheckboxAt(s, id, i).Some? { }
  }

  /** The mark of the leftmost checkbox line of `id`, if there is one. */
  function MarkIndex(s: string, id: string): (r: Option<nat>)
    requires id != []
    ensures r.Some? <==> FirstCheckbox(s, id).Some?
    ensures r.Some? ==> r.value == CheckboxAt(s, id, FirstCheckbox(s, id).value).value.0
    ensures r.Some? ==> 0 < r.value && r.value + 1 < |s| && IsMark(s[r.value]) && s[r.value - 1] == '[' && s[r.value + 1] == ']'
  {
    match FirstCheckbox(s, id)
    case None => None
    case Some(p) => CheckboxMark(s, id, p); Some(CheckboxAt(s, id, p).value.0)
  }

  function CheckboxNotFound(id: string): string
  {
    "Plan checkbox for " + id + " not found in ROADMAP.md"
  }

  /**
   * `updatePlanCheckbox` on the text of ROADMAP.md, setting the mark of
   * the line the pattern matched. The error when no checkbox line of the
   * plan exists; otherwise only that line's mark character changes.
   */
  function UpdatePlanCheckbox(content: string, phase: nat, plan: nat, checked: bool): (r: Result<string>)
    ensures r.Err? <==> forall i :: 0 <= i <= |content| ==> CheckboxAt(content, PlanId(phase, plan), i).None?
    ensures r.Err? ==> r.error == CheckboxNotFound(PlanId(phase, plan))
    ensures r.Ok? ==>
              MarkIndex(content, PlanId(phase, plan)).Some? &&
              r.value == content[MarkIndex(content, PlanId(phase, plan)).value := Mark(checked)]
  {
    var id := PlanId(phase, plan);
    PlanIdShape(phase, plan);
    FirstCheckboxLeftmost(content, id);
    match MarkIndex(content, id)
    case None => Err(CheckboxNotFound(id))
    case Some(m) => Ok(content[m := Mark(checked)])
  }

  /**
   * `t` is `s` with the mark at `m` set to a mark again: the only
   * difference is one mark character between `[` and `]`.
   */
  predicate MarkSwap(s: string, t: string, m: nat)
  {
    |s| == |t| && 0 < m && m + 1 < |s| && s[m - 1] == '[' && s[m + 1] == ']' &&
    IsMark(s[m]) && IsMark(t[m]) && forall j :: 0 <= j < |s| && j != m ==> s[j] == t[j]
  }

  lemma {:induction false} WsRun(s: string, x: nat)
    requires x <= |s|
    ensures forall j :: x <= j < WsEnd(s, x) ==> IsWs(s[j])
    decreases |s| - x
  {
    if x < |s| && IsWs(s[x]) {
      WsRun(s, x + 1);
    }
  }

  /** Two texts that agree on a blank run and the character ending it agree on where it ends. */
  lemma {:induction false} WsEndSame(s: string, t: string, x: nat)
    requires |s| == |t| && x <= |s|
    requires forall j :: x <= j <= WsEnd(s, x) && j < |s| ==> s[j] == t[j]
    ensures WsEnd(t, x) == WsEnd(s, x)
    decreases |s| - x
  {
    if x < |s| && IsWs(s[x]) {
      WsEndSame(s, t, x + 1);
    }
  }

  lemma {:induction false} LineEndSame(s: string, t: string, x: nat)
    requires |s| == |t| && x <= |s|
    requires forall j :: x <= j < |s| ==> IsLineTerminator(s[j]) == IsLineTerminator(t[j])
    ensures LineEnd(t, x) == LineEnd(s, x)
    decreases |s| - x
  {
    if x < |s| && !IsLineTerminator(s[x]) {
      LineEndSame(s, t, x + 1);
    }
  }

  lemma SliceSame(s: string, t: string, a: nat, b: nat)
    requires a <= b <= |s| == |t|
    requires forall j :: a <= j < b ==> s[j] == t[j]
    ensures s[a..b] == t[a..b]
  {
  }

  /**
   * Swapping one mark for another changes no checkbox match: a match
   * never reads that character as anything but its own mark, because a
   * mark has `[` before it and `]` after it.
   */
  lemma {:induction false} CheckboxSwap(s: string, t: string, m0: nat, id: string, i: nat)
    requires MarkSwap(s, t, m0) && IdShape(id)
    requires CheckboxAt(s, id, i).Some?
    ensures CheckboxAt(t, id, i) == CheckboxAt(s, id, i)
  {
    assert LineStart(t, i) by {
      if i > 0 {
        assert i - 1 != m0;
      }
    }
    var w := WsEnd(s, i);
    WsRun(s, i);
    assert s[w] == '-' by { assert s[w..w + 3][0] == s[w]; }
    assert !(i <= m0 <= w);
    WsEndSame(s, t, i);
    BoxSwap(s, t, m0, id, w);
  }

  lemma {:induction false} BoxSwap(s: string, t: string, m0: nat, id: string, w: nat)
    requires MarkSwap(s, t, m0) && IdShape(id) && w <= |s|
    requires BoxAt(s, id, w).Some? && m0 != w
    ensures BoxAt(t, id, w) == BoxAt(s, id, w)
  {
    assert m0 != w + 1 && m0 != w + 2 && m0 != w + 4;
    IdSwap(s, t, m0, id, w + 3);
  }

  lemma {:induction false} IdSwap(s: string, t: string, m0: nat, id: string, m: nat)
    requires MarkSwap(s, t, m0) && IdShape(id) && m + 1 < |s| && s[m + 1] == ']'
    requires IdAt(s, id, m).Some? && m0 != m + 1
    ensures IdAt(t, id, m) == IdAt(s, id, m)
  {
    IdEndSwap(s, t, m0, id, m);
    LineEndSwap(s, t, m0, IdEnd(s, id, m).value);
  }

  lemma {:induction false} IdEndSwap(s: string, t: string, m0: nat, id: string, m: nat)
    requires MarkSwap(s, t, m0) && IdShape(id) && m + 1 < |s| && s[m + 1] == ']'
    requires IdEnd(s, id, m).Some? && m0 != m + 1
    ensures IdEnd(t, id, m) == IdEnd(s, id, m)
  {
    var k := WsEnd(s, m + 2);
    var j := k + |id|;
    IdAvoidsMark(s, t, m0, id, m);
    assert forall q :: m + 2 <= q <= j && q < |s| ==> s[q] == t[q];
    WsEndSame(s, t, m + 2);
    assert WsEnd(t, m + 2) == k;
    SliceSame(s, t, k, j);
    assert OccursAt(t, id, k);
  }

  /** A mark swap changes no line end. */
  lemma LineEndSwap(s: string, t: string, m0: nat, x: nat)
    requires MarkSwap(s, t, m0) && x <= |s|
    ensures LineEnd(t, x) == LineEnd(s, x)
  {
    LineEndSame(s, t, x);
  }

  /** The characters the id part of a match reads are none of them the mark at `m0`. */
  lemma {:induction false} IdAvoidsMark(s: string, t: string, m0: nat, id: string, m: nat)
    requires MarkSwap(s, t, m0) && IdShape(id) && m + 1 < |s|
    requires IdEnd(s, id, m).Some? && m0 != m + 1
    ensures !(m + 2 <= m0 <= WsEnd(s, m + 2) + |id|)
  {
    var k := WsEnd(s, m + 2);
    WsRun(s, m + 2);
    var j := k + |id|;
    IdRunChars(s, id, k);
    assert forall q :: m + 2 <= q < j ==> s[q] != '[' && s[q] != ']';
  }

  /** The text an id occurrence covers holds only id characters. */
  lemma IdRunChars(s: string, id: string, k: nat)
    requires IdShape(id) && OccursAt(s, id, k)
    ensures forall q :: k <= q < k + |id| ==> IsIdChar(s[q])
  {
    forall q | k <= q < k + |id| ensures IsIdChar(s[q]) {
      assert s[q] == s[k..k + |id|][q - k];
    }
  }

  lemma MarkSwapSymmetric(s: string, t: string, m: nat)
    requires MarkSwap(s, t, m)
    ensures MarkSwap(t, s, m)
  {
  }

  /** The leftmost checkbox match, and so its mark, is the same after a mark swap. */
  lemma {:induction false} MarkIndexSwap(s: string, t: string, m0: nat, id: string)
    requires MarkSwap(s, t, m0) && IdShape(id)
    ensures MarkIndex(t, id) == MarkIndex(s, id)
  {
    FirstCheckboxSwap(s, t, m0, id);
    if FirstCheckbox(s, id).Some? {
      CheckboxSwap(s, t, m0, id, FirstCheckbox(s, id).value);
    }
  }

  /** The leftmost checkbox match starts at the same place after a mark swap. */
  lemma FirstCheckboxSwap(s: string, t: string, m0: nat, id: string)
    requires MarkSwap(s, t, m0) && IdShape(id)
    ensures FirstCheckbox(t, id) == FirstCheckbox(s, id)
  {
    MarkSwapSymmetric(s, t, m0);
    forall i | 0 <= i <= |s| ensures CheckboxTest(t, id)(i) == CheckboxTest(s, id)(i) {
      if CheckboxAt(s, id, i).Some? {
        CheckboxSwap(s, t, m0, id, i);
      } else if CheckboxAt(t, id, i).Some? {
        CheckboxSwap(t, s, m0, id, i);
      }
    }
    FirstIndexSame(CheckboxTest(t, id), CheckboxTest(s, id), 0, |s|);
  }

  /** Setting a checkbox twice to the same state is the same as setting it once. */
  lemma CheckboxIdempotent(content: string, phase: nat, plan: nat, checked: bool)
    requires UpdatePlanCheckbox(content, phase, plan, checked).Ok?
    ensures UpdatePlanCheckbox(UpdatePlanCheckbox(content, phase, plan, checked).value, phase, plan, checked)
         == UpdatePlanCheckbox(content, phase, plan, checked)
  {
    var id := PlanId(phase, plan);
    PlanIdShape(phase, plan);
    var m := MarkIndex(content, id).value;
    var t := content[m := Mark(checked)];
    assert MarkSwap(content, t, m);
    MarkIndexSwap(content, t, m, id);
    SetAgain(t, m, Mark(checked));
  }

  /** Clearing a checkbox that was set, or the other way round, gives the original text back. */
  lemma CheckboxUndo(content: string, phase: nat, plan: nat, checked: bool)
    requires UpdatePlanCheckbox(content, phase, plan, checked).Ok?
    requires content[MarkIndex(content, PlanId(phase, plan)).value] == Mark(!checked)
    ensures UpdatePlanCheckbox(UpdatePlanCheckbox(content, phase, plan, checked).value, phase, plan, !checked)
         == Ok(content)
  {
    var id := PlanId(phase, plan);
    PlanIdShape(phase, plan);
    var m := MarkIndex(content, id).value;
    var t := content[m := Mark(checked)];
    assert MarkSwap(content, t, m);
    MarkIndexSwap(content, t, m, id);
    assert t[m := Mark(!checked)] == content;
  }

  lemma SetAgain(t: string, m: nat, c: char)
    requires m < |t| && t[m] == c
    ensures t[m := c] == t
  {
  }

  // ---------------------------------------------------------------------
  // the checkbox writer as written
  // ---------------------------------------------------------------------

  function OccursTest(s: string, t: string): nat -> bool
  {
    (i: nat) => OccursAt(s, t, i)
  }

  /** `s.indexOf(t)`: where the first occurrence of `t` starts. */
  function IndexOf(s: string, t: string): (r: Option<nat>)
    ensures r.Some? ==> OccursAt(s, t, r.value)
  {
    FirstIndex(OccursTest(s, t), 0, |s|)
  }

  /** `s.replace(t, u)` with a string pattern: the first occurrence of `t` becomes `u`. */
  function ReplaceText(s: string, t: string, u: string): string
  {
    match IndexOf(s, t)
    case None => s
    case Some(q) => s[..q] + u + s[q + |t|..]
  }

  /**
   * `updatePlanCheckbox` as written: `content.replace(match[0], ...)`
   * replaces the first place where the text of the matched line occurs,
   * which is not always the line the pattern matched.
   */
  function UpdatePlanCheckboxAsWritten(content: string, phase: nat, plan: nat, checked: bool): (r: Result<string>)
    ensures r.Err? <==> UpdatePlanCheckbox(content, phase, plan, checked).Err?
  {
    PlanIdShape(phase, plan);
    SetMarkAsWritten(content, PlanId(phase, plan), checked)
  }

  function SetMarkAsWritten(content: string, id: string, checked: bool): (r: Result<string>)
    requires id != []
    ensures r.Err? <==> FirstCheckbox(content, id).None?
  {
    match FirstCheckbox(content, id)
    case None => Err(CheckboxNotFound(id))
    case Some(p) =>
      var (m, e) := CheckboxAt(content, id, p).value;
      Ok(EditFirstCopy(content, p, m, e, Mark(checked)))
  }

  /** `content.replace(line, edited)` for the line `content[p..e]` with its mark at `m` set to `c`. */
  function EditFirstCopy(content: string, p: nat, m: nat, e: nat, c: char): string
    requires p <= m < e <= |content|
  {
    var line := content[p..e];
    ReplaceText(content, line, line[m - p := c])
  }

  /** When the matched line does not also occur earlier, the two writers agree. */
  lemma {:induction false} AsWrittenAgrees(content: string, phase: nat, plan: nat, checked: bool)
    requires FirstCheckbox(content, PlanId(phase, plan)).Some?
    requires var id := PlanId(phase, plan);
      var p := FirstCheckbox(content, id).value;
      forall i :: 0 <= i < p ==> !OccursAt(content, content[p..CheckboxAt(content, id, p).value.1], i)
    ensures UpdatePlanCheckboxAsWritten(content, phase, plan, checked) == UpdatePlanCheckbox(content, phase, plan, checked)
  {
    var id := PlanId(phase, plan);
    PlanIdShape(phase, plan);
    SetMarkAgrees(content, id, checked);
  }

  lemma {:induction false} SetMarkAgrees(content: string, id: string, checked: bool)
    requires id != [] && FirstCheckbox(content, id).Some?
    requires var p := FirstCheckbox(content, id).value;
      forall i :: 0 <= i < p ==> !OccursAt(content, content[p..CheckboxAt(content, id, p).value.1], i)
    ensures SetMarkAsWritten(content, id, checked) == Ok(content[MarkIndex(content, id).value := Mark(checked)])
  {
    var p := FirstCheckbox(content, id).value;
    var (m, e) := CheckboxAt(content, id, p).value;
    var line := content[p..e];
    assert OccursTest(content, line)(p);
    FirstIndexAt(OccursTest(content, line), 0, |content|, p);
    assert IndexOf(content, line) == Some(p);
    EditCopyAt(content, p, m, e, p, Mark(checked));
    SpliceIsUpdate(content, p, m, e, Mark(checked));
  }

  lemma SpliceIsUpdate(s: string, p: nat, m: nat, e: nat, c: char)
    requires p <= m < e <= |s|
    ensures s[..p] + s[p..e][m - p := c] + s[e..] == s[m := c]
  {
    var r := s[..p] + s[p..e][m - p := c] + s[e..];
    assert |r| == |s|;
    forall i | 0 <= i < |s| ensures r[i] == s[m := c][i] {
      if i < p {
      } else if i < e {
        assert r[i] == s[p..e][m - p := c][i - p];
      } else {
        assert r[i] == s[e..][i - e];
      }
    }
  }

  // Text placed before a line does not change how the line matches.

  lemma {:induction false} WsEndShift(s: string, n: nat, q: nat)
    requires n + q <= |s|
    ensures WsEnd(s, n + q) == n + WsEnd(s[n..], q)
    decreases |s| - n - q
  {
    if n + q < |s| {
      assert s[n..][q] == s[n + q];
      if IsWs(s[n + q]) {
        WsEndShift(s, n, q + 1);
      }
    }
  }

  lemma {:induction false} LineEndShift(s: string, n: nat, q: nat)
    requires n + q <= |s|
    ensures LineEnd(s, n + q) == n + LineEnd(s[n..], q)
    decreases |s| - n - q
  {
    if n + q < |s| {
      assert s[n..][q] == s[n + q];
      if !IsLineTerminator(s[n + q]) {
        LineEndShift(s, n, q + 1);
      }
    }
  }

  lemma OccursShift(s: string, n: nat, w: string, q: nat)
    requires n + q <= |s|
    ensures OccursAt(s, w, n + q) == OccursAt(s[n..], w, q)
  {
    if n + q + |w| <= |s| {
      assert s[n + q..n + q + |w|] == s[n..][q..q + |w|];
    }
  }

  /** A checkbox line with no leading blanks matches the same way after any text that ends a line. */
  lemma {:induction false} CheckboxShift(s: string, n: nat, id: string)
    requires id != [] && n < |s| && LineStart(s, n) && s[n] == '-'
    requires CheckboxAt(s[n..], id, 0).Some?
    ensures CheckboxAt(s, id, n) ==
      Some((n + CheckboxAt(s[n..], id, 0).value.0, n + CheckboxAt(s[n..], id, 0).value.1))
  {
    var t := s[n..];
    assert t[0] == '-';
    assert WsEnd(t, 0) == 0 && WsEnd(s, n) == n;
    CheckboxIsBox(t, id, 0);
    CheckboxIsBox(s, id, n);
    BoxShift(s, n, id);
  }

  /** At a line start, the checkbox pattern is the box pattern after the blanks. */
  lemma CheckboxIsBox(s: string, id: string, p: nat)
    requires id != [] && p <= |s| && LineStart(s, p)
    ensures CheckboxAt(s, id, p) == BoxAt(s, id, WsEnd(s, p))
  {
  }

  lemma {:induction false} BoxShift(s: string, n: nat, id: string)
    requires id != [] && n <= |s| && BoxAt(s[n..], id, 0).Some?
    ensures BoxAt(s, id, n) == Some((n + 3, n + BoxAt(s[n..], id, 0).value.1))
  {
    var t := s[n..];
    assert BoxOpenAt(s, n) by {
      assert t[0] == s[n] && t[1] == s[n + 1] && t[2] == s[n + 2];
    }
    assert t[3] == s[n + 3] && t[4] == s[n + 4];
    IdShift(s, n, id, 3);
  }

  lemma {:induction false} IdShift(s: string, n: nat, id: string, m: nat)
    requires id != [] && n + m + 1 < |s| && IdAt(s[n..], id, m).Some?
    ensures IdAt(s, id, n + m) == Some((n + m, n + IdAt(s[n..], id, m).value.1))
  {
    var j := IdEnd(s[n..], id, m).value;
    IdEndShift(s, n, id, m);
    LineEndShift(s, n, j);
  }

  lemma {:induction false} IdEndShift(s: string, n: nat, id: string, m: nat)
    requires id != [] && n + m + 1 < |s| && IdEnd(s[n..], id, m).Some?
    ensures IdEnd(s, id, n + m) == Some(n + IdEnd(s[n..], id, m).value)
  {
    var t := s[n..];
    var k := WsEnd(t, m + 2);
    var j := k + |id|;
    WsEndShift(s, n, m + 2);
    OccursShift(s, n, id, k);
    assert n + j < |s| ==> s[n + j] == t[j];
  }

  /**
   * A checkbox line of the plan, quoted once in a blockquote above
   * itself: the writer as written sets the mark of the quoted copy and
   * leaves the real checkbox as it was, while the corrected writer sets
   * the real one.
   */
  lemma {:induction false} QuotedCheckbox(t: string, phase: nat, plan: nat, checked: bool)
    requires CheckboxAt(t, PlanId(phase, plan), 0).Some? && t[0] == '-'
    requires forall i :: 0 <= i < |t| ==> !IsLineTerminator(t[i])
    ensures UpdatePlanCheckboxAsWritten("> " + t + "\n" + t, phase, plan, checked)
         == Ok("> " + t[3 := Mark(checked)] + "\n" + t)
    ensures UpdatePlanCheckbox("> " + t + "\n" + t, phase, plan, checked)
         == Ok("> " + t + "\n" + t[3 := Mark(checked)])
  {
    var id := PlanId(phase, plan);
    PlanIdShape(phase, plan);
    QuotedMatch(t, id);
    QuotedAsWritten(t, id, checked);
    QuotedCorrected(t, id, checked);
  }

  lemma {:induction false} QuotedAsWritten(t: string, id: string, checked: bool)
    requires IdShape(id) && CheckboxAt(t, id, 0).Some? && t[0] == '-'
    requires var x := "> " + t + "\n";
      FirstCheckbox(x + t, id) == Some(|x|) && CheckboxAt(x + t, id, |x|) == Some((|x| + 3, |x| + |t|))
    ensures SetMarkAsWritten("> " + t + "\n" + t, id, checked) == Ok("> " + t[3 := Mark(checked)] + "\n" + t)
  {
    var s := "> " + t + "\n" + t;
    QuotedParts(t);
    assert CheckboxAt(t, id, 0).value.0 == 3;
    QuotedFirstCopy(s, t, id, checked);
    assert s[..2] == "> " && s[|t| + 2..|t| + 3] == "\n";
  }

  lemma {:induction false} QuotedCorrected(t: string, id: string, checked: bool)
    requires IdShape(id) && CheckboxAt(t, id, 0).Some?
    requires var x := "> " + t + "\n"; MarkIndex(x + t, id) == Some(|x| + 3)
    ensures var s := "> " + t + "\n" + t;
      MarkIndex(s, id).Some? && s[MarkIndex(s, id).value := Mark(checked)] == "> " + t + "\n" + t[3 := Mark(checked)]
  {
    var x := "> " + t + "\n";
    var s := x + t;
    assert CheckboxAt(t, id, 0).value.0 < |t|;
    assert s[|x| + 3 := Mark(checked)] == x + t[3 := Mark(checked)];
  }

  /** The leftmost match in the quoted text is the real line, with its mark at offset 3. */
  lemma {:induction false} QuotedMatch(t: string, id: string)
    requires IdShape(id) && CheckboxAt(t, id, 0).Some? && t[0] == '-'
    requires forall i :: 0 <= i < |t| ==> !IsLineTerminator(t[i])
    ensures var x := "> " + t + "\n";
      FirstCheckbox(x + t, id) == Some(|x|) && CheckboxAt(x + t, id, |x|) == Some((|x| + 3, |x| + |t|)) &&
      MarkIndex(x + t, id) == Some(|x| + 3)
  {
    var x := "> " + t + "\n";
    var s := x + t;
    assert WsEnd(t, 0) == 0;
    assert CheckboxAt(t, id, 0).value == (3, |t|);
    assert LineStart(s, |x|) by { assert s[|x| - 1] == '\n'; }
    assert s[|x|..] == t;
    CheckboxShift(s, |x|, id);
    forall i | 0 <= i < |x| ensures !CheckboxTest(s, id)(i) {
      if i == 0 {
        assert s[0] == '>';
        assert WsEnd(s, 0) == 0;
        assert !BoxOpenAt(s, 0);
      } else {
        assert !IsLineTerminator(s[i - 1]) by {
          if i - 1 >= 2 { assert s[i - 1] == t[i - 3]; }
        }
      }
    }
    assert CheckboxTest(s, id)(|x|);
    FirstIndexAt(CheckboxTest(s, id), 0, |s|, |x|);
  }

  /** In the quoted text, the first copy of the real line is the quoted one. */
  /** `s` is `t` quoted once in a blockquote above itself: `> t`, a newline, `t`. */
  predicate Quoted(s: string, t: string)
  {
    |s| == 2 * |t| + 3 && s[..2] == "> " && s[2..|t| + 2] == t && s[|t| + 2] == '\n' && s[|t| + 3..] == t
  }

  lemma QuotedParts(t: string)
    ensures Quoted("> " + t + "\n" + t, t)
  {
    var s := "> " + t + "\n" + t;
    assert s[..2] == "> ";
    assert s[2..|t| + 2] == t;
    assert s[|t| + 3..] == t;
  }

  lemma {:induction false} QuotedFirstCopy(s: string, t: string, id: string, checked: bool)
    requires id != [] && 3 < |t| && t[0] == '-' && Quoted(s, t)
    requires FirstCheckbox(s, id) == Some(|t| + 3) && CheckboxAt(s, id, |t| + 3) == Some((|t| + 6, |s|))
    ensures SetMarkAsWritten(s, id, checked) == Ok(s[..2] + t[3 := Mark(checked)] + s[|t| + 2..|t| + 3] + t)
  {
    var u := t[3 := Mark(checked)];
    QuotedCopyAt(s, t);
    assert s[|t| + 3..|s|] == t;
    SetMarkAsWrittenIs(s, id, checked);
    EditCopyAt(s, |t| + 3, |t| + 6, |s|, 2, Mark(checked));
    assert s[|t| + 3..|s|][3 := Mark(checked)] == u;
    var a, nl := s[..2], s[|t| + 2..|t| + 3];
    assert s[2 + |t|..] == nl + t;
    var r := EditFirstCopy(s, |t| + 3, |t| + 6, |s|, Mark(checked));
    assert SetMarkAsWritten(s, id, checked) == Ok(r);
    assert r == a + u + (nl + t);
    ConcatAssoc(a + u, nl, t);
  }

  /** The first copy of `t` in the quoted text is the quoted one, after `> `. */
  lemma {:induction false} QuotedCopyAt(s: string, t: string)
    requires t != [] && t[0] == '-' && Quoted(s, t)
    ensures IndexOf(s, t) == Some(2)
  {
    assert s[0] == '>' && s[1] == ' ' by { assert s[..2][0] == s[0] && s[..2][1] == s[1]; }
    assert OccursTest(s, t)(2);
    forall i | 0 <= i < 2 ensures !OccursTest(s, t)(i) {
      if i + |t| <= |s| { assert s[i..i + |t|][0] == s[i]; }
    }
    FirstIndexAt(OccursTest(s, t), 0, |s|, 2);
  }

  lemma SetMarkAsWrittenIs(content: string, id: string, checked: bool)
    requires id != [] && FirstCheckbox(content, id).Some?
    ensures var b := CheckboxAt(content, id, FirstCheckbox(content, id).value).value;
      SetMarkAsWritten(content, id, checked) ==
      Ok(EditFirstCopy(content, FirstCheckbox(content, id).value, b.0, b.1, Mark(checked)))
  {
  }

  lemma EditCopyAt(s: string, p: nat, m: nat, e: nat, q: nat, c: char)
    requires p <= m < e <= |s|
    requires IndexOf(s, s[p..e]) == Some(q)
    ensures q + (e - p) <= |s|
    ensures EditFirstCopy(s, p, m, e, c) == s[..q] + s[p..e][m - p := c] + s[q + (e - p)..]
  {
  }

  /** The shortest checkbox line of plan 01-02. */
  const PlanLine0102: string := "- [ ] 01-02"

  /** An example: `- [ ] 01-02` is a checkbox line of phase 1, plan 2, so the quoted text above applies to it. */
  lemma PlanLine0102Matches()
    ensures PlanId(1, 2) == "01-02"
    ensures CheckboxAt(PlanLine0102, PlanId(1, 2), 0) == Some((3, 11))
  {
    assert Pad2(1) == "01" && Pad2(2) == "02";
    var t := PlanLine0102;
    assert WsEnd(t, 0) == 0 && BoxOpenAt(t, 0);
    assert WsEnd(t, 5) == 6 && t[6..11] == "01-02";
    assert LineEnd(t, 11) == 11;
  }
}

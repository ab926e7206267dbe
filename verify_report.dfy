/**
 * The testable deliveries of `src/verify-work.js` (`extractTestableDeliveries`):
 * the three SUMMARY.md section captures, as written and as intended, the
 * line shapes read inside them, and a whole-SUMMARY.md round trip.
 */
module VerifyReport {
  import opened Wrappers
  import opened Text
  import VerifyWork
  import PlanFrontmatter

  // =====================================================================
  // SUMMARY.md sections: `## H\s*\n([\s\S]*?)(?=\n## |\n---|$)`
  // =====================================================================

  /** The last `\n` in `s[a..b]`: where a greedy `\s*\n` over that run stops. */
  function LastNewline(s: string, a: nat, b: nat): (r: Option<nat>)
    requires a <= b <= |s|
    ensures r.Some? ==> a <= r.value < b && s[r.value] == '\n'
    decreases b - a
  {
    if a == b then None
    else if s[b - 1] == '\n' then Some(b - 1)
    else LastNewline(s, a, b - 1)
  }

  /** `h\s*\n` matches at `p`: the heading, then blanks holding a newline. */
  predicate HeadAt(s: string, h: string, p: nat)
  {
    OccursAt(s, h, p) && LastNewline(s, p + |h|, WsEnd(s, p + |h|)).Some?
  }

  function HeadTest(s: string, h: string): nat -> bool
  {
    (p: nat) => HeadAt(s, h, p)
  }

  /** The lookahead `(?=\n## |\n---|$)`, where `$` is the end of the text. */
  predicate StopAt(s: string, e: nat)
  {
    e == |s| || OccursAt(s, "\n## ", e) || OccursAt(s, "\n---", e)
  }

  function StopTest(s: string): nat -> bool
  {
    (e: nat) => StopAt(s, e)
  }

  /** Where the capture starts: just after the last newline of the blank run after the heading. */
  function BodyStart(s: string, h: string, p: nat): (b: nat)
    requires HeadAt(s, h, p)
    ensures p + |h| < b <= |s|
  {
    LastNewline(s, p + |h|, WsEnd(s, p + |h|)).value + 1
  }

  /** Where the lazy capture ends: the first stop at or after `b`. */
  function BodyEnd(s: string, b: nat): (e: nat)
    requires b <= |s|
    ensures b <= e <= |s| && StopAt(s, e)
    decreases |s| - b
  {
    if StopAt(s, b) then b else BodyEnd(s, b + 1)
  }

  /** The search for the heading: the leftmost position where the match succeeds. */
  function HeadIndex(s: string, h: string): (r: Option<nat>)
    ensures r.Some? ==> HeadAt(s, h, r.value)
  {
    FirstIndex(HeadTest(s, h), 0, |s|)
  }

  /** The capture of the section regular expression, as written. */
  function SectionAsWritten(s: string, h: string): Option<string>
  {
    match HeadIndex(s, h)
    case None => None
    case Some(p) =>
      var b := BodyStart(s, h, p);
      Some(s[b..BodyEnd(s, b)])
  }

  /**
   * The capture as intended: a section whose first line is already the
   * next `## ` heading or a `---` rule is empty.
   */
  function Section(s: string, h: string): Option<string>
  {
    match HeadIndex(s, h)
    case None => None
    case Some(p) => Some(CaptureAt(s, BodyStart(s, h, p)))
  }

  function CaptureAt(s: string, b: nat): string
    requires b <= |s|
  {
    if OccursAt(s, "## ", b) || OccursAt(s, "---", b) then "" else s[b..BodyEnd(s, b)]
  }

  /** No line of `t` begins with `## ` or `---`. */
  predicate NoHeadingLine(t: string)
  {
    !StartsWith(t, "## ") && !StartsWith(t, "---") && NoStopInside(t)
  }

  /** No newline of `t` is followed by `## ` or `---`. */
  predicate NoStopInside(t: string)
  {
    forall j :: 0 <= j < |t| ==> !OccursAt(t, "\n## ", j) && !OccursAt(t, "\n---", j)
  }

  /** The lazy capture stops at its first stop. */
  lemma {:induction false} BodyEndFirst(s: string, b: nat)
    requires b <= |s|
    decreases |s| - b
    ensures forall j :: b <= j < BodyEnd(s, b) ==> !StopAt(s, j)
  {
    if !StopAt(s, b) {
      BodyEndFirst(s, b + 1);
    }
  }

  /** The capture has no stop inside it. */
  lemma CaptureHasNoStop(s: string, b: nat)
    requires b <= |s|
    ensures NoStopInside(s[b..BodyEnd(s, b)])
  {
    var t := s[b..BodyEnd(s, b)];
    BodyEndFirst(s, b);
    forall j | 0 <= j < |t| ensures !OccursAt(t, "\n## ", j) && !OccursAt(t, "\n---", j) {
      assert !StopAt(s, b + j);
      assert j + 4 <= |t| ==> t[j..j + 4] == s[b + j..b + j + 4];
    }
  }

  lemma CaptureClean(s: string, b: nat)
    requires b <= |s|
    ensures NoHeadingLine(CaptureAt(s, b))
  {
    if !(OccursAt(s, "## ", b) || OccursAt(s, "---", b)) {
      var t := s[b..BodyEnd(s, b)];
      assert t == CaptureAt(s, b);
      assert |t| >= 3 ==> t[..3] == s[b..b + 3];
      assert !StartsWith(t, "## ") && !StartsWith(t, "---");
      CaptureHasNoStop(s, b);
    } else {
      assert CaptureAt(s, b) == "";
    }
  }

  /** A corrected capture holds no line that begins with `## ` or `---`. */
  lemma SectionHasNoHeading(s: string, h: string)
    requires Section(s, h).Some?
    ensures NoHeadingLine(Section(s, h).value)
  {
    CaptureClean(s, BodyStart(s, h, HeadIndex(s, h).value));
  }

  /** A character other than a newline is no stop. */
  lemma NotStopAt(s: string, e: nat)
    requires e < |s| && s[e] != '\n'
    ensures !StopAt(s, e)
  {
    assert e + 4 <= |s| ==> s[e..e + 4][0] == s[e];
  }

  /** A heading at the very start, then one newline and a non-blank: the capture starts after it. */
  lemma HeadAtStart(s: string, h: string)
    requires |h| + 1 < |s| && s[..|h|] == h && s[|h|] == '\n' && !IsWs(s[|h| + 1])
    ensures HeadIndex(s, h) == Some(0) && BodyStart(s, h, 0) == |h| + 1
  {
    var n := |h|;
    WsEndAt(s, n, n + 1);
    assert LastNewline(s, n, n + 1) == Some(n);
    assert HeadTest(s, h)(0);
  }

  /**
   * As written, an empty section directly followed by another `## `
   * heading captures that heading and everything after it.
   */
  lemma SectionAsWrittenLeaks(h: string, rest: string)
    requires h != []
    ensures var s := h + "\n## " + rest;
      SectionAsWritten(s, h).Some? && StartsWith(SectionAsWritten(s, h).value, "## ")
      && Section(s, h) == Some("")
  {
    var s := h + "\n## " + rest;
    var n := |h|;
    assert s[..n] == h;
    assert s[n..n + 4] == "\n## ";
    HeadAtStart(s, h);
    var b := n + 1;
    assert s[b..b + 3] == "## ";
    NotStopAt(s, b);
    NotStopAt(s, b + 1);
    NotStopAt(s, b + 2);
    BodyEndFirst(s, b);
  }

  // =====================================================================
  // the lines of a section
  // =====================================================================

  /** Some character at or after `a` is not a line terminator. */
  predicate NonTerminatorFrom(s: string, a: nat)
  {
    exists k :: a <= k < |s| && !IsLineTerminator(s[k])
  }

  /**
   * `\s{min,}(.+)` from `p`, the capture trimmed. The capture runs to the
   * line end; when only blanks are left the `\s` run gives characters back,
   * and the trimmed capture is `""`.
   */
  function RestCapture(s: string, p: nat, min: nat): Option<string>
    requires p <= |s|
  {
    var w := WsEnd(s, p);
    if w - p < min then None
    else if w < |s| then Some(Trim(s[w..LineEnd(s, w)]))
    else if NonTerminatorFrom(s, p + min) then Some("")
    else None
  }

  /** Position of the first `c` at or after `p` (or the end). */
  function CharEnd(s: string, p: nat, c: char): (q: nat)
    requires p <= |s|
    ensures p <= q <= |s|
    ensures q == |s| || s[q] == c
    decreases |s| - p
  {
    if p < |s| && s[p] != c then CharEnd(s, p + 1, c) else p
  }

  /** The lazy `(.+?)\*\*` from `k` on: the first `**`, with no line terminator crossed. */
  function StarsAt(s: string, k: nat): (r: Option<nat>)
    requires k <= |s|
    ensures r.Some? ==> k <= r.value && r.value + 2 <= |s|
    decreases |s| - k
  {
    if k + 2 <= |s| && s[k] == '*' && s[k + 1] == '*' then Some(k)
    else if k < |s| && !IsLineTerminator(s[k]) then StarsAt(s, k + 1)
    else None
  }

  /** `/^\s*-\s+(.+)/`: the trimmed text of a bullet. */
  function Bullet(line: string): Option<string>
  {
    var d := WsEnd(line, 0);
    if d < |line| && line[d] == '-' then RestCapture(line, d + 1, 1) else None
  }

  /** `^\d+\.\s+\*\*(.+?)\*\*`: the trimmed bold name of a numbered task. */
  function TaskName(line: string): Option<string>
  {
    var d := DigitsEnd(line, 0);
    if d == 0 || d == |line| || line[d] != '.' then None
    else
      var q := WsEnd(line, d + 1);
      if q == d + 1 || q + 3 > |line| || line[q] != '*' || line[q + 1] != '*' || IsLineTerminator(line[q + 2]) then None
      else
        match StarsAt(line, q + 3)
        case None => None
        case Some(e) => Some(Trim(line[q + 2..e]))
  }

  /** `/^\s*-\s+`([^`]+)`\s*-\s*(.+)/`: the trimmed path and purpose of a file bullet. */
  function FileItem(line: string): Option<(string, string)>
  {
    var d := WsEnd(line, 0);
    if d == |line| || line[d] != '-' then None
    else
      var q := WsEnd(line, d + 1);
      if q == d + 1 || q == |line| || line[q] != '`' then None
      else
        var b := CharEnd(line, q + 1, '`');
        if b == q + 1 || b == |line| then None
        else
          var r := WsEnd(line, b + 1);
          if r == |line| || line[r] != '-' then None
          else
            match RestCapture(line, r + 1, 0)
            case None => None
            case Some(purpose) => Some((Trim(line[q + 1..b]), purpose))
  }

  // =====================================================================
  // testable deliveries
  // =====================================================================

  datatype Kind = Accomplishment | Task | File

  datatype Delivery = Delivery(name: string, kind: Kind, detail: string)

  /** The heading of the SUMMARY.md section each kind is read from. */
  function Heading(k: Kind): string
  {
    match k
    case Accomplishment => "## Accomplishments"
    case Task => "## Task Commits"
    case File => "## Files Created/Modified"
  }

  /** The delivery one line of a section gives, if any. */
  function ItemOf(k: Kind, line: string): Option<Delivery>
  {
    match k
    case Accomplishment =>
      (match Bullet(line) case None => None case Some(x) => Some(Delivery(x, Accomplishment, x)))
    case Task =>
      (match TaskName(line) case None => None case Some(x) => Some(Delivery(x, Task, Trim(line))))
    case File =>
      (match FileItem(line) case None => None case Some(f) => Some(Delivery(f.0, File, f.1)))
  }

  function Opt<T>(o: Option<T>): seq<T>
  {
    if o.Some? then [o.value] else []
  }

  /** The deliveries of a run of lines, in line order. */
  function ItemsOf(k: Kind, lines: seq<string>): seq<Delivery>
  {
    Collect(ItemFn(k), lines)
  }

  function ItemFn(k: Kind): string -> Option<Delivery>
  {
    (line: string) => ItemOf(k, line)
  }

  /** What `f` finds in each line, in line order. */
  function Collect(f: string -> Option<Delivery>, lines: seq<string>): seq<Delivery>
  {
    if lines == [] then [] else Collect(f, lines[..|lines| - 1]) + Opt(f(lines[|lines| - 1]))
  }

  /** The deliveries of one section; none when the section is missing. */
  function SectionItems(s: string, k: Kind): seq<Delivery>
  {
    match Section(s, Heading(k))
    case None => []
    case Some(t) => ItemsOf(k, Split(t))
  }

  /** The deliveries of one section as the source captures it. */
  function SectionItemsAsWritten(s: string, k: Kind): seq<Delivery>
  {
    match SectionAsWritten(s, Heading(k))
    case None => []
    case Some(t) => ItemsOf(k, Split(t))
  }

  /** `extractTestableDeliveries` as written: accomplishments, then tasks, then files. */
  function DeliveriesAsWritten(s: string): seq<Delivery>
  {
    if s == "" then []
    else SectionItemsAsWritten(s, Accomplishment) + SectionItemsAsWritten(s, Task) + SectionItemsAsWritten(s, File)
  }

  /** `extractTestableDeliveries` on the corrected capture, where an empty section stays empty. */
  function Deliveries(s: string): seq<Delivery>
  {
    if s == "" then []
    else SectionItems(s, Accomplishment) + SectionItems(s, Task) + SectionItems(s, File)
  }

  /** The loop over a section's lines, pushing each delivery found. */
  method CollectItems(ds: seq<Delivery>, k: Kind, lines: seq<string>) returns (r: seq<Delivery>)
    ensures r == ds + ItemsOf(k, lines)
  {
    r := ds;
    var i := 0;
    while i < |lines|
      invariant i <= |lines|
      invariant r == ds + Collect(ItemFn(k), lines[..i])
    {
      assert lines[..i + 1][..i] == lines[..i];
      r := r + Opt(ItemOf(k, lines[i]));
      i := i + 1;
    }
    assert lines[..i] == lines;
  }

  /** `extractTestableDeliveries` as the source runs it: three section searches, each with its line loop. */
  method ExtractTestableDeliveries(s: string) returns (ds: seq<Delivery>)
    ensures ds == DeliveriesAsWritten(s)
  {
    if s == "" {
      return [];
    }
    ds := [];
    var kinds := [Accomplishment, Task, File];
    var i := 0;
    while i < 3
      invariant i <= 3
      invariant ds == if i == 0 then [] else if i == 1 then SectionItemsAsWritten(s, Accomplishment)
        else if i == 2 then SectionItemsAsWritten(s, Accomplishment) + SectionItemsAsWritten(s, Task)
        else DeliveriesAsWritten(s)
    {
      var k := kinds[i];
      match SectionAsWritten(s, Heading(k)) {
        case Some(t) =>
          ds := CollectItems(ds, k, Split(t));
        case None =>
      }
      i := i + 1;
    }
  }

  /** Every delivery a section gives has that section's kind. */
  lemma {:induction false} ItemsOfKind(k: Kind, lines: seq<string>)
    decreases |lines|
    ensures OfKind(Collect(ItemFn(k), lines), k)
  {
    if lines != [] {
      ItemsOfKind(k, lines[..|lines| - 1]);
    }
  }

  function Rank(k: Kind): nat
  {
    match k
    case Accomplishment => 0
    case Task => 1
    case File => 2
  }

  lemma SectionItemsKind(s: string, k: Kind)
    ensures OfKind(SectionItems(s, k), k)
  {
    if Section(s, Heading(k)).Some? {
      ItemsOfKind(k, Split(Section(s, Heading(k)).value));
    }
  }

  predicate OfKind(ds: seq<Delivery>, k: Kind)
  {
    forall j :: 0 <= j < |ds| ==> ds[j].kind == k
  }

  predicate Grouped(ds: seq<Delivery>)
  {
    forall i, j :: 0 <= i < j < |ds| ==> Rank(ds[i].kind) <= Rank(ds[j].kind)
  }

  lemma GroupedConcat(a: seq<Delivery>, t: seq<Delivery>, f: seq<Delivery>)
    requires OfKind(a, Accomplishment) && OfKind(t, Task) && OfKind(f, File)
    ensures Grouped(a + t + f)
  {
    var ds := a + t + f;
    forall j | 0 <= j < |ds| ensures Rank(ds[j].kind) == if j < |a| then 0 else if j < |a| + |t| then 1 else 2 {
      if j < |a| { assert ds[j] == a[j]; }
      else if j < |a| + |t| { assert ds[j] == t[j - |a|]; }
      else { assert ds[j] == f[j - |a| - |t|]; }
    }
  }

  lemma SectionItemsAsWrittenKind(s: string, k: Kind)
    ensures OfKind(SectionItemsAsWritten(s, k), k)
  {
    if SectionAsWritten(s, Heading(k)).Some? {
      ItemsOfKind(k, Split(SectionAsWritten(s, Heading(k)).value));
    }
  }

  /** As the source reads them too, accomplishments come first, then tasks, then files. */
  lemma DeliveriesAsWrittenGrouped(s: string)
    ensures Grouped(DeliveriesAsWritten(s))
  {
    if s != "" {
      SectionItemsAsWrittenKind(s, Accomplishment);
      SectionItemsAsWrittenKind(s, Task);
      SectionItemsAsWrittenKind(s, File);
      GroupedConcat(SectionItemsAsWritten(s, Accomplishment), SectionItemsAsWritten(s, Task),
        SectionItemsAsWritten(s, File));
    }
  }

  /** Where the corrected capture is missing or holds text, the capture as written is the same. */
  lemma CapturesAgree(s: string, h: string)
    requires Section(s, h).None? || Section(s, h).value != ""
    ensures SectionAsWritten(s, h) == Section(s, h)
  {
  }

  /** A section that gives deliveries gives the same ones under both captures. */
  lemma ItemsAgree(s: string, k: Kind)
    requires SectionItems(s, k) != []
    ensures SectionItemsAsWritten(s, k) == SectionItems(s, k)
  {
    if Section(s, Heading(k)) == Some("") {
      assert Split("") == [""];
      NoItemOfEmpty(k);
      assert false;
    }
    CapturesAgree(s, Heading(k));
  }

  /** Accomplishments come first, then tasks, then files. */
  lemma DeliveriesGrouped(s: string)
    ensures Grouped(Deliveries(s))
  {
    if s != "" {
      SectionItemsKind(s, Accomplishment);
      SectionItemsKind(s, Task);
      SectionItemsKind(s, File);
      GroupedConcat(SectionItems(s, Accomplishment), SectionItems(s, Task), SectionItems(s, File));
    }
  }

  // =====================================================================
  // the lines of a SUMMARY.md as written, read back
  // =====================================================================

  lemma {:induction false} CharEndAt(s: string, p: nat, c: char, q: nat)
    requires p <= q < |s| && s[q] == c
    requires forall i :: p <= i < q ==> s[i] != c
    decreases q - p
    ensures CharEnd(s, p, c) == q
  {
    if p < q {
      CharEndAt(s, p + 1, c, q);
    }
  }

  lemma {:induction false} StarsAtAt(s: string, k: nat, e: nat)
    requires k <= e && e + 2 <= |s| && s[e] == '*' && s[e + 1] == '*'
    requires forall i :: k <= i < e ==> s[i] != '*' && !IsLineTerminator(s[i])
    decreases e - k
    ensures StarsAt(s, k) == Some(e)
  {
    if k < e {
      StarsAtAt(s, k + 1, e);
    }
  }

  /** A one-line text with nothing to trim. */
  predicate Plain(x: string)
  {
    x != [] && IsTrimmed(x) && OneLine(x)
  }

  predicate OneLine(x: string)
  {
    forall i :: 0 <= i < |x| ==> !IsLineTerminator(x[i])
  }

  /** The rest of a line from `p` is `x`, which stays on one line: the capture is all of it. */
  lemma RestIsPlain(line: string, p: nat, x: string)
    requires p < |line| && line[p..] == x && Plain(x)
    ensures WsEnd(line, p) == p && LineEnd(line, p) == |line| && Trim(line[p..LineEnd(line, p)]) == x
  {
    assert line[p] == x[0];
    forall i | p <= i < |line| ensures !IsLineTerminator(line[i]) { assert line[i] == x[i - p]; }
    VerifyWork.LineEndAll(line, p);
    TrimOfTrimmed(x);
  }

  /** One blank at `p`, then `x` to the end of the line: `\s{min,}(.+)` captures `x`. */
  lemma RestCaptureOf(line: string, p: nat, x: string, min: nat)
    requires min <= 1 && p + 1 < |line| && line[p] == ' ' && line[p + 1..] == x && Plain(x)
    ensures RestCapture(line, p, min) == Some(x)
  {
    RestIsPlain(line, p + 1, x);
    WsEndAt(line, p, p + 1);
  }

  function BulletLine(x: string): string { "- " + x }

  /** An accomplishment bullet reads back as its text. */
  lemma BulletReads(x: string)
    requires Plain(x)
    ensures Bullet(BulletLine(x)) == Some(x)
  {
    var line := BulletLine(x);
    assert line[2..] == x;
    RestCaptureOf(line, 1, x, 1);
  }

  /** A task line of SUMMARY.md: number, bold name and a tail (the commit). */
  function TaskLine(n: nat, name: string, tail: string): string
  {
    NatToString(n) + ". **" + name + "**" + tail
  }

  /** A task name that reads back: plain, and without `*`. */
  predicate TaskNameText(name: string)
  {
    Plain(name) && '*' !in name
  }

  /** A numbered task line reads back as its bold name. */
  lemma TaskLineReads(n: nat, name: string, tail: string)
    requires TaskNameText(name)
    ensures TaskName(TaskLine(n, name, tail)) == Some(name)
  {
    TaskLineSlices(NatToString(n), name, tail, TaskLine(n, name, tail), |NatToString(n)|);
    TaskNameFrom(TaskLine(n, name, tail), |NatToString(n)|, name);
  }

  lemma TaskLineSlices(digits: string, name: string, tail: string, line: string, d: nat)
    requires line == digits + ". **" + name + "**" + tail && d == |digits|
    ensures d + 6 + |name| <= |line| && line[..d] == digits && line[d..d + 4] == ". **"
    ensures line[d + 4..d + 4 + |name|] == name && line[d + 4 + |name|..d + 6 + |name|] == "**"
  {
  }

  /** A line with digits, `. **`, a name and `**` reads back as that name. */
  lemma TaskNameFrom(line: string, d: nat, name: string)
    requires TaskNameText(name) && 0 < d && d + 6 + |name| <= |line| && AllDigits(line[..d])
    requires line[d..d + 4] == ". **"
    requires line[d + 4..d + 4 + |name|] == name && line[d + 4 + |name|..d + 6 + |name|] == "**"
    ensures TaskName(line) == Some(name)
  {
    TaskLineNumber(line, d);
    TaskLineBold(line, d + 2, name);
  }

  /** After the number, `.` and one blank, the bold part starts. */
  lemma TaskLineNumber(line: string, d: nat)
    requires 0 < d && d + 4 <= |line| && AllDigits(line[..d]) && line[d..d + 4] == ". **"
    ensures DigitsEnd(line, 0) == d && line[d] == '.'
    ensures WsEnd(line, d + 1) == d + 2 && line[d + 2] == '*' && line[d + 3] == '*'
  {
    forall i | 0 <= i < d ensures IsDigit(line[i]) { assert line[i] == line[..d][i]; }
    assert line[d] == line[d..d + 4][0];
    assert line[d + 1] == line[d..d + 4][1];
    assert line[d + 2] == line[d..d + 4][2];
    assert line[d + 3] == line[d..d + 4][3];
    DigitsEndAt(line, 0, d);
    WsEndAt(line, d + 1, d + 2);
  }

  /** From the opening `**` at `q`, the bold name runs to the closing `**`. */
  lemma TaskLineBold(line: string, q: nat, name: string)
    requires TaskNameText(name) && q + 4 + |name| <= |line|
    requires line[q + 2..q + 2 + |name|] == name && line[q + 2 + |name|..q + 4 + |name|] == "**"
    ensures !IsLineTerminator(line[q + 2])
    ensures StarsAt(line, q + 3) == Some(q + 2 + |name|)
    ensures Trim(line[q + 2..q + 2 + |name|]) == name
  {
    var e := q + 2 + |name|;
    assert line[e] == line[e..e + 2][0];
    assert line[e + 1] == line[e..e + 2][1];
    assert line[q + 2] == name[0];
    forall i | q + 3 <= i < e ensures line[i] != '*' && !IsLineTerminator(line[i]) { assert line[i] == name[i - q - 2]; }
    StarsAtAt(line, q + 3, e);
    TrimOfTrimmed(name);
  }

  /** A file line of SUMMARY.md: the path in backquotes, then the purpose. */
  function FileLine(path: string, purpose: string): string
  {
    "- `" + path + "` - " + purpose
  }

  predicate PathText(path: string)
  {
    path != [] && IsTrimmed(path) && '`' !in path
  }

  lemma FileLineShape(path: string, purpose: string)
    requires PathText(path) && Plain(purpose)
    ensures var line := FileLine(path, purpose); var b := 3 + |path|;
      b + 4 < |line| && WsEnd(line, 0) == 0 && line[0] == '-' && WsEnd(line, 1) == 2 && line[2] == '`'
      && CharEnd(line, 3, '`') == b && WsEnd(line, b + 1) == b + 2 && line[b + 2] == '-'
      && line[3..b] == path && line[b + 3] == ' ' && line[b + 4..] == purpose
  {
    var line := FileLine(path, purpose);
    var b := 3 + |path|;
    assert line[..3] == "- `";
    assert line[3..b] == path;
    assert line[b..b + 4] == "` - ";
    assert line[b + 4..] == purpose;
    WsEndAt(line, 1, 2);
    forall i | 3 <= i < b ensures line[i] != '`' { assert line[i] == path[i - 3]; }
    CharEndAt(line, 3, '`', b);
    WsEndAt(line, b + 1, b + 2);
  }

  /** A file line reads back as its path and purpose. */
  lemma FileLineReads(path: string, purpose: string)
    requires PathText(path) && Plain(purpose)
    ensures FileItem(FileLine(path, purpose)) == Some((path, purpose))
  {
    var line := FileLine(path, purpose);
    var b := 3 + |path|;
    FileLineShape(path, purpose);
    RestCaptureOf(line, b + 3, purpose, 0);
    TrimOfTrimmed(path);
  }

  // =====================================================================
  // a section as written, read back
  // =====================================================================

  /** A line of a section body that cannot be taken for a heading, a rule or a blank. */
  predicate BodyLine(l: string)
  {
    |l| >= 2 && !IsWs(l[0]) && l[0] != '#' && l[1] != '-' && NoNewline(l)
  }

  predicate BodyLines(ls: seq<string>)
  {
    forall k :: 0 <= k < |ls| ==> BodyLine(ls[k])
  }

  /** What may follow a section: the end, the next `## ` heading or a `---` rule. */
  predicate SectionEnd(post: string)
  {
    post == "" || StartsWith(post, "\n## ") || StartsWith(post, "\n---")
  }

  /** Every newline of `t` is followed by two more characters, not `#` and not `-` after it. */
  predicate BodyBreaks(t: string)
  {
    forall i :: 0 <= i < |t| && t[i] == '\n' ==> AfterBreak(t, i)
  }

  predicate AfterBreak(t: string, i: nat)
  {
    i + 2 < |t| && t[i + 1] != '#' && t[i + 2] != '-'
  }

  lemma {:induction false} JoinBodyBreaks(ls: seq<string>)
    requires |ls| >= 1 && BodyLines(ls)
    decreases |ls|
    ensures BodyBreaks(Join(ls))
  {
    if |ls| > 1 {
      var t' := Join(ls[1..]);
      JoinBodyBreaks(ls[1..]);
      JoinStartsWith(ls[1..]);
      assert t'[0] == ls[1][0] && t'[1] == ls[1][1];
      var t := Join(ls);
      assert t == ls[0] + "\n" + t';
      var n := |ls[0]|;
      forall i | 0 <= i < n ensures t[i] != '\n' {
        assert t[i] == ls[0][i];
        assert ls[0][i] in ls[0];
      }
      forall i | 0 <= i < |t| && t[i] == '\n' ensures AfterBreak(t, i) {
        if i > n {
          assert t[i] == t'[i - n - 1];
          assert i + 1 < |t| ==> t[i + 1] == t'[i - n];
          assert i + 2 < |t| ==> t[i + 2] == t'[i - n + 1];
        } else {
          assert t[i + 1] == t'[0] && t[i + 2] == t'[1];
        }
      }
    }
  }

  lemma {:induction false} BodyEndAt(s: string, b: nat, e: nat)
    requires b <= e <= |s| && StopAt(s, e)
    requires forall j :: b <= j < e ==> !StopAt(s, j)
    decreases e - b
    ensures BodyEnd(s, b) == e
  {
    if b < e {
      BodyEndAt(s, b + 1, e);
    }
  }

  /** No stop falls inside body text in place at `b`. */
  lemma NoStopsIn(s: string, b: nat, t: string)
    requires b + |t| <= |s| && s[b..b + |t|] == t && BodyBreaks(t)
    ensures forall j :: b <= j < b + |t| ==> !StopAt(s, j)
  {
    forall j | b <= j < b + |t| ensures !StopAt(s, j) {
      assert s[j] == t[j - b];
      if t[j - b] == '\n' {
        assert AfterBreak(t, j - b);
        assert s[j + 1] == t[j - b + 1] && s[j + 2] == t[j - b + 2];
        if j + 4 <= |s| {
          assert s[j..j + 4][1] == s[j + 1] && s[j..j + 4][2] == s[j + 2];
        }
      } else {
        NotStopAt(s, j);
      }
    }
  }

  /** Body lines in place at `b`, then a stop: the capture is exactly those lines. */
  lemma CaptureOfLines(s: string, b: nat, ls: seq<string>)
    requires ls != [] && BodyLines(ls)
    requires b + |Join(ls)| <= |s| && s[b..b + |Join(ls)|] == Join(ls) && StopAt(s, b + |Join(ls)|)
    ensures CaptureAt(s, b) == Join(ls)
  {
    var t := Join(ls);
    JoinStartsWith(ls);
    JoinBodyBreaks(ls);
    assert s[b] == ls[0][0] && s[b + 1] == ls[0][1];
    assert b + 3 <= |s| ==> s[b..b + 3][0] == s[b] && s[b..b + 3][1] == s[b + 1];
    NoStopsIn(s, b, t);
    BodyEndAt(s, b, b + |t|);
  }

  lemma HeadIndexAt(s: string, h: string, p: nat)
    requires HeadAt(s, h, p)
    requires forall i :: 0 <= i < p ==> !OccursAt(s, h, i)
    ensures HeadIndex(s, h) == Some(p)
  {
    FirstIndexAt(HeadTest(s, h), 0, |s|, p);
  }

  /** A section with body lines reads back as those lines. */
  lemma SectionReadsLines(pre: string, h: string, ls: seq<string>, post: string)
    requires ls != [] && BodyLines(ls) && SectionEnd(post)
    requires forall i :: 0 <= i < |pre| ==> !OccursAt(pre + h + "\n" + Join(ls) + post, h, i)
    ensures Section(pre + h + "\n" + Join(ls) + post, h) == Some(Join(ls))
  {
    var t := Join(ls);
    var s := pre + h + "\n" + t + post;
    var n := |pre| + |h|;
    var e := n + 1 + |t|;
    assert s[|pre|..n] == h;
    assert s[n] == '\n';
    assert s[n + 1..e] == t;
    assert s[e..] == post;
    assert StopAt(s, e) by {
      assert post != "" ==> s[e..e + 4] == post[..4];
    }
    SectionLinesAt(s, h, |pre|, ls, t);
  }

  /** Body lines right under the first occurrence of the heading are its section. */
  lemma SectionLinesAt(s: string, h: string, p: nat, ls: seq<string>, t: string)
    requires ls != [] && BodyLines(ls) && t == Join(ls)
    requires OccursAt(s, h, p) && p + |h| < |s| && s[p + |h|] == '\n'
    requires p + |h| + 1 + |t| <= |s| && s[p + |h| + 1..p + |h| + 1 + |t|] == t
    requires StopAt(s, p + |h| + 1 + |t|)
    requires forall i :: 0 <= i < p ==> !OccursAt(s, h, i)
    ensures Section(s, h) == Some(t)
  {
    var b := p + |h| + 1;
    FirstBodyChar(s, b, ls);
    CaptureOfLines(s, b, ls);
    SectionWithCapture(s, h, p, b, t);
  }

  lemma FirstBodyChar(s: string, b: nat, ls: seq<string>)
    requires ls != [] && BodyLines(ls)
    requires b + |Join(ls)| <= |s| && s[b..b + |Join(ls)|] == Join(ls)
    ensures b < |s| && !IsWs(s[b])
  {
    JoinStartsWith(ls);
    assert s[b] == Join(ls)[0];
  }

  /** The heading's line ends right away and the next line starts with text: the section is what is captured there. */
  lemma SectionWithCapture(s: string, h: string, p: nat, b: nat, t: string)
    requires b == p + |h| + 1 && OccursAt(s, h, p) && b < |s| && s[p + |h|] == '\n' && !IsWs(s[b])
    requires forall i :: 0 <= i < p ==> !OccursAt(s, h, i)
    requires CaptureAt(s, b) == t
    ensures Section(s, h) == Some(t)
  {
    BodyAfterNewline(s, h, p);
    HeadIndexAt(s, h, p);
    SectionAt(s, h, p);
  }

  /** A heading followed by a newline and then no blank: the body starts right after the newline. */
  lemma BodyAfterNewline(s: string, h: string, p: nat)
    requires OccursAt(s, h, p) && p + |h| < |s| && s[p + |h|] == '\n'
    requires p + |h| + 1 == |s| || !IsWs(s[p + |h| + 1])
    ensures HeadAt(s, h, p) && BodyStart(s, h, p) == p + |h| + 1
  {
    WsEndAt(s, p + |h|, p + |h| + 1);
    assert LastNewline(s, p + |h|, p + |h| + 1) == Some(p + |h|);
  }

  /** The section read at the first match of the heading. */
  lemma SectionAt(s: string, h: string, p: nat)
    requires HeadIndex(s, h) == Some(p)
    ensures Section(s, h) == Some(CaptureAt(s, BodyStart(s, h, p)))
  {
  }

  /** A section with no lines at the end of the text reads back as empty. */
  lemma SectionReadsEmptyAtEnd(pre: string, h: string)
    requires forall i :: 0 <= i < |pre| ==> !OccursAt(pre + h + "\n", h, i)
    ensures Section(pre + h + "\n", h) == Some("")
  {
    var s := pre + h + "\n";
    var n := |pre| + |h|;
    assert s[|pre|..n] == h;
    assert s[n] == '\n';
    WsEndAt(s, n, n + 1);
    assert LastNewline(s, n, n + 1) == Some(n);
    HeadIndexAt(s, h, |pre|);
    assert BodyStart(s, h, |pre|) == |s|;
    assert CaptureAt(s, |s|) == "";
  }

  /** A section with no lines before the next heading or rule reads back as empty. */
  lemma EmptyBodyAt(s: string, h: string, p: nat)
    requires OccursAt(s, h, p) && p + |h| < |s| && s[p + |h|] == '\n'
    requires OccursAt(s, "\n## ", p + |h| + 1) || OccursAt(s, "\n---", p + |h| + 1)
    requires forall i :: 0 <= i < p ==> !OccursAt(s, h, i)
    ensures Section(s, h) == Some("")
  {
    StopAfterNewline(s, p + |h| + 1);
    EmptyHead(s, h, p);
    SectionAt(s, h, p);
  }

  lemma StopAfterNewline(s: string, m: nat)
    requires OccursAt(s, "\n## ", m) || OccursAt(s, "\n---", m)
    ensures s[m] == '\n' && (OccursAt(s, "## ", m + 1) || OccursAt(s, "---", m + 1))
  {
    assert s[m..m + 4][0] == s[m];
    assert s[m + 1..m + 4] == s[m..m + 4][1..];
  }

  lemma EmptyHead(s: string, h: string, p: nat)
    requires OccursAt(s, h, p) && p + |h| + 1 < |s| && s[p + |h|] == '\n' && s[p + |h| + 1] == '\n'
    requires OccursAt(s, "## ", p + |h| + 2) || OccursAt(s, "---", p + |h| + 2)
    requires forall i :: 0 <= i < p ==> !OccursAt(s, h, i)
    ensures HeadAt(s, h, p) && HeadIndex(s, h) == Some(p) && BodyStart(s, h, p) == p + |h| + 2
  {
    var n := p + |h|;
    assert s[n + 2] == s[n + 2..n + 5][0];
    WsEndAt(s, n, n + 2);
    assert LastNewline(s, n, n + 2) == Some(n + 1);
    HeadIndexAt(s, h, p);
  }

  /** A section with no lines before the next heading or rule reads back as empty. */
  lemma SectionReadsEmptyBefore(pre: string, h: string, post: string)
    requires StartsWith(post, "\n## ") || StartsWith(post, "\n---")
    requires forall i :: 0 <= i < |pre| ==> !OccursAt(pre + h + "\n" + post, h, i)
    ensures Section(pre + h + "\n" + post, h) == Some("")
  {
    var s := pre + h + "\n" + post;
    var n := |pre| + |h|;
    assert s[|pre|..n] == h;
    assert s[n] == '\n';
    assert s[n + 1..n + 5] == post[..4];
    EmptyBodyAt(s, h, |pre|);
  }

  lemma SectionReadsEmpty(pre: string, h: string, post: string)
    requires SectionEnd(post)
    requires forall i :: 0 <= i < |pre| ==> !OccursAt(pre + h + "\n" + post, h, i)
    ensures Section(pre + h + "\n" + post, h) == Some("")
  {
    if post == "" {
      assert pre + h + "\n" + post == pre + h + "\n";
      SectionReadsEmptyAtEnd(pre, h);
    } else {
      SectionReadsEmptyBefore(pre, h, post);
    }
  }

  /** Lines in which `f` finds each delivery give all of them, in order. */
  lemma {:induction false} CollectAll(f: string -> Option<Delivery>, ls: seq<string>, ds: seq<Delivery>)
    requires |ls| == |ds|
    requires forall i :: 0 <= i < |ls| ==> f(ls[i]) == Some(ds[i])
    decreases |ls|
    ensures Collect(f, ls) == ds
  {
    if ls != [] {
      var m := |ls| - 1;
      CollectAll(f, ls[..m], ds[..m]);
      assert ds == ds[..m] + [ds[m]];
    }
  }

  lemma NoItemOfEmpty(k: Kind)
    ensures Collect(ItemFn(k), [""]) == []
  {
    assert [""][..0] == [];
    assert ItemOf(k, "") == None;
  }

  lemma SectionItemsOf(s: string, k: Kind, t: string)
    requires Section(s, Heading(k)) == Some(t)
    ensures SectionItems(s, k) == Collect(ItemFn(k), Split(t))
  {
  }

  lemma SectionItemsReadEmpty(pre: string, k: Kind, ls: seq<string>, post: string)
    requires ls == [] && SectionEnd(post)
    requires NoneIn(pre + Heading(k) + "\n" + Join(ls) + post, Heading(k), 0, |pre|)
    ensures SectionItems(pre + Heading(k) + "\n" + Join(ls) + post, k) == []
  {
    var s := pre + Heading(k) + "\n" + post;
    assert Join(ls) == "";
    assert pre + Heading(k) + "\n" + Join(ls) + post == s;
    SectionReadsEmpty(pre, Heading(k), post);
    SectionItemsOf(s, k, "");
    NoItemOfEmpty(k);
  }

  lemma SectionItemsReadLines(pre: string, k: Kind, ls: seq<string>, ds: seq<Delivery>, post: string)
    requires ls != [] && BodyLines(ls) && SectionEnd(post)
    requires NoneIn(pre + Heading(k) + "\n" + Join(ls) + post, Heading(k), 0, |pre|)
    requires |ls| == |ds| && forall i :: 0 <= i < |ls| ==> ItemFn(k)(ls[i]) == Some(ds[i])
    ensures SectionItems(pre + Heading(k) + "\n" + Join(ls) + post, k) == ds
  {
    var s := pre + Heading(k) + "\n" + Join(ls) + post;
    SectionReadsLines(pre, Heading(k), ls, post);
    SectionItemsOf(s, k, Join(ls));
    SplitJoin(ls);
    CollectAll(ItemFn(k), ls, ds);
  }

  /** A section whose lines each give a delivery reads back as those deliveries. */
  lemma SectionItemsRead(pre: string, k: Kind, ls: seq<string>, ds: seq<Delivery>, post: string)
    requires BodyLines(ls) && SectionEnd(post)
    requires NoneIn(pre + Heading(k) + "\n" + Join(ls) + post, Heading(k), 0, |pre|)
    requires |ls| == |ds| && forall i :: 0 <= i < |ls| ==> ItemFn(k)(ls[i]) == Some(ds[i])
    ensures SectionItems(pre + Heading(k) + "\n" + Join(ls) + post, k) == ds
  {
    if ls == [] {
      SectionItemsReadEmpty(pre, k, ls, post);
    } else {
      SectionItemsReadLines(pre, k, ls, ds, post);
    }
  }

  // =====================================================================
  // a SUMMARY.md in the usual layout, read back
  // =====================================================================

  predicate HashFree(x: string) { '#' !in x }

  /** An accomplishment that reads back: plain text without `#`. */
  predicate AccomplishmentText(x: string) { Plain(x) && HashFree(x) }

  /** A task (bold name, then the rest of the line) that reads back. */
  predicate TaskText(t: (string, string))
  {
    TaskNameText(t.0) && HashFree(t.0) && OneLine(t.1) && HashFree(t.1)
  }

  /** A file entry (path, purpose) that reads back. */
  predicate FileText(f: (string, string))
  {
    PathText(f.0) && OneLine(f.0) && HashFree(f.0) && Plain(f.1) && HashFree(f.1)
  }

  function AccomplishmentLines(xs: seq<string>): seq<string>
  {
    seq(|xs|, i requires 0 <= i < |xs| => BulletLine(xs[i]))
  }

  /** Tasks are numbered from 1. */
  function TaskLines(ts: seq<(string, string)>): seq<string>
  {
    seq(|ts|, i requires 0 <= i < |ts| => TaskLine(i + 1, ts[i].0, ts[i].1))
  }

  function FileLines(fs: seq<(string, string)>): seq<string>
  {
    seq(|fs|, i requires 0 <= i < |fs| => FileLine(fs[i].0, fs[i].1))
  }

  function SectionBlock(k: Kind, ls: seq<string>): string
  {
    Heading(k) + "\n" + Join(ls)
  }

  /**
   * A SUMMARY.md with free text first, the three sections in order and
   * anything after a closing heading or rule.
   */
  function SummaryText(intro: string, xs: seq<string>, ts: seq<(string, string)>, fs: seq<(string, string)>, outro: string): string
  {
    intro + SectionBlock(Accomplishment, AccomplishmentLines(xs)) + "\n" + SectionBlock(Task, TaskLines(ts)) + "\n"
    + SectionBlock(File, FileLines(fs)) + outro
  }

  /** The deliveries such a SUMMARY.md promises, in the order it lists them. */
  function Promised(xs: seq<string>, ts: seq<(string, string)>, fs: seq<(string, string)>): seq<Delivery>
  {
    AccomplishmentsOf(xs) + TasksOf(ts) + FilesOf(fs)
  }

  function AccomplishmentsOf(xs: seq<string>): seq<Delivery>
  {
    seq(|xs|, i requires 0 <= i < |xs| => Delivery(xs[i], Accomplishment, xs[i]))
  }

  function TasksOf(ts: seq<(string, string)>): seq<Delivery>
  {
    seq(|ts|, i requires 0 <= i < |ts| => Delivery(ts[i].0, Task, Trim(TaskLine(i + 1, ts[i].0, ts[i].1))))
  }

  function FilesOf(fs: seq<(string, string)>): seq<Delivery>
  {
    seq(|fs|, i requires 0 <= i < |fs| => Delivery(fs[i].0, File, fs[i].1))
  }

  lemma OneLineNoNewline(x: string)
    requires OneLine(x)
    ensures NoNewline(x)
  {
  }

  lemma AccomplishmentLineRead(x: string)
    requires AccomplishmentText(x)
    ensures var l := BulletLine(x);
      BodyLine(l) && HashFree(l) && ItemOf(Accomplishment, l) == Some(Delivery(x, Accomplishment, x))
  {
    OneLineNoNewline(x);
    BulletReads(x);
  }

  lemma TaskLineBody(n: nat, t: (string, string))
    requires TaskText(t)
    ensures var l := TaskLine(n, t.0, t.1); BodyLine(l) && HashFree(l)
  {
    var d := NatToString(n);
    OneLineNoNewline(t.0);
    OneLineNoNewline(t.1);
    assert '#' !in d && '\n' !in d by {
      forall i | 0 <= i < |d| ensures IsDigit(d[i]) { }
    }
    var l := TaskLine(n, t.0, t.1);
    assert l[0] == d[0];
    assert l[1] == if |d| > 1 then d[1] else '.';
  }

  lemma TaskLineRead(n: nat, t: (string, string))
    requires TaskText(t)
    ensures var l := TaskLine(n, t.0, t.1);
      BodyLine(l) && HashFree(l) && ItemOf(Task, l) == Some(Delivery(t.0, Task, Trim(l)))
  {
    TaskLineBody(n, t);
    TaskLineReads(n, t.0, t.1);
  }

  lemma FileLineBody(f: (string, string))
    requires FileText(f)
    ensures var l := FileLine(f.0, f.1); BodyLine(l) && HashFree(l)
  {
    OneLineNoNewline(f.0);
    OneLineNoNewline(f.1);
  }

  lemma FileLineRead(f: (string, string))
    requires FileText(f)
    ensures var l := FileLine(f.0, f.1);
      BodyLine(l) && HashFree(l) && ItemOf(File, l) == Some(Delivery(f.0, File, f.1))
  {
    FileLineBody(f);
    FileLineReads(f.0, f.1);
  }

  lemma {:induction false} JoinHashFree(ls: seq<string>)
    requires forall k :: 0 <= k < |ls| ==> HashFree(ls[k])
    ensures HashFree(Join(ls))
    decreases |ls|
  {
    if |ls| > 1 {
      JoinHashFree(ls[1..]);
    }
  }

  /** The lines of each section are body lines, free of `#`, and each gives its delivery. */
  lemma AccomplishmentLinesRead(xs: seq<string>)
    requires forall i :: 0 <= i < |xs| ==> AccomplishmentText(xs[i])
    ensures var ls := AccomplishmentLines(xs); var ds := AccomplishmentsOf(xs);
      BodyLines(ls) && HashFree(Join(ls)) && |ls| == |ds|
      && forall i :: 0 <= i < |ls| ==> ItemFn(Accomplishment)(ls[i]) == Some(ds[i])
  {
    var ls := AccomplishmentLines(xs);
    forall i | 0 <= i < |ls|
      ensures BodyLine(ls[i]) && HashFree(ls[i]) && ItemOf(Accomplishment, ls[i]) == Some(AccomplishmentsOf(xs)[i])
    {
      AccomplishmentLineRead(xs[i]);
    }
    JoinHashFree(ls);
  }

  lemma TaskLinesRead(ts: seq<(string, string)>)
    requires forall i :: 0 <= i < |ts| ==> TaskText(ts[i])
    ensures var ls := TaskLines(ts); var ds := TasksOf(ts);
      BodyLines(ls) && HashFree(Join(ls)) && |ls| == |ds|
      && forall i :: 0 <= i < |ls| ==> ItemFn(Task)(ls[i]) == Some(ds[i])
  {
    var ls := TaskLines(ts);
    forall i | 0 <= i < |ls|
      ensures BodyLine(ls[i]) && HashFree(ls[i]) && ItemOf(Task, ls[i]) == Some(TasksOf(ts)[i])
    {
      TaskLineRead(i + 1, ts[i]);
    }
    JoinHashFree(ls);
  }

  lemma FileLinesRead(fs: seq<(string, string)>)
    requires forall i :: 0 <= i < |fs| ==> FileText(fs[i])
    ensures var ls := FileLines(fs); var ds := FilesOf(fs);
      BodyLines(ls) && HashFree(Join(ls)) && |ls| == |ds|
      && forall i :: 0 <= i < |ls| ==> ItemFn(File)(ls[i]) == Some(ds[i])
  {
    var ls := FileLines(fs);
    forall i | 0 <= i < |ls|
      ensures BodyLine(ls[i]) && HashFree(ls[i]) && ItemOf(File, ls[i]) == Some(FilesOf(fs)[i])
    {
      FileLineRead(fs[i]);
    }
    JoinHashFree(ls);
  }

  /** No occurrence of `h` starts in `[lo, hi)`. */
  predicate NoneIn(s: string, h: string, lo: nat, hi: nat)
  {
    forall i :: lo <= i < hi ==> !OccursAt(s, h, i)
  }

  lemma NoHashNoHeading(s: string, h: string, lo: nat, hi: nat)
    requires lo <= hi <= |s| && h != [] && h[0] == '#' && HashFree(s[lo..hi])
    ensures NoneIn(s, h, lo, hi)
  {
    forall i | lo <= i < hi ensures !OccursAt(s, h, i) {
      assert s[i] == s[lo..hi][i - lo];
      assert i + |h| <= |s| ==> s[i..i + |h|][0] == s[i];
    }
  }

  /** `g` and `h` are `## ` headings that differ in their first letter. */
  predicate Distinct(g: string, h: string)
  {
    |g| >= 4 && |h| >= 4 && g[2] == ' ' && h[0] == '#' && h[1] == '#' && g[3] != h[3]
    && forall i :: 2 <= i < |g| ==> g[i] != '#'
  }

  lemma HeadingsDistinct(a: Kind, k: Kind)
    requires a != k
    ensures Distinct(Heading(a), Heading(k))
  {
  }

  /** Heading `g`, then text without `#`: heading `h` starts nowhere there. */
  lemma OtherHeading(s: string, g: string, h: string, p: nat, q: nat)
    requires Distinct(g, h) && OccursAt(s, g, p) && p + 2 <= q <= |s|
    requires HashFree(s[p + 2..q])
    ensures NoneIn(s, h, p, q)
  {
    assert s[p..p + |g|][2] == s[p + 2] && s[p..p + |g|][3] == s[p + 3];
    assert p + |h| <= |s| ==> s[p..p + |h|][3] == s[p + 3];
    assert p + 1 + |h| <= |s| ==> s[p + 1..p + 1 + |h|][1] == s[p + 2];
    NoHashNoHeading(s, h, p + 2, q);
  }

  /** What a SUMMARY.md in the usual layout needs to read back. */
  predicate SummaryWritable(intro: string, xs: seq<string>, ts: seq<(string, string)>, fs: seq<(string, string)>, outro: string)
  {
    HashFree(intro) && SectionEnd(outro)
    && (forall i :: 0 <= i < |xs| ==> AccomplishmentText(xs[i]))
    && (forall i :: 0 <= i < |ts| ==> TaskText(ts[i]))
    && (forall i :: 0 <= i < |fs| ==> FileText(fs[i]))
  }

  /** The three ways of cutting a SUMMARY.md around one of its sections. */
  lemma SummaryCuts(i: string, a: string, ja: string, t: string, jt: string, f: string, jf: string, o: string)
    ensures var s := i + (a + "\n" + ja) + "\n" + (t + "\n" + jt) + "\n" + (f + "\n" + jf) + o;
      && s == i + a + "\n" + ja + ("\n" + (t + "\n" + jt) + "\n" + (f + "\n" + jf) + o)
      && s == (i + (a + "\n" + ja) + "\n") + t + "\n" + jt + ("\n" + (f + "\n" + jf) + o)
      && s == (i + (a + "\n" + ja) + "\n" + (t + "\n" + jt) + "\n") + f + "\n" + jf + o
  {
  }

  /** The text before and after each section of a SUMMARY.md in the usual layout. */
  function AccomplishmentsPost(ts: seq<(string, string)>, fs: seq<(string, string)>, outro: string): string
  {
    "\n" + SectionBlock(Task, TaskLines(ts)) + "\n" + SectionBlock(File, FileLines(fs)) + outro
  }

  function TasksPre(intro: string, xs: seq<string>): string
  {
    intro + SectionBlock(Accomplishment, AccomplishmentLines(xs)) + "\n"
  }

  function TasksPost(fs: seq<(string, string)>, outro: string): string
  {
    "\n" + SectionBlock(File, FileLines(fs)) + outro
  }

  function FilesPre(intro: string, xs: seq<string>, ts: seq<(string, string)>): string
  {
    TasksPre(intro, xs) + SectionBlock(Task, TaskLines(ts)) + "\n"
  }

  lemma HeadedEnd(h: string, j: string, rest: string)
    requires |h| >= 3 && h[0] == '#' && h[1] == '#' && h[2] == ' '
    ensures SectionEnd("\n" + (h + "\n" + j) + rest)
  {
    var t := "\n" + (h + "\n" + j) + rest;
    assert t[..4] == "\n" + h[..3];
  }

  lemma PostsEnd(ts: seq<(string, string)>, fs: seq<(string, string)>, outro: string)
    ensures SectionEnd(AccomplishmentsPost(ts, fs, outro)) && SectionEnd(TasksPost(fs, outro))
  {
    HeadedEnd(Heading(Task), Join(TaskLines(ts)), "\n" + SectionBlock(File, FileLines(fs)) + outro);
    HeadedEnd(Heading(File), Join(FileLines(fs)), outro);
    var bt, bf := SectionBlock(Task, TaskLines(ts)), SectionBlock(File, FileLines(fs));
    assert "\n" + bt + "\n" + bf + outro == "\n" + bt + ("\n" + bf + outro);
  }

  lemma SummaryAround(intro: string, xs: seq<string>, ts: seq<(string, string)>, fs: seq<(string, string)>, outro: string)
    ensures var s := SummaryText(intro, xs, ts, fs, outro);
      && s == intro + Heading(Accomplishment) + "\n" + Join(AccomplishmentLines(xs)) + AccomplishmentsPost(ts, fs, outro)
      && s == TasksPre(intro, xs) + Heading(Task) + "\n" + Join(TaskLines(ts)) + TasksPost(fs, outro)
      && s == FilesPre(intro, xs, ts) + Heading(File) + "\n" + Join(FileLines(fs)) + outro
  {
    SummaryCuts(intro, Heading(Accomplishment), Join(AccomplishmentLines(xs)), Heading(Task), Join(TaskLines(ts)),
      Heading(File), Join(FileLines(fs)), outro);
  }

  lemma NoHashBeforeSection(pre: string, h: string, b: string, post: string)
    requires HashFree(pre) && h != [] && h[0] == '#'
    ensures NoneIn(pre + h + "\n" + b + post, h, 0, |pre|)
  {
    var s := pre + h + "\n" + b + post;
    assert s[0..|pre|] == pre;
    NoHashNoHeading(s, h, 0, |pre|);
  }

  /** A section after text free of `#` reads back as the deliveries of its lines. */
  lemma SectionAfterFreeText(pre: string, k: Kind, ls: seq<string>, ds: seq<Delivery>, post: string)
    requires HashFree(pre) && BodyLines(ls) && SectionEnd(post)
    requires |ls| == |ds| && forall i :: 0 <= i < |ls| ==> ItemFn(k)(ls[i]) == Some(ds[i])
    ensures SectionItems(pre + Heading(k) + "\n" + Join(ls) + post, k) == ds
  {
    NoHashBeforeSection(pre, Heading(k), Join(ls), post);
    SectionItemsRead(pre, k, ls, ds, post);
  }

  lemma SummaryAccomplishments(intro: string, xs: seq<string>, ts: seq<(string, string)>, fs: seq<(string, string)>, outro: string)
    requires HashFree(intro) && forall i :: 0 <= i < |xs| ==> AccomplishmentText(xs[i])
    ensures SectionItems(SummaryText(intro, xs, ts, fs, outro), Accomplishment) == AccomplishmentsOf(xs)
  {
    var post := AccomplishmentsPost(ts, fs, outro);
    SummaryAround(intro, xs, ts, fs, outro);
    PostsEnd(ts, fs, outro);
    AccomplishmentLinesRead(xs);
    SectionAfterFreeText(intro, Accomplishment, AccomplishmentLines(xs), AccomplishmentsOf(xs), post);
  }

  /** A block under heading `g`, ended by a newline, holds no occurrence of heading `h`. */
  lemma NoHeadingInBlock(s: string, g: string, h: string, p: nat, j: string)
    requires Distinct(g, h) && HashFree(j)
    requires OccursAt(s, g + "\n" + j + "\n", p)
    ensures NoneIn(s, h, p, p + |g| + |j| + 2)
  {
    var b := g + "\n" + j + "\n";
    var q := p + |b|;
    assert s[p..q] == b;
    assert s[p..p + |g|] == b[..|g|];
    assert s[p + 2..q] == b[2..] == g[2..] + "\n" + j + "\n";
    assert HashFree(g[2..]) by {
      forall i | 0 <= i < |g| - 2 ensures g[2..][i] != '#' { assert g[2..][i] == g[i + 2]; }
    }
    OtherHeading(s, g, h, p, q);
  }

  /** Text free of `#`, then a block under heading `g`: heading `h` starts nowhere there. */
  lemma NoHeadingBefore(intro: string, g: string, j: string, h: string, rest: string)
    requires HashFree(intro) && HashFree(j) && Distinct(g, h)
    ensures NoneIn(intro + (g + "\n" + j) + "\n" + rest, h, 0, |intro| + |g| + |j| + 2)
  {
    var s := intro + (g + "\n" + j) + "\n" + rest;
    assert s == intro + (g + "\n" + j + "\n" + rest);
    assert s[..|intro|] == intro;
    NoHashNoHeading(s, h, 0, |intro|);
    assert s[|intro|..][..|g| + |j| + 2] == g + "\n" + j + "\n";
    NoHeadingInBlock(s, g, h, |intro|, j);
  }

  /** The same, cut where the section under `h` begins. */
  lemma NoHeadingBeforeSection(intro: string, g: string, j: string, h: string, b: string, post: string)
    requires HashFree(intro) && HashFree(j) && Distinct(g, h)
    ensures NoneIn(intro + (g + "\n" + j) + "\n" + h + "\n" + b + post, h, 0, |intro| + |g| + |j| + 2)
  {
    NoHeadingBefore(intro, g, j, h, h + "\n" + b + post);
    var pre := intro + (g + "\n" + j) + "\n";
    assert pre + (h + "\n" + b + post) == pre + h + "\n" + b + post;
  }

  /** A section after a block under another heading reads back as the deliveries of its lines. */
  lemma SectionAfterBlock(intro: string, g: string, j: string, k: Kind, ls: seq<string>, ds: seq<Delivery>, post: string)
    requires HashFree(intro) && HashFree(j) && Distinct(g, Heading(k))
    requires BodyLines(ls) && SectionEnd(post)
    requires |ls| == |ds| && forall i :: 0 <= i < |ls| ==> ItemFn(k)(ls[i]) == Some(ds[i])
    ensures SectionItems(intro + (g + "\n" + j) + "\n" + Heading(k) + "\n" + Join(ls) + post, k) == ds
  {
    NoHeadingBeforeSection(intro, g, j, Heading(k), Join(ls), post);
    SectionItemsRead(intro + (g + "\n" + j) + "\n", k, ls, ds, post);
  }

  lemma SummaryTasks(intro: string, xs: seq<string>, ts: seq<(string, string)>, fs: seq<(string, string)>, outro: string)
    requires HashFree(intro)
    requires forall i :: 0 <= i < |xs| ==> AccomplishmentText(xs[i])
    requires forall i :: 0 <= i < |ts| ==> TaskText(ts[i])
    ensures SectionItems(SummaryText(intro, xs, ts, fs, outro), Task) == TasksOf(ts)
  {
    var post := TasksPost(fs, outro);
    SummaryAround(intro, xs, ts, fs, outro);
    PostsEnd(ts, fs, outro);
    AccomplishmentLinesRead(xs);
    TaskLinesRead(ts);
    HeadingsDistinct(Accomplishment, Task);
    SectionAfterBlock(intro, Heading(Accomplishment), Join(AccomplishmentLines(xs)), Task, TaskLines(ts), TasksOf(ts), post);
  }

  /** Text free of `#`, then blocks under headings `g1` and `g2`: heading `h` starts nowhere there. */
  lemma NoHeadingBeforeTwo(intro: string, g1: string, j1: string, g2: string, j2: string, h: string, b: string, post: string)
    requires HashFree(intro) && HashFree(j1) && HashFree(j2) && Distinct(g1, h) && Distinct(g2, h)
    ensures NoneIn(intro + (g1 + "\n" + j1) + "\n" + (g2 + "\n" + j2) + "\n" + h + "\n" + b + post, h, 0,
      |intro| + |g1| + |j1| + |g2| + |j2| + 4)
  {
    var a := intro + (g1 + "\n" + j1) + "\n";
    var rest := (g2 + "\n" + j2) + "\n" + h + "\n" + b + post;
    var s := a + rest;
    assert s == intro + (g1 + "\n" + j1) + "\n" + (g2 + "\n" + j2) + "\n" + h + "\n" + b + post;
    NoHeadingBefore(intro, g1, j1, h, rest);
    assert s[|a|..][..|g2| + |j2| + 2] == g2 + "\n" + j2 + "\n";
    NoHeadingInBlock(s, g2, h, |a|, j2);
  }

  lemma SectionAfterTwoBlocks(intro: string, g1: string, j1: string, g2: string, j2: string, k: Kind,
                              ls: seq<string>, ds: seq<Delivery>, post: string)
    requires HashFree(intro) && HashFree(j1) && HashFree(j2) && Distinct(g1, Heading(k)) && Distinct(g2, Heading(k))
    requires BodyLines(ls) && SectionEnd(post)
    requires |ls| == |ds| && forall i :: 0 <= i < |ls| ==> ItemFn(k)(ls[i]) == Some(ds[i])
    ensures SectionItems(intro + (g1 + "\n" + j1) + "\n" + (g2 + "\n" + j2) + "\n" + Heading(k) + "\n" + Join(ls) + post, k) == ds
  {
    NoHeadingBeforeTwo(intro, g1, j1, g2, j2, Heading(k), Join(ls), post);
    SectionItemsRead(intro + (g1 + "\n" + j1) + "\n" + (g2 + "\n" + j2) + "\n", k, ls, ds, post);
  }

  lemma SummaryFiles(intro: string, xs: seq<string>, ts: seq<(string, string)>, fs: seq<(string, string)>, outro: string)
    requires HashFree(intro) && SectionEnd(outro)
    requires forall i :: 0 <= i < |xs| ==> AccomplishmentText(xs[i])
    requires forall i :: 0 <= i < |ts| ==> TaskText(ts[i])
    requires forall i :: 0 <= i < |fs| ==> FileText(fs[i])
    ensures SectionItems(SummaryText(intro, xs, ts, fs, outro), File) == FilesOf(fs)
  {
    SummaryAround(intro, xs, ts, fs, outro);
    AccomplishmentLinesRead(xs);
    TaskLinesRead(ts);
    FileLinesRead(fs);
    HeadingsDistinct(Accomplishment, File);
    HeadingsDistinct(Task, File);
    SectionAfterTwoBlocks(intro, Heading(Accomplishment), Join(AccomplishmentLines(xs)), Heading(Task), Join(TaskLines(ts)),
      File, FileLines(fs), FilesOf(fs), outro);
  }

  /**
   * `extractTestableDeliveries` reads a SUMMARY.md in the usual layout
   * back as exactly the accomplishments, tasks and files written in it,
   * in order.
   */
  lemma SummaryRoundTrip(intro: string, xs: seq<string>, ts: seq<(string, string)>, fs: seq<(string, string)>, outro: string)
    requires SummaryWritable(intro, xs, ts, fs, outro)
    ensures Deliveries(SummaryText(intro, xs, ts, fs, outro)) == Promised(xs, ts, fs)
  {
    var s := SummaryText(intro, xs, ts, fs, outro);
    assert s != "" by { SummaryAround(intro, xs, ts, fs, outro); }
    SummaryAccomplishments(intro, xs, ts, fs, outro);
    SummaryTasks(intro, xs, ts, fs, outro);
    SummaryFiles(intro, xs, ts, fs, outro);
  }

  /**
   * As written, the same SUMMARY.md reads back alike when no section is
   * empty: each capture then starts at the section's own first line.
   */
  lemma SummaryRoundTripAsWritten(intro: string, xs: seq<string>, ts: seq<(string, string)>, fs: seq<(string, string)>,
                                  outro: string)
    requires SummaryWritable(intro, xs, ts, fs, outro)
    requires xs != [] && ts != [] && fs != []
    ensures DeliveriesAsWritten(SummaryText(intro, xs, ts, fs, outro)) == Promised(xs, ts, fs)
  {
    var s := SummaryText(intro, xs, ts, fs, outro);
    SummaryRoundTrip(intro, xs, ts, fs, outro);
    SummaryAccomplishments(intro, xs, ts, fs, outro);
    SummaryTasks(intro, xs, ts, fs, outro);
    SummaryFiles(intro, xs, ts, fs, outro);
    ItemsAgree(s, Accomplishment);
    ItemsAgree(s, Task);
    ItemsAgree(s, File);
  }

  // =====================================================================
  // an empty section, as written
  // =====================================================================

  /** A `## ` heading line with no `#` after its marker. */
  predicate HeadingShape(h: string)
  {
    |h| >= 4 && h[0] == '#' && h[1] == '#' && h[2] == ' ' && forall i :: 2 <= i < |h| ==> h[i] != '#' && h[i] != '\n'
  }

  lemma HeadingShapeFacts(h: string)
    requires HeadingShape(h)
    ensures HashFree(h[2..]) && NoNewline(h)
  {
    assert forall i :: 0 <= i < |h[2..]| ==> h[2..][i] == h[i + 2];
  }

  lemma HeadingShapes(k: Kind)
    ensures HeadingShape(Heading(k))
  {
    match k
    case Accomplishment =>
    case Task =>
    case File =>
  }

  /** Two newline-free lines joined by one line break: that break is the only one. */
  lemma OnlyBreak(f: string, l: string)
    requires NoNewline(f) && NoNewline(l)
    ensures forall i :: 0 <= i < |f + "\n" + l| && (f + "\n" + l)[i] == '\n' ==> i == |f|
  {
    var t := f + "\n" + l;
    forall i | 0 <= i < |t| && t[i] == '\n' ensures i == |f| {
      if i < |f| {
        assert false;
      } else if i > |f| {
        assert false;
      }
    }
  }

  /**
   * An empty section under `a` directly followed by the section `f` with one
   * body line `l`: the corrected capture is empty, the one as written runs
   * on over `f` and `l`.
   */
  lemma EmptyThenHeading(a: string, f: string, l: string)
    requires HeadingShape(a) && HeadingShape(f) && BodyLine(l)
    ensures var s := a + "\n" + f + "\n" + l;
      Section(s, a) == Some("") && SectionAsWritten(s, a) == Some(f + "\n" + l)
  {
    var s := a + "\n" + f + "\n" + l;
    var b := |a| + 1;
    EmptyThenHeadingAt(a, f, l);
    CapturesFrom(s, a, 0, b);
    assert s[b..|s|] == f + "\n" + l;
  }

  lemma CapturesFrom(s: string, h: string, p: nat, b: nat)
    requires HeadIndex(s, h) == Some(p) && BodyStart(s, h, p) == b
    ensures b <= |s| && Section(s, h) == Some(CaptureAt(s, b))
    ensures SectionAsWritten(s, h) == Some(s[b..BodyEnd(s, b)])
  {
  }

  /** Where the section under `a` starts and where the lazy capture stops. */
  lemma EmptyThenHeadingAt(a: string, f: string, l: string)
    requires HeadingShape(a) && HeadingShape(f) && BodyLine(l)
    ensures var s := a + "\n" + f + "\n" + l; var b := |a| + 1;
      && HeadIndex(s, a) == Some(0) && BodyStart(s, a, 0) == b
      && OccursAt(s, "## ", b) && BodyEnd(s, b) == |s| && s[b..] == f + "\n" + l
  {
    var s := a + "\n" + f + "\n" + l;
    var t := f + "\n" + l;
    var b := |a| + 1;
    HeadingShapeFacts(f);
    assert s[..|a|] == a && s[|a|] == '\n' && s[b..] == t;
    assert s[b] == f[0];
    HeadAtStart(s, a);
    assert s[b..b + 3] == f[..3];
    OnlyBreak(f, l);
    forall i | 0 <= i < |t| && t[i] == '\n' ensures AfterBreak(t, i) {
      assert t[i + 1] == l[0] && t[i + 2] == l[1];
    }
    assert s[b..b + |t|] == t;
    NoStopsIn(s, b, t);
    BodyEndAt(s, b, |s|);
  }

  lemma NoHeadIndex(s: string, h: string)
    requires h != [] && NoneIn(s, h, 0, |s|)
    ensures HeadIndex(s, h) == None
  {
    if HeadIndex(s, h).Some? {
      assert false;
    }
  }

  /** No occurrence of `h` starts in the text before `f`, nor, when `f` is not `h` either, anywhere. */
  lemma HeadingsAbsent(a: string, f: string, l: string, h: string)
    requires HeadingShape(a) && HeadingShape(f) && HashFree(l) && Distinct(a, h)
    ensures var s := a + "\n" + f + "\n" + l;
      NoneIn(s, h, 0, |a| + 1) && (Distinct(f, h) ==> NoneIn(s, h, 0, |s|))
  {
    var s := a + "\n" + f + "\n" + l;
    var b := |a| + 1;
    HeadingShapeFacts(a);
    HeadingShapeFacts(f);
    assert s[..|a|] == a && s[b..b + |f|] == f;
    assert s[2..b] == a[2..] + "\n";
    OtherHeading(s, a, h, 0, b);
    if Distinct(f, h) {
      assert s[b + 2..|s|] == f[2..] + "\n" + l;
      OtherHeading(s, f, h, b, |s|);
    }
  }

  /** The section `f` after the empty one reads back as its one line. */
  lemma SecondSectionReads(a: string, f: string, l: string)
    requires HeadingShape(a) && HeadingShape(f) && BodyLine(l) && HashFree(l) && Distinct(a, f)
    ensures Section(a + "\n" + f + "\n" + l, f) == Some(l)
  {
    var pre := a + "\n";
    assert Join([l]) == l;
    assert pre + f + "\n" + Join([l]) + "" == a + "\n" + f + "\n" + l;
    HeadingsAbsent(a, f, l, f);
    SectionReadsLines(pre, f, [l], "");
  }

  /** A SUMMARY.md whose Accomplishments section is empty and directly followed by the files. */
  function LeakExample(path: string, purpose: string): string
  {
    Heading(Accomplishment) + "\n" + Heading(File) + "\n" + FileLine(path, purpose)
  }

  /** The file bullet read as an accomplishment: its text after the dash. */
  function FileBulletText(path: string, purpose: string): string
  {
    "`" + path + "` - " + purpose
  }

  /**
   * As written, the empty Accomplishments section captures the Files
   * section, so the file is also listed as an accomplishment; the
   * corrected reading lists the file only.
   */
  lemma LeakDuplicates(path: string, purpose: string)
    requires FileText((path, purpose))
    ensures Deliveries(LeakExample(path, purpose)) == [Delivery(path, File, purpose)]
    ensures DeliveriesAsWritten(LeakExample(path, purpose))
         == [Delivery(FileBulletText(path, purpose), Accomplishment, FileBulletText(path, purpose)),
             Delivery(path, File, purpose)]
  {
    var f, l := Heading(File), FileLine(path, purpose);
    var x := FileBulletText(path, purpose);
    LeakSections(path, purpose);
    LeakLine(path, purpose);
    HeadingShapes(File);
    HeadingShapeFacts(f);
    NoBulletAtHash(f);
    BulletItem(l, x);
    FileItemOf(l, path, purpose);
    NoItemOfEmpty(Accomplishment);
    OneItem(File, l, Delivery(path, File, purpose));
    LeakedItems(f, l, Delivery(x, Accomplishment, x));
    var s := LeakExample(path, purpose);
    FoundInText(s, f);
    assert Split("") == [""];
    ReadsCorrected(s, l, Delivery(path, File, purpose));
    ReadsAsWritten(s, f + "\n" + l, l, Delivery(x, Accomplishment, x), Delivery(path, File, purpose));
  }

  /** The corrected reading of a text whose sections are captured as in the example. */
  lemma ReadsCorrected(s: string, l: string, y: Delivery)
    requires s != ""
    requires Section(s, Heading(Accomplishment)) == Some("") && Section(s, Heading(Task)) == None
    requires Section(s, Heading(File)) == Some(l)
    requires Collect(ItemFn(Accomplishment), Split("")) == [] && ItemsOf(File, Split(l)) == [y]
    ensures Deliveries(s) == [y]
  {
    SectionItemsOf(s, Accomplishment, "");
    SectionItemsOf(s, File, l);
  }

  /** The reading as written of a text whose sections are captured as in the example. */
  lemma ReadsAsWritten(s: string, leak: string, l: string, x: Delivery, y: Delivery)
    requires s != ""
    requires SectionAsWritten(s, Heading(Accomplishment)) == Some(leak) && SectionAsWritten(s, Heading(Task)) == None
    requires SectionAsWritten(s, Heading(File)) == Some(l)
    requires ItemsOf(Accomplishment, Split(leak)) == [x] && ItemsOf(File, Split(l)) == [y]
    ensures DeliveriesAsWritten(s) == [x, y]
  {
    AsWrittenItemsOf(s, Accomplishment, leak);
    AsWrittenItemsOf(s, File, l);
  }

  lemma AsWrittenItemsOf(s: string, k: Kind, t: string)
    requires SectionAsWritten(s, Heading(k)) == Some(t)
    ensures SectionItemsAsWritten(s, k) == Collect(ItemFn(k), Split(t))
  {
  }

  /** A heading that is found occurs in the text, which is therefore not empty. */
  lemma FoundInText(s: string, h: string)
    requires h != [] && Section(s, h).Some?
    ensures s != ""
  {
    assert HeadAt(s, h, HeadIndex(s, h).value);
  }

  /** The three sections of the example under both captures. */
  lemma LeakSections(path: string, purpose: string)
    requires FileText((path, purpose))
    ensures var s := LeakExample(path, purpose);
      && Section(s, Heading(Accomplishment)) == Some("")
      && SectionAsWritten(s, Heading(Accomplishment)) == Some(Heading(File) + "\n" + FileLine(path, purpose))
      && Section(s, Heading(Task)) == None && SectionAsWritten(s, Heading(Task)) == None
      && Section(s, Heading(File)) == Some(FileLine(path, purpose))
      && SectionAsWritten(s, Heading(File)) == Some(FileLine(path, purpose))
  {
    var a, f, l := Heading(Accomplishment), Heading(File), FileLine(path, purpose);
    var s := LeakExample(path, purpose);
    HeadingShapes(Accomplishment);
    HeadingShapes(File);
    HeadingsDistinct(Accomplishment, File);
    HeadingsDistinct(Accomplishment, Task);
    HeadingsDistinct(File, Task);
    LeakLine(path, purpose);
    EmptyThenHeading(a, f, l);
    HeadingsAbsent(a, f, l, Heading(Task));
    NoHeadIndex(s, Heading(Task));
    SecondSectionReads(a, f, l);
    CapturesAgree(s, f);
  }

  /** The file line is a body line, free of `#`, and reads as a bullet and as a file. */
  lemma LeakLine(path: string, purpose: string)
    requires FileText((path, purpose))
    ensures BodyLine(FileLine(path, purpose)) && HashFree(FileLine(path, purpose))
    ensures Bullet(FileLine(path, purpose)) == Some(FileBulletText(path, purpose))
    ensures FileItem(FileLine(path, purpose)) == Some((path, purpose))
  {
    var l := FileLine(path, purpose);
    var x := FileBulletText(path, purpose);
    assert l == BulletLine(x);
    assert x[0] == '`' && x[|x| - 1] == purpose[|purpose| - 1];
    forall i | 0 <= i < |x| ensures !IsLineTerminator(x[i]) && x[i] != '#' {
      if 1 <= i < 1 + |path| {
        assert x[i] == path[i - 1] && path[i - 1] in path;
      } else if i >= |path| + 5 {
        assert x[i] == purpose[i - |path| - 5] && purpose[i - |path| - 5] in purpose;
      }
    }
    BulletReads(x);
    forall i | 0 <= i < |l| ensures l[i] != '\n' && l[i] != '#' {
      if i >= 2 {
        assert l[i] == x[i - 2];
      }
    }
    FileLineReads(path, purpose);
  }

  lemma NoBulletAtHash(l: string)
    requires l != [] && l[0] == '#'
    ensures ItemOf(Accomplishment, l) == None
  {
    WsEndAt(l, 0, 0);
  }

  lemma BulletItem(l: string, x: string)
    requires Bullet(l) == Some(x)
    ensures ItemOf(Accomplishment, l) == Some(Delivery(x, Accomplishment, x))
  {
  }

  lemma FileItemOf(l: string, path: string, purpose: string)
    requires FileItem(l) == Some((path, purpose))
    ensures ItemOf(File, l) == Some(Delivery(path, File, purpose))
  {
  }

  /** A line without a newline gives its one delivery. */
  lemma OneItem(k: Kind, l: string, d: Delivery)
    requires ItemOf(k, l) == Some(d) && NoNewline(l)
    ensures ItemsOf(k, Split(l)) == [d]
  {
    SplitNoNewline(l);
    assert ItemFn(k)(l) == Some(d);
    CollectAll(ItemFn(k), [l], [d]);
  }

  /** Two lines read for accomplishments, the first giving none. */
  lemma LeakedItems(f: string, l: string, d: Delivery)
    requires ItemOf(Accomplishment, f) == None && ItemOf(Accomplishment, l) == Some(d)
    requires NoNewline(f) && NoNewline(l)
    ensures ItemsOf(Accomplishment, Split(f + "\n" + l)) == [d]
  {
    SplitJoin([f, l]);
    assert Join([f, l]) == f + "\n" + l;
    var ls := [f, l];
    assert ItemFn(Accomplishment)(f) == None && ItemFn(Accomplishment)(l) == Some(d);
    CollectTwo(ItemFn(Accomplishment), f, l, d);
  }

  lemma CollectTwo(g: string -> Option<Delivery>, f: string, l: string, d: Delivery)
    requires g(f) == None && g(l) == Some(d)
    ensures Collect(g, [f, l]) == [d]
  {
    var ls := [f, l];
    assert ls[..1] == [f] && ls[..1][..0] == [];
    assert Collect(g, [f]) == Collect(g, []) + Opt(g(f)) == [];
    assert Collect(g, ls) == Collect(g, ls[..1]) + Opt(g(ls[1]));
  }
}

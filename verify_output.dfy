/**
 * The two report writers of `src/verify-work.js`: VERIFICATION.md
 * (`buildVerificationContent`) and UAT.md (`buildUATContent`). Each
 * document is a frontmatter block followed by a body built line by line;
 * the specification functions give the document as its list of lines.
 */
module VerifyOutput {
  import opened Wrappers
  import opened Text
  import VerifyWork
  import PlanFrontmatter

  // =====================================================================
  // shared pieces
  // =====================================================================

  /** `parseInt(phase.split('-')[0], 10) || phase`, as the heading prints it. */
  function PhaseLabel(phase: string): string
  {
    var n := VerifyWork.ParseInt(SplitOn(phase, '-')[0]);
    if n.Num? && n.value != 0 then VerifyWork.NumberText(n) else phase
  }

  /** A frontmatter line `key: value`. */
  function Field(key: string, v: string): string { key + ": " + v }

  /** JavaScript truthiness of an optional string. */
  predicate Truthy(o: Option<string>) { o.Some? && o.value != "" }

  /** `${x}` of a value that may be undefined. */
  function Shown(o: Option<string>): string { if o.Some? then o.value else "undefined" }

  function YesNo(b: bool): string { if b then "Yes" else "No" }

  function PassFail(status: string): string { if status == "pass" then "PASS" else "FAIL" }

  /** One row per item, in order. */
  function Rows<T>(f: T -> string, xs: seq<T>): (r: seq<string>)
    ensures |r| == |xs| && forall i :: 0 <= i < |xs| ==> r[i] == f(xs[i])
  {
    if xs == [] then [] else Rows(f, xs[..|xs| - 1]) + [f(xs[|xs| - 1])]
  }

  /** The `for (...) body += row + '\n'` loops. */
  method AppendRows<T>(body: string, f: T -> string, xs: seq<T>) returns (r: string)
    ensures r == body + Block(Rows(f, xs))
  {
    r := body;
    var j := 0;
    while j < |xs|
      invariant j <= |xs|
      invariant r == body + Block(Rows(f, xs[..j]))
    {
      assert xs[..j + 1][..j] == xs[..j];
      AppendLines(body, Rows(f, xs[..j]), [f(xs[j])]);
      r := r + Block([f(xs[j])]);
      j := j + 1;
    }
    assert xs[..j] == xs;
  }

  /** A document: `---`, the fields, `---`, then the body lines (the body opens with a blank line). */
  lemma DocumentText(fields: seq<string>, head: seq<string>, rest: seq<string>)
    requires fields != []
    ensures Block(["---"] + fields + ["---"] + head + rest)
      == ("---\n" + Join(fields) + "\n---") + ("\n" + Block(head) + Block(rest))
  {
    var A := ["---"] + fields;
    var B := A + ["---"];
    var C := B + head;
    var J := Join(fields);
    var H := Block(head);
    var R := Block(rest);
    calc {
      Block(C + rest);
      { BlockConcat(C, rest); }
      Block(C) + R;
      { BlockConcat(B, head); }
      Block(B) + H + R;
      { BlockConcat(A, ["---"]); BlockOne("---"); }
      Block(A) + "---\n" + H + R;
      { BlockConcat(["---"], fields); BlockIsJoin(fields); BlockOne("---"); }
      "---\n" + (J + "\n") + "---\n" + H + R;
      { Regroup(J, H, R); }
      ("---\n" + J + "\n---") + ("\n" + H + R);
    }
  }

  lemma Regroup(J: string, H: string, R: string)
    ensures "---\n" + (J + "\n") + "---\n" + H + R == ("---\n" + J + "\n---") + ("\n" + H + R)
  {
    assert (J + "\n") + "---\n" == J + "\n---" + "\n";
  }

  lemma BlockOne(l: string)
    ensures Block([l]) == l + "\n"
  {
    assert [l][1..] == [];
  }

  lemma AppendTwo(body: string, done: seq<string>, a: seq<string>, b: seq<string>)
    ensures body + Block(done) + Block(a) + Block(b) == body + Block(done + (a + b))
  {
    BlockConcat(a, b);
    BlockConcat(done, a + b);
  }

  /** Appending whole lines to a text of whole lines. */
  lemma AppendLines(body: string, done: seq<string>, more: seq<string>)
    ensures body + Block(done) + Block(more) == body + Block(done + more)
  {
    BlockConcat(done, more);
  }

  // ---------------------------------------------------------------------
  // the frontmatter read back
  // ---------------------------------------------------------------------

  /** A frontmatter line: one line that does not open with `-`. */
  predicate KeyLine(l: string)
  {
    l != [] && l[0] != '-' && forall i :: 0 <= i < |l| ==> !IsLineTerminator(l[i])
  }

  predicate KeyLines(ls: seq<string>)
  {
    forall k :: 0 <= k < |ls| ==> KeyLine(ls[k])
  }

  /** Each character of the joined lines is a line character or a newline followed by a line's first character. */
  predicate KeyBreaks(t: string)
  {
    forall i :: 0 <= i < |t| ==> KeyChar(t, i)
  }

  predicate KeyChar(t: string, i: nat)
    requires i < |t|
  {
    if t[i] == '\n' then i + 1 < |t| && t[i + 1] != '-' else !IsLineTerminator(t[i])
  }

  lemma {:induction false} JoinKeyBreaks(ls: seq<string>)
    requires ls != [] && KeyLines(ls)
    decreases |ls|
    ensures KeyBreaks(Join(ls))
  {
    if |ls| > 1 {
      var t' := Join(ls[1..]);
      JoinKeyBreaks(ls[1..]);
      JoinStartsWith(ls[1..]);
      assert t'[0] == ls[1][0];
      var t := Join(ls);
      assert t == ls[0] + "\n" + t';
      var n := |ls[0]|;
      forall i | 0 <= i < |t| ensures KeyChar(t, i) {
        if i < n {
          assert t[i] == ls[0][i];
        } else if i > n {
          assert t[i] == t'[i - n - 1];
          assert KeyChar(t', i - n - 1);
          assert i + 1 < |t| ==> t[i + 1] == t'[i - n];
        } else {
          assert t[i + 1] == t'[0];
        }
      }
    }
  }

  lemma NoCloseIn(t: string)
    requires KeyBreaks(t)
    ensures forall i :: 0 <= i < |t| ==> !PlanFrontmatter.ClosesAt(t + "\n---", i)
  {
    var u := t + "\n---";
    forall i | 0 <= i < |t| ensures !PlanFrontmatter.ClosesAt(u, i) {
      assert KeyChar(t, i);
      assert u[i] == t[i];
      assert i + 1 < |t| ==> u[i + 1] == t[i + 1];
      assert i + 5 <= |u| ==> u[i..i + 5][0] == u[i];
      assert i + 4 <= |u| ==> u[i..i + 4][0] == u[i] && u[i..i + 4][1] == u[i + 1];
    }
  }

  /**
   * The frontmatter block of a document written as above is exactly its
   * field lines, and its first field reads back with its value.
   */
  lemma FrontmatterReads(key: string, v: string, ls: seq<string>, body: string)
    requires |ls| >= 2 && ls[0] == Field(key, v) && KeyLines(ls)
    requires v != [] && IsTrimmed(v)
    ensures PlanFrontmatter.FrontText("---\n" + Join(ls) + "\n---" + body) == Some(Join(ls))
    ensures PlanFrontmatter.ScalarField(Join(ls), key) == Some(PlanFrontmatter.Typed(v))
  {
    FrontBlockReads(ls, body);
    FirstFieldReads(key, v, ls);
  }

  lemma FrontBlockReads(ls: seq<string>, body: string)
    requires ls != [] && KeyLines(ls)
    ensures PlanFrontmatter.FrontText("---\n" + Join(ls) + "\n---" + body) == Some(Join(ls))
  {
    JoinKeyBreaks(ls);
    NoCloseIn(Join(ls));
    PlanFrontmatter.FrontTextOf(Join(ls), body);
  }

  lemma FirstFieldReads(key: string, v: string, ls: seq<string>)
    requires |ls| >= 2 && ls[0] == Field(key, v) && KeyLine(ls[0])
    requires v != [] && IsTrimmed(v)
    ensures PlanFrontmatter.ScalarField(Join(ls), key) == Some(PlanFrontmatter.Typed(v))
  {
    assert forall i :: 0 <= i < |v| ==> v[i] == ls[0][|key| + 2 + i];
    assert Join(ls) == key + ": " + v + "\n" + Join(ls[1..]);
    PlanFrontmatter.ScalarLineReads(key, v, Join(ls[1..]));
  }

  // =====================================================================
  // VERIFICATION.md
  // =====================================================================

  datatype TruthCheck = TruthCheck(text: string, status: string)

  datatype ArtifactResult = ArtifactResult(path: string, present: bool, substantive: Option<string>, wired: bool, status: string)

  datatype LinkResult = LinkResult(from: string, to: Option<string>, via: Option<string>, found: bool, status: string)

  /** One plan's results; each list may be absent. */
  datatype PlanResult = PlanResult(
    planId: string,
    truths: Option<seq<TruthCheck>>,
    artifacts: Option<seq<ArtifactResult>>,
    keyLinks: Option<seq<LinkResult>>)

  datatype CheckSummary = CheckSummary(totalChecks: nat, passed: nat, failed: nat, skipped: nat)

  datatype Verification = Verification(phase: string, phaseName: string, plans: seq<PlanResult>, created: string, summary: CheckSummary)

  /** `summary.failed > 0 ? 'fail' : 'pass'`. */
  function OverallStatus(s: CheckSummary): string
  {
    if s.failed > 0 then "fail" else "pass"
  }

  function VerificationFront(d: Verification): seq<string>
  {
    [Field("status", OverallStatus(d.summary)), Field("phase", d.phase), Field("created", d.created),
     Field("total", NatToString(d.summary.totalChecks)), Field("passed", NatToString(d.summary.passed)),
     Field("failed", NatToString(d.summary.failed))]
  }

  function VerificationHead(d: Verification): seq<string>
  {
    var s := d.summary;
    ["", "# Phase " + PhaseLabel(d.phase) + ": " + d.phaseName + " - Verification", "", "## Summary", "",
     NatToString(s.passed) + "/" + NatToString(s.totalChecks) + " checks passed (" + NatToString(s.failed)
     + " failed, " + NatToString(s.skipped) + " skipped)"]
  }

  predicate Listed<T>(o: Option<seq<T>>) { o.Some? && |o.value| > 0 }

  function TruthRow(t: TruthCheck): string
  {
    "- " + (if t.status == "pass" then "[x]" else "[ ]") + " \"" + t.text + "\""
  }

  function ArtifactRow(a: ArtifactResult): string
  {
    TableRow([a.path, YesNo(a.present), if Truthy(a.substantive) then a.substantive.value else "-", YesNo(a.wired), PassFail(a.status)])
  }

  function LinkRow(l: LinkResult): string
  {
    TableRow([l.from, Shown(l.to), Shown(l.via), YesNo(l.found), PassFail(l.status)])
  }

  /** A markdown table row `| a | b | ... |`. */
  function TableRow(cells: seq<string>): (r: string)
    ensures r != [] && r[0] == '|'
  {
    "|" + Cells(cells)
  }

  function Cells(cells: seq<string>): string
  {
    if cells == [] then "" else " " + cells[0] + " |" + Cells(cells[1..])
  }

  /** A table's separator row: a run of dashes per column. */
  function TableRule(widths: seq<nat>): (r: string)
    ensures r != [] && r[0] == '|'
  {
    "|" + Dashes(widths)
  }

  function Dashes(widths: seq<nat>): string
  {
    if widths == [] then "" else Repeat('-', widths[0]) + "|" + Dashes(widths[1..])
  }

  const ArtifactsHeader := ["### Artifacts", TableRow(["Path", "Exists", "Substantive", "Wired", "Status"]), TableRule([6, 8, 13, 7, 8])]

  const LinksHeader := ["### Key Links", TableRow(["From", "To", "Via", "Found", "Status"]), TableRule([6, 4, 4, 7, 8])]

  function TruthsBlock(p: PlanResult): seq<string>
  {
    if Listed(p.truths) then ["", "### Truths"] + Rows(TruthRow, p.truths.value) else []
  }

  function ArtifactsBlock(p: PlanResult): seq<string>
  {
    if Listed(p.artifacts) then [""] + ArtifactsHeader + Rows(ArtifactRow, p.artifacts.value) else []
  }

  function LinksBlock(p: PlanResult): seq<string>
  {
    if Listed(p.keyLinks) then [""] + LinksHeader + Rows(LinkRow, p.keyLinks.value) else []
  }

  function PlanLines(p: PlanResult): seq<string>
  {
    ["", "## Plan " + p.planId] + TruthsBlock(p) + ArtifactsBlock(p) + LinksBlock(p)
  }

  function PlansLines(ps: seq<PlanResult>): seq<string>
  {
    FlatMap(PlanLines, ps)
  }

  function VerificationLines(d: Verification): seq<string>
  {
    ["---"] + VerificationFront(d) + ["---"] + VerificationHead(d) + PlansLines(d.plans)
  }

  /** The content of VERIFICATION.md. */
  function VerificationText(d: Verification): string
  {
    Block(VerificationLines(d))
  }

  /** One plan's section, appended block by block. */
  method AppendPlan(body: string, p: PlanResult) returns (r: string)
    ensures r == body + Block(PlanLines(p))
  {
    var head := ["", "## Plan " + p.planId];
    r := body + Block(head);
    r := AppendTruths(r, p);
    AppendLines(body, head, TruthsBlock(p));
    r := AppendArtifacts(r, p);
    AppendLines(body, head + TruthsBlock(p), ArtifactsBlock(p));
    r := AppendLinks(r, p);
    AppendLines(body, head + TruthsBlock(p) + ArtifactsBlock(p), LinksBlock(p));
  }

  method AppendTruths(body: string, p: PlanResult) returns (r: string)
    ensures r == body + Block(TruthsBlock(p))
  {
    r := body;
    if p.truths.Some? && |p.truths.value| > 0 {
      r := r + Block(["", "### Truths"]);
      r := AppendRows(r, TruthRow, p.truths.value);
      AppendLines(body, ["", "### Truths"], Rows(TruthRow, p.truths.value));
    }
  }

  method AppendArtifacts(body: string, p: PlanResult) returns (r: string)
    ensures r == body + Block(ArtifactsBlock(p))
  {
    r := body;
    if p.artifacts.Some? && |p.artifacts.value| > 0 {
      r := r + Block([""] + ArtifactsHeader);
      r := AppendRows(r, ArtifactRow, p.artifacts.value);
      AppendLines(body, [""] + ArtifactsHeader, Rows(ArtifactRow, p.artifacts.value));
    }
  }

  method AppendLinks(body: string, p: PlanResult) returns (r: string)
    ensures r == body + Block(LinksBlock(p))
  {
    r := body;
    if p.keyLinks.Some? && |p.keyLinks.value| > 0 {
      r := r + Block([""] + LinksHeader);
      r := AppendRows(r, LinkRow, p.keyLinks.value);
      AppendLines(body, [""] + LinksHeader, Rows(LinkRow, p.keyLinks.value));
    }
  }

  /** `buildVerificationContent`: the frontmatter template, then the body built plan by plan. */
  method BuildVerificationContent(d: Verification) returns (text: string)
    ensures text == VerificationText(d)
  {
    var frontmatter := "---\n" + Join(VerificationFront(d)) + "\n---";
    var head := "\n" + Block(VerificationHead(d));
    var body := head;
    var i := 0;
    while i < |d.plans|
      invariant i <= |d.plans|
      invariant body == head + Block(PlansLines(d.plans[..i]))
    {
      assert d.plans[..i + 1][..i] == d.plans[..i];
      AppendLines(head, PlansLines(d.plans[..i]), PlanLines(d.plans[i]));
      body := AppendPlan(body, d.plans[i]);
      i := i + 1;
    }
    assert d.plans[..i] == d.plans;
    text := frontmatter + body;
    DocumentText(VerificationFront(d), VerificationHead(d), PlansLines(d.plans));
  }

  // ---------------------------------------------------------------------
  // properties
  // ---------------------------------------------------------------------

  /** The overall status is `fail` exactly when some check failed. */
  lemma OverallStatusIff(s: CheckSummary)
    ensures OverallStatus(s) == "fail" <==> s.failed > 0
    ensures OverallStatus(s) == "pass" <==> s.failed == 0
  {
  }

  /** What a parser of the frontmatter finds: the whole field block, and the overall status first. */
  lemma VerificationStatusReads(d: Verification)
    requires forall i :: 0 <= i < |d.phase| ==> !IsLineTerminator(d.phase[i])
    requires forall i :: 0 <= i < |d.created| ==> !IsLineTerminator(d.created[i])
    ensures var front := Join(VerificationFront(d));
      && PlanFrontmatter.FrontText(VerificationText(d)) == Some(front)
      && PlanFrontmatter.ScalarField(front, "status") == Some(PlanFrontmatter.Str(if d.summary.failed > 0 then "fail" else "pass"))
  {
    var f := VerificationFront(d);
    var body := "\n" + Block(VerificationHead(d)) + Block(PlansLines(d.plans));
    assert VerificationText(d) == "---\n" + Join(f) + "\n---" + body by {
      DocumentText(f, VerificationHead(d), PlansLines(d.plans));
    }
    VerificationFrontLines(d);
    StatusWord(d.summary);
    FrontmatterReads("status", OverallStatus(d.summary), f, body);
  }

  lemma StatusWord(s: CheckSummary)
    ensures OverallStatus(s) != [] && IsTrimmed(OverallStatus(s))
    ensures PlanFrontmatter.Typed(OverallStatus(s)) == PlanFrontmatter.Str(OverallStatus(s))
  {
    assert !IsDigit(OverallStatus(s)[0]);
  }

  lemma VerificationFrontLines(d: Verification)
    requires forall i :: 0 <= i < |d.phase| ==> !IsLineTerminator(d.phase[i])
    requires forall i :: 0 <= i < |d.created| ==> !IsLineTerminator(d.created[i])
    ensures KeyLines(VerificationFront(d))
  {
    var s := d.summary;
    FieldLine("status", OverallStatus(s));
    FieldLine("phase", d.phase);
    FieldLine("created", d.created);
    NumberFieldLine("total", s.totalChecks);
    NumberFieldLine("passed", s.passed);
    NumberFieldLine("failed", s.failed);
  }

  lemma NumberFieldLine(key: string, n: nat)
    requires key != [] && key[0] != '-'
    requires forall i :: 0 <= i < |key| ==> !IsLineTerminator(key[i])
    ensures KeyLine(Field(key, NatToString(n)))
  {
    NatToStringLine(n);
    FieldLine(key, NatToString(n));
  }

  lemma NatToStringLine(n: nat)
    ensures forall i :: 0 <= i < |NatToString(n)| ==> !IsLineTerminator(NatToString(n)[i])
  {
    var s := NatToString(n);
    forall i | 0 <= i < |s| ensures !IsLineTerminator(s[i]) { assert IsDigit(s[i]); }
  }

  lemma FieldLine(key: string, v: string)
    requires key != [] && key[0] != '-'
    requires forall i :: 0 <= i < |key| ==> !IsLineTerminator(key[i])
    requires forall i :: 0 <= i < |v| ==> !IsLineTerminator(v[i])
    ensures KeyLine(Field(key, v))
  {
    var l := Field(key, v);
    forall i | 0 <= i < |l| ensures !IsLineTerminator(l[i]) {
      if i < |key| { assert l[i] == key[i]; }
      else if i >= |key| + 2 { assert l[i] == v[i - |key| - 2]; }
    }
  }

  /** A truth is ticked exactly when it passed. */
  lemma TruthRowTicked(t: TruthCheck)
    ensures StartsWith(TruthRow(t), "- [x]") <==> t.status == "pass"
  {
    var c := if t.status == "pass" then "[x]" else "[ ]";
    assert TruthRow(t) == "- " + c + (" \"" + t.text + "\"");
    assert TruthRow(t)[3] == c[1];
    if t.status == "pass" {
      assert TruthRow(t)[..5] == "- [x]";
    } else {
      assert "- [x]"[3] == 'x';
    }
  }

  /** A plan's section has a Truths, Artifacts or Key Links block exactly when that list is non-empty. */
  lemma PlanBlocksIff(p: PlanResult)
    ensures "### Truths" in PlanLines(p) <==> Listed(p.truths)
    ensures "### Artifacts" in PlanLines(p) <==> Listed(p.artifacts)
    ensures "### Key Links" in PlanLines(p) <==> Listed(p.keyLinks)
  {
    TruthsHeadings(p);
    ArtifactsHeadings(p);
    LinksHeadings(p);
    PlanHeadingNotBlock(p.planId);
  }

  /** Each row of a list starts with the same character. */
  predicate RowsOpenWith(ls: seq<string>, c: char)
  {
    forall l :: l in ls ==> l != [] && l[0] == c
  }

  lemma TruthsHeadings(p: PlanResult)
    ensures "### Truths" in TruthsBlock(p) <==> Listed(p.truths)
    ensures "### Artifacts" !in TruthsBlock(p) && "### Key Links" !in TruthsBlock(p)
  {
    if Listed(p.truths) {
      var rs := Rows(TruthRow, p.truths.value);
      RowsOpen(TruthRow, p.truths.value, '-');
    }
  }

  lemma ArtifactsHeadings(p: PlanResult)
    ensures "### Artifacts" in ArtifactsBlock(p) <==> Listed(p.artifacts)
    ensures "### Truths" !in ArtifactsBlock(p) && "### Key Links" !in ArtifactsBlock(p)
  {
    if Listed(p.artifacts) {
      var rs := Rows(ArtifactRow, p.artifacts.value);
      RowsOpen(ArtifactRow, p.artifacts.value, '|');
      var h := ArtifactsHeader;
      assert h[1][0] == '|' && h[2][0] == '|';
      InTable("### Artifacts", h, rs);
      InTable("### Truths", h, rs);
      InTable("### Key Links", h, rs);
      BlockHeadingsDiffer();
    }
  }

  lemma LinksHeadings(p: PlanResult)
    ensures "### Key Links" in LinksBlock(p) <==> Listed(p.keyLinks)
    ensures "### Truths" !in LinksBlock(p) && "### Artifacts" !in LinksBlock(p)
  {
    if Listed(p.keyLinks) {
      var rs := Rows(LinkRow, p.keyLinks.value);
      RowsOpen(LinkRow, p.keyLinks.value, '|');
      var h := LinksHeader;
      assert h[1][0] == '|' && h[2][0] == '|';
      InTable("### Artifacts", h, rs);
      InTable("### Truths", h, rs);
      InTable("### Key Links", h, rs);
      BlockHeadingsDiffer();
    }
  }

  lemma {:induction false} RowsOpen<T>(f: T -> string, xs: seq<T>, c: char)
    requires forall x :: f(x) != [] && f(x)[0] == c
    ensures RowsOpenWith(Rows(f, xs), c)
  {
    var rs := Rows(f, xs);
    forall l | l in rs ensures l != [] && l[0] == c {
      var i :| 0 <= i < |rs| && rs[i] == l;
    }
  }

  lemma BlockHeadingsDiffer()
    ensures "### Key Links" != "### Artifacts"
  {
    assert "### Key Links"[4] == 'K';
    assert "### Artifacts"[4] == 'A';
  }

  /** In a table block, the only line that opens with `#` is its heading. */
  lemma InTable(x: string, h: seq<string>, rows: seq<string>)
    requires x != [] && x[0] == '#'
    requires |h| == 3 && h[1] != [] && h[1][0] == '|' && h[2] != [] && h[2][0] == '|'
    requires RowsOpenWith(rows, '|')
    ensures x in [""] + h + rows <==> x == h[0]
  {
    assert x !in rows;
    assert [""] + h == ["", h[0], h[1], h[2]];
  }

  lemma PlanHeadingNotBlock(id: string)
    ensures "## Plan " + id != "### Truths" && "## Plan " + id != "### Artifacts" && "## Plan " + id != "### Key Links"
  {
    assert ("## Plan " + id)[2] == ' ';
  }

  // =====================================================================
  // UAT.md
  // =====================================================================

  datatype UatTest = UatTest(name: string, expected: string, result: string, issue: Option<string>, severity: Option<string>)

  datatype Uat = Uat(phase: string, phaseName: string, tests: seq<UatTest>, status: string, created: string, updated: string)

  /** `tests.filter(t => t.result === r).length`. */
  function CountResult(ts: seq<UatTest>, r: string): nat
  {
    if ts == [] then 0 else CountResult(ts[..|ts| - 1], r) + (if ts[|ts| - 1].result == r then 1 else 0)
  }

  function UatFront(d: Uat): seq<string>
  {
    [Field("status", d.status), Field("phase", d.phase), Field("created", d.created), Field("updated", d.updated),
     Field("total", NatToString(|d.tests|)), Field("passed", NatToString(CountResult(d.tests, "pass"))),
     Field("failed", NatToString(CountResult(d.tests, "fail"))),
     Field("skipped", NatToString(CountResult(d.tests, "skipped"))),
     Field("pending", NatToString(CountResult(d.tests, "pending")))]
  }

  function UatHead(d: Uat): seq<string>
  {
    ["", "# Phase " + PhaseLabel(d.phase) + ": " + d.phaseName + " - UAT", "", "## Test Results"]
  }

  function TestHeading(n: nat, t: UatTest): string
  {
    "### Test " + NatToString(n) + ": " + t.name
  }

  /** `t.severity || 'unknown'`. */
  function SeverityText(t: UatTest): string
  {
    if Truthy(t.severity) then t.severity.value else "unknown"
  }

  /** Test number `n`: its heading, expectation and result, and the issue with its severity when there is one. */
  function TestLines(n: nat, t: UatTest): seq<string>
  {
    ["", TestHeading(n, t)] + TestDetails(t)
  }

  /** The bullet lines under a test's heading. */
  function TestDetails(t: UatTest): seq<string>
  {
    ["- **Expected:** " + t.expected, "- **Result:** " + t.result]
    + (if Truthy(t.issue) then ["- **Issue:** " + t.issue.value, "- **Severity:** " + SeverityText(t)] else [])
  }

  /** The tests numbered from `k + 1`. */
  function TestsLines(ts: seq<UatTest>, k: nat): seq<string>
  {
    if ts == [] then [] else TestsLines(ts[..|ts| - 1], k) + TestLines(k + |ts|, ts[|ts| - 1])
  }

  function UatLines(d: Uat): seq<string>
  {
    ["---"] + UatFront(d) + ["---"] + UatHead(d) + TestsLines(d.tests, 0)
  }

  /** The content of UAT.md. */
  function UatText(d: Uat): string
  {
    Block(UatLines(d))
  }

  /** One test's lines, appended block by block. */
  method AppendTest(body: string, n: nat, t: UatTest) returns (r: string)
    ensures r == body + Block(TestLines(n, t))
  {
    var head := ["", "### Test " + NatToString(n) + ": " + t.name];
    var outcome := ["- **Expected:** " + t.expected, "- **Result:** " + t.result];
    r := body + Block(head);
    r := r + Block(outcome);
    var issue: seq<string> := [];
    if t.issue.Some? && t.issue.value != "" {
      var severity := if t.severity.Some? && t.severity.value != "" then t.severity.value else "unknown";
      issue := ["- **Issue:** " + t.issue.value, "- **Severity:** " + severity];
      r := r + Block(issue);
    }
    AppendTwo(body, head, outcome, issue);
  }

  /** `buildUATContent`: the frontmatter template, then the body built test by test. */
  method BuildUatContent(d: Uat) returns (text: string)
    ensures text == UatText(d)
  {
    var frontmatter := "---\n" + Join(UatFront(d)) + "\n---";
    var head := "\n" + Block(UatHead(d));
    var body := head;
    var i := 0;
    while i < |d.tests|
      invariant i <= |d.tests|
      invariant body == head + Block(TestsLines(d.tests[..i], 0))
    {
      assert d.tests[..i + 1][..i] == d.tests[..i];
      AppendLines(head, TestsLines(d.tests[..i], 0), TestLines(i + 1, d.tests[i]));
      body := AppendTest(body, i + 1, d.tests[i]);
      i := i + 1;
    }
    assert d.tests[..i] == d.tests;
    text := frontmatter + body;
    DocumentText(UatFront(d), UatHead(d), TestsLines(d.tests, 0));
  }

  // ---------------------------------------------------------------------
  // properties
  // ---------------------------------------------------------------------

  predicate KnownResult(r: string) { r == "pass" || r == "fail" || r == "skipped" || r == "pending" }

  /**
   * The four counts never exceed the number of tests, and add up to it
   * exactly when every result is one of the four.
   */
  lemma {:induction false} CountsAddUp(ts: seq<UatTest>)
    decreases |ts|
    ensures var sum := CountResult(ts, "pass") + CountResult(ts, "fail") + CountResult(ts, "skipped") + CountResult(ts, "pending");
      sum <= |ts| && (sum == |ts| <==> forall i :: 0 <= i < |ts| ==> KnownResult(ts[i].result))
  {
    if ts != [] {
      var m := |ts| - 1;
      CountsAddUp(ts[..m]);
      assert forall i :: 0 <= i < m ==> ts[..m][i] == ts[i];
    }
  }

  /** The lines of a list that are `### ` headings, in order. */
  function Headings(ls: seq<string>): seq<string>
  {
    if ls == [] then [] else Headings(ls[..|ls| - 1]) + (if StartsWith(ls[|ls| - 1], "### ") then [ls[|ls| - 1]] else [])
  }

  lemma {:induction false} HeadingsAppend(a: seq<string>, b: seq<string>)
    decreases |b|
    ensures Headings(a + b) == Headings(a) + Headings(b)
  {
    if b == [] {
      assert a + b == a;
    } else {
      var m := |b| - 1;
      HeadingsAppend(a, b[..m]);
      assert (a + b)[..|a + b| - 1] == a + b[..m];
      assert (a + b)[|a + b| - 1] == b[m];
    }
  }

  lemma HeadingsOne(l: string)
    ensures Headings([l]) == if StartsWith(l, "### ") then [l] else []
  {
    assert [l][..0] == [];
  }

  /** Bullet lines hold no heading. */
  lemma {:induction false} NoHeadings(ls: seq<string>)
    requires forall i :: 0 <= i < |ls| ==> ls[i] != [] && ls[i][0] == '-'
    decreases |ls|
    ensures Headings(ls) == []
  {
    if ls != [] {
      var m := |ls| - 1;
      OpensWithAt(ls[m], "### ", 0);
      NoHeadings(ls[..m]);
    }
  }

  /** The only heading among one test's lines is its numbered one. */
  lemma TestHeadings(n: nat, t: UatTest)
    ensures Headings(TestLines(n, t)) == [TestHeading(n, t)]
  {
    var h := TestHeading(n, t);
    assert StartsWith(h, "### ") by { assert h[..4] == "### "; }
    HeadingsOne("");
    HeadingsOne(h);
    HeadingsAppend([""], [h]);
    assert ["", h] == [""] + [h];
    NoHeadings(TestDetails(t));
    HeadingsAppend(["", h], TestDetails(t));
  }

  /** UAT.md numbers its tests 1 to n, in order, one heading each. */
  lemma {:induction false} TestsNumbered(ts: seq<UatTest>, k: nat)
    decreases |ts|
    ensures Headings(TestsLines(ts, k)) == seq(|ts|, i requires 0 <= i < |ts| => TestHeading(k + i + 1, ts[i]))
  {
    if ts != [] {
      var m := |ts| - 1;
      TestsNumbered(ts[..m], k);
      HeadingsAppend(TestsLines(ts[..m], k), TestLines(k + |ts|, ts[m]));
      TestHeadings(k + |ts|, ts[m]);
    }
  }

  /** A severity line is written exactly when the test has an issue, and then it defaults to `unknown`. */
  lemma SeverityIff(n: nat, t: UatTest)
    ensures (exists l :: l in TestLines(n, t) && StartsWith(l, "- **Severity:** ")) <==> Truthy(t.issue)
    ensures Truthy(t.issue) ==> TestLines(n, t)[5] == "- **Severity:** " + (if Truthy(t.severity) then t.severity.value else "unknown")
  {
    var ls := TestLines(n, t);
    var sev := "- **Severity:** ";
    assert sev[4] == 'S';
    if Truthy(t.issue) {
      assert ls[5] == sev + SeverityText(t);
      assert ls[5][..|sev|] == sev;
      assert ls[5] in ls;
    } else {
      var h := TestHeading(n, t);
      var e := "- **Expected:** " + t.expected;
      var res := "- **Result:** " + t.result;
      assert ls == ["", h, e, res];
      assert h[4] == 'T' && e[4] == 'E' && res[4] == 'R';
      forall l | l in ls ensures !StartsWith(l, sev) {
        OpensWithAt(l, sev, 4);
      }
    }
  }

  /** A line that starts with `p` has `p`'s characters first. */
  lemma OpensWithAt(l: string, p: string, k: nat)
    requires k < |p|
    ensures StartsWith(l, p) ==> |l| > k && l[k] == p[k]
  {
    if StartsWith(l, p) {
      assert l[..|p|][k] == l[k];
    }
  }

  /** What a parser of the frontmatter finds: the whole field block, and the status first. */
  lemma UatStatusReads(d: Uat)
    requires d.status != [] && IsTrimmed(d.status)
    requires forall i :: 0 <= i < |d.status| ==> !IsLineTerminator(d.status[i])
    requires forall i :: 0 <= i < |d.phase| ==> !IsLineTerminator(d.phase[i])
    requires forall i :: 0 <= i < |d.created| ==> !IsLineTerminator(d.created[i])
    requires forall i :: 0 <= i < |d.updated| ==> !IsLineTerminator(d.updated[i])
    ensures var front := Join(UatFront(d));
      && PlanFrontmatter.FrontText(UatText(d)) == Some(front)
      && PlanFrontmatter.ScalarField(front, "status") == Some(PlanFrontmatter.Typed(d.status))
  {
    var f := UatFront(d);
    DocumentText(f, UatHead(d), TestsLines(d.tests, 0));
    var body := "\n" + Block(UatHead(d)) + Block(TestsLines(d.tests, 0));
    assert UatText(d) == "---\n" + Join(f) + "\n---" + body;
    UatFrontLines(d);
    FrontmatterReads("status", d.status, f, body);
  }

  lemma UatFrontLines(d: Uat)
    requires d.status != []
    requires forall i :: 0 <= i < |d.status| ==> !IsLineTerminator(d.status[i])
    requires forall i :: 0 <= i < |d.phase| ==> !IsLineTerminator(d.phase[i])
    requires forall i :: 0 <= i < |d.created| ==> !IsLineTerminator(d.created[i])
    requires forall i :: 0 <= i < |d.updated| ==> !IsLineTerminator(d.updated[i])
    ensures KeyLines(UatFront(d))
  {
    var ts := d.tests;
    FieldLine("status", d.status);
    FieldLine("phase", d.phase);
    FieldLine("created", d.created);
    FieldLine("updated", d.updated);
    NumberFieldLine("total", |ts|);
    NumberFieldLine("passed", CountResult(ts, "pass"));
    NumberFieldLine("failed", CountResult(ts, "fail"));
    NumberFieldLine("skipped", CountResult(ts, "skipped"));
    NumberFieldLine("pending", CountResult(ts, "pending"));
  }

  // ---------------------------------------------------------------------
  // the phase number
  // ---------------------------------------------------------------------

  lemma ParseIntAllDigits(s: string)
    requires s != [] && AllDigits(s)
    ensures VerifyWork.ParseInt(s) == VerifyWork.Num(DigitsValue(s))
  {
    assert WsEnd(s, 0) == 0 by { assert IsDigit(s[0]); }
    VerifyWork.DigitsEndAll(s, 0);
    assert s[0..|s|] == s;
  }

  /** A phase named `NN-slug` is headed by its number without leading zeros. */
  lemma PhaseLabelOfPadded(n: nat, slug: string)
    requires n > 0
    ensures PhaseLabel(Pad2(n) + "-" + slug) == NatToString(n)
  {
    var d := Pad2(n);
    Pad2Value(n);
    assert '-' !in d by { forall i | 0 <= i < |d| ensures d[i] != '-' { assert IsDigit(d[i]); } }
    SplitOnAround(d, slug, '-');
    SplitOnFree(d, '-');
    assert d + "-" + slug == d + ['-'] + slug;
    ParseIntAllDigits(d);
  }

  /** A phase whose first part is not a positive number is printed as it is. */
  lemma PhaseLabelFallback(phase: string)
    requires phase == [] || !IsDigit(phase[0])
    requires phase == [] || (phase[0] != '-' && phase[0] != '+' && !IsWs(phase[0]))
    ensures PhaseLabel(phase) == phase
  {
    var p := SplitOn(phase, '-')[0];
    if p != [] {
      assert p[0] == phase[0];
    }
  }
}

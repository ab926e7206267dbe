/**
 * PROJECT.md as `writeProjectMd` in `src/project-init.js` renders it: a
 * fixed template whose lists become `- item` lines (or a placeholder when
 * empty) and whose key decisions become table rows. The overlay loop of
 * `writeConfigJson` in the same file is `Config.WriteConfigJson`.
 */
module ProjectInit {
  import opened Wrappers
  import opened Text
  import opened Lines

  datatype Decision = Decision(decision: string, rationale: string, outcome: string)

  datatype Requirements = Requirements(validated: Option<seq<string>>, active: Option<seq<string>>, outOfScope: Option<seq<string>>)

  /** The gathered project context; absent members are `None`. */
  datatype Project = Project(
    name: string,
    description: string,
    coreValue: string,
    context: string,
    constraints: Option<seq<string>>,
    requirements: Option<Requirements>,
    keyDecisions: Option<seq<Decision>>,
    date: Option<string>)

  /** `items.map(x => '- ' + x)`. */
  function Bullets(xs: seq<string>): (r: seq<string>)
    ensures |r| == |xs| && forall i :: 0 <= i < |xs| ==> r[i] == "- " + xs[i]
  {
    if xs == [] then [] else Bullets(xs[..|xs| - 1]) + ["- " + xs[|xs| - 1]]
  }

  /**
   * `(items || []).map(x => '- ' + x).join('\n') || placeholder`: the
   * placeholder for an absent or empty list (and, for a placeholder in
   * parentheses, only then), otherwise one `- item` line per item, in order.
   */
  function ListText(items: Option<seq<string>>, placeholder: string): (r: string)
    ensures items.None? || items.value == [] ==> r == placeholder
    ensures placeholder != [] && placeholder[0] == '(' ==>
      (r == placeholder <==> items.None? || items.value == [])
    ensures items.Some? && items.value != [] && (forall i :: 0 <= i < |items.value| ==> NoNewline(items.value[i])) ==>
      Split(r) == Bullets(items.value)
  {
    var xs := items.GetOr([]);
    BulletLines(xs);
    var t := Join(Bullets(xs));
    if t == "" then placeholder else t
  }

  function DecisionRow(d: Decision): string
  {
    "| " + d.decision + " | " + d.rationale + " | " + d.outcome + " |"
  }

  function DecisionRowsOf(ds: seq<Decision>): (r: seq<string>)
    ensures |r| == |ds| && forall i :: 0 <= i < |ds| ==> r[i] == DecisionRow(ds[i])
  {
    if ds == [] then [] else DecisionRowsOf(ds[..|ds| - 1]) + [DecisionRow(ds[|ds| - 1])]
  }

  /**
   * The table rows, joined: no text at all when there are no decisions,
   * otherwise one table row line per decision, in input order.
   */
  function DecisionsText(ds: Option<seq<Decision>>): (r: string)
    ensures ds.None? || ds.value == [] ==> r == ""
    ensures ds.Some? && ds.value != [] && (forall i :: 0 <= i < |ds.value| ==> NoNewline(DecisionRow(ds.value[i]))) ==>
      Split(r) == DecisionRowsOf(ds.value)
  {
    if ds.Some? && |ds.value| > 0 then
      RowLines(DecisionRow, ds.value, DecisionRowsOf(ds.value));
      Join(DecisionRowsOf(ds.value))
    else ""
  }

  /** A section of the template: heading, blank line, body, blank line. */
  function Part(heading: string, body: string): seq<string>
  {
    [heading, ""] + [body] + [""]
  }

  const NoConstraints := "(No constraints specified)"

  const NoValidated := "(Requirements confirmed during questioning)"

  const NoActive := "(Requirements being worked on)"

  const NoOutOfScope := "(Explicitly excluded features)"

  const DecisionsHead := ["## Key Decisions", "", "| Decision | Rationale | Outcome |", "|----------|-----------|---------|"]

  /** `project.date || today`. */
  function DateOf(p: Project, today: string): string
  {
    if p.date.Some? && p.date.value != "" then p.date.value else today
  }

  /** The closing block: the decisions table, a rule and the date line. */
  function DecisionsPart(p: Project, today: string): seq<string>
  {
    DecisionsHead + [DecisionsText(p.keyDecisions)] + ["", "---", "*Last updated: " + DateOf(p, today) + "*"]
  }

  /** The title and the parts up to the context. */
  function LeadingParts(p: Project): seq<string>
  {
    var req := p.requirements.GetOr(Requirements(None, None, None));
    ["# " + p.name, ""]
    + Part("## What This Is", p.description)
    + Part("## Core Value", p.coreValue)
    + ["## Requirements", ""]
    + Part("### Validated", ListText(req.validated, NoValidated))
    + Part("### Active", ListText(req.active, NoActive))
    + Part("### Out of Scope", ListText(req.outOfScope, NoOutOfScope))
    + Part("## Context", p.context)
  }

  /**
   * The lines of the template literal, given today's date for a project
   * without one: forty of them, from the `# <name>` title to the
   * last-updated line.
   */
  function ProjectLines(p: Project, today: string): (r: seq<string>)
    ensures |r| == 40 && r[0] == "# " + p.name
    ensures r[37..] == ["", "---", "*Last updated: " + DateOf(p, today) + "*"]
  {
    LeadingParts(p) + Part("## Constraints", ListText(p.constraints, NoConstraints)) + DecisionsPart(p, today)
  }

  /**
   * The content of PROJECT.md: each template line followed by a newline,
   * so the file opens with the title line and closes with the rule and the
   * last-updated line.
   */
  function ProjectMd(p: Project, today: string): (r: string)
    ensures StartsWith(r, "# " + p.name + "\n")
    ensures EndsWith(r, "\n---\n*Last updated: " + DateOf(p, today) + "*\n")
  {
    var ls := ProjectLines(p, today);
    Framing(ls, DateOf(p, today));
    Block(ls)
  }

  /**
   * Lines closing with a blank line, a rule and the last-updated line make a
   * text that opens with the first line and closes with those three.
   */
  lemma Framing(ls: seq<string>, date: string)
    requires |ls| >= 3 && ls[|ls| - 3..] == ["", "---", "*Last updated: " + date + "*"]
    ensures StartsWith(Block(ls), ls[0] + "\n")
    ensures EndsWith(Block(ls), "\n---\n*Last updated: " + date + "*\n")
  {
    var last := "*Last updated: " + date + "*";
    var head := ls[..|ls| - 3];
    assert ls == head + ["", "---", last];
    BlockConcat(head, ["", "---", last]);
    ClosingLines(date);
    EndsWithAppended(Block(head), "\n---\n*Last updated: " + date + "*\n");
    FirstLine(ls);
  }

  /** The rule and the date line, as the file's last lines. */
  lemma ClosingLines(date: string)
    ensures Block(["", "---", "*Last updated: " + date + "*"]) == "\n---\n*Last updated: " + date + "*\n"
  {
    var last := "*Last updated: " + date + "*";
    assert Block([last]) == last + "\n" by {
      assert Block([last][1..]) == "";
    }
    assert Block(["---", last]) == "---\n" + (last + "\n") by {
      assert ["---", last][1..] == [last];
    }
    assert Block(["", "---", last]) == "\n" + ("---\n" + (last + "\n")) by {
      assert ["", "---", last][1..] == ["---", last];
    }
    Glue(date);
  }

  lemma Glue(date: string)
    ensures "\n" + ("---\n" + ("*Last updated: " + date + "*" + "\n")) == "\n---\n*Last updated: " + date + "*\n"
  {
  }

  lemma FirstLine(ls: seq<string>)
    requires ls != []
    ensures StartsWith(Block(ls), ls[0] + "\n")
  {
    var b := Block(ls);
    assert b == ls[0] + "\n" + Block(ls[1..]);
    assert b[..|ls[0] + "\n"|] == ls[0] + "\n";
  }

  // ---------------------------------------------------------------------
  // lists
  // ---------------------------------------------------------------------

  lemma {:induction false} JoinOpensWith(ls: seq<string>, c: char)
    requires ls != [] && ls[0] != [] && ls[0][0] == c
    ensures Join(ls) != [] && Join(ls)[0] == c
  {
    JoinStartsWith(ls);
    assert Join(ls)[..|ls[0]|] == ls[0];
  }

  /** The bullets of a list: none for an empty list, else opening with `-`, one line per item. */
  lemma BulletLines(xs: seq<string>)
    ensures xs == [] ==> Join(Bullets(xs)) == ""
    ensures xs != [] ==> Join(Bullets(xs)) != [] && Join(Bullets(xs))[0] == '-'
    ensures xs != [] && (forall i :: 0 <= i < |xs| ==> NoNewline(xs[i])) ==> Split(Join(Bullets(xs))) == Bullets(xs)
  {
    var bs := Bullets(xs);
    if xs != [] {
      assert bs[0] == "- " + xs[0];
      JoinOpensWith(bs, '-');
      if forall i :: 0 <= i < |xs| ==> NoNewline(xs[i]) {
        forall i | 0 <= i < |bs| ensures NoNewline(bs[i]) {
          BulletNoNewline(xs[i]);
        }
        SplitJoin(bs);
      }
    }
  }

  lemma BulletNoNewline(x: string)
    requires NoNewline(x)
    ensures NoNewline("- " + x)
  {
    var b := "- " + x;
    forall k | 0 <= k < |b| ensures b[k] != '\n' {
      if k >= 2 { assert b[k] == x[k - 2]; }
    }
  }

  /** Rows made by `f`, each on its own line, split back into the rows. */
  lemma RowLines<T>(f: T -> string, xs: seq<T>, rs: seq<string>)
    requires |rs| == |xs| >= 1 && forall i :: 0 <= i < |xs| ==> rs[i] == f(xs[i])
    ensures (forall i :: 0 <= i < |xs| ==> NoNewline(f(xs[i]))) ==> Split(Join(rs)) == rs
  {
    if forall i :: 0 <= i < |xs| ==> NoNewline(f(xs[i])) {
      SplitJoin(rs);
    }
  }


  // ---------------------------------------------------------------------
  // the document's lines
  // ---------------------------------------------------------------------

  /**
   * Where a run of plain lines followed by a body sits in a block, its
   * lines are found, after those of everything before it.
   */
  lemma RunFound(pre: seq<string>, run: seq<string>, body: string, post: seq<string>)
    requires forall i :: 0 <= i < |run| ==> NoNewline(run[i])
    ensures var L := Split(Block(pre + (run + [body]) + post));
      var k := |SplitAll(pre)|;
      k + |run| + |Split(body)| <= |L| && L[k..k + |run| + |Split(body)|] == run + Split(body)
  {
    var ls := pre + (run + [body]) + post;
    var A := SplitAll(pre);
    var mid := run + Split(body);
    var Z := SplitAll(post) + [""];
    calc {
      Split(Block(ls));
      { SplitBlock(ls); }
      SplitAll(ls) + [""];
      { FlatMapAppend(Split, pre + (run + [body]), post); }
      SplitAll(pre + (run + [body])) + SplitAll(post) + [""];
      { FlatMapAppend(Split, pre, run + [body]); }
      A + SplitAll(run + [body]) + SplitAll(post) + [""];
      { FlatMapAppend(Split, run, [body]); FlatMapOne(Split, body); SplitAllPlain(run); }
      A + mid + SplitAll(post) + [""];
      { ConcatAssoc(A + mid, SplitAll(post), [""]); }
      A + mid + Z;
    }
    var L := A + mid + Z;
    assert L[|A|..|A| + |mid|] == mid;
  }

  /** PROJECT.md lists the constraints, one `- item` line each, under their heading, right after the context. */
  lemma ConstraintsListed(p: Project, today: string)
    requires p.constraints.Some? && p.constraints.value != []
    requires forall i :: 0 <= i < |p.constraints.value| ==> NoNewline(p.constraints.value[i])
    ensures var L := Split(ProjectMd(p, today)); var xs := p.constraints.value;
      var k := |SplitAll(LeadingParts(p))|;
      k + 2 + |xs| <= |L| && L[k..k + 2 + |xs|] == ["## Constraints", ""] + Bullets(xs)
  {
    PartListed(LeadingParts(p), "## Constraints", p.constraints.value, NoConstraints, DecisionsPart(p, today));
  }

  /** A part holding a list, between any lines, shows its heading, a blank line and the bullets. */
  lemma PartListed(pre: seq<string>, heading: string, xs: seq<string>, placeholder: string, post: seq<string>)
    requires NoNewline(heading) && xs != []
    requires forall i :: 0 <= i < |xs| ==> NoNewline(xs[i])
    ensures var L := Split(Block(pre + Part(heading, ListText(Some(xs), placeholder)) + post));
      var k := |SplitAll(pre)|;
      k + 2 + |xs| <= |L| && L[k..k + 2 + |xs|] == [heading, ""] + Bullets(xs)
  {
    var c := ListText(Some(xs), placeholder);
    var run := [heading, ""];
    ConcatAssoc(pre, run + [c], [""]);
    ConcatAssoc(pre + (run + [c]), [""], post);
    RunFound(pre, run, c, [""] + post);
  }

  lemma HeadPlain()
    ensures forall i :: 0 <= i < |DecisionsHead| ==> NoNewline(DecisionsHead[i])
  {
  }

  /** PROJECT.md lists the key decisions, one row each in input order, under the table header, right after the constraints. */
  lemma DecisionsListed(p: Project, today: string)
    requires p.keyDecisions.Some? && p.keyDecisions.value != []
    requires forall i :: 0 <= i < |p.keyDecisions.value| ==> NoNewline(DecisionRow(p.keyDecisions.value[i]))
    ensures var L := Split(ProjectMd(p, today)); var ds := p.keyDecisions.value;
      var k := |SplitAll(LeadingParts(p) + Part("## Constraints", ListText(p.constraints, NoConstraints)))|;
      k + 4 + |ds| <= |L| && L[k..k + 4 + |ds|] == DecisionsHead + DecisionRowsOf(ds)
  {
    var ds := p.keyDecisions.value;
    var pre := LeadingParts(p) + Part("## Constraints", ListText(p.constraints, NoConstraints));
    var rows := DecisionsText(p.keyDecisions);
    var tail := ["", "---", "*Last updated: " + DateOf(p, today) + "*"];
    ConcatAssoc(pre, DecisionsHead + [rows], tail);
    HeadPlain();
    RunFound(pre, DecisionsHead, rows, tail);
  }

  /**
   * Without key decisions PROJECT.md's table has its header only: right
   * after the constraints come the heading, the header and rule rows, an
   * empty row line, the blank line and the closing `---`.
   */
  lemma NoDecisions(p: Project, today: string)
    requires p.keyDecisions.None? || p.keyDecisions.value == []
    ensures var L := Split(ProjectMd(p, today));
      var k := |SplitAll(LeadingParts(p) + Part("## Constraints", ListText(p.constraints, NoConstraints)))|;
      k + 7 <= |L| && L[k..k + 7] == DecisionsHead + ["", "", "---"]
  {
    var pre := LeadingParts(p) + Part("## Constraints", ListText(p.constraints, NoConstraints));
    var last := "*Last updated: " + DateOf(p, today) + "*";
    assert DecisionsText(p.keyDecisions) == "";
    assert ProjectLines(p, today) == pre + (DecisionsHead + [""] + ["", "---", last]);
    HeaderOnly(pre, last);
  }

  /** An empty row line between the table header and the rule. */
  lemma HeaderOnly(pre: seq<string>, last: string)
    ensures var L := Split(Block(pre + (DecisionsHead + [""] + ["", "---", last])));
      var k := |SplitAll(pre)|;
      k + 7 <= |L| && L[k..k + 7] == DecisionsHead + ["", "", "---"]
  {
    var run := DecisionsHead + ["", ""];
    assert pre + (DecisionsHead + [""] + ["", "---", last]) == pre + (run + ["---"]) + [last];
    HeadPlain();
    RunFound(pre, run, "---", [last]);
    SplitNoNewline("---");
    assert run + Split("---") == DecisionsHead + ["", "", "---"];
  }
}

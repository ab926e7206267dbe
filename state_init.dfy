/**
 * Creation of the `.planning/` files: the progress bar, phase directory
 * names, the file templates and the create-or-skip loop over them.
 */
module StateInit {
  import opened Wrappers
  import opened Text
  import Config
  import StateRead

  // =====================================================================
  // renderProgressBar
  // =====================================================================

  /**
   * `Math.round(completed / total * 100)` when `total > 0`, else 0; rounding
   * is half-up on exact integers.
   */
  function Percent(completed: nat, total: nat): (pct: nat)
    ensures total == 0 ==> pct == 0
    ensures total > 0 ==> 2 * total * pct <= 200 * completed + total < 2 * total * (pct + 1)
  {
    if total == 0 then 0 else (200 * completed + total) / (2 * total)
  }

  /** With `completed <= total` the percentage lies in 0..100. */
  lemma PercentBound(completed: nat, total: nat)
    requires completed <= total
    ensures Percent(completed, total) <= 100
  {
    if total > 0 {
      var pct := Percent(completed, total);
      assert (2 * pct) * total <= 201 * total;
      MulCancel(2 * pct, 201, total);
    }
  }

  lemma MulCancel(a: int, b: int, t: int)
    requires t > 0 && a * t <= b * t
    ensures a <= b
  {
    assert (a - b) * t == a * t - b * t;
  }

  /** `Math.round(pct / 10)`: the number of filled cells. */
  function Filled(pct: nat): (f: nat)
    ensures 10 * f <= pct + 5 < 10 * f + 10
  {
    (pct + 5) / 10
  }

  const FullCell := '█'
  const EmptyCell := '░'

  /** The message of the RangeError `'░'.repeat(n)` throws for a negative `n`. */
  function InvalidCount(n: int): string
  {
    "Invalid count value: " + (if n < 0 then "-" + NatToString(-n) else NatToString(n))
  }

  /** The rendered bar: `filled` full cells, the rest empty, then the percentage. */
  function Bar(filled: nat, pct: nat): (bar: string)
    requires filled <= 10
    ensures |bar| == 14 + |NatToString(pct)| && bar[0] == '[' && bar[11..13] == "] "
    ensures forall i :: 1 <= i <= 10 ==> bar[i] == if i <= filled then FullCell else EmptyCell
    ensures bar[13..] == NatToString(pct) + "%"
  {
    var cells := Repeat(FullCell, filled) + Repeat(EmptyCell, 10 - filled);
    "[" + cells + "] " + (NatToString(pct) + "%")
  }

  /**
   * `renderProgressBar`: ten cells, `Filled(pct)` of them full, then the
   * percentage; an error when more than ten cells would be full.
   */
  function RenderProgressBar(completed: nat, total: nat): (r: Result<string>)
    ensures r.Ok? <==> Filled(Percent(completed, total)) <= 10
    ensures r.Ok? ==> r.value == Bar(Filled(Percent(completed, total)), Percent(completed, total))
    ensures r.Err? ==> r.error == InvalidCount(10 - Filled(Percent(completed, total)))
  {
    var pct := Percent(completed, total);
    var filled := Filled(pct);
    if filled > 10 then Err(InvalidCount(10 - filled)) else Ok(Bar(filled, pct))
  }

  /** For `completed <= total` the bar always renders, with at most ten full cells. */
  lemma ProgressBarRenders(completed: nat, total: nat)
    requires completed <= total
    ensures Filled(Percent(completed, total)) <= 10
    ensures RenderProgressBar(completed, total).Ok?
  {
    PercentBound(completed, total);
  }

  /** With no plans the bar is empty and reads 0%, whatever `completed` is. */
  lemma NoPlansBar(completed: nat)
    ensures RenderProgressBar(completed, 0) == Ok("[░░░░░░░░░░] 0%")
  {
    RepeatIs(EmptyCell, 10, "░░░░░░░░░░");
    assert NatToString(0) == "0";
    assert Repeat(FullCell, 0) == "";
    assert Bar(0, 0) == "[" + "" + "░░░░░░░░░░" + "] " + "0" + "%";
    assert "[" + "" + "░░░░░░░░░░" + "] " + "0" + "%" == "[░░░░░░░░░░] 0%";
  }

  lemma RepeatIs(c: char, n: nat, t: string)
    requires |t| == n && forall i :: 0 <= i < n ==> t[i] == c
    ensures Repeat(c, n) == t
  {
  }

  /** Three plans of ten: three full cells and 30%. */
  lemma ThreeOfTenBar()
    ensures RenderProgressBar(3, 10) == Ok("[███░░░░░░░] 30%")
  {
    assert Percent(3, 10) == 30;
    assert Filled(30) == 3;
    RepeatIs(FullCell, 3, "███");
    RepeatIs(EmptyCell, 7, "░░░░░░░");
    assert NatToString(30) == "30";
    assert Bar(3, 30) == "[" + "███" + "░░░░░░░" + "] " + "30" + "%";
    assert "[" + "███" + "░░░░░░░" + "] " + "30" + "%" == "[███░░░░░░░] 30%";
  }

  // =====================================================================
  // slugify and the phase directory name
  // =====================================================================

  /** `toLowerCase` on the ASCII letters. */
  function Lower(c: char): char
  {
    if 'A' <= c <= 'Z' then (c as int - 'A' as int + 'a' as int) as char else c
  }

  function LowerAll(s: string): (r: string)
    ensures |r| == |s| && forall i :: 0 <= i < |s| ==> r[i] == Lower(s[i])
  {
    seq(|s|, i requires 0 <= i < |s| => Lower(s[i]))
  }

  predicate IsSlugChar(c: char) { 'a' <= c <= 'z' || '0' <= c <= '9' }

  /**
   * `.replace(/[^a-z0-9]+/g, '-')`: each maximal run of other characters
   * becomes one `-`; `inRun` says the previous character was in such a run.
   */
  function Collapse(s: string, inRun: bool): (r: string)
    ensures forall i :: 0 <= i < |r| ==> IsSlugChar(r[i]) || r[i] == '-'
    ensures forall i :: 0 <= i < |r| - 1 ==> !(r[i] == '-' && r[i + 1] == '-')
    ensures inRun && r != [] ==> r[0] != '-'
  {
    if s == [] then []
    else if IsSlugChar(s[0]) then [s[0]] + Collapse(s[1..], false)
    else if inRun then Collapse(s[1..], true)
    else "-" + Collapse(s[1..], true)
  }

  /** `.replace(/^-+/, '')`. */
  function DropLeading(s: string): (r: string)
    ensures r == [] || r[0] != '-'
    ensures |r| <= |s| && r == s[|s| - |r|..]
  {
    if s != [] && s[0] == '-' then DropLeading(s[1..]) else s
  }

  /** `.replace(/-+$/, '')`. */
  function DropTrailing(s: string): (r: string)
    ensures r == [] || r[|r| - 1] != '-'
    ensures |r| <= |s| && r == s[..|r|]
  {
    if s != [] && s[|s| - 1] == '-' then DropTrailing(s[..|s| - 1]) else s
  }

  /**
   * `slugify`: lower-case, dash-separated runs of letters and digits; the
   * slug keeps exactly the lower-cased letters and digits of the name, in
   * order.
   */
  function Slugify(name: string): (slug: string)
    ensures IsSlug(slug)
    ensures Alnums(slug) == Alnums(LowerAll(name))
  {
    var c := Collapse(LowerAll(name), false);
    TrimmedCollapseIsSlug(c);
    CollapseAlnums(LowerAll(name), false);
    DropLeadingAlnums(c);
    DropTrailingAlnums(DropLeading(c));
    DropTrailing(DropLeading(c))
  }

  /** A well-formed slug: letters, digits and single inner dashes. */
  predicate IsSlug(s: string)
  {
    (forall i :: 0 <= i < |s| ==> IsSlugChar(s[i]) || s[i] == '-') &&
    (s == [] || (s[0] != '-' && s[|s| - 1] != '-')) &&
    (forall i :: 0 <= i < |s| - 1 ==> !(s[i] == '-' && s[i + 1] == '-'))
  }

  /** Only letters, digits and single dashes. */
  predicate Dashy(s: string)
  {
    (forall i :: 0 <= i < |s| ==> IsSlugChar(s[i]) || s[i] == '-') &&
    (forall i :: 0 <= i < |s| - 1 ==> !(s[i] == '-' && s[i + 1] == '-'))
  }

  lemma DashySuffix(s: string, k: nat)
    requires Dashy(s) && k <= |s|
    ensures Dashy(s[k..])
  {
    var t := s[k..];
    assert forall i :: 0 <= i < |t| ==> t[i] == s[k + i];
  }

  lemma DashyPrefix(s: string, k: nat)
    requires Dashy(s) && k <= |s|
    ensures Dashy(s[..k])
  {
  }

  /** Dropping the trailing dashes of a dash-separated text that starts with no dash leaves a slug. */
  lemma TrimmedIsSlug(a: string)
    requires Dashy(a) && (a == [] || a[0] != '-')
    ensures IsSlug(DropTrailing(a))
  {
    var b := DropTrailing(a);
    DashyPrefix(a, |b|);
    if b != [] {
      assert b[0] == a[0];
    }
  }

  /** Trimming the dashes off both ends of a dash-separated text leaves a slug. */
  lemma TrimmedCollapseIsSlug(c: string)
    requires Dashy(c)
    ensures IsSlug(DropTrailing(DropLeading(c)))
  {
    var a := DropLeading(c);
    DashySuffix(c, |c| - |a|);
    TrimmedIsSlug(a);
  }

  /** The letters and digits of `s`, in order. */
  function Alnums(s: string): string
  {
    if s == [] then [] else (if IsSlugChar(s[0]) then [s[0]] else []) + Alnums(s[1..])
  }

  lemma {:induction false} AlnumsAppend(a: string, b: string)
    ensures Alnums(a + b) == Alnums(a) + Alnums(b)
  {
    if a == [] {
      assert a + b == b;
    } else {
      var ab := a + b;
      var head: string := if IsSlugChar(a[0]) then [a[0]] else [];
      assert ab[0] == a[0];
      assert ab[1..] == a[1..] + b;
      AlnumsAppend(a[1..], b);
      assert Alnums(ab) == head + (Alnums(a[1..]) + Alnums(b));
      assert Alnums(a) == head + Alnums(a[1..]);
      assert head + (Alnums(a[1..]) + Alnums(b)) == (head + Alnums(a[1..])) + Alnums(b);
    }
  }

  lemma {:induction false} CollapseAlnums(s: string, inRun: bool)
    ensures Alnums(Collapse(s, inRun)) == Alnums(s)
  {
    if s != [] {
      CollapseAlnums(s[1..], !IsSlugChar(s[0]));
      var rest := Collapse(s[1..], !IsSlugChar(s[0]));
      if IsSlugChar(s[0]) {
        AlnumsAppend([s[0]], rest);
      } else if !inRun {
        AlnumsAppend("-", rest);
      }
    }
  }

  lemma {:induction false} DropLeadingAlnums(s: string)
    ensures Alnums(DropLeading(s)) == Alnums(s)
  {
    if s != [] && s[0] == '-' {
      DropLeadingAlnums(s[1..]);
    }
  }

  lemma {:induction false} DropTrailingAlnums(s: string)
    ensures Alnums(DropTrailing(s)) == Alnums(s)
  {
    if s != [] && s[|s| - 1] == '-' {
      var t := s[..|s| - 1];
      DropTrailingAlnums(t);
      assert s == t + "-";
      AlnumsAppend(t, "-");
    }
  }

  /** Collapse on the tail of a slug (after a letter or digit). */
  lemma {:induction false} CollapseFromSlug(t: string)
    requires forall i :: 0 <= i < |t| ==> IsSlugChar(t[i]) || t[i] == '-'
    requires forall i :: 0 <= i < |t| - 1 ==> !(t[i] == '-' && t[i + 1] == '-')
    ensures Collapse(t, false) == t
  {
    if t != [] {
      var u := t[1..];
      if IsSlugChar(t[0]) {
        assert Collapse(u, false) == u by {
          assert forall i :: 0 <= i < |u| ==> u[i] == t[i + 1];
          CollapseFromSlug(u);
        }
      } else {
        assert Collapse(u, true) == u by {
          assert forall i :: 0 <= i < |u| ==> u[i] == t[i + 1];
          CollapseAfterDash(u);
        }
      }
    }
  }

  /** Collapse right after a dash, where no dash follows. */
  lemma {:induction false} CollapseAfterDash(u: string)
    requires forall i :: 0 <= i < |u| ==> IsSlugChar(u[i]) || u[i] == '-'
    requires forall i :: 0 <= i < |u| - 1 ==> !(u[i] == '-' && u[i + 1] == '-')
    requires u == [] || u[0] != '-'
    ensures Collapse(u, true) == u
  {
    if u != [] {
      var w := u[1..];
      assert forall i :: 0 <= i < |w| ==> w[i] == u[i + 1];
      CollapseFromSlug(w);
    }
  }

  lemma LowerSlug(s: string)
    requires IsSlug(s)
    ensures LowerAll(s) == s
  {
  }

  /** Slugifying a slug gives it back. */
  lemma {:induction false} SlugifyIdempotent(name: string)
    ensures Slugify(Slugify(name)) == Slugify(name)
  {
    var s := Slugify(name);
    LowerSlug(s);
    CollapseFromSlug(s);
  }

  /**
   * `ensurePhaseDir`'s directory name: the padded number, `-`, the slug. It
   * reads back: at least two digits giving the phase number, then the first
   * dash, then the slug.
   */
  function PhaseDirName(phaseNum: nat, phaseName: string): (d: string)
    ensures var k := |Pad2(phaseNum)|;
      k >= 2 && k < |d| && AllDigits(d[..k]) && DigitsValue(d[..k]) == phaseNum &&
      d[k] == '-' && '-' !in d[..k] && IsSlug(d[k + 1..]) && d[k + 1..] == Slugify(phaseName)
  {
    Pad2Value(phaseNum);
    DashJoin(Pad2(phaseNum), Slugify(phaseName));
    Pad2(phaseNum) + "-" + Slugify(phaseName)
  }

  /** What `ensurePhaseDir` returns on success: the full path and the directory's own name. */
  datatype PhaseDir = PhaseDir(phaseDir: string, dirName: string)

  /**
   * `ensurePhaseDir`: the directory `phases/<padded>-<slug>` under the
   * planning directory, or the failure of creating it (`mkdirError`).
   */
  function EnsurePhaseDir(planningDir: string, phaseNum: nat, phaseName: string, mkdirError: Option<string>): (r: Result<PhaseDir>)
    ensures r.Ok? <==> mkdirError.None?
    ensures r.Err? ==> r.error == "Failed to create phase directory: " + mkdirError.value
    ensures r.Ok? ==> r.value.dirName == PhaseDirName(phaseNum, phaseName)
    ensures r.Ok? ==> r.value.phaseDir == PathJoin(PathJoin(planningDir, "phases"), r.value.dirName)
  {
    if mkdirError.Some? then Err("Failed to create phase directory: " + mkdirError.value)
    else
      var dirName := PhaseDirName(phaseNum, phaseName);
      Ok(PhaseDir(PathJoin(PathJoin(planningDir, "phases"), dirName), dirName))
  }

  /** Different phase numbers never share a phase directory, whatever their names. */
  lemma PhaseDirsDistinct(planningDir: string, m: nat, a: string, n: nat, b: string)
    requires EnsurePhaseDir(planningDir, m, a, None).value.phaseDir == EnsurePhaseDir(planningDir, n, b, None).value.phaseDir
    ensures m == n
  {
    var d, e := PhaseDirName(m, a), PhaseDirName(n, b);
    PathJoinInjective(PathJoin(planningDir, "phases"), d, e);
    assert d == e;
    var i, j := |Pad2(m)|, |Pad2(n)|;
    PadThenDash(m, a);
    PadThenDash(n, b);
    FirstDash(d, i, j);
    FirstDash(d, j, i);
    assert d[..i] == Pad2(m) && e[..j] == Pad2(n);
    Pad2Value(m);
    Pad2Value(n);
  }

  /** The directory name opens with the padded number and then its first dash. */
  lemma PadThenDash(phaseNum: nat, phaseName: string)
    ensures var d := PhaseDirName(phaseNum, phaseName); var k := |Pad2(phaseNum)|;
      k < |d| && d[..k] == Pad2(phaseNum) && d[k] == '-' && '-' !in d[..k]
  {
    DashJoin(Pad2(phaseNum), Slugify(phaseName));
  }

  /** A dash at `i` lies after any dash-free prefix `d[..j]`. */
  lemma FirstDash(d: string, i: nat, j: nat)
    requires i < |d| && j <= |d|
    ensures d[i] == '-' && '-' !in d[..j] ==> j <= i
  {
    if i < j {
      assert d[..j][i] == d[i];
    }
  }

  /** `p + "-" + t` splits back into `p` and `t` at the first dash when `p` is all digits. */
  lemma DashJoin(p: string, t: string)
    requires AllDigits(p)
    ensures var d := p + "-" + t;
      |p| < |d| && d[..|p|] == p && d[|p|] == '-' && d[|p| + 1..] == t && '-' !in p
  {
    assert forall i :: 0 <= i < |p| ==> p[i] != '-';
  }

  // =====================================================================
  // templates
  // =====================================================================

  /** The values the templates are filled with (`date` already defaulted). */
  datatype Options = Options(projectName: string, coreValue: string, totalPhases: nat, currentPhase: nat, date: string)

  /** The text between the Phase counts and the date of the Current Position block, label by label. */
  const PlanToActivity := "\n" + ("Plan:" + (" 0 of 0" + (" in current phase\n" + ("Status:" + (" Initializing" +
                          ("\n" + ("Last activity:" + " ")))))))

  /** The text between the date and the progress bar. */
  const ActivityToBar := " — Project initialized" + ("\n\n" + ("Progress:" + " "))

  /** The Current Position block of STATE.md, from `Phase:` to the end of the progress bar. */
  function PositionText(o: Options): string
  {
    Block(NatToString(o.currentPhase), NatToString(o.totalPhases), o.date, RenderProgressBar(0, 0).value)
  }

  /** The pieces of the block with the phase numbers `n` of `m`, the date `d` and the progress bar `z`. */
  function BlockParts(n: string, m: string, d: string, z: string): seq<string>
  {
    ["Phase:", " ", n, " of ", m, PlanToActivity, d, ActivityToBar, z]
  }

  /** The block with the phase numbers `n` of `m`, the date `d` and the progress bar `z`. */
  function Block(n: string, m: string, d: string, z: string): string
  {
    Concat(BlockParts(n, m, d, z))
  }

  /** The block's pieces, one after another. */
  lemma BlockNested(n: string, m: string, d: string, z: string)
    ensures Block(n, m, d, z) == "Phase:" + (" " + (n + (" of " + (m + (PlanToActivity + (d + (ActivityToBar + z)))))))
  {
    var ps := BlockParts(n, m, d, z);
    assert Concat(ps[8..]) == z;
    assert Concat(ps[7..]) == ActivityToBar + z by { assert ps[7..][1..] == ps[8..]; }
    assert Concat(ps[6..]) == d + Concat(ps[7..]) by { assert ps[6..][1..] == ps[7..]; }
    assert Concat(ps[5..]) == PlanToActivity + Concat(ps[6..]) by { assert ps[5..][1..] == ps[6..]; }
    assert Concat(ps[4..]) == m + Concat(ps[5..]) by { assert ps[4..][1..] == ps[5..]; }
    assert Concat(ps[3..]) == " of " + Concat(ps[4..]) by { assert ps[3..][1..] == ps[4..]; }
    assert Concat(ps[2..]) == n + Concat(ps[3..]) by { assert ps[2..][1..] == ps[3..]; }
    assert Concat(ps[1..]) == " " + Concat(ps[2..]) by { assert ps[1..][1..] == ps[2..]; }
  }

  /** The lines of STATE.md's Current Position block. */
  function PositionBlock(o: Options): string
  {
    PositionText(o) + "\n"
  }

  /**
   * `stateTemplate`: the `# Project State` title, the Current Position
   * heading followed by the block `parseStatePosition` reads, and the
   * Session Continuity lines closing the file.
   */
  function StateTemplate(o: Options): (r: string)
    ensures StartsWith(r, "# Project State\n")
    ensures Contains(r, "## Current Position\n\n" + PositionBlock(o))
    ensures EndsWith(r, "Last session: " + o.date + "\nStopped at: Project initialized\nResume file: None\n")
  {
    var title := "# Project State\n";
    var reference := "\n## Project Reference\n\nSee: .planning/PROJECT.md (updated " + o.date + ")\n\n" +
      "**Core value:** " + o.coreValue + "\n" +
      "**Current focus:** Phase " + NatToString(o.currentPhase) + " of " + NatToString(o.totalPhases) + "\n\n";
    var position := "## Current Position\n\n" + PositionBlock(o);
    var session := "Last session: " + o.date + "\nStopped at: Project initialized\nResume file: None\n";
    Framed(title, reference, position, StateSections, session);
    title + reference + position + StateSections + session
  }

  /** STATE.md between the Current Position block and the session lines. */
  const StateSections := @"
## Performance Metrics

**Velocity:**
- Total plans completed: 0
- Average duration: —
- Total execution time: 0 min

**By Phase:**

| Phase | Plans | Total | Avg/Plan |
|-------|-------|-------|----------|

**Recent Trend:**
- No data yet

*Updated after each plan completion*

## Accumulated Context

### Decisions

Decisions are logged in PROJECT.md Key Decisions table.
Recent decisions affecting current work:

(none yet)

### Pending Todos

None yet.

### Blockers/Concerns

None yet.

## Session Continuity

"

  /**
   * `projectTemplate`: the project's name as title, its core value under
   * `## Core Value`, and the last-updated line closing the file.
   */
  function ProjectTemplate(o: Options): (r: string)
    ensures StartsWith(r, "# " + o.projectName + "\n")
    ensures Contains(r, "## Core Value\n\n" + o.coreValue + "\n")
    ensures EndsWith(r, "\n*Last updated: " + o.date + "*\n")
  {
    var title := "# " + o.projectName + "\n";
    var core := "## Core Value\n\n" + o.coreValue + "\n";
    var updated := "\n*Last updated: " + o.date + "*\n";
    Framed(title, ProjectIntro, core, ProjectSections, updated);
    title + ProjectIntro + core + ProjectSections + updated
  }

  /** PROJECT.md between the title and the core value. */
  const ProjectIntro := @"
## What This Is

(Describe the project in 2-3 sentences)

"

  /** PROJECT.md between the core value and the last-updated line. */
  const ProjectSections := @"
## Requirements

### Validated

(Requirements confirmed during questioning)

### Active

(Requirements being worked on)

### Out of Scope

(Explicitly excluded features)

## Context

(Why this project exists, key background)

## Constraints

(Technical, business, or timeline constraints)

## Key Decisions

| Decision | Rationale | Outcome |
|----------|-----------|---------|

---"

  /**
   * `requirementsTemplate`: the project's name in the title, its core value
   * on the `**Core Value:**` line, and the definition date closing the file.
   */
  function RequirementsTemplate(o: Options): (r: string)
    ensures StartsWith(r, "# Requirements: " + o.projectName + "\n")
    ensures Contains(r, "**Core Value:** " + o.coreValue + "\n")
    ensures EndsWith(r, "\n*Requirements defined: " + o.date + "*\n")
  {
    var title := "# Requirements: " + o.projectName + "\n";
    var defined := "\n**Defined:** " + o.date + "\n";
    var core := "**Core Value:** " + o.coreValue + "\n";
    var closing := "\n*Requirements defined: " + o.date + "*\n";
    Framed(title, defined, core, RequirementsSections, closing);
    title + defined + core + RequirementsSections + closing
  }

  /** REQUIREMENTS.md between the core value and the closing line. */
  const RequirementsSections := @"
## v1 Requirements

(Requirements for initial release)

## Out of Scope

| Feature | Reason |
|---------|--------|

## Traceability

| Requirement | Phase | Status |
|-------------|-------|--------|

---"

  /** `1 -> 2 -> … -> n`, the `Array.from(…).join(' -> ')` of the roadmap. */
  function PhaseSequence(n: nat): string
  {
    if n == 0 then "" else if n == 1 then "1" else PhaseSequence(n - 1) + " -> " + NatToString(n)
  }

  /**
   * `roadmapTemplate`: the project's name in the title, the execution order
   * over all phases, and the created and last-updated lines closing the file.
   */
  function RoadmapTemplate(o: Options): (r: string)
    ensures StartsWith(r, "# Roadmap: " + o.projectName + "\n")
    ensures Contains(r, "Phases execute in numeric order: " + PhaseSequence(o.totalPhases) + "\n")
    ensures EndsWith(r, "\n*Roadmap created: " + o.date + "*\n*Last updated: " + o.date + "*\n")
  {
    var title := "# Roadmap: " + o.projectName + "\n";
    var order := "Phases execute in numeric order: " + PhaseSequence(o.totalPhases) + "\n";
    var closing := "\n*Roadmap created: " + o.date + "*\n*Last updated: " + o.date + "*\n";
    Framed(title, RoadmapSections, order, RoadmapTable, closing);
    title + RoadmapSections + order + RoadmapTable + closing
  }

  /** ROADMAP.md between the title and the execution order. */
  const RoadmapSections := @"
## Overview

(High-level project roadmap description)

## Phases

(List phases with checkmarks)

## Phase Details

(Detailed phase breakdowns will be added during planning)

## Progress

**Execution Order:**
"

  /** ROADMAP.md's empty progress table, after the execution order. */
  const RoadmapTable := @"
| Phase | Plans Complete | Status | Completed |
|-------|----------------|--------|-----------|

---"

  // =====================================================================
  // The Current Position block, read back by parseStatePosition
  // =====================================================================

  /** A date that stays on its line and holds no `:`, as a `YYYY-MM-DD` date does. */
  predicate DateText(d: string)
  {
    forall i :: 0 <= i < |d| ==> d[i] != ':' && !IsLineTerminator(d[i])
  }

  /** The progress bar of a block with no plans. */
  const EmptyBar := "[░░░░░░░░░░] 0%"

  /** Each piece of a right-nested concatenation of nine texts in place. */
  lemma Pieces9(a: string, b: string, c: string, d: string, f: string, g: string, h: string, x: string, y: string)
    ensures var s := a + (b + (c + (d + (f + (g + (h + (x + y)))))));
      var k := |a| + |b| + |c| + |d| + |f| + |g| + |h|;
      |s| == k + |x| + |y| && CharsAt(s, a, 0) && CharsAt(s, b, |a|) && CharsAt(s, c, |a| + |b|) &&
      CharsAt(s, d, |a| + |b| + |c|) && CharsAt(s, f, |a| + |b| + |c| + |d|) &&
      CharsAt(s, g, |a| + |b| + |c| + |d| + |f|) && CharsAt(s, h, k - |h|) && CharsAt(s, x, k) &&
      CharsAt(s, y, k + |x|)
  {
  }

  /** Each piece of a right-nested concatenation of four texts in place. */
  lemma Pieces4(a: string, b: string, c: string, d: string)
    ensures var s := a + (b + (c + d));
      |s| == |a| + |b| + |c| + |d| && CharsAt(s, a, 0) && CharsAt(s, b, |a|) &&
      CharsAt(s, c, |a| + |b|) && CharsAt(s, d, |a| + |b| + |c|)
  {
  }

  /** A piece of a text in place is in place. */
  lemma CharsShift(s: string, t: string, k: nat, u: string, j: nat)
    requires CharsAt(s, t, k) && CharsAt(t, u, j)
    ensures CharsAt(s, u, k + j)
  {
    forall i | 0 <= i < |u| ensures s[k + j + i] == u[i] {
      assert t[j + i] == u[i];
      assert s[k + (j + i)] == t[j + i];
    }
  }

  /** Each piece of a right-nested concatenation of nine texts in place at `k`. */
  lemma NestedChars9(s: string, k: nat, a: string, b: string, c: string, d: string, f: string, g: string, h: string,
                     x: string, y: string)
    requires CharsAt(s, a + (b + (c + (d + (f + (g + (h + (x + y))))))), k)
    ensures var i := k + |a| + |b| + |c| + |d|;
      CharsAt(s, a, k) && CharsAt(s, b, k + |a|) && CharsAt(s, c, k + |a| + |b|) && CharsAt(s, d, k + |a| + |b| + |c|) &&
      CharsAt(s, f, i) && CharsAt(s, g, i + |f|) && CharsAt(s, h, i + |f| + |g|) && CharsAt(s, x, i + |f| + |g| + |h|) &&
      CharsAt(s, y, i + |f| + |g| + |h| + |x|)
  {
    var t := a + (b + (c + (d + (f + (g + (h + (x + y)))))));
    Pieces9(a, b, c, d, f, g, h, x, y);
    CharsShift(s, t, k, a, 0);
    CharsShift(s, t, k, b, |a|);
    CharsShift(s, t, k, c, |a| + |b|);
    CharsShift(s, t, k, d, |a| + |b| + |c|);
    CharsShift(s, t, k, f, |a| + |b| + |c| + |d|);
    CharsShift(s, t, k, g, |a| + |b| + |c| + |d| + |f|);
    CharsShift(s, t, k, h, |a| + |b| + |c| + |d| + |f| + |g|);
    CharsShift(s, t, k, x, |a| + |b| + |c| + |d| + |f| + |g| + |h|);
    CharsShift(s, t, k, y, |a| + |b| + |c| + |d| + |f| + |g| + |h| + |x|);
  }

  /** Each piece of a right-nested concatenation of four texts in place at `k`. */
  lemma NestedChars4(s: string, k: nat, a: string, b: string, c: string, d: string)
    requires CharsAt(s, a + (b + (c + d)), k)
    ensures CharsAt(s, a, k) && CharsAt(s, b, k + |a|) && CharsAt(s, c, k + |a| + |b|) &&
      CharsAt(s, d, k + |a| + |b| + |c|)
  {
    var t := a + (b + (c + d));
    Pieces4(a, b, c, d);
    CharsShift(s, t, k, a, 0);
    CharsShift(s, t, k, b, |a|);
    CharsShift(s, t, k, c, |a| + |b|);
    CharsShift(s, t, k, d, |a| + |b| + |c|);
  }

  /** The text between the counts and the date, piece by piece. */
  lemma MiddleChars(s: string, e: nat)
    requires CharsAt(s, PlanToActivity, e)
    ensures CharsAt(s, "\n", e) && CharsAt(s, "Plan:", e + 1) && CharsAt(s, " 0 of 0", e + 6) &&
      CharsAt(s, " in current phase\n", e + 13) && CharsAt(s, "Status:", e + 31) &&
      CharsAt(s, " Initializing", e + 38) && CharsAt(s, "\n", e + 51) && CharsAt(s, "Last activity:", e + 52) &&
      CharsAt(s, " ", e + 66)
  {
    NestedChars9(s, e, "\n", "Plan:", " 0 of 0", " in current phase\n", "Status:", " Initializing", "\n", "Last activity:", " ");
  }

  /** The text between the date and the bar, piece by piece. */
  lemma TailChars(s: string, h: nat)
    requires CharsAt(s, ActivityToBar, h)
    ensures CharsAt(s, " — Project initialized", h) && CharsAt(s, "\n\n", h + 22) &&
      CharsAt(s, "Progress:", h + 24) && CharsAt(s, " ", h + 33)
  {
    NestedChars4(s, h, " — Project initialized", "\n\n", "Progress:", " ");
  }

  /**
   * The outer pieces of the block in place give its whole layout: `e` is
   * where the Phase counts end; the date starts at `e + 67` and
   * `Progress:` at `e + 91 + |d|`.
   */
  lemma LaidOf(s: string, n: string, m: string, e: nat, d: string, z: string)
    requires e == 11 + |n| + |m| && |s| == e + 101 + |d| + |z|
    requires CharsAt(s, "Phase:", 0) && CharsAt(s, " ", 6) && CharsAt(s, n, 7) && CharsAt(s, " of ", 7 + |n|) &&
      CharsAt(s, m, 11 + |n|) && CharsAt(s, PlanToActivity, e) && CharsAt(s, d, e + 67) &&
      CharsAt(s, ActivityToBar, e + 67 + |d|) && CharsAt(s, z, e + 101 + |d|)
    ensures CharsAt(s, "Phase:", 0) && CharsAt(s, " ", 6) && CharsAt(s, n, 7) && CharsAt(s, " of ", 7 + |n|) &&
      CharsAt(s, m, 11 + |n|) && CharsAt(s, "\n", e) && CharsAt(s, "Plan:", e + 1)
    ensures CharsAt(s, " 0 of 0", e + 6) && CharsAt(s, " in current phase\n", e + 13) && CharsAt(s, "Status:", e + 31) && CharsAt(s, " Initializing", e + 38) && CharsAt(s, "\n", e + 51) && CharsAt(s, "Last activity:", e + 52) && CharsAt(s, " ", e + 66)
    ensures CharsAt(s, d, e + 67) && CharsAt(s, " — Project initialized", e + 67 + |d|) && CharsAt(s, "\n\n", e + 89 + |d|) && CharsAt(s, "Progress:", e + 91 + |d|) && CharsAt(s, " ", e + 100 + |d|) && CharsAt(s, z, e + 101 + |d|)
  {
    MiddleChars(s, e);
    TailChars(s, e + 67 + |d|);
  }

  /** `Phase: n of m` at the start, followed by a line end: the Phase match, with no name. */
  lemma PhaseLine(s: string, n: string, m: string, e: nat)
    requires e == 11 + |n| + |m| && n != "" && m != "" && AllDigits(n) && AllDigits(m)
    requires CharsAt(s, "Phase:", 0) && CharsAt(s, " ", 6) && CharsAt(s, n, 7) && CharsAt(s, " of ", 7 + |n|) &&
      CharsAt(s, m, 11 + |n|) && CharsAt(s, "\n", e) && CharsAt(s, "Plan:", e + 1)
    ensures StateRead.MatchesAt(StateRead.PhaseField, s, 0) && StateRead.CountsAt(s, 6) == Some(StateRead.Counts(n, m, e)) &&
      StateRead.PhaseNameAt(s, e) == None
  {
    CharOf(s, " ", 6, 0);
    CharOf(s, " of ", 7 + |n|, 0);
    CharOf(s, " of ", 7 + |n|, 1);
    CharOf(s, " of ", 7 + |n|, 2);
    CharOf(s, " of ", 7 + |n|, 3);
    CharOf(s, "\n", e, 0);
    CharOf(s, "Plan:", e + 1, 0);
    WsEndAt(s, e, e + 1);
    CharsOccur(s, "Phase:", 0);
    StateRead.CountsOf(s, 6, n, m);
  }

  /** `Plan: 0 of 0` on the second line of the block. */
  lemma PlanLine(s: string, p: nat)
    requires CharsAt(s, "Plan:", p) && CharsAt(s, " 0 of 0", p + 5) && CharsAt(s, " in current phase\n", p + 12)
    ensures StateRead.MatchesAt(StateRead.PlanField, s, p)
    ensures StateRead.CountsAt(s, p + 5) == Some(StateRead.Counts("0", "0", p + 12))
  {
    CharOf(s, " 0 of 0", p + 5, 0);
    CharOf(s, " 0 of 0", p + 5, 1);
    CharOf(s, " 0 of 0", p + 5, 2);
    CharOf(s, " 0 of 0", p + 5, 3);
    CharOf(s, " 0 of 0", p + 5, 4);
    CharOf(s, " 0 of 0", p + 5, 5);
    CharOf(s, " 0 of 0", p + 5, 6);
    CharOf(s, " in current phase\n", p + 12, 0);
    StateRead.CountsOf(s, p + 5, "0", "0");
    CharsOccur(s, "Plan:", p);
  }

  /** `Status: Initializing` on the third line of the block. */
  lemma StatusLine(s: string, p: nat)
    requires CharsAt(s, "Status:", p) && CharsAt(s, " Initializing", p + 7) && CharsAt(s, "\n", p + 20)
    ensures StateRead.MatchesAt(StateRead.StatusField, s, p)
    ensures var v := StateRead.LineValueAt(s, p + 7).value; Trim(s[v.0..v.1]) == "Initializing"
  {
    CharOf(s, " Initializing", p + 7, 1);
    CharOf(s, "\n", p + 20, 0);
    NoneInPart(s, " Initializing", p + 7, '\n', 0, 13);
    NoneInPart(s, " Initializing", p + 7, '\r', 0, 13);
    NoneInPart(s, " Initializing", p + 7, '\U{2028}', 0, 13);
    NoneInPart(s, " Initializing", p + 7, '\U{2029}', 0, 13);
    StateRead.LineValueOf(s, p + 7, p + 8, p + 20);
    CharsOccur(s, " Initializing", p + 7);
    assert s[p + 7..p + 20] == " Initializing";
    InitializingTrimmed();
    CharsOccur(s, "Status:", p);
  }

  /** The status value trims to `Initializing`. */
  lemma InitializingTrimmed()
    ensures Trim(" Initializing") == "Initializing"
  {
    var w := "Initializing";
    assert " Initializing"[1..] == w;
    assert TrimStart(" Initializing") == TrimStart(w);
    TrimOfTrimmed(w);
  }

  /**
   * `Last activity: d` and then `t` (the text that follows the date) on
   * the fourth line of the block.
   */
  lemma ActivityLine(s: string, p: nat, d: string, t: string)
    requires DateText(d) && |t| == 22 && !IsWs(t[1]) && forall i :: 0 <= i < |t| ==> !IsLineTerminator(t[i])
    requires CharsAt(s, "Last activity:", p) && CharsAt(s, " ", p + 14) && CharsAt(s, d, p + 15)
    requires CharsAt(s, t, p + 15 + |d|) && CharsAt(s, "\n\n", p + 37 + |d|)
    ensures StateRead.MatchesAt(StateRead.ActivityField, s, p)
    ensures var v := StateRead.LineValueAt(s, p + 14).value; Trim(s[v.0..v.1]) == Trim(d + t)
  {
    CharOf(s, "\n\n", p + 37 + |d|, 0);
    LineOfValue(s, p + 14, d, t);
    CharsOccur(s, "Last activity:", p);
  }

  /** A blank, `d` and `t` up to a line end: the value is `d + t` trimmed. */
  lemma LineOfValue(s: string, q: nat, d: string, t: string)
    requires DateText(d) && |t| > 1 && !IsWs(t[1]) && forall i :: 0 <= i < |t| ==> !IsLineTerminator(t[i])
    requires CharsAt(s, " ", q) && CharsAt(s, d, q + 1) && CharsAt(s, t, q + 1 + |d|)
    requires q + 1 + |d| + |t| < |s| && IsLineTerminator(s[q + 1 + |d| + |t|])
    ensures StateRead.LineValueAt(s, q).Some?
    ensures var v := StateRead.LineValueAt(s, q).value; Trim(s[v.0..v.1]) == Trim(d + t)
  {
    var h := q + 1 + |d|;
    CharOf(s, " ", q, 0);
    CharOf(s, t, h, 1);
    forall i | q <= i < h + |t| ensures !IsLineTerminator(s[i]) {
      if q < i < h {
        CharOf(s, d, q + 1, i - (q + 1));
      } else if h <= i {
        CharOf(s, t, h, i - h);
      }
    }
    StateRead.LineValueOf(s, q, h + 1, h + |t|);
    PaddedValue(s, q, d, t);
  }

  /** What `ActivityLine` needs of the text after the date. */
  lemma InitializedText()
    ensures var t := " — Project initialized";
      |t| == 22 && !IsWs(t[1]) && forall i :: 0 <= i < |t| ==> !IsLineTerminator(t[i])
  {
    var t := " — Project initialized";
    NoBreaks(t);
    NoSeparators(t);
  }

  /** The text after the date holds no `\n` and no `\r`. */
  lemma NoBreaks(t: string)
    requires t == " — Project initialized"
    ensures '\n' !in t && '\r' !in t
  {
  }

  /** The text after the date holds no line or paragraph separator. */
  lemma NoSeparators(t: string)
    requires t == " — Project initialized"
    ensures '\U{2028}' !in t && '\U{2029}' !in t
  {
  }

  /** A blank, `d` and `t` in place at `q` trim to `d + t` trimmed. */
  lemma PaddedValue(s: string, q: nat, d: string, t: string)
    requires CharsAt(s, " ", q) && CharsAt(s, d, q + 1) && CharsAt(s, t, q + 1 + |d|)
    ensures Trim(s[q..q + 1 + |d| + |t|]) == Trim(d + t)
  {
    CharsJoin(s, " ", d, q);
    CharsJoin(s, " " + d, t, q);
    CharsOccur(s, " " + d + t, q);
    TrimPadded(" ", d + t, "");
    assert " " + (d + t) + "" == " " + d + t;
  }

  /**
   * `Progress:`, a blank and then the bar `z` ending the block: `[`, ten
   * cells, `] 0%`. The percentage is the `0` at `g + 23`.
   */
  lemma ProgressLine(s: string, g: nat, z: string)
    requires BarOfNoPlans(z)
    requires CharsAt(s, "Progress:", g) && CharsAt(s, " ", g + 9) && CharsAt(s, z, g + 10) && |s| == g + 25
    ensures StateRead.MatchesAt(StateRead.ProgressField, s, g)
    ensures StateRead.ProgressAt(s, g + 9, false) == Some((g + 23, g + 24))
  {
    CharOf(s, " ", g + 9, 0);
    CharOf(s, z, g + 10, 0);
    CharOf(s, z, g + 10, 11);
    CharOf(s, z, g + 10, 12);
    CharOf(s, z, g + 10, 13);
    CharOf(s, z, g + 10, 14);
    forall i | g + 11 <= i < g + 21 ensures s[i] != ']' && !IsLineTerminator(s[i]) {
      CharOf(s, z, g + 10, i - (g + 10));
    }
    WsEndAt(s, g + 22, g + 23);
    DigitsEndAt(s, g + 23, g + 24);
    assert StateRead.PercentAt(s, g + 22, false) == Some((g + 23, g + 24));
    StateRead.CloseBracketAt(s, g + 11, g + 21, false);
    WsEndAt(s, g + 9, g + 10);
    CharsOccur(s, "Progress:", g);
  }

  /** The shape of the bar with no plans, as `ProgressLine` reads it. */
  predicate BarOfNoPlans(z: string)
  {
    |z| == 15 && z[0] == '[' && z[11] == ']' && z[12] == ' ' && z[13] == '0' && z[14] == '%' &&
    forall i :: 1 <= i < 11 ==> z[i] != ']' && !IsLineTerminator(z[i])
  }

  /** The bar of a block with no plans has that shape. */
  lemma EmptyBarShape()
    ensures BarOfNoPlans(EmptyBar)
  {
    forall i | 1 <= i < 11 ensures EmptyBar[i] == '░' {
    }
  }

  /** A digit string in place holds no `c` that is not a digit. */
  lemma NoneInDigits(s: string, t: string, k: nat, c: char)
    requires CharsAt(s, t, k) && AllDigits(t) && !IsDigit(c)
    ensures NoneIn(s, k, k + |t|, c)
  {
    forall i | k <= i < k + |t| ensures s[i] != c {
      CharOf(s, t, k, i - k);
    }
  }

  /** After its first character, the first line holds no `c`. */
  lemma HeadNone(s: string, n: string, m: string, e: nat, c: char)
    requires e == 11 + |n| + |m| && AllDigits(n) && AllDigits(m) && CharsAt(s, "Phase:", 0) && CharsAt(s, " ", 6) && CharsAt(s, n, 7) && CharsAt(s, " of ", 7 + |n|) &&
      CharsAt(s, m, 11 + |n|) && CharsAt(s, "\n", e)
    requires !IsDigit(c) && c !in "hase:" && c !in " of " && c != ' ' && c != '\n'
    ensures NoneIn(s, 1, e + 1, c)
  {
    assert "Phase:"[1..6] == "hase:";
    NoneInPart(s, "Phase:", 0, c, 1, 6);
    NoneInChars(s, " ", 6, c);
    NoneInDigits(s, n, 7, c);
    NoneInChars(s, " of ", 7 + |n|, c);
    NoneInDigits(s, m, 11 + |n|, c);
    NoneInChars(s, "\n", e, c);
    NoneInJoin(s, 1, 6, 7, c);
    NoneInJoin(s, 1, 7, 7 + |n|, c);
    NoneInJoin(s, 1, 7 + |n|, 11 + |n|, c);
    NoneInJoin(s, 1, 11 + |n|, e, c);
    NoneInJoin(s, 1, e, e + 1, c);
  }

  /** No `Plan:` starts before the second line. */
  lemma PlanAbsent(s: string, n: string, m: string, e: nat)
    requires e == 11 + |n| + |m| && AllDigits(n) && AllDigits(m) && CharsAt(s, "Phase:", 0) && CharsAt(s, " ", 6) && CharsAt(s, n, 7) && CharsAt(s, " of ", 7 + |n|) &&
      CharsAt(s, m, 11 + |n|) && CharsAt(s, "\n", e)
    ensures forall i :: 0 <= i < e + 1 ==> !OccursAt(s, "Plan:", i)
  {
    HeadNone(s, n, m, e, 'P');
    AbsentWhereNone(s, "Plan:", 1, e + 1);
    CharOf(s, "Phase:", 0, 1);
    Mismatch(s, "Plan:", 0, 1);
  }

  /** No `Status:` starts before the third line. */
  lemma StatusAbsent(s: string, n: string, m: string, e: nat)
    requires e == 11 + |n| + |m| && AllDigits(n) && AllDigits(m) && CharsAt(s, "Phase:", 0) && CharsAt(s, " ", 6) && CharsAt(s, n, 7) && CharsAt(s, " of ", 7 + |n|) &&
      CharsAt(s, m, 11 + |n|) && CharsAt(s, "\n", e)
    requires CharsAt(s, "Plan:", e + 1) && CharsAt(s, " 0 of 0", e + 6) && CharsAt(s, " in current phase\n", e + 13)
    ensures forall i :: 0 <= i < e + 31 ==> !OccursAt(s, "Status:", i)
  {
    HeadNone(s, n, m, e, 'S');
    NoneInChars(s, "Phase:", 0, 'S');
    NoneInChars(s, "Plan:", e + 1, 'S');
    NoneInChars(s, " 0 of 0", e + 6, 'S');
    NoneInChars(s, " in current phase\n", e + 13, 'S');
    NoneInJoin(s, 0, e + 1, e + 6, 'S');
    NoneInJoin(s, 0, e + 6, e + 13, 'S');
    NoneInJoin(s, 0, e + 13, e + 31, 'S');
    AbsentWhereNone(s, "Status:", 0, e + 31);
  }

  /** No `Last activity:` starts before the fourth line. */
  lemma ActivityAbsent(s: string, n: string, m: string, e: nat)
    requires e == 11 + |n| + |m| && AllDigits(n) && AllDigits(m) && CharsAt(s, "Phase:", 0) && CharsAt(s, " ", 6) && CharsAt(s, n, 7) && CharsAt(s, " of ", 7 + |n|) &&
      CharsAt(s, m, 11 + |n|) && CharsAt(s, "\n", e)
    requires CharsAt(s, "Plan:", e + 1) && CharsAt(s, " 0 of 0", e + 6) && CharsAt(s, " in current phase\n", e + 13) && CharsAt(s, "Status:", e + 31) && CharsAt(s, " Initializing", e + 38) && CharsAt(s, "\n", e + 51)
    ensures forall i :: 0 <= i < e + 52 ==> !OccursAt(s, "Last activity:", i)
  {
    HeadNone(s, n, m, e, 'L');
    NoneInChars(s, "Phase:", 0, 'L');
    NoneInChars(s, "Plan:", e + 1, 'L');
    NoneInChars(s, " 0 of 0", e + 6, 'L');
    NoneInChars(s, " in current phase\n", e + 13, 'L');
    NoneInChars(s, "Status:", e + 31, 'L');
    NoneInChars(s, " Initializing", e + 38, 'L');
    NoneInChars(s, "\n", e + 51, 'L');
    NoneInJoin(s, 0, e + 1, e + 6, 'L');
    NoneInJoin(s, 0, e + 6, e + 13, 'L');
    NoneInJoin(s, 0, e + 13, e + 31, 'L');
    NoneInJoin(s, 0, e + 31, e + 38, 'L');
    NoneInJoin(s, 0, e + 38, e + 51, 'L');
    NoneInJoin(s, 0, e + 51, e + 52, 'L');
    AbsentWhereNone(s, "Last activity:", 0, e + 52);
  }

  /**
   * After `Plan:`, no `P` before the date: `Progress:` cannot start in
   * the first four lines except at the two `P`s of `Phase:` and `Plan:`.
   */
  lemma MiddleNoP(s: string, e: nat)
    requires CharsAt(s, "Plan:", e + 1) && CharsAt(s, " 0 of 0", e + 6) && CharsAt(s, " in current phase\n", e + 13)
    requires CharsAt(s, "Status:", e + 31) && CharsAt(s, " Initializing", e + 38) && CharsAt(s, "\n", e + 51) && CharsAt(s, "Last activity:", e + 52) && CharsAt(s, " ", e + 66)
    ensures NoneIn(s, e + 2, e + 67, 'P')
  {
    assert "Plan:"[1..5] == "lan:";
    NoneInPart(s, "Plan:", e + 1, 'P', 1, 5);
    NoneInChars(s, " 0 of 0", e + 6, 'P');
    NoneInChars(s, " in current phase\n", e + 13, 'P');
    NoneInChars(s, "Status:", e + 31, 'P');
    NoneInChars(s, " Initializing", e + 38, 'P');
    NoneInChars(s, "\n", e + 51, 'P');
    NoneInChars(s, "Last activity:", e + 52, 'P');
    NoneInChars(s, " ", e + 66, 'P');
    NoneInJoin(s, e + 2, e + 6, e + 13, 'P');
    NoneInJoin(s, e + 2, e + 13, e + 31, 'P');
    NoneInJoin(s, e + 2, e + 31, e + 38, 'P');
    NoneInJoin(s, e + 2, e + 38, e + 51, 'P');
    NoneInJoin(s, e + 2, e + 51, e + 52, 'P');
    NoneInJoin(s, e + 2, e + 52, e + 66, 'P');
    NoneInJoin(s, e + 2, e + 66, e + 67, 'P');
  }

  /**
   * From the date to `Progress:` (and its first eight characters) there
   * is no `:`, so no `Progress:` starts in that stretch.
   */
  lemma TailNoColon(s: string, h: nat, d: string)
    requires DateText(d) && |d| <= h && CharsAt(s, d, h - |d|)
    requires CharsAt(s, " — Project initialized", h) && CharsAt(s, "\n\n", h + 22) && CharsAt(s, "Progress:", h + 24)
    ensures NoneIn(s, h - |d|, h + 32, ':')
  {
    forall i | h - |d| <= i < h ensures s[i] != ':' {
      CharOf(s, d, h - |d|, i - (h - |d|));
    }
    NoneInChars(s, " — Project initialized", h, ':');
    NoneInChars(s, "\n\n", h + 22, ':');
    assert "Progress:"[0..8] == "Progress";
    NoneInPart(s, "Progress:", h + 24, ':', 0, 8);
    NoneInJoin(s, h - |d|, h, h + 22, ':');
    NoneInJoin(s, h - |d|, h + 22, h + 24, ':');
    NoneInJoin(s, h - |d|, h + 24, h + 32, ':');
  }

  /** No `Progress:` starts before the last line. */
  lemma ProgressAbsent(s: string, n: string, m: string, e: nat, d: string)
    requires e == 11 + |n| + |m| && AllDigits(n) && AllDigits(m) && DateText(d) && CharsAt(s, "Phase:", 0) && CharsAt(s, " ", 6) && CharsAt(s, n, 7) && CharsAt(s, " of ", 7 + |n|) &&
      CharsAt(s, m, 11 + |n|) && CharsAt(s, "\n", e)
    requires CharsAt(s, "Plan:", e + 1) && CharsAt(s, " 0 of 0", e + 6) && CharsAt(s, " in current phase\n", e + 13)
    requires CharsAt(s, "Status:", e + 31) && CharsAt(s, " Initializing", e + 38) && CharsAt(s, "\n", e + 51) && CharsAt(s, "Last activity:", e + 52) && CharsAt(s, " ", e + 66)
    requires CharsAt(s, d, e + 67) && CharsAt(s, " — Project initialized", e + 67 + |d|) && CharsAt(s, "\n\n", e + 89 + |d|) && CharsAt(s, "Progress:", e + 91 + |d|)
    ensures forall i :: 0 <= i < e + 91 + |d| ==> !OccursAt(s, "Progress:", i)
  {
    var h := e + 67 + |d|;
    HeadNone(s, n, m, e, 'P');
    MiddleNoP(s, e);
    TailNoColon(s, h, d);
    CharOf(s, "Phase:", 0, 1);
    CharOf(s, "Plan:", e + 1, 1);
    forall i | 0 <= i < h + 24 ensures !OccursAt(s, "Progress:", i) {
      if i == 0 {
        Mismatch(s, "Progress:", 0, 1);
      } else if i == e + 1 {
        Mismatch(s, "Progress:", e + 1, 1);
      } else if i < e + 67 {
        Mismatch(s, "Progress:", i, 0);
      } else {
        Mismatch(s, "Progress:", i, 8);
      }
    }
  }

  // Each field is read back in three steps, each its own lemma, so that
  // no proof sees both the characters of the block and the search for a
  // match: the `...Facts` lemmas give the field's match as a predicate on
  // a generic text, the `...Of` lemmas state it of `Block`, and the
  // `...Read` lemmas turn it into what `parseStatePosition` reads. Each
  // position is a parameter fixed by a `requires`, so the predicates of
  // consecutive steps are stated at the same term.

  /** `Phase:` matches at the start with counts `n` of `m` and no name. */
  predicate PhaseFactsAt(s: string, n: string, m: string, e: nat)
  {
    StateRead.MatchesAt(StateRead.PhaseField, s, 0) && StateRead.CountsAt(s, 6) == Some(StateRead.Counts(n, m, e)) &&
    StateRead.PhaseNameAt(s, e) == None
  }

  /** `Plan:` first matches at `p`, with counts 0 of 0. */
  predicate PlanFactsAt(s: string, p: nat)
  {
    StateRead.MatchesAt(StateRead.PlanField, s, p) &&
    StateRead.CountsAt(s, p + 5) == Some(StateRead.Counts("0", "0", p + 12)) &&
    forall i :: 0 <= i < p ==> !OccursAt(s, "Plan:", i)
  }

  /** `Status:` first matches at `p`, with the value `Initializing`. */
  predicate StatusFactsAt(s: string, p: nat)
  {
    StateRead.MatchesAt(StateRead.StatusField, s, p) &&
    (var v := StateRead.LineValueAt(s, p + 7).value; Trim(s[v.0..v.1]) == "Initializing") &&
    forall i :: 0 <= i < p ==> !OccursAt(s, "Status:", i)
  }

  /** `Last activity:` first matches at `p`, with the value `w`. */
  predicate ActivityFactsAt(s: string, p: nat, w: string)
  {
    StateRead.MatchesAt(StateRead.ActivityField, s, p) &&
    (var v := StateRead.LineValueAt(s, p + 14).value; Trim(s[v.0..v.1]) == w) &&
    forall i :: 0 <= i < p ==> !OccursAt(s, "Last activity:", i)
  }

  /** `Progress:` first matches at `g`, with the percentage `0`. */
  predicate ProgressFactsAt(s: string, g: nat)
  {
    StateRead.MatchesAt(StateRead.ProgressField, s, g) &&
    StateRead.ProgressAt(s, g + 9, false) == Some((g + 23, g + 24)) && g + 23 < |s| && s[g + 23] == '0' &&
    forall i :: 0 <= i < g ==> !OccursAt(s, "Progress:", i)
  }

  /** The Phase line of the block, as a match. */
  lemma PhaseFacts(s: string, n: string, m: string, e: nat)
    requires e == 11 + |n| + |m| && n != "" && m != "" && AllDigits(n) && AllDigits(m)
    requires CharsAt(s, "Phase:", 0) && CharsAt(s, " ", 6) && CharsAt(s, n, 7) && CharsAt(s, " of ", 7 + |n|) &&
      CharsAt(s, m, 11 + |n|) && CharsAt(s, "\n", e) && CharsAt(s, "Plan:", e + 1)
    ensures PhaseFactsAt(s, n, m, e)
  {
    PhaseLine(s, n, m, e);
  }

  /** The Plan line of the block, at `p`, as a match. */
  lemma PlanFacts(s: string, n: string, m: string, e: nat, p: nat)
    requires e == 11 + |n| + |m| && p == e + 1 && n != "" && m != "" && AllDigits(n) && AllDigits(m)
    requires CharsAt(s, "Phase:", 0) && CharsAt(s, " ", 6) && CharsAt(s, n, 7) && CharsAt(s, " of ", 7 + |n|) &&
      CharsAt(s, m, 11 + |n|) && CharsAt(s, "\n", e)
    requires CharsAt(s, "Plan:", e + 1) && CharsAt(s, " 0 of 0", e + 6) && CharsAt(s, " in current phase\n", e + 13)
    ensures PlanFactsAt(s, p)
  {
    PlanLine(s, p);
    PlanAbsent(s, n, m, e);
  }

  /** The Status line of the block, at `p`, as a match. */
  lemma StatusFacts(s: string, n: string, m: string, e: nat, p: nat)
    requires e == 11 + |n| + |m| && p == e + 31 && n != "" && m != "" && AllDigits(n) && AllDigits(m)
    requires CharsAt(s, "Phase:", 0) && CharsAt(s, " ", 6) && CharsAt(s, n, 7) && CharsAt(s, " of ", 7 + |n|) &&
      CharsAt(s, m, 11 + |n|) && CharsAt(s, "\n", e)
    requires CharsAt(s, "Plan:", e + 1) && CharsAt(s, " 0 of 0", e + 6) && CharsAt(s, " in current phase\n", e + 13)
    requires CharsAt(s, "Status:", e + 31) && CharsAt(s, " Initializing", e + 38) && CharsAt(s, "\n", e + 51)
    ensures StatusFactsAt(s, p)
  {
    StatusLine(s, p);
    StatusAbsent(s, n, m, e);
  }

  /** The Last activity line of the block, at `p`, as a match. */
  lemma ActivityFacts(s: string, n: string, m: string, e: nat, d: string, p: nat)
    requires DateText(d)
    requires e == 11 + |n| + |m| && p == e + 52 && n != "" && m != "" && AllDigits(n) && AllDigits(m)
    requires CharsAt(s, "Phase:", 0) && CharsAt(s, " ", 6) && CharsAt(s, n, 7) && CharsAt(s, " of ", 7 + |n|) &&
      CharsAt(s, m, 11 + |n|) && CharsAt(s, "\n", e)
    requires CharsAt(s, "Plan:", e + 1) && CharsAt(s, " 0 of 0", e + 6) && CharsAt(s, " in current phase\n", e + 13)
    requires CharsAt(s, "Status:", e + 31) && CharsAt(s, " Initializing", e + 38) && CharsAt(s, "\n", e + 51)
    requires CharsAt(s, "Last activity:", e + 52) && CharsAt(s, " ", e + 66) && CharsAt(s, d, e + 67) &&
      CharsAt(s, " — Project initialized", e + 67 + |d|) && CharsAt(s, "\n\n", e + 89 + |d|)
    ensures ActivityFactsAt(s, p, Trim(d + " — Project initialized"))
  {
    InitializedText();
    ActivityLine(s, p, d, " — Project initialized");
    ActivityAbsent(s, n, m, e);
  }

  /** The Progress line of the block, at `g`, as a match. */
  lemma ProgressFacts(s: string, n: string, m: string, e: nat, d: string, z: string, g: nat)
    requires DateText(d) && BarOfNoPlans(z) && |s| == e + 101 + |d| + |z|
    requires e == 11 + |n| + |m| && g == e + 91 + |d| && n != "" && m != "" && AllDigits(n) && AllDigits(m)
    requires CharsAt(s, "Phase:", 0) && CharsAt(s, " ", 6) && CharsAt(s, n, 7) && CharsAt(s, " of ", 7 + |n|) &&
      CharsAt(s, m, 11 + |n|) && CharsAt(s, "\n", e)
    requires CharsAt(s, "Plan:", e + 1) && CharsAt(s, " 0 of 0", e + 6) && CharsAt(s, " in current phase\n", e + 13)
    requires CharsAt(s, "Status:", e + 31) && CharsAt(s, " Initializing", e + 38) && CharsAt(s, "\n", e + 51)
    requires CharsAt(s, "Last activity:", e + 52) && CharsAt(s, " ", e + 66) && CharsAt(s, d, e + 67) &&
      CharsAt(s, " — Project initialized", e + 67 + |d|) && CharsAt(s, "\n\n", e + 89 + |d|)
    requires CharsAt(s, "Progress:", e + 91 + |d|) && CharsAt(s, " ", e + 100 + |d|) && CharsAt(s, z, e + 101 + |d|)
    ensures ProgressFactsAt(s, g)
  {
    ProgressLine(s, g, z);
    CharOf(s, z, g + 10, 13);
    ProgressAbsent(s, n, m, e, d);
  }

  /** What the block's pieces must be for its fields to read back. */
  predicate BlockArgs(n: string, m: string, d: string, z: string)
  {
    n != "" && m != "" && AllDigits(n) && AllDigits(m) && DateText(d) && BarOfNoPlans(z)
  }

  /** The outer pieces of the block in place; its Phase counts end at `e`. */
  lemma BlockOuter(n: string, m: string, d: string, z: string, e: nat)
    requires e == 11 + |n| + |m|
    ensures var s := Block(n, m, d, z);
      |s| == e + 101 + |d| + |z| &&
      CharsAt(s, "Phase:", 0) && CharsAt(s, " ", 6) && CharsAt(s, n, 7) && CharsAt(s, " of ", 7 + |n|) &&
      CharsAt(s, m, 11 + |n|) && CharsAt(s, PlanToActivity, e) && CharsAt(s, d, e + 67) &&
      CharsAt(s, ActivityToBar, e + 67 + |d|) && CharsAt(s, z, e + 101 + |d|)
  {
    BlockNested(n, m, d, z);
    Pieces9("Phase:", " ", n, " of ", m, PlanToActivity, d, ActivityToBar, z);
    assert |PlanToActivity| == 67 && |ActivityToBar| == 34;
  }

  /** The block matches Phase at the start. */
  lemma PhaseOf(n: string, m: string, d: string, z: string, e: nat)
    requires BlockArgs(n, m, d, z) && e == 11 + |n| + |m|
    ensures PhaseFactsAt(Block(n, m, d, z), n, m, e)
  {
    BlockOuter(n, m, d, z, e);
    LaidOf(Block(n, m, d, z), n, m, e, d, z);
    PhaseFacts(Block(n, m, d, z), n, m, e);
  }

  /** The block matches Plan at `p`, right after the Phase line. */
  lemma PlanOf(n: string, m: string, d: string, z: string, e: nat, p: nat)
    requires BlockArgs(n, m, d, z) && e == 11 + |n| + |m| && p == e + 1
    ensures PlanFactsAt(Block(n, m, d, z), p)
  {
    BlockOuter(n, m, d, z, e);
    LaidOf(Block(n, m, d, z), n, m, e, d, z);
    PlanFacts(Block(n, m, d, z), n, m, e, p);
  }

  /** The block matches Status at `p`. */
  lemma StatusOf(n: string, m: string, d: string, z: string, e: nat, p: nat)
    requires BlockArgs(n, m, d, z) && e == 11 + |n| + |m| && p == e + 31
    ensures StatusFactsAt(Block(n, m, d, z), p)
  {
    BlockOuter(n, m, d, z, e);
    LaidOf(Block(n, m, d, z), n, m, e, d, z);
    StatusFacts(Block(n, m, d, z), n, m, e, p);
  }

  /** The block matches Last activity at `p`. */
  lemma ActivityOf(n: string, m: string, d: string, z: string, e: nat, p: nat)
    requires BlockArgs(n, m, d, z) && e == 11 + |n| + |m| && p == e + 52
    ensures ActivityFactsAt(Block(n, m, d, z), p, Trim(d + " — Project initialized"))
  {
    BlockOuter(n, m, d, z, e);
    LaidOf(Block(n, m, d, z), n, m, e, d, z);
    ActivityFacts(Block(n, m, d, z), n, m, e, d, p);
  }

  /** The block matches Progress at `g`. */
  lemma ProgressOf(n: string, m: string, d: string, z: string, e: nat, g: nat)
    requires BlockArgs(n, m, d, z) && e == 11 + |n| + |m| && g == e + 91 + |d|
    ensures ProgressFactsAt(Block(n, m, d, z), g)
  {
    BlockOuter(n, m, d, z, e);
    LaidOf(Block(n, m, d, z), n, m, e, d, z);
    ProgressFacts(Block(n, m, d, z), n, m, e, d, z, g);
  }

  /** The Phase field matched at the start reads `n` of `m`, with no name. */
  lemma PhaseRead(s: string, n: string, m: string, e: nat)
    requires n != "" && m != "" && AllDigits(n) && AllDigits(m)
    requires PhaseFactsAt(s, n, m, e)
    ensures StateRead.FirstMatch(StateRead.PhaseField, s, 0) == Some(0)
    ensures StateRead.CountsField(StateRead.PhaseField, s) == (DigitsValue(n), DigitsValue(m), None)
  {
    StateRead.FirstMatchAt(StateRead.PhaseField, s, 0);
  }

  /** The Plan field matched at `p` with no `Plan:` before it reads 0 of 0. */
  lemma PlanRead(s: string, p: nat)
    requires PlanFactsAt(s, p)
    ensures StateRead.CountsField(StateRead.PlanField, s) == (0, 0, None)
  {
    StateRead.FirstMatchAt(StateRead.PlanField, s, p);
    assert DigitsValue("0") == 0 by {
      assert "0"[..0] == "";
    }
  }

  /** A text field matched at `p` with no label before it reads `w`, the value there trimmed. */
  lemma TextRead(f: StateRead.Field, s: string, t: string, p: nat, q: nat, w: string)
    requires (f == StateRead.StatusField || f == StateRead.ActivityField) && t == StateRead.Label(f) && q == p + |t|
    requires StateRead.MatchesAt(f, s, p)
    requires var v := StateRead.LineValueAt(s, q).value; Trim(s[v.0..v.1]) == w
    requires forall i :: 0 <= i < p ==> !OccursAt(s, t, i)
    ensures StateRead.TextField(f, s) == Some(w)
  {
    StateRead.FirstMatchAt(f, s, p);
  }

  /** The Status field matched at `p` reads `Initializing`. */
  lemma StatusRead(s: string, p: nat)
    requires StatusFactsAt(s, p)
    ensures StateRead.TextField(StateRead.StatusField, s) == Some("Initializing")
  {
    TextRead(StateRead.StatusField, s, "Status:", p, p + 7, "Initializing");
  }

  /** The Last activity field matched at `p` reads `w`. */
  lemma ActivityRead(s: string, p: nat, w: string)
    requires ActivityFactsAt(s, p, w)
    ensures StateRead.TextField(StateRead.ActivityField, s) == Some(w)
  {
    TextRead(StateRead.ActivityField, s, "Last activity:", p, p + 14, w);
  }

  /** The Progress field matched at `g` with no `Progress:` before it reads the `0` at `g + 23`. */
  lemma ProgressRead(s: string, g: nat)
    requires ProgressFactsAt(s, g)
    ensures StateRead.PercentField(s) == 0
  {
    StateRead.FirstMatchAt(StateRead.ProgressField, s, g);
    assert s[g + 23..g + 24] == "0";
    assert DigitsValue("0") == 0 by {
      assert "0"[..0] == "";
    }
  }

  /** The block's Phase field reads `n` of `m`, with no name. */
  lemma PhaseReadsBack(n: string, m: string, d: string, z: string, e: nat)
    requires BlockArgs(n, m, d, z) && e == 11 + |n| + |m|
    ensures StateRead.FirstMatch(StateRead.PhaseField, Block(n, m, d, z), 0) == Some(0)
    ensures StateRead.CountsField(StateRead.PhaseField, Block(n, m, d, z)) == (DigitsValue(n), DigitsValue(m), None)
  {
    PhaseOf(n, m, d, z, e);
    PhaseRead(Block(n, m, d, z), n, m, e);
  }

  /** The block's Plan field reads 0 of 0. */
  lemma PlanReadsBack(n: string, m: string, d: string, z: string, e: nat, p: nat)
    requires BlockArgs(n, m, d, z) && e == 11 + |n| + |m| && p == e + 1
    ensures StateRead.CountsField(StateRead.PlanField, Block(n, m, d, z)) == (0, 0, None)
  {
    PlanOf(n, m, d, z, e, p);
    PlanRead(Block(n, m, d, z), p);
  }

  /** The block's Status field reads `Initializing`. */
  lemma StatusReadsBack(n: string, m: string, d: string, z: string, e: nat, p: nat)
    requires BlockArgs(n, m, d, z) && e == 11 + |n| + |m| && p == e + 31
    ensures StateRead.TextField(StateRead.StatusField, Block(n, m, d, z)) == Some("Initializing")
  {
    StatusOf(n, m, d, z, e, p);
    StatusRead(Block(n, m, d, z), p);
  }

  /** The block's Last activity field reads the date followed by `— Project initialized`. */
  lemma ActivityReadsBack(n: string, m: string, d: string, z: string, e: nat, p: nat)
    requires BlockArgs(n, m, d, z) && e == 11 + |n| + |m| && p == e + 52
    ensures StateRead.TextField(StateRead.ActivityField, Block(n, m, d, z)) == Some(Trim(d + " — Project initialized"))
  {
    ActivityOf(n, m, d, z, e, p);
    ActivityRead(Block(n, m, d, z), p, Trim(d + " — Project initialized"));
  }

  /** The block's Progress field reads 0%. */
  lemma ProgressReadsBack(n: string, m: string, d: string, z: string, e: nat, g: nat)
    requires BlockArgs(n, m, d, z) && e == 11 + |n| + |m| && g == e + 91 + |d|
    ensures StateRead.PercentField(Block(n, m, d, z)) == 0
  {
    ProgressOf(n, m, d, z, e, g);
    ProgressRead(Block(n, m, d, z), g);
  }

  /** Every field of the block reads back. */
  lemma BlockReads(n: string, m: string, d: string, z: string)
    requires BlockArgs(n, m, d, z)
    ensures StateRead.ParseStatePosition(Block(n, m, d, z)) ==
      Some(StateRead.Position(DigitsValue(n), DigitsValue(m), None, 0, 0, Some("Initializing"),
                              Some(Trim(d + " — Project initialized")), 0))
  {
    var e := 11 + |n| + |m|;
    PhaseReadsBack(n, m, d, z, e);
    PlanReadsBack(n, m, d, z, e, e + 1);
    StatusReadsBack(n, m, d, z, e, e + 31);
    ActivityReadsBack(n, m, d, z, e, e + 52);
    ProgressReadsBack(n, m, d, z, e, e + 91 + |d|);
  }

  /**
   * The Current Position block `stateTemplate` writes reads back through
   * `parseStatePosition` as the phase numbers it was given, plan 0 of 0,
   * status `Initializing`, the date followed by `— Project initialized`,
   * and 0%. The date must stay on its line and hold no `:`, as a
   * `YYYY-MM-DD` date does.
   */
  lemma PositionReadsBack(o: Options)
    requires DateText(o.date)
    ensures StateRead.ParseStatePosition(PositionText(o)) ==
      Some(StateRead.Position(o.currentPhase, o.totalPhases, None, 0, 0, Some("Initializing"),
                              Some(Trim(o.date + " — Project initialized")), 0))
  {
    var n, m := NatToString(o.currentPhase), NatToString(o.totalPhases);
    NoPlansBar(0);
    EmptyBarShape();
    BlockReads(n, m, o.date, EmptyBar);
    DigitsValueOfNatToString(o.currentPhase);
    DigitsValueOfNatToString(o.totalPhases);
  }

  // =====================================================================
  // initProjectFiles
  // =====================================================================

  /** The five files `initProjectFiles` considers. */
  datatype FileKind = StateMd | ConfigJson | ProjectMd | RequirementsMd | RoadmapMd

  /** The order the files are considered in. */
  const FileOrder: seq<FileKind> := [StateMd, ConfigJson, ProjectMd, RequirementsMd, RoadmapMd]

  function FileName(k: FileKind): string
  {
    match k
    case StateMd => "STATE.md"
    case ConfigJson => "config.json"
    case ProjectMd => "PROJECT.md"
    case RequirementsMd => "REQUIREMENTS.md"
    case RoadmapMd => "ROADMAP.md"
  }

  /** A file's content: markdown text, or the object config.json serializes. */
  datatype Doc = Markdown(text: string) | JsonFile(config: Config.Object)

  /** What is written for each file. */
  function Content(k: FileKind, o: Options): Doc
  {
    match k
    case StateMd => Markdown(StateTemplate(o))
    case ConfigJson => JsonFile(Config.TemplateConfig)
    case ProjectMd => Markdown(ProjectTemplate(o))
    case RequirementsMd => Markdown(RequirementsTemplate(o))
    case RoadmapMd => Markdown(RoadmapTemplate(o))
  }

  /** `options.date || today`. */
  function WithDate(projectName: string, coreValue: string, totalPhases: nat, currentPhase: nat,
                    date: Option<string>, today: string): (o: Options)
    ensures date.Some? && date.value != "" ==> o.date == date.value
    ensures date.None? || date.value == "" ==> o.date == today
  {
    Options(projectName, coreValue, totalPhases, currentPhase,
            if date.Some? && date.value != "" then date.value else today)
  }

  /** The names of the files of `ks` that are (`present`) or are not in `existing`, in order. */
  function Select(ks: seq<FileKind>, existing: set<string>, present: bool): seq<string>
  {
    if ks == [] then []
    else Select(ks[..|ks| - 1], existing, present) +
         (if (FileName(ks[|ks| - 1]) in existing) == present then [FileName(ks[|ks| - 1])] else [])
  }

  /** The loop's step: one more file considered. */
  lemma SelectStep(ks: seq<FileKind>, existing: set<string>, present: bool, i: nat)
    requires i < |ks|
    ensures Select(ks[..i + 1], existing, present)
         == Select(ks[..i], existing, present) +
            (if (FileName(ks[i]) in existing) == present then [FileName(ks[i])] else [])
  {
    assert ks[..i + 1][..i] == ks[..i];
  }

  /** No two files share a name. */
  lemma FileNamesDistinct()
    ensures DistinctNames(FileOrder)
  {
  }

  function Names(ks: seq<FileKind>): (ns: seq<string>)
    ensures |ns| == |ks| && forall i :: 0 <= i < |ks| ==> ns[i] == FileName(ks[i])
  {
    seq(|ks|, i requires 0 <= i < |ks| => FileName(ks[i]))
  }

  /** No two of `ks` share a name. */
  predicate DistinctNames(ks: seq<FileKind>)
  {
    forall i, j :: 0 <= i < j < |ks| ==> FileName(ks[i]) != FileName(ks[j])
  }

  /** The `i`-th name is new, and the names so far grow by it. */
  lemma NewName(ks: seq<FileKind>, i: nat)
    requires DistinctNames(ks) && i < |ks|
    ensures FileName(ks[i]) !in Names(ks[..i])
    ensures Names(ks[..i + 1]) == Names(ks[..i]) + [FileName(ks[i])]
  {
  }

  /**
   * The create-or-skip loop. `existing` holds the names already in
   * `.planning/`; `writes` maps each name the loop writes to the file it
   * writes there. A file that exists is skipped and never rewritten.
   */
  method InitProjectFiles(existing: set<string>)
    returns (created: seq<string>, skipped: seq<string>, writes: map<string, FileKind>)
    ensures created == Select(FileOrder, existing, false)
    ensures skipped == Select(FileOrder, existing, true)
    ensures writes.Keys !! existing
    ensures forall k :: k in FileOrder && FileName(k) !in existing ==> FileName(k) in writes && writes[FileName(k)] == k
    ensures forall n :: n in writes ==> n in created
  {
    FileNamesDistinct();
    created, skipped, writes := CreateOrSkip(FileOrder, existing);
  }

  /** The loop of `InitProjectFiles` over any list of files with distinct names. */
  method CreateOrSkip(ks: seq<FileKind>, existing: set<string>)
    returns (created: seq<string>, skipped: seq<string>, writes: map<string, FileKind>)
    requires DistinctNames(ks)
    ensures created == Select(ks, existing, false)
    ensures skipped == Select(ks, existing, true)
    ensures writes.Keys !! existing
    ensures forall k :: k in ks && FileName(k) !in existing ==> FileName(k) in writes && writes[FileName(k)] == k
    ensures forall n :: n in writes ==> n in created
  {
    created, skipped, writes := [], [], map[];
    for i := 0 to |ks|
      invariant created == Select(ks[..i], existing, false)
      invariant skipped == Select(ks[..i], existing, true)
      invariant writes.Keys !! existing
      invariant forall j :: 0 <= j < i && FileName(ks[j]) !in existing ==>
        FileName(ks[j]) in writes && writes[FileName(ks[j])] == ks[j]
      invariant forall n :: n in writes ==> n in created
      invariant forall n :: n in created ==> n in Names(ks[..i])
    {
      var k := ks[i];
      var filename := FileName(k);
      NewName(ks, i);
      SelectStep(ks, existing, false, i);
      SelectStep(ks, existing, true, i);
      if filename in existing || filename in writes {
        skipped := skipped + [filename];
      } else {
        writes := writes[filename := k];
        created := created + [filename];
      }
    }
    assert ks[..|ks|] == ks;
  }

  /** Every file is either created or skipped, never both. */
  lemma {:induction false} SelectPartition(ks: seq<FileKind>, existing: set<string>)
    ensures |Select(ks, existing, false)| + |Select(ks, existing, true)| == |ks|
    ensures forall n :: n in Select(ks, existing, false) ==> n !in existing
    ensures forall n :: n in Select(ks, existing, true) ==> n in existing
  {
    if ks != [] {
      SelectPartition(ks[..|ks| - 1], existing);
    }
  }

  /** `Select` keeps the files' order: it lists the chosen names as they come. */
  lemma {:induction false} SelectAll(ks: seq<FileKind>, existing: set<string>, present: bool)
    requires forall i :: 0 <= i < |ks| ==> (FileName(ks[i]) in existing) == present
    ensures Select(ks, existing, present) == seq(|ks|, i requires 0 <= i < |ks| => FileName(ks[i]))
    ensures Select(ks, existing, !present) == []
  {
    if ks != [] {
      SelectAll(ks[..|ks| - 1], existing, present);
    }
  }

  /** A second run, after the first wrote its files, creates nothing and skips all five. */
  lemma SecondRunSkipsAll(existing: set<string>, writes: map<string, FileKind>)
    requires forall k :: k in FileOrder ==> FileName(k) in existing || FileName(k) in writes
    ensures Select(FileOrder, existing + writes.Keys, false) == []
    ensures Select(FileOrder, existing + writes.Keys, true)
         == ["STATE.md", "config.json", "PROJECT.md", "REQUIREMENTS.md", "ROADMAP.md"]
  {
    SelectAll(FileOrder, existing + writes.Keys, true);
  }
}

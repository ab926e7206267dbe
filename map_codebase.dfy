/**
 * Codebase mapping (`src/map-codebase.js`): four mapper agents, one per
 * focus area, each writing its documents under `.planning/codebase/`.
 * Spawning and waiting for the agents is an oracle `run` that gives each
 * prompt's result; whether a document exists afterwards is an oracle
 * `present` over paths.
 */
module MapCodebase {
  import opened Wrappers
  import opened Text
  import ArtifactCheck

  datatype FocusArea = FocusArea(focus: string, files: seq<string>)

  /** The focus areas and their documents, in table order. */
  const FocusAreas: seq<FocusArea> := [
    FocusArea("tech", ["STACK.md", "INTEGRATIONS.md"]),
    FocusArea("arch", ["ARCHITECTURE.md", "STRUCTURE.md"]),
    FocusArea("quality", ["CONVENTIONS.md", "TESTING.md"]),
    FocusArea("concerns", ["CONCERNS.md"])
  ]

  /** The seven documents, in the order the table lists them. */
  const DocumentNames: seq<string> := [
    "STACK.md", "INTEGRATIONS.md", "ARCHITECTURE.md", "STRUCTURE.md",
    "CONVENTIONS.md", "TESTING.md", "CONCERNS.md"
  ]

  function Files(a: FocusArea): seq<string> { a.files }

  /** `path.join(dir, 'codebase', file)`. */
  function OutputPath(dir: string, file: string): string
  {
    PathJoin(PathJoin(dir, "codebase"), file)
  }

  /** `names.map(f => path.join(dir, 'codebase', f))`. */
  function Paths(dir: string, names: seq<string>): (r: seq<string>)
    ensures |r| == |names| && forall i :: 0 <= i < |names| ==> r[i] == OutputPath(dir, names[i])
  {
    if names == [] then [] else Paths(dir, names[..|names| - 1]) + [OutputPath(dir, names[|names| - 1])]
  }

  /**
   * `getExpectedOutputFiles`: each area's documents under
   * `planningDir/codebase`, area by area: the seven documents in table
   * order, all different, each named by its document.
   */
  function ExpectedOutputFiles(planningDir: string): (r: seq<string>)
    ensures |r| == 7 && forall i :: 0 <= i < 7 ==> r[i] == OutputPath(planningDir, DocumentNames[i])
    ensures Distinct(r)
    ensures forall i :: 0 <= i < 7 ==> ArtifactCheck.Basename(r[i]) == DocumentNames[i]
  {
    FlatMapPaths(planningDir, FocusAreas);
    FocusDocuments();
    DocumentPaths(planningDir);
    FlatMap((a: FocusArea) => Paths(planningDir, a.files), FocusAreas)
  }

  predicate Distinct(xs: seq<string>)
  {
    forall i, j :: 0 <= i < j < |xs| ==> xs[i] != xs[j]
  }

  // ---------------------------------------------------------------------
  // the expected documents
  // ---------------------------------------------------------------------

  /** The areas' file lists, one after another, are the seven documents. */
  lemma FocusDocuments()
    ensures FlatMap(Files, FocusAreas) == DocumentNames
  {
    var a := FocusAreas;
    assert a[..0] == [];
    assert a[..1][..0] == [];
    assert a[..2][..1] == a[..1];
    assert a[..3][..2] == a[..2];
    assert a[..4][..3] == a[..3];
    assert a[..4] == a;
    FlatMapOne(Files, a[0]);
    assert FlatMap(Files, a[..2]) == a[0].files + a[1].files;
    assert FlatMap(Files, a[..3]) == a[0].files + a[1].files + a[2].files;
  }

  lemma FlatMapOne<T>(f: T -> seq<string>, x: T)
    ensures FlatMap(f, [x]) == f(x)
  {
    assert [x][..0] == [];
  }

  /** Mapping each area to its paths is mapping the concatenated file lists to paths. */
  lemma {:induction false} FlatMapPaths(dir: string, areas: seq<FocusArea>)
    decreases |areas|
    ensures FlatMap((a: FocusArea) => Paths(dir, a.files), areas) == Paths(dir, FlatMap(Files, areas))
  {
    if areas != [] {
      var m := |areas| - 1;
      FlatMapPaths(dir, areas[..m]);
      PathsAppend(dir, FlatMap(Files, areas[..m]), areas[m].files);
    }
  }

  lemma PathsAppend(dir: string, a: seq<string>, b: seq<string>)
    ensures Paths(dir, a + b) == Paths(dir, a) + Paths(dir, b)
  {
    var l := Paths(dir, a + b);
    var r := Paths(dir, a) + Paths(dir, b);
    forall i | 0 <= i < |l| ensures l[i] == r[i] {
      if i < |a| { assert (a + b)[i] == a[i]; } else { assert (a + b)[i] == b[i - |a|]; }
    }
  }

  lemma DocumentNamesDistinct()
    ensures Distinct(DocumentNames)
    ensures forall i :: 0 <= i < |DocumentNames| ==> DocumentNames[i] != [] && '/' !in DocumentNames[i]
  {
  }

  /** The seven documents' paths: all different, each named by its document. */
  lemma DocumentPaths(planningDir: string)
    ensures var r := Paths(planningDir, DocumentNames);
      Distinct(r) && forall i :: 0 <= i < 7 ==> ArtifactCheck.Basename(r[i]) == DocumentNames[i]
  {
    var r := Paths(planningDir, DocumentNames);
    DocumentNamesDistinct();
    var d := PathJoin(planningDir, "codebase");
    forall i, j | 0 <= i < j < 7 ensures r[i] != r[j] {
      if r[i] == r[j] { PathJoinInjective(d, DocumentNames[i], DocumentNames[j]); }
    }
    forall i | 0 <= i < 7 ensures ArtifactCheck.Basename(r[i]) == DocumentNames[i] {
      ArtifactCheck.BasenameJoin(d, DocumentNames[i]);
    }
  }

  /** Under a named planning directory every expected path holds `/codebase/`. */
  lemma ExpectedUnderCodebase(planningDir: string)
    requires planningDir != ""
    ensures var r := ExpectedOutputFiles(planningDir);
      forall i :: 0 <= i < |r| ==> Contains(r[i], "/codebase/")
  {
    FlatMapPaths(planningDir, FocusAreas);
    FocusDocuments();
    var r := ExpectedOutputFiles(planningDir);
    forall i | 0 <= i < |r| ensures Contains(r[i], "/codebase/") {
      UnderCodebase(planningDir, DocumentNames[i]);
    }
  }

  lemma UnderCodebase(dir: string, f: string)
    requires dir != ""
    ensures Contains(OutputPath(dir, f), "/codebase/")
  {
    assert OutputPath(dir, f) == dir + ("/codebase/" + f);
    ContainsSelf("/codebase/");
    ContainsBefore("/codebase/", f, "/codebase/");
    ContainsAfter(dir, "/codebase/" + f, "/codebase/");
  }

  /** No document belongs to two focus areas. */
  lemma FocusAreasDisjoint(i: nat, j: nat, x: string)
    requires i < j < |FocusAreas| && x in FocusAreas[i].files
    ensures x !in FocusAreas[j].files
  {
    FocusDocuments();
    DocumentNamesDistinct();
    FlatMapAppend(Files, FocusAreas[..j], FocusAreas[j..]);
    assert FocusAreas[..j] + FocusAreas[j..] == FocusAreas;
    assert FocusAreas[..j][i] == FocusAreas[i];
    assert FocusAreas[j..][0] == FocusAreas[j];
    FlatMapHas(FocusAreas[..j], i, x);
    FlatMapHas(FocusAreas[j..], 0, x);
    DistinctHalves(FlatMap(Files, FocusAreas[..j]), FlatMap(Files, FocusAreas[j..]), x);
  }

  lemma DistinctHalves(a: seq<string>, b: seq<string>, x: string)
    requires Distinct(a + b) && x in a
    ensures x !in b
  {
    var p :| 0 <= p < |a| && a[p] == x;
    assert (a + b)[p] == x;
    forall q | 0 <= q < |b| ensures b[q] != x {
      assert (a + b)[|a| + q] == b[q];
    }
  }

  /** Each area's files are among the concatenated lists. */
  lemma {:induction false} FlatMapHas(areas: seq<FocusArea>, i: nat, x: string)
    requires i < |areas|
    decreases |areas|
    ensures x in areas[i].files ==> x in FlatMap(Files, areas)
  {
    var m := |areas| - 1;
    if i < m {
      assert areas[..m][i] == areas[i];
      FlatMapHas(areas[..m], i, x);
    }
  }

  // ---------------------------------------------------------------------
  // the mapper prompts
  // ---------------------------------------------------------------------

  datatype MapperPrompt = MapperPrompt(prompt: string, outputFile: string, focus: string)

  const MapperDefinition := "agents/gsd-codebase-mapper.md"

  /** The documents as the prompt lists them: `- .planning/codebase/<file>`. */
  function Listed(files: seq<string>): (r: seq<string>)
    ensures |r| == |files| && forall i :: 0 <= i < |files| ==> r[i] == "- " + OutputPath(".planning", files[i])
  {
    if files == [] then [] else Listed(files[..|files| - 1]) + ["- " + OutputPath(".planning", files[|files| - 1])]
  }

  /** The prompt of one mapper agent. */
  const PromptOpening := "You are a codebase mapper agent.\n\nRead the agent definition at "
  const FocusIntro := " and follow the instructions for the \""
  const FocusLine := "\" focus area.\n\nYour focus area: "
  const OutputsIntro := "\nWrite your output documents to:\n"
  const PromptClosing := "\n\nAfter writing, output a brief confirmation with file paths and line counts."

  function PromptText(a: FocusArea): string
  {
    PromptOpening + MapperDefinition + FocusIntro + a.focus + FocusLine + a.focus + OutputsIntro
    + Join(Listed(a.files)) + PromptClosing
  }

  /** The marker file an agent writes when done. */
  function MarkerFile(focus: string): string
  {
    OutputPath(".planning", ".mapper-" + focus + "-done.txt")
  }

  function PromptFor(a: FocusArea): MapperPrompt
  {
    MapperPrompt(PromptText(a), MarkerFile(a.focus), a.focus)
  }

  /**
   * `buildMapperPrompts`: one prompt per focus area, in table order, each
   * naming its area's marker file, four different marker files in all;
   * `cwd` is not used.
   */
  function BuildMapperPrompts(cwd: string): (r: seq<MapperPrompt>)
    ensures |r| == 4
    ensures forall i :: 0 <= i < 4 ==> r[i].focus == FocusAreas[i].focus && r[i].outputFile == MarkerFile(FocusAreas[i].focus)
    ensures forall i, j :: 0 <= i < j < 4 ==> r[i].outputFile != r[j].outputFile
  {
    MarkersDistinct();
    seq(|FocusAreas|, i requires 0 <= i < |FocusAreas| => PromptFor(FocusAreas[i]))
  }

  lemma MarkersDistinct()
    ensures forall i, j :: 0 <= i < j < |FocusAreas| ==> MarkerFile(FocusAreas[i].focus) != MarkerFile(FocusAreas[j].focus)
  {
    forall i, j | 0 <= i < j < |FocusAreas| ensures MarkerFile(FocusAreas[i].focus) != MarkerFile(FocusAreas[j].focus) {
      if MarkerFile(FocusAreas[i].focus) == MarkerFile(FocusAreas[j].focus) {
        MarkerInjective(FocusAreas[i].focus, FocusAreas[j].focus);
      }
    }
  }

  /** Different focus names give different marker files. */
  lemma MarkerInjective(f: string, g: string)
    requires MarkerFile(f) == MarkerFile(g)
    ensures f == g
  {
    var d := PathJoin(".planning", "codebase");
    PathJoinInjective(d, ".mapper-" + f + "-done.txt", ".mapper-" + g + "-done.txt");
    var x := ".mapper-" + f + "-done.txt";
    var y := ".mapper-" + g + "-done.txt";
    assert x[8..|x| - 9] == f;
    assert y[8..|y| - 9] == g;
  }

  /**
   * Each prompt names the mapper definition, its focus area and every one
   * of the area's documents.
   */
  lemma PromptMentions(cwd: string, i: nat, j: nat)
    requires i < 4 && j < |FocusAreas[i].files|
    ensures var p := BuildMapperPrompts(cwd)[i];
      Contains(p.prompt, "gsd-codebase-mapper.md") && Contains(p.prompt, p.focus)
      && Contains(p.prompt, FocusAreas[i].files[j])
  {
    var a := FocusAreas[i];
    assert BuildMapperPrompts(cwd)[i] == PromptFor(a);
    MentionsDefinition(a);
    MentionsFocus(a);
    MentionsDocument(a, j);
  }

  lemma MentionsDefinition(a: FocusArea)
    ensures Contains(PromptText(a), "gsd-codebase-mapper.md")
  {
    var f := a.focus;
    var s1 := PromptOpening + MapperDefinition;
    var s2 := s1 + FocusIntro;
    var g := "gsd-codebase-mapper.md";
    assert MapperDefinition == "agents/" + g;
    ContainsSelf(g);
    ContainsAfter("agents/", g, g);
    ContainsAfter(PromptOpening, MapperDefinition, g);
    ContainsBefore(s1, FocusIntro, g);
    ContainsBefore(s2, f, g);
    ContainsRest(s2 + f, f, Join(Listed(a.files)), g);
  }

  lemma MentionsFocus(a: FocusArea)
    ensures Contains(PromptText(a), a.focus)
  {
    var f := a.focus;
    var s2 := PromptOpening + MapperDefinition + FocusIntro;
    ContainsSelf(f);
    ContainsAfter(s2, f, f);
    ContainsRest(s2 + f, f, Join(Listed(a.files)), f);
  }

  lemma MentionsDocument(a: FocusArea, j: nat)
    requires j < |a.files|
    ensures Contains(PromptText(a), a.files[j])
  {
    var f := a.focus;
    var L := Join(Listed(a.files));
    var s6 := PromptOpening + MapperDefinition + FocusIntro + f + FocusLine + f + OutputsIntro;
    ListedHas(a.files, j);
    ContainsAfter(s6, L, a.files[j]);
    ContainsBefore(s6 + L, PromptClosing, a.files[j]);
  }

  /** The list of output paths names each document. */
  lemma ListedHas(files: seq<string>, j: nat)
    requires j < |files|
    ensures Contains(Join(Listed(files)), files[j])
  {
    var doc := files[j];
    var line := Listed(files)[j];
    var d := PathJoin(".planning", "codebase");
    assert d != "";
    JoinContains(Listed(files), j);
    ContainsSelf(doc);
    ContainsAfter(d + "/", doc, doc);
    ContainsAfter("- ", PathJoin(d, doc), doc);
    ContainsTrans(Join(Listed(files)), line, doc);
  }

  /** What the prompt holds by its focus line stays held once the rest follows. */
  lemma ContainsRest(s3: string, f: string, L: string, t: string)
    requires Contains(s3, t)
    ensures Contains(s3 + FocusLine + f + OutputsIntro + L + PromptClosing, t)
  {
    ContainsBefore(s3, FocusLine, t);
    ContainsBefore(s3 + FocusLine, f, t);
    ContainsBefore(s3 + FocusLine + f, OutputsIntro, t);
    ContainsBefore(s3 + FocusLine + f + OutputsIntro, L, t);
    ContainsBefore(s3 + FocusLine + f + OutputsIntro + L, PromptClosing, t);
  }

  // ---------------------------------------------------------------------
  // runMapping
  // ---------------------------------------------------------------------

  /** One entry of `verifyOutputs`: the path and whether it exists. */
  datatype FileCheck = FileCheck(path: string, present: bool)

  datatype MappingData = MappingData(total: nat, found: nat, missing: nat, verifications: seq<FileCheck>)

  datatype Mapping = Mapped(success: bool, data: MappingData) | Failed(error: string)

  function Checks(paths: seq<string>, present: string -> bool): (r: seq<FileCheck>)
    ensures |r| == |paths| && forall i :: 0 <= i < |paths| ==> r[i] == FileCheck(paths[i], present(paths[i]))
  {
    if paths == [] then [] else Checks(paths[..|paths| - 1], present) + [FileCheck(paths[|paths| - 1], present(paths[|paths| - 1]))]
  }

  /** How many of the checked files exist. */
  function Found(vs: seq<FileCheck>): nat
  {
    if vs == [] then 0 else Found(vs[..|vs| - 1]) + (if vs[|vs| - 1].present then 1 else 0)
  }

  /** At most every file is found; none is found exactly when none exists; all exactly when all do. */
  lemma {:induction false} FoundBounds(vs: seq<FileCheck>)
    decreases |vs|
    ensures Found(vs) <= |vs|
    ensures Found(vs) == 0 <==> forall i :: 0 <= i < |vs| ==> !vs[i].present
    ensures Found(vs) == |vs| <==> forall i :: 0 <= i < |vs| ==> vs[i].present
  {
    if vs != [] {
      var m := |vs| - 1;
      FoundBounds(vs[..m]);
      assert forall i :: 0 <= i < m ==> vs[..m][i] == vs[i];
    }
  }

  /** The report of the checked files: `found + missing = total`. */
  function Report(vs: seq<FileCheck>): (d: MappingData)
    ensures d.found + d.missing == d.total == |vs|
  {
    FoundBounds(vs);
    MappingData(|vs|, Found(vs), |vs| - Found(vs), vs)
  }

  /** What `runMapping` returns once the directory exists: success when any document was found. */
  function MappingOf(planningDir: string, present: string -> bool): Mapping
  {
    var vs := Checks(ExpectedOutputFiles(planningDir), present);
    Mapped(Report(vs).found > 0, Report(vs))
  }

  /** The sequential branch: one agent after another, collecting one result per prompt. */
  method RunSequential<R>(prompts: seq<MapperPrompt>, run: MapperPrompt -> R) returns (results: seq<R>)
    ensures |results| == |prompts| && forall i :: 0 <= i < |prompts| ==> results[i] == run(prompts[i])
  {
    results := [];
    for k := 0 to |prompts|
      invariant |results| == k && forall i :: 0 <= i < k ==> results[i] == run(prompts[i])
    {
      var result := run(prompts[k]);
      results := results + [result];
    }
  }

  /**
   * `runMapping`: create the output directory (its failure is
   * `mkdirError`), run the four agents in parallel or one at a time, then
   * check the seven expected documents. `results` are the agents' results,
   * which the source collects and does not return.
   */
  method RunMapping<R>(projectRoot: string, mkdirError: Option<string>, parallel: bool,
                       run: MapperPrompt -> R, present: string -> bool)
    returns (m: Mapping, results: seq<R>)
    ensures mkdirError.Some? ==> m == Failed(mkdirError.value) && results == []
    ensures mkdirError.None? ==> m == MappingOf(PathJoin(projectRoot, ".planning"), present)
    ensures mkdirError.None? ==> var ps := BuildMapperPrompts(projectRoot);
      |results| == |ps| && forall i :: 0 <= i < |ps| ==> results[i] == run(ps[i])
  {
    var planningDir := PathJoin(projectRoot, ".planning");
    if mkdirError.Some? {
      return Failed(mkdirError.value), [];
    }
    var prompts := BuildMapperPrompts(projectRoot);
    if parallel {
      results := seq(|prompts|, i requires 0 <= i < |prompts| => run(prompts[i]));
    } else {
      results := RunSequential(prompts, run);
    }
    var expected := ExpectedOutputFiles(planningDir);
    var verifications := Checks(expected, present);
    var report := Report(verifications);
    m := Mapped(report.found > 0, report);
  }

  /**
   * Mapping succeeds exactly when at least one of the seven documents
   * exists; it finds all seven exactly when every one exists.
   */
  lemma MappingSucceedsIff(planningDir: string, present: string -> bool)
    ensures var m := MappingOf(planningDir, present); var files := ExpectedOutputFiles(planningDir);
      m.Mapped? && m.data.total == 7 && m.data.found + m.data.missing == 7
      && (m.success <==> exists i :: 0 <= i < 7 && present(files[i]))
      && (m.data.found == 7 <==> forall i :: 0 <= i < 7 ==> present(files[i]))
  {
    var files := ExpectedOutputFiles(planningDir);
    var vs := Checks(files, present);
    FoundBounds(vs);
  }
}

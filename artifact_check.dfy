/**
 * The artifact checks of `src/verify-work.js`: whether a file is a stub,
 * partial or substantive (`checkArtifactSubstantive`), and whether it is
 * wired into the project (`checkArtifactWired`). Reading the file, the
 * stub patterns and the export patterns, and the directory search for
 * importers are left to the caller: the content arrives as a read result,
 * the two pattern families as predicates, and the importers as a list.
 */
module ArtifactCheck {
  import opened Wrappers
  import opened Text
  import VerifyWork

  // =====================================================================
  // substantiveness
  // =====================================================================

  datatype Status = Stub | Partial | Substantive

  /** `options`: `min_lines`, `exports` and `contains`, each possibly absent. */
  datatype CheckOptions = CheckOptions(minLines: Option<VerifyWork.Number>, exports: Option<seq<string>>, contains: Option<string>)

  /** The `data` of a successful check. */
  datatype Substance = Substance(status: Status, lines: nat, hasStubs: bool, missingExports: seq<string>, missingContains: bool)

  /** `filter(l => l.trim().length > 0).length`. */
  function NonEmptyCount(ls: seq<string>): nat
  {
    if ls == [] then 0 else NonEmptyCount(ls[..|ls| - 1]) + Counted(ls[|ls| - 1])
  }

  /** One line's share of the count: 1 unless it trims to nothing. */
  function Counted(l: string): nat
  {
    if Trim(l) != "" then 1 else 0
  }

  /** `nonEmptyLines < (min_lines ?? 10)`: a `NaN` bound compares false. */
  predicate BelowMin(n: nat, m: Option<VerifyWork.Number>)
  {
    match m
    case None => n < 10
    case Some(x) => x.Num? && n < x.value
  }

  /** The expected exports whose pattern finds nothing, in the order given. */
  function Missing(content: string, names: seq<string>, exported: (string, string) -> bool): seq<string>
  {
    if names == [] then []
    else
      var m := |names| - 1;
      Missing(content, names[..m], exported) + (if exported(content, names[m]) then [] else [names[m]])
  }

  /** `containsStr ? !content.includes(containsStr) : false`: an empty string is falsy. */
  predicate MissingContains(content: string, c: Option<string>)
  {
    c.Some? && c.value != "" && !Contains(content, c.value)
  }

  /** The decision: stub before partial before substantive. */
  function Classify(lines: nat, minLines: Option<VerifyWork.Number>, hasStubs: bool, missing: seq<string>, missingContains: bool): (st: Status)
    ensures st == Stub <==> BelowMin(lines, minLines) || hasStubs
    ensures st == Substantive <==> !BelowMin(lines, minLines) && !hasStubs && missing == [] && !missingContains
  {
    if BelowMin(lines, minLines) || hasStubs then Stub
    else if |missing| > 0 || missingContains then Partial
    else Substantive
  }

  /** What the check reports for a file's content. */
  function Substantiveness(content: string, opts: CheckOptions, stubbed: string -> bool, exported: (string, string) -> bool): Substance
  {
    var n := NonEmptyCount(Split(content));
    var missing := Missing(content, opts.exports.GetOr([]), exported);
    var mc := MissingContains(content, opts.contains);
    Substance(Classify(n, opts.minLines, stubbed(content), missing, mc), n, stubbed(content), missing, mc)
  }

  /** The loop over the expected exports, pushing each one not found. */
  method MissingExports(content: string, names: seq<string>, exported: (string, string) -> bool) returns (r: seq<string>)
    ensures r == Missing(content, names, exported)
  {
    r := [];
    var i := 0;
    while i < |names|
      invariant i <= |names|
      invariant r == Missing(content, names[..i], exported)
    {
      assert names[..i + 1][..i] == names[..i];
      if !exported(content, names[i]) {
        r := r + [names[i]];
      }
      i := i + 1;
    }
    assert names[..i] == names;
  }

  /** `checkArtifactSubstantive` on the result of reading the file. */
  method CheckArtifactSubstantive(read: Result<string>, opts: CheckOptions, stubbed: string -> bool, exported: (string, string) -> bool)
    returns (r: Result<Substance>)
    ensures read.Err? ==> r == Err("Failed to check artifact substantiveness: " + read.error)
    ensures read.Ok? ==> r == Ok(Substantiveness(read.value, opts, stubbed, exported))
  {
    if read.Err? {
      return Err("Failed to check artifact substantiveness: " + read.error);
    }
    var content := read.value;
    var n := NonEmptyCount(Split(content));
    var hasStubs := stubbed(content);
    var missing := MissingExports(content, opts.exports.GetOr([]), exported);
    var mc := MissingContains(content, opts.contains);
    var status;
    if BelowMin(n, opts.minLines) || hasStubs {
      status := Stub;
    } else if |missing| > 0 || mc {
      status := Partial;
    } else {
      status := Substantive;
    }
    r := Ok(Substance(status, n, hasStubs, missing, mc));
  }

  // ---------------------------------------------------------------------
  // properties
  // ---------------------------------------------------------------------

  /** An export is reported missing exactly when it was expected and its pattern finds nothing. */
  lemma {:induction false} MissingIff(content: string, names: seq<string>, exported: (string, string) -> bool, x: string)
    decreases |names|
    ensures x in Missing(content, names, exported) <==> x in names && !exported(content, x)
  {
    if names != [] {
      var m := |names| - 1;
      MissingIff(content, names[..m], exported, x);
      assert names == names[..m] + [names[m]];
    }
  }

  /** The missing exports are among the expected ones, never more of them. */
  lemma {:induction false} MissingBounded(content: string, names: seq<string>, exported: (string, string) -> bool)
    decreases |names|
    ensures |Missing(content, names, exported)| <= |names|
    ensures Missing(content, names, exported) == [] <==> forall i :: 0 <= i < |names| ==> exported(content, names[i])
  {
    if names != [] {
      var m := |names| - 1;
      MissingBounded(content, names[..m], exported);
      assert forall i :: 0 <= i < m ==> names[..m][i] == names[i];
    }
  }

  /** Non-empty lines add up over consecutive runs of lines. */
  lemma {:induction false} NonEmptyCountAppend(a: seq<string>, b: seq<string>)
    decreases |b|
    ensures NonEmptyCount(a + b) == NonEmptyCount(a) + NonEmptyCount(b)
  {
    if b == [] {
      assert a + b == a;
    } else {
      var m := |b| - 1;
      NonEmptyCountAppend(a, b[..m]);
      assert NonEmptyCount(a + b) == NonEmptyCount(a + b[..m]) + Counted(b[m]) by {
        assert (a + b)[..|a + b| - 1] == a + b[..m];
        assert (a + b)[|a + b| - 1] == b[m];
      }
    }
  }

  /** Every line counts at most once, and all of them count exactly when none is blank. */
  lemma {:induction false} NonEmptyCountAll(ls: seq<string>)
    decreases |ls|
    ensures NonEmptyCount(ls) <= |ls|
    ensures NonEmptyCount(ls) == |ls| <==> forall i :: 0 <= i < |ls| ==> Trim(ls[i]) != ""
  {
    if ls != [] {
      var m := |ls| - 1;
      NonEmptyCountAll(ls[..m]);
      assert forall i :: 0 <= i < m ==> ls[..m][i] == ls[i];
    }
  }

  /** No line counts exactly when every line is blank. */
  lemma {:induction false} NonEmptyCountNone(ls: seq<string>)
    decreases |ls|
    ensures NonEmptyCount(ls) == 0 <==> forall i :: 0 <= i < |ls| ==> Trim(ls[i]) == ""
  {
    if ls != [] {
      var m := |ls| - 1;
      NonEmptyCountNone(ls[..m]);
      assert forall i :: 0 <= i < m ==> ls[..m][i] == ls[i];
    }
  }

  /**
   * A file is substantive exactly when it has enough non-empty lines, no
   * stub pattern matches, every expected export is found and the
   * `contains` text, when given, is present.
   */
  lemma SubstantiveIff(content: string, opts: CheckOptions, stubbed: string -> bool, exported: (string, string) -> bool)
    ensures var names := opts.exports.GetOr([]);
      Substantiveness(content, opts, stubbed, exported).status == Substantive
      <==> (!BelowMin(NonEmptyCount(Split(content)), opts.minLines) && !stubbed(content)
            && (forall i :: 0 <= i < |names| ==> exported(content, names[i]))
            && (opts.contains.Some? && opts.contains.value != "" ==> Contains(content, opts.contains.value)))
  {
    MissingBounded(content, opts.exports.GetOr([]), exported);
  }

  /** A partial file is one with enough lines and no stubs that misses an export or the `contains` text. */
  lemma PartialIff(content: string, opts: CheckOptions, stubbed: string -> bool, exported: (string, string) -> bool)
    ensures var r := Substantiveness(content, opts, stubbed, exported);
      r.status == Partial
      <==> (!BelowMin(r.lines, opts.minLines) && !stubbed(content)
            && ((exists x :: x in opts.exports.GetOr([]) && !exported(content, x)) || r.missingContains))
  {
    var names := opts.exports.GetOr([]);
    var r := Substantiveness(content, opts, stubbed, exported);
    if r.missingExports != [] {
      var x := r.missingExports[0];
      MissingIff(content, names, exported, x);
    }
    forall x | x in names && !exported(content, x) ensures x in r.missingExports {
      MissingIff(content, names, exported, x);
    }
  }

  /** With no `min_lines`, a file of fewer than ten non-empty lines is a stub whatever else holds. */
  lemma ShortFileIsStub(content: string, opts: CheckOptions, stubbed: string -> bool, exported: (string, string) -> bool)
    requires opts.minLines.None? && NonEmptyCount(Split(content)) < 10
    ensures Substantiveness(content, opts, stubbed, exported).status == Stub
  {
  }

  // =====================================================================
  // wiring
  // =====================================================================

  /** `path.basename`: the last segment, trailing separators ignored. */
  function Basename(p: string): (b: string)
    ensures '/' !in b
    decreases |p|
  {
    if p == [] then []
    else if p[|p| - 1] == '/' then Basename(p[..|p| - 1])
    else LastSegment(p)
  }

  /** The text after the last `/`. */
  function LastSegment(p: string): (b: string)
    ensures '/' !in b
    ensures |b| <= |p| && b == p[|p| - |b|..]
    decreases |p|
  {
    if p == [] then []
    else if p[|p| - 1] == '/' then []
    else LastSegment(p[..|p| - 1]) + [p[|p| - 1]]
  }

  datatype Wiring = Wiring(wired: bool, importedBy: seq<string>)

  /**
   * `checkArtifactWired`, given the files the directory search found
   * importing or referencing the artifact: a `.md` file is an entry point.
   */
  function ArtifactWired(filePath: string, importers: seq<string>): (w: Wiring)
    ensures EndsWith(Basename(filePath), ".md") ==> w == Wiring(true, ["entry-point"])
    ensures !EndsWith(Basename(filePath), ".md") ==> w.importedBy == importers
    ensures w.wired <==> w.importedBy != []
  {
    if EndsWith(Basename(filePath), ".md") then Wiring(true, ["entry-point"])
    else Wiring(importers != [], importers)
  }

  /** The basename of a path under a directory is the file's own name. */
  lemma {:induction false} BasenameJoin(dir: string, name: string)
    requires name != [] && '/' !in name
    ensures Basename(dir + "/" + name) == name
  {
    LastSegmentJoin(dir, name);
  }

  lemma {:induction false} LastSegmentJoin(dir: string, name: string)
    requires '/' !in name
    decreases |name|
    ensures LastSegment(dir + "/" + name) == name
  {
    var p := dir + "/" + name;
    if name == [] {
      assert p[|p| - 1] == '/';
    } else {
      var m := |name| - 1;
      assert p[..|p| - 1] == dir + "/" + name[..m];
      assert name[m] in name;
      assert name[..m] + [name[m]] == name;
      LastSegmentJoin(dir, name[..m]);
    }
  }

  /** Every markdown file is wired, through the entry-point shortcut, whatever imports it. */
  lemma WorkflowWired(dir: string, name: string, importers: seq<string>)
    requires name != [] && '/' !in name && EndsWith(name, ".md")
    ensures ArtifactWired(dir + "/" + name, importers) == Wiring(true, ["entry-point"])
  {
    BasenameJoin(dir, name);
  }
}

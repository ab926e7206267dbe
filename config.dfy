// The planning configuration (`.planning/config.json`): the fixed defaults
// that three source files repeat, and the one-level overlay that both
// readPlanningConfig (src/state-read.js) and writeConfigJson
// (src/project-init.js) apply to them.
module Config {
  import opened Wrappers
  import opened Text

  /** A parsed JSON value (numbers restricted to integers). */
  datatype Json =
    | JNull
    | JBool(b: bool)
    | JNum(n: int)
    | JStr(s: string)
    | JArr(items: seq<Json>)
    | JObj(fields: map<string, Json>)

  type Object = map<string, Json>

  // ---------------------------------------------------------------------
  // The defaults, once per source file

  /** The `defaults` literal of readPlanningConfig. */
  const ReadDefaults: Object := map[
    "mode" := JStr("yolo"),
    "depth" := JStr("comprehensive"),
    "parallelization" := JBool(true),
    "commit_docs" := JBool(true),
    "model_profile" := JStr("quality"),
    "workflow" := JObj(map["research" := JBool(true), "plan_check" := JBool(true), "verifier" := JBool(true)]),
    "planning" := JObj(map["max_tasks_per_plan" := JNum(8), "require_verification" := JBool(true),
                           "require_tests" := JBool(false)]),
    "gates" := JObj(map["plan_review" := JBool(false), "checkpoint_approval" := JBool(true)]),
    "safety" := JObj(map["backup_before_execute" := JBool(false), "dry_run_first" := JBool(false)])
  ]

  /** The `config` literal writeConfigJson starts from. */
  const WriteDefaults: Object := map[
    "mode" := JStr("yolo"),
    "depth" := JStr("comprehensive"),
    "workflow" := JObj(map["research" := JBool(true), "plan_check" := JBool(true), "verifier" := JBool(true)]),
    "planning" := JObj(map["max_tasks_per_plan" := JNum(8), "require_verification" := JBool(true),
                           "require_tests" := JBool(false)]),
    "parallelization" := JBool(true),
    "commit_docs" := JBool(true),
    "model_profile" := JStr("quality"),
    "gates" := JObj(map["plan_review" := JBool(false), "checkpoint_approval" := JBool(true)]),
    "safety" := JObj(map["backup_before_execute" := JBool(false), "dry_run_first" := JBool(false)])
  ]

  /** The object configTemplate of src/state-init.js returns. */
  const TemplateConfig: Object := map[
    "mode" := JStr("yolo"),
    "depth" := JStr("comprehensive"),
    "workflow" := JObj(map["research" := JBool(true), "plan_check" := JBool(true), "verifier" := JBool(true)]),
    "planning" := JObj(map["max_tasks_per_plan" := JNum(8), "require_verification" := JBool(true),
                           "require_tests" := JBool(false)]),
    "parallelization" := JBool(true),
    "commit_docs" := JBool(true),
    "model_profile" := JStr("quality"),
    "gates" := JObj(map["plan_review" := JBool(false), "checkpoint_approval" := JBool(true)]),
    "safety" := JObj(map["backup_before_execute" := JBool(false), "dry_run_first" := JBool(false)])
  ]

  /** The three copies of the defaults agree (key order aside). */
  lemma DefaultsAgree()
    ensures ReadDefaults == WriteDefaults == TemplateConfig
    ensures ReadDefaults.Keys == {"mode", "depth", "parallelization", "commit_docs", "model_profile",
                                  "workflow", "planning", "gates", "safety"}
  {
  }

  // ---------------------------------------------------------------------
  // Object.keys and spread

  lemma NatToStringInjective()
    ensures forall i: nat, j: nat :: NatToString(i) == NatToString(j) ==> i == j
  {
    forall i: nat, j: nat | NatToString(i) == NatToString(j) ensures i == j {
      DigitsValueOfNatToString(i);
      DigitsValueOfNatToString(j);
    }
  }

  /** The properties `"0"` … `"n-1"` of an array-like value with elements `xs`. */
  function IndexProps(xs: seq<Json>): (m: Object)
    ensures forall i: nat :: i < |xs| ==> NatToString(i) in m
  {
    if xs == [] then map[] else IndexProps(xs[..|xs| - 1])[NatToString(|xs| - 1) := xs[|xs| - 1]]
  }

  /** Index `i` of an array-like value is the property named by its decimal digits. */
  lemma {:induction false} IndexPropsAt(xs: seq<Json>, i: nat)
    requires i < |xs|
    ensures IndexProps(xs)[NatToString(i)] == xs[i]
    decreases |xs|
  {
    var n := |xs| - 1;
    if i < n {
      if NatToString(i) == NatToString(n) {
        NatToStringInjective();
      }
      IndexPropsAt(xs[..n], i);
    }
  }

  /**
   * The own enumerable properties of a value, as `Object.keys` and `{...v}`
   * see them: an array or string is keyed by its decimal indices, and a
   * string's elements are its one-character strings.
   */
  function Props(v: Json): (m: Object)
    ensures v.JObj? ==> m == v.fields
    ensures v.JNull? || v.JBool? || v.JNum? ==> m == map[]
  {
    match v
    case JObj(fields) => fields
    case JArr(items) => IndexProps(items)
    case JStr(s) => IndexProps(Chars(s))
    case _ => map[]
  }

  function Chars(s: string): (r: seq<Json>)
    ensures |r| == |s| && forall i :: 0 <= i < |s| ==> r[i] == JStr([s[i]])
  {
    seq(|s|, i requires 0 <= i < |s| => JStr([s[i]]))
  }

  /** Element `i` of an array is its property `NatToString(i)`. */
  lemma ArrayProps(items: seq<Json>, i: nat)
    requires i < |items|
    ensures NatToString(i) in Props(JArr(items)) && Props(JArr(items))[NatToString(i)] == items[i]
  {
    IndexPropsAt(items, i);
  }

  /** `typeof x === 'object' && x !== null` (arrays included). */
  predicate IsObjectLike(v: Json) { v.JObj? || v.JArr? }

  /**
   * The value one key ends up with: a plain object laid over an object-like
   * default is spread over it; anything else replaces the default.
   */
  function MergeValue(d: Option<Json>, v: Json): Json
  {
    if v.JObj? && d.Some? && IsObjectLike(d.value) then JObj(Props(d.value) + v.fields) else v
  }

  /** The overlay of `over` onto `base`, one level deep. */
  function Merged(base: Object, over: Object): (m: Object)
    ensures m.Keys == base.Keys + over.Keys
  {
    map k | k in base.Keys + over.Keys ::
      if k in over then MergeValue(if k in base then Some(base[k]) else None, over[k]) else base[k]
  }

  // ---------------------------------------------------------------------
  // The overlay loop

  /**
   * The `for (const key of Object.keys(over))` loop: every key is visited
   * once, and the value the loop reads for it (`config[key]` in
   * writeConfigJson, `defaults[key]` in readPlanningConfig) is still the
   * base value, so the visiting order does not matter.
   */
  method Overlay(base: Object, over: Object) returns (config: Object)
    ensures config == Merged(base, over)
  {
    config := base;
    var todo := over.Keys;
    ghost var done: set<string> := {};
    RestrictEnds(base, over);
    while todo != {}
      invariant done <= over.Keys && todo == over.Keys - done
      invariant config == Merged(base, Restrict(over, done))
      decreases |todo|
    {
      var key :| key in todo;
      var value := over[key];
      ghost var d := if key in base then Some(base[key]) else None;
      OverlayStep(base, over, done, key);
      var merged;
      if value.JObj? && key in config && IsObjectLike(config[key]) {
        merged := JObj(Props(config[key]) + value.fields);
      } else {
        merged := value;
      }
      assert merged == MergeValue(d, value);
      config := config[key := merged];
      todo := todo - {key};
      done := done + {key};
    }
    RestrictAll(base, over, done);
  }

  /** The part of `over` whose keys the loop has visited. */
  function Restrict(over: Object, done: set<string>): (m: Object)
    ensures m.Keys == over.Keys * done
  {
    map k | k in over.Keys * done :: over[k]
  }

  /** Before the loop nothing is visited; after it, everything is. */
  lemma RestrictEnds(base: Object, over: Object)
    ensures Merged(base, Restrict(over, {})) == base
  {
    assert Restrict(over, {}) == map[];
    EmptyOverlay(base);
  }

  /** Once every key is visited, the loop's map is the whole overlay. */
  lemma RestrictAll(base: Object, over: Object, done: set<string>)
    requires done <= over.Keys && over.Keys - done == {}
    ensures Merged(base, Restrict(over, done)) == Merged(base, over)
  {
    forall x | x in over.Keys ensures x in done {
      assert x !in over.Keys - done;
    }
    assert Restrict(over, done) == over;
  }

  /** Visiting one more key updates just that key, from its base value. */
  lemma OverlayStep(base: Object, over: Object, done: set<string>, key: string)
    requires key in over && key !in done
    ensures var m := Merged(base, Restrict(over, done));
      (key in m <==> key in base) && (key in m ==> m[key] == base[key]) &&
      Merged(base, Restrict(over, done + {key})) ==
        m[key := MergeValue(if key in base then Some(base[key]) else None, over[key])]
    ensures over.Keys - (done + {key}) == (over.Keys - done) - {key}
  {
    var m := Merged(base, Restrict(over, done));
    var m2 := Merged(base, Restrict(over, done + {key}));
    var d := if key in base then Some(base[key]) else None;
    forall x | x in m2 ensures m2[x] == m[key := MergeValue(d, over[key])][x] {}
  }

  // ---------------------------------------------------------------------
  // readPlanningConfig and writeConfigJson

  /** What reading and parsing `config.json` produced. */
  datatype Load =
    | Missing                 // the read failed with ENOENT
    | Failed(message: string) // any other read error, or invalid JSON
    | Loaded(json: Json)

  /** The message `Object.keys(null)` throws. */
  const NullKeysMessage := "Cannot convert undefined or null to object"

  function ReadError(message: string): string { "Failed to read config.json: " + message }

  /** readPlanningConfig after the file has been read and parsed. */
  method ReadPlanningConfig(load: Load) returns (r: Result<Object>)
    ensures load.Missing? ==> r == Ok(ReadDefaults)
    ensures load.Failed? ==> r == Err(ReadError(load.message))
    ensures load == Loaded(JNull) ==> r == Err(ReadError(NullKeysMessage))
    ensures load.Loaded? && load.json != JNull ==> r == Ok(Merged(ReadDefaults, Props(load.json)))
  {
    match load
    case Missing => r := Ok(ReadDefaults);
    case Failed(message) => r := Err(ReadError(message));
    case Loaded(json) =>
      if json == JNull {
        r := Err(ReadError(NullKeysMessage));
      } else {
        var merged := Overlay(ReadDefaults, Props(json));
        r := Ok(merged);
      }
  }

  /** JavaScript truthiness of a value (`undefined` is `None`). */
  predicate Truthy(v: Option<Json>)
  {
    match v
    case None => false
    case Some(JNull) => false
    case Some(JBool(b)) => b
    case Some(JNum(n)) => n != 0
    case Some(JStr(s)) => s != ""
    case Some(_) => true
  }

  /** `preferences || {}`, as Object.keys then sees it. */
  function UserPrefs(preferences: Option<Json>): (m: Object)
    ensures !Truthy(preferences) ==> m == map[]
    ensures Truthy(preferences) ==> m == Props(preferences.value)
  {
    if Truthy(preferences) then Props(preferences.value) else map[]
  }

  /** The object writeConfigJson serializes. */
  method WriteConfigJson(preferences: Option<Json>) returns (config: Object)
    ensures !Truthy(preferences) ==> config == WriteDefaults
    ensures Truthy(preferences) ==> config == Merged(WriteDefaults, Props(preferences.value))
  {
    config := Overlay(WriteDefaults, UserPrefs(preferences));
    EmptyOverlay(WriteDefaults);
  }

  // ---------------------------------------------------------------------
  // Properties of the overlay

  /** Nothing to overlay leaves the defaults exactly. */
  lemma EmptyOverlay(base: Object)
    ensures Merged(base, map[]) == base
  {
  }

  /** A key the overlay does not mention keeps its base value. */
  lemma Unmentioned(base: Object, over: Object, k: string)
    requires k in base && k !in over
    ensures k in Merged(base, over) && Merged(base, over)[k] == base[k]
  {
  }

  /** A value that is not a plain object replaces the base value, whatever it was. */
  lemma NonObjectReplaces(base: Object, over: Object, k: string)
    requires k in over && !over[k].JObj?
    ensures k in Merged(base, over) && Merged(base, over)[k] == over[k]
  {
  }

  /** A single scalar preference changes that one key and nothing else. */
  lemma ScalarOverride(base: Object, k: string, v: Json)
    requires !v.JObj?
    ensures Merged(base, map[k := v]) == base[k := v]
  {
    var m := Merged(base, map[k := v]);
    forall x | x in m ensures m[x] == base[k := v][x] {}
  }

  /**
   * A plain object laid over a default group overrides only the inner keys
   * it names; the group's other inner keys, and every other top-level key,
   * keep their defaults.
   */
  lemma GroupOverride(base: Object, g: string, inner: Object)
    requires g in base && base[g].JObj?
    ensures Merged(base, map[g := JObj(inner)]) == base[g := JObj(base[g].fields + inner)]
    ensures forall x :: x in base[g].fields && x !in inner ==>
      Merged(base, map[g := JObj(inner)])[g].fields[x] == base[g].fields[x]
    ensures forall x :: x in inner ==> Merged(base, map[g := JObj(inner)])[g].fields[x] == inner[x]
  {
    var m := Merged(base, map[g := JObj(inner)]);
    forall x | x in m ensures m[x] == base[g := JObj(base[g].fields + inner)][x] {}
  }

  /** Overlaying the same preferences a second time changes nothing. */
  lemma {:induction false} OverlayIdempotent(base: Object, over: Object)
    ensures Merged(Merged(base, over), over) == Merged(base, over)
  {
    var m := Merged(base, over);
    var m2 := Merged(m, over);
    forall k | k in m2 ensures m2[k] == m[k] {
      if k in over && over[k].JObj? {
        var d := if k in base then Some(base[k]) else None;
        assert m[k] == MergeValue(d, over[k]);
        assert IsObjectLike(m[k]);
        assert Props(m[k]) + over[k].fields == Props(m[k]);
      }
    }
  }

  /** A missing file and an empty object both give exactly the defaults. */
  lemma ReadNothingIsDefaults()
    ensures Merged(ReadDefaults, Props(JObj(map[]))) == ReadDefaults
  {
    EmptyOverlay(ReadDefaults);
  }
}

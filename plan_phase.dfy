/**
 * The planning pipeline of `src/plan-phase.js`: the three agent prompts
 * (researcher, planner, plan checker), the files each agent is expected
 * to write, and `runPlanningPipeline`, which runs research (when the
 * configuration asks for it), planning (always) and checking (when asked
 * for, and only after planning succeeded).
 *
 * Agents are not run here. What the pipeline learns from the outside
 * world arrives as a `World`: the configuration read, the failure of
 * creating the phase directory, which output files exist once the agents
 * are done, and what reading the research output gave. The prompts the
 * pipeline hands to agents are returned, in order, as `spawned`.
 */
module PlanPhase {
  import opened Wrappers
  import opened Text
  import Config
  import StateInit

  // =====================================================================
  // model recommendations
  // =====================================================================

  /** The models suggested for each agent; advice for the log only. */
  datatype Models = Models(researcher: string, planner: string, checker: string)

  const QualityModels := Models("sonnet", "opus", "sonnet")

  const BalancedModels := Models("haiku", "sonnet", "haiku")

  const BudgetModels := Models("haiku", "sonnet", "haiku")

  /**
   * `MODEL_RECOMMENDATIONS[config.model_profile || 'quality'] ||
   * MODEL_RECOMMENDATIONS.quality`: a missing, empty or unknown profile
   * gets the quality models.
   */
  function ModelsFor(cfg: Config.Object): (m: Models)
    ensures m == QualityModels || m == BalancedModels
  {
    if "model_profile" in cfg && cfg["model_profile"] == Config.JStr("balanced") then BalancedModels
    else if "model_profile" in cfg && cfg["model_profile"] == Config.JStr("budget") then BudgetModels
    else QualityModels
  }

  /** Only the profiles `balanced` and `budget` move away from the quality models. */
  lemma ModelsFallback(cfg: Config.Object)
    requires "model_profile" !in cfg || cfg["model_profile"] !in {Config.JStr("balanced"), Config.JStr("budget")}
    ensures ModelsFor(cfg) == QualityModels
  {
  }

  // =====================================================================
  // prompts and expected files
  // =====================================================================

  /** `padPhase`: the phase number with at least two digits. */
  function PadPhase(n: nat): (r: string)
    ensures |r| >= 2 && AllDigits(r) && DigitsValue(r) == n
  {
    Pad2Value(n);
    Pad2(n)
  }

  /** What a prompt builder returns: the prompt and the file the agent writes. */
  datatype PromptData = PromptData(prompt: string, outputFile: string)

  datatype PlanFiles = PlanFiles(research: string, plans: string, check: string)

  /** `getExpectedPlanFiles`: the marker file of each stage, under the phase directory; the three are different. */
  function ExpectedPlanFiles(phaseDir: string, padded: string): (f: PlanFiles)
    ensures f.research != f.plans && f.plans != f.check && f.research != f.check
  {
    var r, p, c := padded + "-RESEARCH.md", padded + "-PLANS-DONE.md", padded + "-CHECK.md";
    StageFilesDistinct(phaseDir, padded, r, p, c);
    PlanFiles(PathJoin(phaseDir, r), PathJoin(phaseDir, p), PathJoin(phaseDir, c))
  }

  /** Names differing right after the padded number stay different under the phase directory. */
  lemma StageFilesDistinct(phaseDir: string, padded: string, r: string, p: string, c: string)
    requires r == padded + "-RESEARCH.md" && p == padded + "-PLANS-DONE.md" && c == padded + "-CHECK.md"
    ensures PathJoin(phaseDir, r) != PathJoin(phaseDir, p)
    ensures PathJoin(phaseDir, p) != PathJoin(phaseDir, c)
    ensures PathJoin(phaseDir, r) != PathJoin(phaseDir, c)
  {
    var k := |padded| + 1;
    assert r[k] == 'R' && p[k] == 'P' && c[k] == 'C';
    if PathJoin(phaseDir, r) == PathJoin(phaseDir, p) { PathJoinInjective(phaseDir, r, p); }
    if PathJoin(phaseDir, p) == PathJoin(phaseDir, c) { PathJoinInjective(phaseDir, p, c); }
    if PathJoin(phaseDir, r) == PathJoin(phaseDir, c) { PathJoinInjective(phaseDir, r, c); }
  }

  /** JavaScript truthiness of an optional text: present and non-empty. */
  predicate Given(c: Option<string>)
  {
    c.Some? && c.value != ""
  }

  /** The user's decisions from `CONTEXT.md`, as the researcher and planner see them. */
  function UserDecisions(c: string): string
  {
    "<user_decisions>\n" + c + "\n</user_decisions>"
  }

  /** `CONTEXT.md` as the checker sees it. */
  function ContextMd(c: string): string
  {
    "<context_md>\n" + c + "\n</context_md>"
  }

  function ResearchBlock(r: string): string
  {
    "<research>\n" + r + "\n</research>"
  }

  /** `content ? block(content) : fallback`. */
  function Section(block: string -> string, c: Option<string>, fallback: string): string
  {
    if Given(c) then block(c.value) else fallback
  }

  const ResearchFallback := "No CONTEXT.md exists for this phase. Research broadly."

  const ContextFallback := "No CONTEXT.md exists for this phase."

  const Intro := "You are a "

  const DefinitionLine := " agent.\n\nRead the agent definition at "

  const PhaseLine := " and follow its instructions.\n\nPhase "

  const DetailsOpen := "\n\n<phase_details>\n"

  const DetailsClose := "\n</phase_details>\n\n"

  const Gap := "\n\n"

  const ResearchTail := "\n\nWrite your research output to: "

  const PlansLine := "\n\nCreate PLAN.md files in: "

  const ConfirmLine := "\nWhen finished, write a brief confirmation to: "

  const ReadPlansLine := "\n\nRead all PLAN.md files in: "

  const ReviewLine := "\nWrite your review to: "

  /** The opening every prompt shares: the agent, its definition file, the phase. */
  function Heading(agent: string, definition: string, n: nat, name: string): string
  {
    Intro + agent + DefinitionLine + definition + PhaseLine + NatToString(n) + ": " + name
  }

  /** `buildResearchPrompt`. */
  function ResearchPrompt(n: nat, name: string, details: string, context: Option<string>, phaseDir: string): (r: PromptData)
    ensures r.outputFile == ExpectedPlanFiles(phaseDir, PadPhase(n)).research
  {
    var outputFile := PathJoin(phaseDir, PadPhase(n) + "-RESEARCH.md");
    var prompt := Heading("phase researcher", "agents/gsd-phase-researcher.md", n, name)
      + DetailsOpen + details + DetailsClose
      + Section(UserDecisions, context, ResearchFallback)
      + ResearchTail + outputFile;
    PromptData(prompt, outputFile)
  }

  /** The planner prompt up to the research section. */
  function PlannerHead(n: nat, name: string, details: string, context: Option<string>): string
  {
    Heading("phase planner", "agents/gsd-planner.md", n, name)
    + DetailsOpen + details + DetailsClose
    + Section(UserDecisions, context, ContextFallback) + Gap
  }

  /** The planner prompt after the research section. */
  function PlannerTail(phaseDir: string, outputFile: string): string
  {
    PlansLine + phaseDir + ConfirmLine + outputFile
  }

  /** `buildPlannerPrompt`. */
  function PlannerPrompt(n: nat, name: string, details: string, context: Option<string>, research: Option<string>, phaseDir: string): (r: PromptData)
    ensures r.outputFile == ExpectedPlanFiles(phaseDir, PadPhase(n)).plans
  {
    var outputFile := PathJoin(phaseDir, PadPhase(n) + "-PLANS-DONE.md");
    PromptData(PlannerHead(n, name, details, context) + Section(ResearchBlock, research, "") + PlannerTail(phaseDir, outputFile), outputFile)
  }

  /** `buildCheckerPrompt`. */
  function CheckerPrompt(n: nat, name: string, context: Option<string>, phaseDir: string): (r: PromptData)
    ensures r.outputFile == ExpectedPlanFiles(phaseDir, PadPhase(n)).check
  {
    var outputFile := PathJoin(phaseDir, PadPhase(n) + "-CHECK.md");
    var prompt := Heading("plan checker", "agents/gsd-plan-checker.md", n, name)
      + Gap + Section(ContextMd, context, ContextFallback)
      + ReadPlansLine + phaseDir + ReviewLine + outputFile;
    PromptData(prompt, outputFile)
  }

  // ---------------------------------------------------------------------
  // what the prompts say
  // ---------------------------------------------------------------------

  lemma EndsWithLast(a: string, t: string)
    ensures EndsWith(a + t, t)
  {
    assert (a + t)[|a + t| - |t|..] == t;
  }

  /** A piece in the middle of a text is contained in the whole. */
  lemma ContainsMiddle(a: string, t: string, b: string)
    ensures Contains(a + t + b, t)
  {
    ContainsSelf(t);
    ContainsAfter(a, t, t);
    ContainsBefore(a + t, b, t);
  }

  /** What a text contains stays contained once more pieces follow it. */
  lemma ContainsFollowed(s: string, t: string, a: string, b: string, c: string, d: string)
    requires Contains(s, t)
    ensures Contains(s + a + b + c + d, t)
  {
    ContainsBefore(s, a, t);
    ContainsBefore(s + a, b, t);
    ContainsBefore(s + a + b, c, t);
    ContainsBefore(s + a + b + c, d, t);
  }

  /** The heading names the agent definition file. */
  lemma HeadingNames(agent: string, definition: string, n: nat, name: string)
    ensures Contains(Heading(agent, definition, n, name), definition)
  {
    var x := Intro + agent + DefinitionLine;
    ContainsSelf(definition);
    ContainsAfter(x, definition, definition);
    ContainsFollowed(x + definition, definition, PhaseLine, NatToString(n), ": ", name);
  }

  /**
   * The research prompt names the agent definition, shows the user's
   * decisions (or says there are none) and ends with the file to write.
   */
  lemma ResearchPromptSays(n: nat, name: string, details: string, context: Option<string>, phaseDir: string)
    ensures var r := ResearchPrompt(n, name, details, context, phaseDir);
      Contains(r.prompt, "agents/gsd-phase-researcher.md")
      && (Given(context) ==> Contains(r.prompt, UserDecisions(context.value)))
      && (!Given(context) ==> Contains(r.prompt, ResearchFallback))
      && EndsWith(r.prompt, r.outputFile)
  {
    var out := ExpectedPlanFiles(phaseDir, PadPhase(n)).research;
    var def := "agents/gsd-phase-researcher.md";
    var h := Heading("phase researcher", def, n, name);
    var ctx := Section(UserDecisions, context, ResearchFallback);
    var a := h + DetailsOpen + details + DetailsClose;
    HeadingNames("phase researcher", def, n, name);
    ContainsFollowed(h, def, DetailsOpen, details, DetailsClose, ctx);
    ContainsBefore(a + ctx, ResearchTail, def);
    ContainsBefore(a + ctx + ResearchTail, out, def);
    ContainsSelf(ctx);
    ContainsAfter(a, ctx, ctx);
    ContainsBefore(a + ctx, ResearchTail, ctx);
    ContainsBefore(a + ctx + ResearchTail, out, ctx);
    EndsWithLast(a + ctx + ResearchTail, out);
  }

  /**
   * The planner prompt names the agent definition, shows the user's
   * decisions (or says there are none) and ends with the marker file.
   */
  lemma PlannerPromptSays(n: nat, name: string, details: string, context: Option<string>, research: Option<string>, phaseDir: string)
    ensures var r := PlannerPrompt(n, name, details, context, research, phaseDir);
      Contains(r.prompt, "agents/gsd-planner.md")
      && (Given(context) ==> Contains(r.prompt, UserDecisions(context.value)))
      && (!Given(context) ==> Contains(r.prompt, ContextFallback))
      && EndsWith(r.prompt, r.outputFile)
  {
    var out := ExpectedPlanFiles(phaseDir, PadPhase(n)).plans;
    var def := "agents/gsd-planner.md";
    var h := Heading("phase planner", def, n, name);
    var ctx := Section(UserDecisions, context, ContextFallback);
    var rs := Section(ResearchBlock, research, "");
    var a := h + DetailsOpen + details + DetailsClose;
    var head := a + ctx + Gap;
    assert head == PlannerHead(n, name, details, context);
    HeadingNames("phase planner", def, n, name);
    ContainsFollowed(h, def, DetailsOpen, details, DetailsClose, ctx);
    ContainsBefore(a + ctx, Gap, def);
    ContainsSelf(ctx);
    ContainsAfter(a, ctx, ctx);
    ContainsBefore(a + ctx, Gap, ctx);
    TailFollows(head, rs, phaseDir, out, def);
    TailFollows(head, rs, phaseDir, out, ctx);
  }

  /** The planner prompt keeps what its head contains, and ends with the marker file. */
  lemma TailFollows(head: string, rs: string, phaseDir: string, out: string, t: string)
    requires Contains(head, t)
    ensures Contains(head + rs + PlannerTail(phaseDir, out), t)
    ensures EndsWith(head + rs + PlannerTail(phaseDir, out), out)
  {
    ContainsBefore(head, rs, t);
    ContainsBefore(head + rs, PlannerTail(phaseDir, out), t);
    EndsWithLast(PlansLine + phaseDir + ConfirmLine, out);
    EndsWithAfter(head + rs, PlannerTail(phaseDir, out), out);
  }

  lemma EndsWithAfter(x: string, y: string, t: string)
    requires EndsWith(y, t)
    ensures EndsWith(x + y, t)
  {
    assert (x + y)[|x + y| - |t|..] == y[|y| - |t|..];
  }

  /**
   * The research content changes the planner prompt only by the
   * `<research>` block it inserts after the context: without research
   * content (none read, or an empty one) the block is absent.
   */
  lemma ResearchOnlyInserted(n: nat, name: string, details: string, context: Option<string>, research: Option<string>, phaseDir: string)
    ensures var without := PlannerPrompt(n, name, details, context, None, phaseDir).prompt;
      var with := PlannerPrompt(n, name, details, context, research, phaseDir).prompt;
      var k := |PlannerHead(n, name, details, context)|;
      k <= |without|
      && (Given(research) ==> with == without[..k] + ResearchBlock(research.value) + without[k..])
      && (!Given(research) ==> with == without)
  {
    var h := PlannerHead(n, name, details, context);
    var t := PlannerTail(phaseDir, PathJoin(phaseDir, PadPhase(n) + "-PLANS-DONE.md"));
    var without := h + "" + t;
    assert without[..|h|] == h && without[|h|..] == t;
  }

  /** The checker prompt names the agent definition, shows `CONTEXT.md` (or says there is none) and ends with the review file. */
  lemma CheckerPromptSays(n: nat, name: string, context: Option<string>, phaseDir: string)
    ensures var r := CheckerPrompt(n, name, context, phaseDir);
      Contains(r.prompt, "agents/gsd-plan-checker.md")
      && (Given(context) ==> Contains(r.prompt, ContextMd(context.value)))
      && (!Given(context) ==> Contains(r.prompt, ContextFallback))
      && EndsWith(r.prompt, r.outputFile)
  {
    var out := ExpectedPlanFiles(phaseDir, PadPhase(n)).check;
    var def := "agents/gsd-plan-checker.md";
    var h := Heading("plan checker", def, n, name);
    var ctx := Section(ContextMd, context, ContextFallback);
    HeadingNames("plan checker", def, n, name);
    ContainsBefore(h, Gap, def);
    ContainsBefore(h + Gap, ctx, def);
    ContainsFollowed(h + Gap + ctx, def, ReadPlansLine, phaseDir, ReviewLine, out);
    ContainsSelf(ctx);
    ContainsAfter(h + Gap, ctx, ctx);
    ContainsFollowed(h + Gap + ctx, ctx, ReadPlansLine, phaseDir, ReviewLine, out);
    EndsWithLast(h + Gap + ctx + ReadPlansLine + phaseDir + ReviewLine, out);
  }

  /** A prompt handed to an agent, named by its builder and the builder's arguments. */
  datatype Request =
    | Research(n: nat, name: string, details: string, context: Option<string>, phaseDir: string)
    | Planning(n: nat, name: string, details: string, context: Option<string>, research: Option<string>, phaseDir: string)
    | Checking(n: nat, name: string, context: Option<string>, phaseDir: string)

  /** What the builder returns for the request. */
  function Build(r: Request): PromptData
  {
    match r
    case Research(n, name, details, context, phaseDir) => ResearchPrompt(n, name, details, context, phaseDir)
    case Planning(n, name, details, context, research, phaseDir) => PlannerPrompt(n, name, details, context, research, phaseDir)
    case Checking(n, name, context, phaseDir) => CheckerPrompt(n, name, context, phaseDir)
  }

  /** The file the request's agent is told to write: the stage's expected file. */
  function OutputFile(r: Request): string
  {
    var files := ExpectedPlanFiles(r.phaseDir, PadPhase(r.n));
    match r
    case Research(_, _, _, _, _) => files.research
    case Planning(_, _, _, _, _, _) => files.plans
    case Checking(_, _, _, _) => files.check
  }

  /** The request's file is the one its builder tells the agent to write. */
  lemma OutputFileBuilt(r: Request)
    ensures OutputFile(r) == Build(r).outputFile
  {
  }

  // =====================================================================
  // runPlanningPipeline
  // =====================================================================

  /** A stage's record: whether it ran, whether its output was found, and that output. */
  datatype Stage = Stage(ran: bool, success: bool, file: Option<string>)

  const NotRun := Stage(false, false, None)

  datatype Stages = Stages(research: Stage, planning: Stage, checking: Stage)

  /** `{ success, error?, data? }` as the pipeline returns it. */
  datatype PipelineResult = PipelineResult(success: bool, error: Option<string>, data: Option<Stages>)

  /** The pipeline's options: a pre-loaded configuration, the phase details and `CONTEXT.md`. */
  datatype Options = Options(config: Option<Config.Object>, phaseDetails: Option<string>, contextContent: Option<string>)

  /**
   * The answers of the outside world: what `readPlanningConfig` returned
   * (`Config.ReadPlanningConfig`), the failure of creating the phase
   * directory, which files exist once the agents are done, and what
   * reading the research output gave (`None` when the read failed).
   */
  datatype World = World(loaded: Result<Config.Object>, mkdirError: Option<string>, present: string -> bool, researchRead: Option<string>)

  /** What one run produces: the result, the prompts handed to agents, the models suggested. */
  datatype Run = Run(result: PipelineResult, spawned: seq<Request>, advice: seq<string>)

  const PlannerMissing := "Planner agent did not produce output"

  /** `config.workflow && config.workflow[key] === true`. */
  predicate FlagOn(cfg: Config.Object, key: string)
  {
    "workflow" in cfg && cfg["workflow"].JObj? && key in cfg["workflow"].fields && cfg["workflow"].fields[key] == Config.JBool(true)
  }

  /** The configuration in force: the pre-loaded one, else the one read. */
  function ConfigOf(opts: Options, w: World): Result<Config.Object>
  {
    if opts.config.Some? then Ok(opts.config.value)
    else if w.loaded.Err? then Err("Failed to read config: " + w.loaded.error)
    else w.loaded
  }

  function PhaseDirOf(projectRoot: string, n: nat, name: string, w: World): Result<string>
  {
    var r := StateInit.EnsurePhaseDir(PathJoin(projectRoot, ".planning"), n, name, w.mkdirError);
    if r.Err? then Err(r.error) else Ok(r.value.phaseDir)
  }

  /** One stage's share of a run: its record, the prompt handed to its agent, the model suggested. */
  datatype Step = Step(stage: Stage, spawned: seq<Request>, advice: seq<string>)

  /**
   * A stage that runs when `on`: its agent gets the prompt `p`, and the
   * stage succeeds when the agent's output file exists.
   */
  function StageStep(on: bool, p: Request, model: string, present: string -> bool): Step
  {
    if !on then Step(NotRun, [], [])
    else if present(OutputFile(p)) then Step(Stage(true, true, Some(OutputFile(p))), [p], [model])
    else Step(Stage(true, false, None), [p], [model])
  }

  /** A run that fails before any agent starts. */
  function Failure(error: string): Run
  {
    Run(PipelineResult(false, Some(error), None), [], [])
  }

  /** The stages, once the configuration is in force and the phase directory exists. */
  function StagesOf(researchOn: bool, checkOn: bool, models: Models, n: nat, name: string, details: string,
                    context: Option<string>, dir: string, w: World): Run
  {
    var rs := StageStep(researchOn, Research(n, name, details, context, dir), models.researcher, w.present);
    var content := if rs.stage.success then w.researchRead else None;
    var ps := StageStep(true, Planning(n, name, details, context, content, dir), models.planner, w.present);
    if !ps.stage.success then
      Run(PipelineResult(false, Some(PlannerMissing), Some(Stages(rs.stage, ps.stage, NotRun))), rs.spawned + ps.spawned, rs.advice + ps.advice)
    else
      var cs := StageStep(checkOn, Checking(n, name, context, dir), models.checker, w.present);
      Run(PipelineResult(true, None, Some(Stages(rs.stage, ps.stage, cs.stage))),
          rs.spawned + ps.spawned + cs.spawned, rs.advice + ps.advice + cs.advice)
  }

  /**
   * The meaning of the source's `runPlanningPipeline`, given what
   * creating the phase directory gave (`dirR`, consulted only once the
   * configuration is in force).
   */
  function PipelineOf(n: nat, name: string, opts: Options, w: World, dirR: Result<string>): Run
  {
    var cfgR := ConfigOf(opts, w);
    if cfgR.Err? then Failure(cfgR.error)
    else if dirR.Err? then Failure(dirR.error)
    else
      var cfg := cfgR.value;
      StagesOf(FlagOn(cfg, "research"), FlagOn(cfg, "plan_check"), ModelsFor(cfg), n, name, opts.phaseDetails.GetOr(""), opts.contextContent, dirR.value, w)
  }

  /**
   * `runPlanningPipeline`: the stage records start as not run (planning as
   * run) and are updated as each stage's agent finishes; a missing planner
   * output ends the run early with the partial records.
   */
  method RunPlanningPipeline(projectRoot: string, n: nat, name: string, opts: Options, w: World)
    returns (result: PipelineResult, spawned: seq<Request>, advice: seq<string>)
    ensures Run(result, spawned, advice) == PipelineOf(n, name, opts, w, PhaseDirOf(projectRoot, n, name, w))
  {
    var planningDir := PathJoin(projectRoot, ".planning");
    var details := opts.phaseDetails.GetOr("");
    var contextContent := opts.contextContent;

    var config: Config.Object;
    if opts.config.Some? {
      config := opts.config.value;
    } else {
      if w.loaded.Err? {
        return PipelineResult(false, Some("Failed to read config: " + w.loaded.error), None), [], [];
      }
      config := w.loaded.value;
    }
    var models := ModelsFor(config);

    var dirResult := StateInit.EnsurePhaseDir(planningDir, n, name, w.mkdirError);
    if dirResult.Err? {
      return PipelineResult(false, Some(dirResult.error), None), [], [];
    }
    var phaseDir := dirResult.value.phaseDir;
    var researchOn, checkOn := FlagOn(config, "research"), FlagOn(config, "plan_check");
    result, spawned, advice := RunStages(researchOn, checkOn, models, n, name, details, contextContent, phaseDir, w);
  }

  /** The three stages of `runPlanningPipeline`, each updating its record as its agent finishes. */
  method RunStages(researchOn: bool, checkOn: bool, models: Models, n: nat, name: string, details: string,
                   contextContent: Option<string>, phaseDir: string, w: World)
    returns (result: PipelineResult, spawned: seq<Request>, advice: seq<string>)
    ensures Run(result, spawned, advice) == StagesOf(researchOn, checkOn, models, n, name, details, contextContent, phaseDir, w)
  {
    spawned, advice := [], [];
    var research, planning, checking := NotRun, Stage(true, false, None), NotRun;
    var researchContent: Option<string> := None;

    if researchOn {
      advice := advice + [models.researcher];
      research := research.(ran := true);
      var researchPrompt := Research(n, name, details, contextContent, phaseDir);
      spawned := spawned + [researchPrompt];
      if w.present(OutputFile(researchPrompt)) {
        research := research.(success := true, file := Some(OutputFile(researchPrompt)));
        researchContent := w.researchRead;
      }
    }
    ghost var rs := StageStep(researchOn, Research(n, name, details, contextContent, phaseDir), models.researcher, w.present);
    assert research == rs.stage && spawned == rs.spawned && advice == rs.advice;

    advice := advice + [models.planner];
    var plannerPrompt := Planning(n, name, details, contextContent, researchContent, phaseDir);
    spawned := spawned + [plannerPrompt];
    if w.present(OutputFile(plannerPrompt)) {
      planning := planning.(success := true, file := Some(OutputFile(plannerPrompt)));
    } else {
      return PipelineResult(false, Some(PlannerMissing), Some(Stages(research, planning, checking))), spawned, advice;
    }

    if checkOn {
      advice := advice + [models.checker];
      checking := checking.(ran := true);
      var checkerPrompt := Checking(n, name, contextContent, phaseDir);
      spawned := spawned + [checkerPrompt];
      if w.present(OutputFile(checkerPrompt)) {
        checking := checking.(success := true, file := Some(OutputFile(checkerPrompt)));
      }
    }

    result := PipelineResult(true, None, Some(Stages(research, planning, checking)));
  }

  // ---------------------------------------------------------------------
  // properties of the pipeline
  // ---------------------------------------------------------------------

  /** A stage succeeds only when it ran, and has a file exactly when it succeeded, the file being `expected`, which exists. */
  predicate Recorded(s: Stage, expected: string, present: string -> bool)
  {
    (s.success ==> s.ran) && (s.file.Some? <==> s.success) && (s.file.Some? ==> s.file.value == expected && present(expected))
  }

  /**
   * Every record the pipeline returns is consistent with the files
   * found; planning always ran; research ran exactly when
   * `workflow.research` is `true`; checking ran exactly when planning
   * succeeded and `workflow.plan_check` is `true`.
   */
  lemma StagesGated(n: nat, name: string, opts: Options, w: World, dirR: Result<string>)
    ensures var r := PipelineOf(n, name, opts, w, dirR).result;
      r.data.Some? ==>
        ConfigOf(opts, w).Ok? && dirR.Ok?
        && var cfg := ConfigOf(opts, w).value; var d := r.data.value;
        var files := ExpectedPlanFiles(dirR.value, PadPhase(n));
        d.planning.ran
        && (d.research.ran <==> FlagOn(cfg, "research"))
        && (d.checking.ran <==> d.planning.success && FlagOn(cfg, "plan_check"))
        && Recorded(d.research, files.research, w.present)
        && Recorded(d.planning, files.plans, w.present)
        && Recorded(d.checking, files.check, w.present)
  {
  }

  /**
   * Once the configuration is in force and the directory exists, the run
   * succeeds exactly when the planner's marker file exists: missing
   * research or checker output is never fatal.
   */
  lemma SucceedsIffPlanned(n: nat, name: string, opts: Options, w: World, dirR: Result<string>)
    requires ConfigOf(opts, w).Ok? && dirR.Ok?
    ensures var r := PipelineOf(n, name, opts, w, dirR).result;
      var files := ExpectedPlanFiles(dirR.value, PadPhase(n));
      r.data.Some? && (r.success <==> w.present(files.plans)) && (r.success <==> r.error.None?)
  {
  }

  /**
   * Without the planner's output the run fails with the partial records:
   * checking has not run and no checker prompt was handed to an agent.
   */
  lemma PlannerMissingStops(n: nat, name: string, opts: Options, w: World, dirR: Result<string>)
    requires ConfigOf(opts, w).Ok? && dirR.Ok?
    requires !w.present(ExpectedPlanFiles(dirR.value, PadPhase(n)).plans)
    ensures var run := PipelineOf(n, name, opts, w, dirR);
      run.result.success == false && run.result.error == Some(PlannerMissing)
      && run.result.data.Some? && run.result.data.value.checking == NotRun
      && run.result.data.value.planning == Stage(true, false, None)
      && forall i :: 0 <= i < |run.spawned| ==> !run.spawned[i].Checking?
  {
  }

  /** The failures before any agent runs: a configuration that cannot be read, a directory that cannot be made. */
  lemma EarlyFailures(n: nat, name: string, opts: Options, w: World, dirR: Result<string>)
    ensures var run := PipelineOf(n, name, opts, w, dirR);
      (opts.config.None? && w.loaded.Err? ==> run == Failure("Failed to read config: " + w.loaded.error))
      && (ConfigOf(opts, w).Ok? && dirR.Err? ==> run == Failure(dirR.error))
  {
  }

  /** How many stages ran. */
  function RanCount(d: Stages): nat
  {
    (if d.research.ran then 1 else 0) + 1 + (if d.checking.ran then 1 else 0)
  }

  /**
   * One agent is started per stage that ran, in pipeline order, with one
   * model suggested for each: the researcher first when research ran,
   * then the planner, who is told the research content exactly when
   * research succeeded, then the checker when checking ran.
   */
  lemma OneAgentPerStage(n: nat, name: string, opts: Options, w: World, dirR: Result<string>)
    ensures var run := PipelineOf(n, name, opts, w, dirR); var r := run.result;
      r.data.Some? ==>
        dirR.Ok?
        && var dir := dirR.value; var d := r.data.value; var details := opts.phaseDetails.GetOr("");
        |run.spawned| == RanCount(d) == |run.advice|
        && (d.research.ran ==> run.spawned[0] == Research(n, name, details, opts.contextContent, dir))
        && var k := if d.research.ran then 1 else 0;
        run.spawned[k] == Planning(n, name, details, opts.contextContent, if d.research.success then w.researchRead else None, dir)
        && (d.checking.ran ==> run.spawned[k + 1] == Checking(n, name, opts.contextContent, dir))
  {
    var cfgR := ConfigOf(opts, w);
    if cfgR.Ok? && dirR.Ok? {
      var cfg := cfgR.value;
      StagesInOrder(FlagOn(cfg, "research"), FlagOn(cfg, "plan_check"), ModelsFor(cfg), n, name,
                    opts.phaseDetails.GetOr(""), opts.contextContent, dirR.value, w);
    }
  }

  /** `OneAgentPerStage` for the stages themselves. */
  lemma StagesInOrder(researchOn: bool, checkOn: bool, models: Models, n: nat, name: string, details: string,
                      context: Option<string>, dir: string, w: World)
    ensures var run := StagesOf(researchOn, checkOn, models, n, name, details, context, dir, w); var r := run.result;
      r.data.Some? && var d := r.data.value;
      |run.spawned| == RanCount(d) == |run.advice|
      && (d.research.ran ==> run.spawned[0] == Research(n, name, details, context, dir))
      && var k := if d.research.ran then 1 else 0;
      run.spawned[k] == Planning(n, name, details, context, if d.research.success then w.researchRead else None, dir)
      && (d.checking.ran ==> run.spawned[k + 1] == Checking(n, name, context, dir))
  {
  }

  /** A stage's record and prompt do not depend on the model suggested for it. */
  lemma StepModelFree(on: bool, p: Request, m1: string, m2: string, present: string -> bool)
    ensures var a, b := StageStep(on, p, m1, present), StageStep(on, p, m2, present);
      a.stage == b.stage && a.spawned == b.spawned && |a.advice| == |b.advice|
  {
  }

  /** The stages do not depend on the suggested models. */
  lemma StagesModelFree(researchOn: bool, checkOn: bool, m1: Models, m2: Models, n: nat, name: string, details: string,
                        context: Option<string>, dir: string, w: World)
    ensures var a := StagesOf(researchOn, checkOn, m1, n, name, details, context, dir, w);
      var b := StagesOf(researchOn, checkOn, m2, n, name, details, context, dir, w);
      a.result == b.result && a.spawned == b.spawned && |a.advice| == |b.advice|
  {
    var rq := Research(n, name, details, context, dir);
    StepModelFree(researchOn, rq, m1.researcher, m2.researcher, w.present);
    var content := if StageStep(researchOn, rq, m1.researcher, w.present).stage.success then w.researchRead else None;
    var pq := Planning(n, name, details, context, content, dir);
    StepModelFree(true, pq, m1.planner, m2.planner, w.present);
    StepModelFree(checkOn, Checking(n, name, context, dir), m1.checker, m2.checker, w.present);
  }

  /** The model profile picks only the advice: replacing it changes no result and no prompt. */
  lemma ProfileOnlyAdvises(n: nat, name: string, cfg: Config.Object, v: Config.Json,
                           details: Option<string>, context: Option<string>, w: World, dirR: Result<string>)
    ensures var a := PipelineOf(n, name, Options(Some(cfg), details, context), w, dirR);
      var b := PipelineOf(n, name, Options(Some(cfg["model_profile" := v]), details, context), w, dirR);
      a.result == b.result && a.spawned == b.spawned && |a.advice| == |b.advice|
  {
    var cfg' := cfg["model_profile" := v];
    assert FlagOn(cfg', "research") == FlagOn(cfg, "research");
    assert FlagOn(cfg', "plan_check") == FlagOn(cfg, "plan_check");
    if dirR.Ok? {
      StagesModelFree(FlagOn(cfg, "research"), FlagOn(cfg, "plan_check"), ModelsFor(cfg), ModelsFor(cfg'), n, name,
                      details.GetOr(""), context, dirR.value, w);
    }
  }
}

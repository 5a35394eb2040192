/**
 * `SystemTemplateHook`: the per-instance override of the agent's system
 * template, applied in `on_init` and reported in `on_model_query`.
 *
 * The file system and the YAML parser are not modelled: what `exists()`,
 * `open` and `yaml.safe_load` produce for the instance's file is the
 * `LoadOutcome` handed to `OnInit`.
 */
module TemplateHook {
  import opened Wrappers
  import opened PyText
  import opened Config
  import opened Extraction

  /** What became of `<instance_templates_dir>/<instance_id>.yaml`. */
  datatype LoadOutcome =
    | Absent            // the file does not exist
    | LoadError         // opening or parsing raised; the exception is caught and logged
    | Parsed(document: Value)

  /** The override `on_init` writes, if any: the extracted template, when non-empty and the agent has a holder. */
  function Override(outcome: LoadOutcome, hasHolder: bool): (w: Option<string>)
    ensures w.Some? <==> outcome.Parsed? && ExtractedTemplate(outcome.document) != "" && hasHolder
    ensures w.Some? ==> w.value == ExtractedTemplate(outcome.document) && IsStripped(w.value)
  {
    match outcome
    case Parsed(doc) =>
      var t := ExtractedTemplate(doc);
      if t != "" && hasHolder then Some(t) else None
    case _ => None
  }

  /** The two pieces of state `on_init` may touch: the hook's flag and the agent's template. */
  datatype State = State(templateLoaded: bool, systemTemplate: string)

  /** The state after one `on_init`: either untouched, or the template replaced and the flag raised. */
  function Step(s: State, outcome: LoadOutcome, hasHolder: bool): (r: State)
    ensures r == s || (outcome.Parsed? && r == State(true, ExtractedTemplate(outcome.document)))
    ensures r != s ==> hasHolder && IsStripped(r.systemTemplate)
  {
    match Override(outcome, hasHolder)
    case Some(t) => State(true, t)
    case None => s
  }

  /** The state after a sequence of `on_init` calls, the first one first. */
  function Replay(s: State, outcomes: seq<LoadOutcome>, hasHolder: bool): State
    decreases |outcomes|
  {
    if outcomes == [] then s else Replay(Step(s, outcomes[0], hasHolder), outcomes[1..], hasHolder)
  }

  /**
   * Every unsuccessful outcome leaves the state untouched: file absent, load
   * or parse error, nothing extracted, or no holder on the agent.
   */
  lemma NoOverrideNoChange(s: State, outcome: LoadOutcome, hasHolder: bool)
    requires outcome.Absent? || outcome.LoadError? || !hasHolder ||
             (outcome.Parsed? && ExtractedTemplate(outcome.document) == "")
    ensures Step(s, outcome, hasHolder) == s
  {
  }

  /** A non-empty extraction on an agent with a holder writes exactly that string and raises the flag. */
  lemma SuccessfulOverride(s: State, document: Value, hasHolder: bool)
    requires hasHolder && ExtractedTemplate(document) != ""
    ensures Step(s, Parsed(document), hasHolder) == State(true, ExtractedTemplate(document))
  {
  }

  /** Applying the same outcome twice is the same as applying it once. */
  lemma StepIdempotent(s: State, outcome: LoadOutcome, hasHolder: bool)
    ensures Step(Step(s, outcome, hasHolder), outcome, hasHolder) == Step(s, outcome, hasHolder)
  {
  }

  /** Any number of `on_init` calls with the same file end where the first one did. */
  lemma {:induction false} ReplaySameFile(s: State, outcomes: seq<LoadOutcome>, outcome: LoadOutcome, hasHolder: bool)
    requires |outcomes| > 0 && forall i :: 0 <= i < |outcomes| ==> outcomes[i] == outcome
    ensures Replay(s, outcomes, hasHolder) == Step(s, outcome, hasHolder)
    decreases |outcomes|
  {
    if |outcomes| > 1 {
      ReplaySameFile(Step(s, outcome, hasHolder), outcomes[1..], outcome, hasHolder);
      StepIdempotent(s, outcome, hasHolder);
    }
  }

  /** Once raised, the flag stays raised across any later `on_init` calls. */
  lemma {:induction false} FlagOnlyRises(s: State, outcomes: seq<LoadOutcome>, hasHolder: bool)
    requires s.templateLoaded
    ensures Replay(s, outcomes, hasHolder).templateLoaded
    decreases |outcomes|
  {
    if outcomes != [] {
      FlagOnlyRises(Step(s, outcomes[0], hasHolder), outcomes[1..], hasHolder);
    }
  }

  /**
   * Starting from "not loaded", the flag ends up raised exactly when one of the
   * `on_init` calls found an override to apply.
   */
  lemma {:induction false} FlagIffSomeOverride(s: State, outcomes: seq<LoadOutcome>, hasHolder: bool)
    requires !s.templateLoaded
    ensures Replay(s, outcomes, hasHolder).templateLoaded <==>
      exists i :: 0 <= i < |outcomes| && Override(outcomes[i], hasHolder).Some?
    decreases |outcomes|
  {
    if outcomes != [] {
      var next := Step(s, outcomes[0], hasHolder);
      if next.templateLoaded {
        FlagOnlyRises(next, outcomes[1..], hasHolder);
      } else {
        FlagIffSomeOverride(next, outcomes[1..], hasHolder);
        forall i | 1 <= i < |outcomes| ensures outcomes[i] == outcomes[1..][i - 1] {}
      }
    }
  }

  /** Whenever the flag is raised, the agent's template is a non-empty stripped string. */
  ghost predicate LoadedInvariant(s: State) {
    s.templateLoaded ==> IsStripped(s.systemTemplate)
  }

  /** Every sequence of `on_init` calls preserves `LoadedInvariant`. */
  lemma {:induction false} ReplayKeepsInvariant(s: State, outcomes: seq<LoadOutcome>, hasHolder: bool)
    requires LoadedInvariant(s)
    ensures LoadedInvariant(Replay(s, outcomes, hasHolder))
    decreases |outcomes|
  {
    if outcomes != [] {
      ReplayKeepsInvariant(Step(s, outcomes[0], hasHolder), outcomes[1..], hasHolder);
    }
  }

  /** The agent's `templates` object; `hasSystemTemplate` is `hasattr(templates, 'system_template')`. */
  class Templates {
    const hasSystemTemplate: bool
    var systemTemplate: string

    constructor (hasSystemTemplate: bool, systemTemplate: string)
      ensures this.hasSystemTemplate == hasSystemTemplate && this.systemTemplate == systemTemplate
    {
      this.hasSystemTemplate := hasSystemTemplate;
      this.systemTemplate := systemTemplate;
    }
  }

  /** The host agent, seen only through `templates`; `null` when it has no such attribute. */
  class Agent {
    const templates: Templates?

    constructor (templates: Templates?)
      ensures this.templates == templates
    {
      this.templates := templates;
    }

    /** `hasattr(agent, 'templates') and hasattr(agent.templates, 'system_template')`. */
    predicate HasHolder() {
      templates != null && templates.hasSystemTemplate
    }

    /** The current system template, or "" when the agent has no `templates` object. */
    function SystemTemplate(): string
      reads templates
    {
      if templates == null then "" else templates.systemTemplate
    }
  }

  class SystemTemplateHook {
    const instanceId: string
    const instanceTemplatesDir: string
    var templateLoaded: bool

    /** `__init__`: stores its arguments and starts with no template loaded; touches no file. */
    constructor (instanceId: string, instanceTemplatesDir: string)
      ensures this.instanceId == instanceId && this.instanceTemplatesDir == instanceTemplatesDir
      ensures !templateLoaded
    {
      this.instanceId := instanceId;
      this.instanceTemplatesDir := instanceTemplatesDir;
      templateLoaded := false;
    }

    /**
     * `on_init`: apply the instance's override to `agent`. Every failure leaves
     * the flag and the template as they were; a success writes exactly the
     * extracted template and raises the flag. Once the file is found to
     * exist, nothing is raised.
     */
    method OnInit(outcome: LoadOutcome, agent: Agent)
      modifies this, agent.templates
      ensures State(templateLoaded, agent.SystemTemplate())
        == Step(old(State(templateLoaded, agent.SystemTemplate())), outcome, agent.HasHolder())
    {
      if outcome.Absent? {
        return;
      }
      if outcome.LoadError? {
        return;
      }
      var systemTemplate := ExtractSystemTemplate(outcome.document);
      if systemTemplate != "" {
        if agent.HasHolder() {
          agent.templates.systemTemplate := systemTemplate;
          templateLoaded := true;
        }
      }
    }

    /** `on_model_query`: whether the "custom template in use" line is logged. Changes nothing. */
    method OnModelQuery<M>(messages: seq<M>, instanceId: string) returns (signal: bool)
      ensures signal <==> templateLoaded && |messages| == 1
    {
      signal := templateLoaded && |messages| == 1;
    }
  }

  /** Two example instances: "task-99" has no file, "task-42" uses the `templates` layout. */
  method ExampleInstances() {
    var templates := new Templates(true, "default");
    var agent := new Agent(templates);

    var absent := new SystemTemplateHook("task-99", "instance_templates");
    absent.OnInit(Absent, agent);
    assert !absent.templateLoaded && templates.systemTemplate == "default";

    var hook := new SystemTemplateHook("task-42", "instance_templates");
    var doc := Map(map["templates" := Map(map["system_template" := Str("You are a careful reviewer.")])]);
    ExampleTemplatesLayout();
    hook.OnInit(Parsed(doc), agent);
    assert hook.templateLoaded && templates.systemTemplate == "You are a careful reviewer.";
    var signal := hook.OnModelQuery(["first message"], "task-42");
    assert signal;
  }
}

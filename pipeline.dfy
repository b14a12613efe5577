/** `PromptEvaluator` (main.py): critic, fixer, generator and comparator run
    in sequence over one prompt and its existing answer (Answer A). The four
    agents are opaque: what each returns is an input to the model. */
module Pipeline {
  import opened Text
  import opened Replies
  import Config
  import Fixer

  /** What the comparator slot holds when Answer B is too short. */
  const SkipMessage: string := "Comparison skipped \U{2013} new answer not meaningful."

  /** Answer B must be longer than this to be compared. */
  const MinComparedLength: nat := 10

  /** The behaviour of the four agents: `CriticAgent.evaluate`,
      `PromptFixerAgent.fix`, the generator's `generate_reply` and
      `ComparatorAgent.compare`. */
  datatype Agents = Agents(
    critic: string -> string,
    fixer: string -> Result<seq<string>>,
    generator: seq<Message> -> Reply,
    comparator: (string, string) -> string)

  /** The seven-key dict `evaluate_prompt_response` returns. */
  datatype Evaluation = Evaluation(
    originalPrompt: string,
    originalResponse: string,
    criticAnalysis: string,
    improvedPrompts: seq<string>,
    chosenPrompt: string,
    newResponse: string,
    comparisonAnalysis: string)

  /** The prompt Answer B is generated from: a non-empty override that is
      one of the improved prompts, else the first improved prompt, else the
      original prompt. It is always one of the candidates. */
  function ChoosePrompt(prompt: string, chosen: Option<string>, improved: seq<string>): (use: string)
    ensures use in improved || use == prompt
  {
    if chosen.Some? && chosen.value != "" && chosen.value in improved then chosen.value
    else if improved != [] then improved[0]
    else prompt
  }

  /** `(raw if isinstance(raw, str) else raw.get("content", "")) or ""`,
      stripped. A `None` reply has no `get`. */
  function NormaliseAnswer(raw: Reply): (r: Result<string>)
    ensures r.Err? <==> raw.NoReply?
    ensures r.Ok? ==> Trimmed(r.value)
  {
    match Unwrap(raw)
    case Err(e) => Err(e)
    case Ok(None) => Ok("")
    case Ok(Some(s)) => StripSpec(s); Ok(Strip(s))
  }

  /** The comparator's verdict, or the skip message for a short Answer B.
      A verdict is trimmed, so it differs from the skip message, which ends
      in `.`, only in what the comparator said. */
  function Comparison(comparator: (string, string) -> string, answerA: string, answerB: string): (r: string)
    ensures |answerB| <= MinComparedLength ==> r == SkipMessage
    ensures |answerB| > MinComparedLength ==> Trimmed(r)
  {
    if |answerB| > MinComparedLength then
      StripSpec(comparator(answerA, answerB));
      Strip(comparator(answerA, answerB))
    else SkipMessage
  }

  /** `evaluate_prompt_response(prompt, answer_a, chosen_prompt)`. The
      fixer is asked before the generator, so its failure is the one
      reported when both would fail. */
  function Evaluate(agents: Agents, prompt: string, answerA: string, chosen: Option<string>): (r: Result<Evaluation>)
    ensures agents.fixer(prompt).Err? ==> r == Err(agents.fixer(prompt).error)
    ensures r.Ok? ==> && r.value.originalPrompt == prompt && r.value.originalResponse == answerA
                      && (r.value.chosenPrompt in r.value.improvedPrompts || r.value.chosenPrompt == prompt)
                      && Trimmed(r.value.newResponse)
  {
    var criticText := Strip(agents.critic(answerA));
    match agents.fixer(prompt)
    case Err(e) => Err(e)
    case Ok(improved) =>
      var use := ChoosePrompt(prompt, chosen, improved);
      match NormaliseAnswer(agents.generator(UserTurn(use)))
      case Err(e) => Err(e)
      case Ok(answerB) =>
        Ok(Evaluation(prompt, answerA, criticText, improved, use, answerB,
                      Comparison(agents.comparator, answerA, answerB)))
  }

  // ---------------------------------------------------------------------
  // Prompt choice

  /** A non-empty override that is one of the improved prompts is used. */
  lemma OverrideHonoured(prompt: string, chosen: string, improved: seq<string>)
    requires chosen != "" && chosen in improved
    ensures ChoosePrompt(prompt, Some(chosen), improved) == chosen
  {
  }

  /** Without a usable override: the first improved prompt, or the original
      prompt when there is none. */
  lemma DefaultChoice(prompt: string, chosen: Option<string>, improved: seq<string>)
    requires chosen.None? || chosen.value == "" || chosen.value !in improved
    ensures improved != [] ==> ChoosePrompt(prompt, chosen, improved) == improved[0]
    ensures improved == [] ==> ChoosePrompt(prompt, chosen, improved) == prompt
  {
  }

  /** An override outside the improved prompts is ignored: the choice is the
      one made with no override at all. */
  lemma OverrideOutsideIgnored(prompt: string, chosen: string, improved: seq<string>)
    requires chosen !in improved
    ensures ChoosePrompt(prompt, Some(chosen), improved) == ChoosePrompt(prompt, None, improved)
  {
  }

  // ---------------------------------------------------------------------
  // Answer B

  /** How Answer B is read off the generator's reply. */
  lemma AnswerFromReply(raw: Reply)
    ensures raw.Text? ==> NormaliseAnswer(raw) == Ok(Strip(raw.text))
    ensures raw.Record? && raw.content.Value? ==> NormaliseAnswer(raw) == Ok(Strip(raw.content.text))
    ensures raw == Record(Absent) || raw == Record(Null) ==> NormaliseAnswer(raw) == Ok("")
  {
    assert Strip("") == "";
  }

  // ---------------------------------------------------------------------
  // The result record

  /** The pipeline fails exactly when the fixer fails or, after it, the
      generator returns `None`. The record holds the inputs unstripped, the
      stripped critic text, the fixer output unchanged, the prompt used and
      Answer B. */
  lemma EvaluateRecord(agents: Agents, prompt: string, answerA: string, chosen: Option<string>)
    ensures var r := Evaluate(agents, prompt, answerA, chosen);
            r.Err? <==> (|| agents.fixer(prompt).Err?
                         || agents.generator(UserTurn(ChoosePrompt(prompt, chosen, agents.fixer(prompt).value)))
                            == NoReply)
    ensures agents.fixer(prompt).Ok? ==>
            var use := ChoosePrompt(prompt, chosen, agents.fixer(prompt).value);
            var r := Evaluate(agents, prompt, answerA, chosen);
            && (r.Ok? ==>
                  && r.value.originalPrompt == prompt
                  && r.value.originalResponse == answerA
                  && r.value.criticAnalysis == Strip(agents.critic(answerA))
                  && Trimmed(r.value.criticAnalysis)
                  && r.value.improvedPrompts == agents.fixer(prompt).value
                  && r.value.chosenPrompt == use
                  && (use in r.value.improvedPrompts || use == prompt)
                  && Ok(r.value.newResponse) == NormaliseAnswer(agents.generator(UserTurn(use)))
                  && Trimmed(r.value.newResponse))
  {
    StripSpec(agents.critic(answerA));
  }

  /** The generator is asked exactly once, with one user turn holding the
      chosen prompt: any generator that answers that turn alike gives the
      same evaluation. */
  lemma GeneratorSeesOnlyChosenPrompt(agents: Agents, generator': seq<Message> -> Reply,
                                      prompt: string, answerA: string, chosen: Option<string>)
    requires agents.fixer(prompt).Ok? ==>
             var use := ChoosePrompt(prompt, chosen, agents.fixer(prompt).value);
             generator'(UserTurn(use)) == agents.generator(UserTurn(use))
    ensures Evaluate(agents.(generator := generator'), prompt, answerA, chosen)
            == Evaluate(agents, prompt, answerA, chosen)
  {
  }

  /** The comparator's verdict is used exactly when Answer B is longer than
      ten characters; otherwise the record holds the skip message. */
  lemma ComparatorRule(agents: Agents, prompt: string, answerA: string, chosen: Option<string>)
    requires Evaluate(agents, prompt, answerA, chosen).Ok?
    ensures var e := Evaluate(agents, prompt, answerA, chosen).value;
            && (|e.newResponse| > 10 ==>
                  e.comparisonAnalysis == Strip(agents.comparator(answerA, e.newResponse)))
            && (|e.newResponse| <= 10 ==> e.comparisonAnalysis == SkipMessage)
  {
  }

  /** When Answer B has ten characters or fewer the comparator is not
      consulted: replacing it changes nothing. */
  lemma ComparatorSkipped(agents: Agents, comparator': (string, string) -> string,
                          prompt: string, answerA: string, chosen: Option<string>)
    requires Evaluate(agents, prompt, answerA, chosen).Ok?
    requires |Evaluate(agents, prompt, answerA, chosen).value.newResponse| <= 10
    ensures Evaluate(agents.(comparator := comparator'), prompt, answerA, chosen)
            == Evaluate(agents, prompt, answerA, chosen)
  {
  }

  /** With the fixer of this model answering from reply text `txt`, at most
      two prompts are offered, and the prompt used is the original or a
      trimmed bullet of at least four characters that holds a lower-cased
      keyword of the original. */
  lemma ChosenPromptWithModelledFixer(agents: Agents, prompt: string, answerA: string,
                                      chosen: Option<string>, txt: string)
    requires agents.fixer(prompt) == Ok(Fixer.FixText(prompt, txt))
    requires Evaluate(agents, prompt, answerA, chosen).Ok?
    ensures var e := Evaluate(agents, prompt, answerA, chosen).value;
            && |e.improvedPrompts| <= 2
            && (e.chosenPrompt == prompt ||
                (&& Trimmed(e.chosenPrompt) && |e.chosenPrompt| >= 4
                 && exists a, b :: Fixer.MaximalRun(prompt, a, b)
                                   && Contains(Lower(e.chosenPrompt), Lower(prompt[a..b]))))
  {
    var e := Evaluate(agents, prompt, answerA, chosen).value;
    if e.chosenPrompt != prompt {
      Fixer.SelectMentionsPromptRun(prompt, SplitLines(txt), e.chosenPrompt);
    }
  }

  // ---------------------------------------------------------------------
  // The evaluator object and its configuration

  /** An agent as far as configuration goes: its name and its `llm_config`. */
  class Agent {
    const name: string
    var llmConfig: Config.LlmConfig

    constructor (name: string, llmConfig: Config.LlmConfig)
      ensures this.name == name && this.llmConfig == llmConfig
    {
      this.name := name;
      this.llmConfig := llmConfig;
    }
  }

  class PromptEvaluator {
    var llmConfig: Config.LlmConfig
    var critic: Agent
    var fixer: Agent
    var comp: Agent
    var generator: Agent

    /** Every agent runs on the evaluator's configuration. */
    ghost predicate Synced()
      reads this, critic, fixer, comp, generator
    {
      && critic.llmConfig == llmConfig
      && fixer.llmConfig == llmConfig
      && comp.llmConfig == llmConfig
      && generator.llmConfig == llmConfig
    }

    /** `PromptEvaluator()`: the configuration `get_llm_config` picks, shared
        by four new agents. */
    constructor (env: Config.Env, d: Config.Defaults)
      ensures llmConfig == Config.GetLlmConfig(env, d)
      ensures Synced()
      ensures fresh(critic) && fresh(fixer) && fresh(comp) && fresh(generator)
      ensures critic.name == "CriticAgent" && fixer.name == "PromptFixerAgent"
      ensures comp.name == "ComparatorAgent" && generator.name == "GeneratorAgent"
    {
      var cfg := Config.GetLlmConfig(env, d);
      llmConfig := cfg;
      critic := new Agent("CriticAgent", cfg);
      fixer := new Agent("PromptFixerAgent", cfg);
      comp := new Agent("ComparatorAgent", cfg);
      generator := new Agent("GeneratorAgent", cfg);
    }

    /** `update_llm_config(cfg)`: the evaluator's configuration and then each
        agent's, in turn, becomes `cfg`; nothing else changes. */
    method UpdateLlmConfig(cfg: Config.LlmConfig)
      modifies this`llmConfig, critic`llmConfig, fixer`llmConfig, comp`llmConfig, generator`llmConfig
      ensures llmConfig == cfg
      ensures critic.llmConfig == cfg && fixer.llmConfig == cfg
      ensures comp.llmConfig == cfg && generator.llmConfig == cfg
      ensures Synced()
    {
      llmConfig := cfg;
      var agents := [critic, fixer, comp, generator];
      for i := 0 to |agents|
        invariant llmConfig == cfg
        invariant forall j :: 0 <= j < i ==> agents[j].llmConfig == cfg
      {
        agents[i].llmConfig := cfg;
      }
      assert agents[0] == critic && agents[1] == fixer;
      assert agents[2] == comp && agents[3] == generator;
    }
  }
}

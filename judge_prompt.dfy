/**
 * How the judge node feeds the adjudicator chain. The chain's prompt
 * template names four variables, the statement and one slot per search
 * tool (chains/adjudicator_chain.py); formatting it with an input that
 * lacks any of them raises. The judge node as written supplies the
 * statement and the whole research list under `research`, so the prompt
 * never formats and no run of the graph reaches a verdict. The corrected
 * judge input splits the research list into the three slots by tool.
 *
 * The chat model behind the prompt is a parameter: a function of the run's
 * clock and the formatted variables.
 */
module JudgePrompt {
  import opened Wrappers
  import opened FactCheckGraph
  import FactCheckProofs

  /** The variables of the adjudicator's prompt template. */
  const PromptVariables: set<string> := {"statement", "wiki", "web", "arxiv"}

  /** A value handed to the prompt: text, or a list of research messages. */
  datatype PromptInput = Text(text: string) | Research(messages: seq<Message>)

  type Model = (nat, map<string, PromptInput>) -> Reply<Option<Verdict>>

  /**
   * Formatting the template: with every variable supplied, the variables
   * are bound to their inputs and extra inputs are ignored; otherwise
   * formatting raises a `KeyError` naming the missing variables.
   */
  function FormatPrompt(inputs: map<string, PromptInput>): (r: Result<map<string, PromptInput>, set<string>>)
    ensures r.Ok? <==> PromptVariables <= inputs.Keys
    ensures r.Ok? ==> r.value.Keys == PromptVariables && forall v :: v in r.value ==> r.value[v] == inputs[v]
    ensures r.Err? ==> r.error != {} && r.error <= PromptVariables && r.error !! inputs.Keys
    ensures r.Err? ==> forall v :: v in PromptVariables && v !in inputs ==> v in r.error
  {
    if PromptVariables <= inputs.Keys then Ok(map v | v in PromptVariables :: inputs[v])
    else
      var v :| v in PromptVariables && v !in inputs.Keys;
      assert v in PromptVariables - inputs.Keys;
      Err(PromptVariables - inputs.Keys)
  }

  /** The adjudicator behind a judge input: a prompt that does not format is an error no retry repairs. */
  function AdjudicatorFor(judgeInputs: (string, seq<Message>) -> map<string, PromptInput>, model: Model)
    : (adjudicator: (nat, string, seq<Message>) -> Reply<Option<Verdict>>)
    ensures forall k: nat, statement: string, research: seq<Message> ::
      FormatPrompt(judgeInputs(statement, research)).Err? ==> adjudicator(k, statement, research) == Fatal
    ensures forall k: nat, statement: string, research: seq<Message> ::
      FormatPrompt(judgeInputs(statement, research)).Ok? ==>
        adjudicator(k, statement, research) == model(k, FormatPrompt(judgeInputs(statement, research)).value)
  {
    (k: nat, statement: string, research: seq<Message>) =>
      match FormatPrompt(judgeInputs(statement, research))
      case Err(_) => Fatal
      case Ok(vars) => model(k, vars)
  }

  // ---------------------------------------------------------------------
  // As written
  // ---------------------------------------------------------------------

  /** `{'statement': statement, 'research': research}`. */
  function JudgeInputsAsWritten(statement: string, research: seq<Message>): map<string, PromptInput> {
    map["statement" := Text(statement), "research" := Research(research)]
  }

  /** The judge's prompt never formats: the three research slots are missing, whatever the research. */
  lemma AsWrittenPromptFails(statement: string, research: seq<Message>)
    ensures FormatPrompt(JudgeInputsAsWritten(statement, research)) == Err({"wiki", "web", "arxiv"})
  {
    var inputs := JudgeInputsAsWritten(statement, research);
    assert "wiki" !in inputs;
    assert inputs.Keys == {"statement", "research"};
    assert PromptVariables - inputs.Keys == {"wiki", "web", "arxiv"};
  }

  /**
   * With a judge that never answers, no run that has not yet reached review
   * can finish: only review ends a run, and review is reached only through
   * the judge.
   */
  lemma {:induction false} NoRunPastSilentJudge(c: Config, o: Oracles, fuel: nat)
    requires forall k: nat, s: string, r: seq<Message> :: !o.judge(k, s, r).Answer?
    requires c.at != Review
    ensures Exec(c, o, fuel).Aborted?
    decreases fuel
  {
    if fuel > 0 && Step(c, o).Stepped? {
      var st := Step(c, o);
      FactCheckProofs.RetryPolicy(c.at, c.state, o, c.clock);
      if c.at == Judgement {
        assert false;
      }
      FactCheckProofs.FixedEdges(c.at, st.state.next);
      if c.at == Supervisor && st.state.next.Some? {
        FactCheckProofs.SupervisorRouting(st.state.next.value);
      }
      assert st.target.Goto? && st.target.node != Review;
      NoRunPastSilentJudge(Config(st.state, st.target.node, st.clock, c.trace + [c.at]), o, fuel - 1);
    }
  }

  /** With the judge as written, every fact check fails, whatever the providers answer and however much fuel it gets. */
  lemma AsWrittenNeverVerdicts(statement: string, o: Oracles, model: Model, fuel: nat)
    ensures FactCheck(statement, o.(judge := AdjudicatorFor(JudgeInputsAsWritten, model)), fuel).Err?
  {
    var o' := o.(judge := AdjudicatorFor(JudgeInputsAsWritten, model));
    forall k: nat, s: string, r: seq<Message> ensures !o'.judge(k, s, r).Answer? {
      AsWrittenPromptFails(s, r);
    }
    NoRunPastSilentJudge(Start(statement), o', fuel);
  }

  // ---------------------------------------------------------------------
  // Corrected
  // ---------------------------------------------------------------------

  /** The research messages a tool produced, in order. */
  function FromTool(research: seq<Message>, tool: string): (r: seq<Message>)
    ensures |r| <= |research|
    ensures forall i :: 0 <= i < |r| ==> r[i].ToolMessage? && r[i].name == tool && r[i] in research
    ensures forall m :: m in research && m.ToolMessage? && m.name == tool ==> m in r
  {
    if research == [] then []
    else (if research[0].ToolMessage? && research[0].name == tool then [research[0]] else []) + FromTool(research[1..], tool)
  }

  /**
   * The slot of a tool keeps the order of the research list: the slot of a
   * concatenation is the concatenation of the slots.
   */
  lemma {:induction false} FromToolAppend(a: seq<Message>, b: seq<Message>, tool: string)
    ensures FromTool(a + b, tool) == FromTool(a, tool) + FromTool(b, tool)
    decreases |a|
  {
    if a == [] {
      assert a + b == b;
    } else {
      assert (a + b)[0] == a[0];
      assert (a + b)[1..] == a[1..] + b;
      FromToolAppend(a[1..], b, tool);
    }
  }

  /** One message is kept exactly when it is a tool message of that tool. */
  lemma FromToolSingle(m: Message, tool: string)
    ensures FromTool([m], tool) == (if m.ToolMessage? && m.name == tool then [m] else [])
  {
    assert [m][1..] == [];
  }

  /** One slot per search tool, holding that tool's messages. */
  function JudgeInputs(statement: string, research: seq<Message>): map<string, PromptInput> {
    map["statement" := Text(statement),
        "wiki" := Research(FromTool(research, SearchWikipedia)),
        "web" := Research(FromTool(research, SearchWeb)),
        "arxiv" := Research(FromTool(research, SearchArxiv))]
  }

  /** The corrected prompt always formats, so the adjudicator's answer is the model's answer. */
  lemma CorrectedPromptFormats(statement: string, research: seq<Message>, model: Model, k: nat)
    ensures FormatPrompt(JudgeInputs(statement, research)) == Ok(JudgeInputs(statement, research))
    ensures AdjudicatorFor(JudgeInputs, model)(k, statement, research) == model(k, JudgeInputs(statement, research))
  {
    var inputs := JudgeInputs(statement, research);
    assert inputs.Keys == PromptVariables;
    var r := FormatPrompt(inputs);
    assert r.value.Keys == inputs.Keys;
    assert r.value == inputs;
  }

  /** Whether a message is the result of one of the three search tools. */
  predicate IsSearch(m: Message) {
    m.ToolMessage? && (m.name == SearchWikipedia || m.name == SearchWeb || m.name == SearchArxiv)
  }

  /** The messages of the research list that come from a search tool, in order. */
  function Searches(research: seq<Message>): (r: seq<Message>)
    ensures forall m :: m in r ==> IsSearch(m)
  {
    if research == [] then []
    else (if IsSearch(research[0]) then [research[0]] else []) + Searches(research[1..])
  }

  /** The three slots partition the search results: each lands in exactly one slot, in the slot of its tool. */
  lemma {:induction false} SlotsPartitionResearch(research: seq<Message>)
    ensures multiset(FromTool(research, SearchWikipedia)) + multiset(FromTool(research, SearchWeb))
          + multiset(FromTool(research, SearchArxiv)) == multiset(Searches(research))
    decreases |research|
  {
    if research != [] {
      SlotsPartitionResearch(research[1..]);
    }
  }
}

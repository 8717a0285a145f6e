/**
 * What the statement-checker graph guarantees, proved about the pure
 * semantics of `FactCheckGraph` (and so about the engine, which is proved
 * equal to it): the routing table, the retry bound, the append-only log,
 * the research view, the judge's frame, the review latch, the
 * correlation of the review note, and the bound of two judge and two
 * review executions per run.
 */
module FactCheckProofs {
  import opened Wrappers
  import opened FactCheckGraph

  // ---------------------------------------------------------------------
  // Routing table
  // ---------------------------------------------------------------------

  /**
   * The supervisor's routing keys with a successor are exactly the names of
   * the tools bound to its model; each research tool leads to the node that
   * executes that tool, `JudgeStatement` to the judge; the fallback key and
   * a missing key have no successor.
   */
  lemma SupervisorRouting(key: string)
    ensures Route(Supervisor, Some(key)).Some? <==> key in SupervisorTools
    ensures Route(Supervisor, Some(key)).Some? ==> Route(Supervisor, Some(key)).value.Goto?
    ensures forall n: Node :: Route(Supervisor, Some(key)) == Some(Goto(n)) && n.IsResearch() ==> ToolName(n) == key
    ensures Route(Supervisor, Some(key)) == Some(Goto(Judgement)) <==> key == JudgeStatement
    ensures Route(Supervisor, Some(SupervisorFallback)) == None && Route(Supervisor, None) == None
  {
  }

  /** Research nodes always return to the supervisor and the judge always hands over to review, whatever the key. */
  lemma FixedEdges(n: Node, key: Option<string>)
    ensures n.IsResearch() ==> Route(n, key) == Some(Goto(Supervisor))
    ensures n == Judgement ==> Route(n, key) == Some(Goto(Review))
    ensures n != Review ==> Route(n, key) != Some(End)
  {
  }

  /** Review: `Improve` goes back to the supervisor, `FINISH` ends the run, anything else has no successor. */
  lemma ReviewRouting(key: Option<string>)
    ensures Route(Review, key) == Some(Goto(Supervisor)) <==> key == Some(Improve)
    ensures Route(Review, key) == Some(End) <==> key == Some(Finish)
    ensures Route(Review, key).Some? <==> key == Some(Improve) || key == Some(Finish)
  {
  }

  // ---------------------------------------------------------------------
  // Retry policy
  // ---------------------------------------------------------------------

  /**
   * A node gets one attempt, and a second one exactly when the first failed
   * in a retryable way; the outcome is that of the last attempt, so the
   * retry budget is spent only when both attempts failed retryably.
   */
  lemma {:induction false} RetryPolicy(n: Node, s: GraphState, o: Oracles, clock: nat)
    ensures var (a, after) := Invoke(n, s, o, clock, 1);
      && (after == clock + 1 || after == clock + 2)
      && (after == clock + 2 <==> RunNode(n, s, o, clock).Retryable?)
      && a == RunNode(n, s, o, after - 1)
      && (a.Retryable? ==> RunNode(n, s, o, clock).Retryable? && RunNode(n, s, o, clock + 1).Retryable?)
  {
    if RunNode(n, s, o, clock).Retryable? {
      assert Invoke(n, s, o, clock, 1) == Invoke(n, s, o, clock + 1, 2);
    }
  }

  // ---------------------------------------------------------------------
  // Research tools
  // ---------------------------------------------------------------------

  /** A research node logs one tool message, answering the call it ran, with every retrieved document in order. */
  lemma ResearchOutput(n: Node, call: ToolCall, docs: seq<Document>)
    requires n.IsResearch()
    ensures var p := ResearchPatch(n, call, docs);
      && |p.messages| == 1
      && p.messages[0].ToolMessage?
      && p.messages[0].name == ToolName(n) && p.messages[0].toolCallId == call.id
      && p.messages[0].output.Documents?
      && |p.messages[0].output.records| == |docs|
      && (forall i :: 0 <= i < |docs| ==> p.messages[0].output.records[i].pageContent == docs[i].pageContent)
      && p.research.Keep? && p.verdict.Keep? && p.improved.Keep? && p.next.Keep?
  {
  }

  // ---------------------------------------------------------------------
  // The research view
  // ---------------------------------------------------------------------

  lemma {:induction false} ToolMessagesAppend(a: seq<Message>, b: seq<Message>)
    ensures ToolMessages(a + b) == ToolMessages(a) + ToolMessages(b)
    decreases |a|
  {
    if a == [] {
      assert a + b == b;
    } else {
      assert (a + b)[1..] == a[1..] + b;
      ToolMessagesAppend(a[1..], b);
    }
  }

  /** Every tool message of the log is in the view, and only those, in log order. */
  lemma {:induction false} ToolMessagesFilter(log: seq<Message>, m: Message)
    ensures m in ToolMessages(log) <==> m in log && m.ToolMessage?
    decreases |log|
  {
    if log != [] {
      ToolMessagesFilter(log[1..], m);
      assert log == [log[0]] + log[1..];
    }
  }

  // ---------------------------------------------------------------------
  // One step
  // ---------------------------------------------------------------------

  /** A successful step ran its node once to a patch, merged it, and routed on the merged state. */
  lemma StepPatch(c: Config, o: Oracles) returns (k: nat, p: Patch)
    requires Step(c, o).Stepped?
    ensures RunNode(c.at, c.state, o, k) == Patched(p)
    ensures Step(c, o).state == Merge(c.state, p)
    ensures Route(c.at, Step(c, o).state.next) == Some(Step(c, o).target)
  {
    var (a, after) := Invoke(c.at, c.state, o, c.clock, 1);
    RetryPolicy(c.at, c.state, o, c.clock);
    k := after - 1;
    p := a.patch;
  }

  /**
   * The log only grows, by one decision for the supervisor, one tool message
   * named after its tool for a research node, one `review` tool message for
   * review and nothing for the judge; the statement never changes.
   */
  lemma StepLog(c: Config, o: Oracles)
    requires Step(c, o).Stepped?
    ensures var log := Step(c, o).state.messages;
      && Step(c, o).state.statement == c.state.statement
      && c.state.messages <= log
      && |log| == |c.state.messages| + (if c.at == Judgement then 0 else 1)
      && (c.at == Supervisor ==> log[|log| - 1].AIMessage?)
      && (c.at.IsResearch() ==> log[|log| - 1].ToolMessage? && log[|log| - 1].name == ToolName(c.at))
      && (c.at == Review ==> log[|log| - 1].ToolMessage? && log[|log| - 1].name == ReviewToolName)
  {
    var k, p := StepPatch(c, o);
  }

  /**
   * What each node overwrites: only review touches `improved` and sets it;
   * only the supervisor touches `research`, setting it to the tool messages
   * of the log as it stood (which are also those of the log it leaves);
   * only the judge touches `verdict`.
   */
  lemma StepFrame(c: Config, o: Oracles)
    requires Step(c, o).Stepped?
    ensures var s := Step(c, o).state;
      && (c.at == Review ==> s.improved)
      && (c.at != Review ==> s.improved == c.state.improved)
      && (c.at == Supervisor ==>
            s.research == Some(ToolMessages(c.state.messages)) && ToolMessages(c.state.messages) == ToolMessages(s.messages))
      && (c.at != Supervisor ==> s.research == c.state.research)
      && (c.at != Judgement ==> s.verdict == c.state.verdict)
  {
    var k, p := StepPatch(c, o);
    if c.at == Supervisor {
      var m := o.supervisor(k, c.state.messages).value;
      ToolMessagesAppend(c.state.messages, [AIMessage(m.content, m.toolCalls)]);
    }
  }

  /** The judge overwrites the verdict with the adjudicator's answer on statement and research, and nothing else. */
  lemma JudgeFrame(c: Config, o: Oracles)
    requires c.at == Judgement && Step(c, o).Stepped?
    ensures c.state.research.Some?
    ensures var s := Step(c, o).state;
      && s == c.state.(verdict := s.verdict)
      && Step(c, o).target == Goto(Review)
      && exists k: nat :: o.judge(k, c.state.statement, c.state.research.value) == Answer(s.verdict)
  {
    var k, p := StepPatch(c, o);
    assert o.judge(k, c.state.statement, c.state.research.value) == Answer(Step(c, o).state.verdict);
  }

  /** Once `improved` is set, review ends the run whatever the reviewer votes. */
  lemma ReviewForcesFinish(c: Config, o: Oracles)
    requires c.at == Review && c.state.improved && Step(c, o).Stepped?
    ensures Step(c, o).target == End
    ensures Step(c, o).state.next == Some(Finish)
  {
    var k, p := StepPatch(c, o);
  }

  /** On its first entry review follows the reviewer's vote, which must be `Improve` or `FINISH`. */
  lemma ReviewHonoursFirstVote(c: Config, o: Oracles)
    requires c.at == Review && !c.state.improved && Step(c, o).Stepped?
    ensures Step(c, o).state.improved
    ensures Step(c, o).state.next == Some(Improve) || Step(c, o).state.next == Some(Finish)
    ensures Step(c, o).target == (if Step(c, o).state.next == Some(Improve) then Goto(Supervisor) else End)
    ensures exists k: nat, m: Completion ::
      o.reviewer(k, c.state.statement, c.state.verdict) == Answer(m)
      && |m.toolCalls| > 0 && NextArg in m.toolCalls[0].args
      && Step(c, o).state.next == Some(m.toolCalls[0].args[NextArg])
  {
    var k, p := StepPatch(c, o);
    var m := o.reviewer(k, c.state.statement, c.state.verdict).value;
    assert Step(c, o).state.next == Some(m.toolCalls[0].args[NextArg]);
  }

  // ---------------------------------------------------------------------
  // Reachable configurations
  // ---------------------------------------------------------------------

  /**
   * What holds wherever a run can be: the log starts with the statement;
   * a research node is reached only with the decision that names its tool
   * last in the log; judge and review are reached only with the
   * `JudgeStatement` decision last in the log and research set.
   */
  predicate Inv(c: Config) {
    && c.state.messages != []
    && c.state.messages[0] == HumanMessage(c.state.statement)
    && (c.at.IsResearch() ==>
          LastToolCall(c.state.messages).Some? && LastToolCall(c.state.messages).value.name == ToolName(c.at))
    && ((c.at == Judgement || c.at == Review) ==>
          LastToolCall(c.state.messages).Some? && LastToolCall(c.state.messages).value.name == JudgeStatement
          && c.state.research.Some?)
  }

  lemma StartInv(statement: string)
    ensures Inv(Start(statement))
  {
  }

  lemma StepInv(c: Config, o: Oracles)
    requires Inv(c) && Step(c, o).Stepped? && Step(c, o).target.Goto?
    ensures Inv(Config(Step(c, o).state, Step(c, o).target.node, Step(c, o).clock, c.trace + [c.at]))
  {
    var k, p := StepPatch(c, o);
    StepLog(c, o);
    var s := Step(c, o).state;
    if c.at == Supervisor {
      var m := o.supervisor(k, c.state.messages).value;
      assert s.messages == c.state.messages + [AIMessage(m.content, m.toolCalls)];
      assert NextAction(m) in SupervisorPaths;
      assert LastToolCall(s.messages) == Some(m.toolCalls[0]);
    } else if c.at == Judgement {
      assert s.messages == c.state.messages;
    }
  }

  /** The configuration after `n` steps from `c`, while the run goes on. */
  function After(c: Config, o: Oracles, n: nat): Option<Config>
    decreases n
  {
    if n == 0 then Some(c)
    else
      match After(c, o, n - 1)
      case None => None
      case Some(d) =>
        match Step(d, o)
        case Stopped(_) => None
        case Stepped(s, t, clock) => if t.End? then None else Some(Config(s, t.node, clock, d.trace + [d.at]))
  }

  /** Every configuration a run reaches satisfies `Inv`. */
  lemma {:induction false} ReachableInv(statement: string, o: Oracles, n: nat)
    ensures After(Start(statement), o, n).Some? ==> Inv(After(Start(statement), o, n).value)
    decreases n
  {
    if n == 0 {
      StartInv(statement);
    } else {
      ReachableInv(statement, o, n - 1);
      var d := After(Start(statement), o, n - 1);
      if d.Some? && Step(d.value, o).Stepped? && Step(d.value, o).target.Goto? {
        StepInv(d.value, o);
      }
    }
  }

  /**
   * The review note answers the decision that chose `JudgeStatement`: its
   * `tool_call_id` is the id of that decision's first tool call, which is
   * the last logged message because the judge logs nothing.
   */
  lemma ReviewCorrelation(c: Config, o: Oracles)
    requires Inv(c) && c.at == Review && Step(c, o).Stepped?
    ensures var log := Step(c, o).state.messages;
      && LastToolCall(c.state.messages).Some?
      && LastToolCall(c.state.messages).value.name == JudgeStatement
      && log[|log| - 1].ToolMessage?
      && log[|log| - 1].name == ReviewToolName
      && log[|log| - 1].toolCallId == LastToolCall(c.state.messages).value.id
  {
    var k, p := StepPatch(c, o);
    StepLog(c, o);
  }

  /** With research set, as it is wherever the judge can be reached, the judge fails only when the adjudicator does. */
  lemma JudgeNeedsOnlyItsProvider(c: Config, o: Oracles, k: nat)
    requires Inv(c) && c.at == Judgement
    ensures o.judge(k, c.state.statement, c.state.research.value).Answer? ==>
      RunNode(Judgement, c.state, o, k) == Patched(JudgePatch(o.judge(k, c.state.statement, c.state.research.value).value))
  {
  }

  // ---------------------------------------------------------------------
  // Whole runs
  // ---------------------------------------------------------------------

  /** The number of times node `n` occurs in `t`. */
  function Occurrences(t: seq<Node>, n: Node): nat
    decreases |t|
  {
    if t == [] then 0 else Occurrences(t[..|t| - 1], n) + (if t[|t| - 1] == n then 1 else 0)
  }

  lemma OccurrencesSnoc(t: seq<Node>, x: Node, n: Node)
    ensures Occurrences(t + [x], n) == Occurrences(t, n) + (if x == n then 1 else 0)
  {
    assert (t + [x])[..|t|] == t;
  }

  /** The review executions still possible from a configuration. */
  function ReviewBudget(c: Config): nat {
    if c.state.improved then 1 else 2
  }

  /** The judge executions still possible from a configuration. */
  function JudgeBudget(c: Config): nat {
    if c.at == Review then (if c.state.improved then 0 else 1) else (if c.state.improved then 1 else 2)
  }

  /** Each step that goes on spends the budget of the node it ran. */
  lemma StepBudget(c: Config, o: Oracles)
    requires Step(c, o).Stepped? && Step(c, o).target.Goto?
    ensures var d := Config(Step(c, o).state, Step(c, o).target.node, Step(c, o).clock, c.trace + [c.at]);
      && ReviewBudget(d) + (if c.at == Review then 1 else 0) <= ReviewBudget(c)
      && JudgeBudget(d) + (if c.at == Judgement then 1 else 0) <= JudgeBudget(c)
  {
    var k, p := StepPatch(c, o);
    StepFrame(c, o);
    if c.at == Review && c.state.improved {
      ReviewForcesFinish(c, o);
    }
  }

  /**
   * From any configuration, review runs at most `ReviewBudget` more times
   * (once when `improved` is set, twice otherwise) and the judge at most
   * `JudgeBudget` more times. The trace only grows.
   */
  lemma {:induction false} ExecBounds(c: Config, o: Oracles, fuel: nat)
    ensures var r := Exec(c, o, fuel);
      && c.trace <= r.trace
      && Occurrences(r.trace, Review) <= Occurrences(c.trace, Review) + ReviewBudget(c)
      && Occurrences(r.trace, Judgement) <= Occurrences(c.trace, Judgement) + JudgeBudget(c)
    decreases fuel
  {
    if fuel > 0 && Step(c, o).Stepped? {
      var st := Step(c, o);
      OccurrencesSnoc(c.trace, c.at, Review);
      OccurrencesSnoc(c.trace, c.at, Judgement);
      if st.target.Goto? {
        var d := Config(st.state, st.target.node, st.clock, c.trace + [c.at]);
        StepBudget(c, o);
        ExecBounds(d, o, fuel - 1);
        assert Exec(c, o, fuel) == Exec(d, o, fuel - 1);
      } else {
        assert Exec(c, o, fuel) == Finished(st.state, c.trace + [c.at]);
      }
    }
  }

  /** A run from any configuration that finishes keeps the log it started with as a prefix of the final log. */
  lemma {:induction false} ExecLogGrows(c: Config, o: Oracles, fuel: nat)
    requires Exec(c, o, fuel).Finished?
    ensures c.state.messages <= Exec(c, o, fuel).state.messages
    ensures Exec(c, o, fuel).state.statement == c.state.statement
    decreases fuel
  {
    StepLog(c, o);
    var st := Step(c, o);
    if st.target.Goto? {
      ExecLogGrows(Config(st.state, st.target.node, st.clock, c.trace + [c.at]), o, fuel - 1);
    }
  }

  /** A run ends only through review on `FINISH`, so a finished run has `improved` set and review as its last node. */
  lemma {:induction false} ExecFinishesAtReview(c: Config, o: Oracles, fuel: nat)
    requires Exec(c, o, fuel).Finished?
    ensures var r := Exec(c, o, fuel);
      && |r.trace| > 0 && r.trace[|r.trace| - 1] == Review
      && r.state.improved && r.state.next == Some(Finish)
    decreases fuel
  {
    var st := Step(c, o);
    if st.target.Goto? {
      ExecFinishesAtReview(Config(st.state, st.target.node, st.clock, c.trace + [c.at]), o, fuel - 1);
    } else {
      FixedEdges(c.at, st.state.next);
      var k, p := StepPatch(c, o);
      StepFrame(c, o);
      ReviewRouting(st.state.next);
    }
  }

  /**
   * The loop guarantee of a whole run: judge and review each run at most
   * twice; a finished run started from the statement alone, kept that
   * message first, set the latch and ended on review's `FINISH`, and its
   * result is the verdict of its final state.
   */
  lemma FactCheckRun(statement: string, o: Oracles, fuel: nat)
    ensures var r := Exec(Start(statement), o, fuel);
      && Occurrences(r.trace, Review) <= 2
      && Occurrences(r.trace, Judgement) <= 2
      && (r.Finished? ==>
            && [HumanMessage(statement)] <= r.state.messages
            && r.state.improved && r.state.next == Some(Finish)
            && FactCheck(statement, o, fuel) == Ok(r.state.verdict))
      && (r.Aborted? ==> FactCheck(statement, o, fuel) == Err(r.failure))
  {
    ExecBounds(Start(statement), o, fuel);
    if Exec(Start(statement), o, fuel).Finished? {
      ExecLogGrows(Start(statement), o, fuel);
      ExecFinishesAtReview(Start(statement), o, fuel);
    }
  }
}

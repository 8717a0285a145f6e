/**
 * The compiled graph as an engine object: it holds the blackboard's fields,
 * runs the current node with the retry policy, merges the node's patch in
 * place and consults the router, until the run ends, fails or the fuel is
 * spent. Every method is proved equal to the pure semantics of
 * `FactCheckGraph`.
 */
module FactCheckEngine {
  import opened Wrappers
  import opened FactCheckGraph

  class Engine {
    var statement: string
    var messages: seq<Message>
    var research: Option<seq<Message>>
    var verdict: Option<Verdict>
    var improved: bool
    var next: Option<string>
    /** The number of node attempts made so far. */
    var clock: nat
    /** The nodes that have run, in order. */
    var trace: seq<Node>

    /** The blackboard as a value. */
    function State(): GraphState
      reads this
    {
      GraphState(statement, messages, research, verdict, improved, next)
    }

    /** The state `multi_agent_fact_check` hands to the graph. */
    constructor (statement: string)
      ensures State() == InitialState(statement)
      ensures clock == 0 && trace == []
    {
      this.statement := statement;
      messages := [HumanMessage(statement)];
      research := None;
      verdict := None;
      improved := false;
      next := None;
      clock := 0;
      trace := [];
    }

    /** Applies a node's patch: messages appended, present fields overwritten. */
    method ApplyPatch(p: Patch)
      modifies this
      ensures State() == Merge(old(State()), p)
      ensures old(messages) <= messages
      ensures clock == old(clock) && trace == old(trace)
    {
      messages := messages + p.messages;
      if p.research.Put? { research := Some(p.research.value); }
      if p.verdict.Put? { verdict := p.verdict.value; }
      if p.improved.Put? { improved := p.improved.value; }
      if p.next.Put? { next := Some(p.next.value); }
    }

    /** Runs node `n` under the retry policy; the state is left untouched, only the clock advances. */
    method InvokeWithRetry(n: Node, o: Oracles) returns (a: Attempt)
      modifies this`clock
      ensures (a, clock) == Invoke(n, State(), o, old(clock), 1)
      ensures clock - old(clock) <= MaxAttempts
    {
      var attempt := 1;
      while true
        invariant 1 <= attempt <= MaxAttempts
        invariant old(clock) + attempt - 1 == clock
        invariant Invoke(n, State(), o, clock, attempt) == Invoke(n, State(), o, old(clock), 1)
        decreases MaxAttempts - attempt
      {
        a := RunNode(n, State(), o, clock);
        clock := clock + 1;
        if !a.Retryable? || attempt == MaxAttempts {
          return;
        }
        attempt := attempt + 1;
      }
    }

    /** One step at node `at`: run it under the retry policy, merge its patch, consult the router. */
    method StepNode(at: Node, o: Oracles) returns (st: StepResult)
      modifies this
      ensures st == Step(Config(old(State()), at, old(clock), old(trace)), o)
      ensures st.Stepped? ==> State() == st.state && clock == st.clock
      ensures trace == old(trace)
      ensures old(messages) <= messages
    {
      var a := InvokeWithRetry(at, o);
      match a
      case Retryable =>
        st := Stopped(RetriesExhausted(at));
      case Failed =>
        st := Stopped(NodeFailed(at));
      case Patched(p) =>
        ApplyPatch(p);
        var target := Route(at, next);
        match target
        case None =>
          st := Stopped(NoRoute(at, next));
        case Some(t) =>
          st := Stepped(State(), t, clock);
    }

    /** The engine's configuration when it is about to run node `at`. */
    function At(at: Node): Config
      reads this
    {
      Config(State(), at, clock, trace)
    }

    /**
     * One turn of the engine loop with `left` steps of fuel: either the run
     * ends here with result `r`, or it goes on at `next` with one step less.
     */
    method Advance(at: Node, o: Oracles, left: nat, ghost goal: RunResult) returns (r: Option<RunResult>, next: Node)
      requires Exec(At(at), o, left) == goal
      modifies this
      ensures r.Some? ==> r.value == goal
      ensures r.None? ==> 0 < left && Exec(At(next), o, left - 1) == goal
      ensures old(messages) <= messages
    {
      next := at;
      if left == 0 {
        return Some(Aborted(OutOfFuel, trace)), next;
      }
      var st := StepNode(at, o);
      match st
      case Stopped(f) =>
        r := Some(Aborted(f, trace));
      case Stepped(_, t, _) =>
        trace := trace + [at];
        if t.End? {
          r := Some(Finished(State(), trace));
        } else {
          r, next := None, t.node;
        }
    }

    /** The engine loop, from the supervisor, for at most `fuel` steps. */
    method Run(o: Oracles, fuel: nat) returns (r: RunResult)
      modifies this
      ensures r == Exec(Config(old(State()), Supervisor, old(clock), old(trace)), o, fuel)
      ensures old(messages) <= messages
    {
      ghost var goal := Exec(At(Supervisor), o, fuel);
      var at := Supervisor;
      var left := fuel;
      while true
        invariant Exec(At(at), o, left) == goal
        invariant old(messages) <= messages
        decreases left
      {
        var done, next := Advance(at, o, left, goal);
        if done.Some? {
          return done.value;
        }
        at, left := next, left - 1;
      }
    }
  }

  /** `multi_agent_fact_check`: a fresh engine per statement, run, then the verdict of its final state. */
  method MultiAgentFactCheck(statement: string, o: Oracles, fuel: nat) returns (r: Result<Option<Verdict>, Failure>)
    ensures r == FactCheck(statement, o, fuel)
  {
    var engine := new Engine(statement);
    var run := engine.Run(o, fuel);
    match run
    case Finished(s, _) => r := Ok(s.verdict);
    case Aborted(f, _) => r := Err(f);
  }
}

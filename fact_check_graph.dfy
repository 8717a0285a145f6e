/**
 * The multi-agent statement checker of agents/statement_checker.py as pure
 * values and functions: the blackboard state (`GraphState`), the messages
 * logged on it, the five kinds of node as functions from the state and a
 * provider's reply to a state patch, the routing table, the retry policy,
 * and the step-by-step semantics of one run with explicit fuel.
 *
 * The chat model, the three retrievers and the adjudicator chain are
 * oracles: `Oracles` holds one function per provider, applied to the number
 * of node attempts made so far (the run's clock) and to the input the node
 * gives it, so any sequence of answers, including retryable and fatal
 * failures, is one choice of oracles.
 */
module FactCheckGraph {
  import opened Wrappers

  // ---------------------------------------------------------------------
  // Messages
  // ---------------------------------------------------------------------

  /** One tool call proposed by the chat model: the tool's name, the call id and its arguments. */
  datatype ToolCall = ToolCall(name: string, id: string, args: map<string, string>)

  /** A retrieved document. */
  datatype Document = Document(pageContent: string, metadata: map<string, string>)

  /** `Document.dict()`: the serialised document a research tool returns. */
  datatype DocumentRecord = DocumentRecord(pageContent: string, metadata: map<string, string>, kind: string)

  /** What a tool message carries: serialised documents, or the reviewer's comments. */
  datatype ToolOutput = Documents(records: seq<DocumentRecord>) | Comments(text: string)

  datatype Message =
    | HumanMessage(content: string)
    | AIMessage(content: string, toolCalls: seq<ToolCall>)
    | ToolMessage(name: string, output: ToolOutput, toolCallId: string)

  /** A chat-model answer: its text and the tool calls it proposes. */
  datatype Completion = Completion(content: string, toolCalls: seq<ToolCall>)

  // ---------------------------------------------------------------------
  // Verdicts (chains/adjudicator_chain.py)
  // ---------------------------------------------------------------------

  datatype VerdictLabel = VTrue | VMostlyTrue | VUncertain | VMostlyFalse | VFalse {
    /** The label's value in `VerdictEnum`. */
    function Text(): string {
      match this
      case VTrue => "True"
      case VMostlyTrue => "Mostly True"
      case VUncertain => "Uncertain"
      case VMostlyFalse => "Mostly False"
      case VFalse => "False"
    }
  }

  datatype VerdictRef = VerdictRef(title: string, source: string, summary: string)

  datatype Verdict = Verdict(verdict: VerdictLabel, explanation: string, references: seq<VerdictRef>)

  // ---------------------------------------------------------------------
  // State and patches
  // ---------------------------------------------------------------------

  /**
   * The blackboard. `research` is `None` until the supervisor first sets it;
   * `verdict` is `None` while unset and also when the adjudicator produced no
   * verdict; `next` is `None` until a node first sets it.
   */
  datatype GraphState = GraphState(
    statement: string,
    messages: seq<Message>,
    research: Option<seq<Message>>,
    verdict: Option<Verdict>,
    improved: bool,
    next: Option<string>)

  /** One field of a patch: left alone, or overwritten with a value. */
  datatype Update<T> = Keep | Put(value: T)

  /** The partial state a node returns: messages to append and fields to overwrite. */
  datatype Patch = Patch(
    messages: seq<Message>,
    research: Update<seq<Message>>,
    verdict: Update<Option<Verdict>>,
    improved: Update<bool>,
    next: Update<string>)

  function Override<T>(old_: T, u: Update<T>): T {
    if u.Put? then u.value else old_
  }

  /**
   * Merging a patch into the state: `messages` goes through the append
   * reducer, every other field present in the patch is overwritten.
   */
  function Merge(s: GraphState, p: Patch): (r: GraphState)
    ensures r.statement == s.statement
    ensures r.messages == s.messages + p.messages
    ensures p.research.Keep? ==> r.research == s.research
    ensures p.research.Put? ==> r.research == Some(p.research.value)
    ensures r.verdict == Override(s.verdict, p.verdict)
    ensures r.improved == Override(s.improved, p.improved)
    ensures p.next.Keep? ==> r.next == s.next
    ensures p.next.Put? ==> r.next == Some(p.next.value)
  {
    GraphState(
      s.statement,
      s.messages + p.messages,
      if p.research.Put? then Some(p.research.value) else s.research,
      Override(s.verdict, p.verdict),
      Override(s.improved, p.improved),
      if p.next.Put? then Some(p.next.value) else s.next)
  }

  /** The state a run starts from: the statement as the only message, nothing latched. */
  function InitialState(statement: string): GraphState {
    GraphState(statement, [HumanMessage(statement)], None, None, false, None)
  }

  // ---------------------------------------------------------------------
  // Names used by the graph
  // ---------------------------------------------------------------------

  const SearchWikipedia: string := "search_wikipedia"
  const SearchArxiv: string := "search_arxiv"
  const SearchWeb: string := "search_web"
  const JudgeStatement: string := "JudgeStatement"
  /** The routing key `next_action` falls back to when the model proposes no tool call. */
  const SupervisorFallback: string := "supervisor"
  const Improve: string := "Improve"
  const Finish: string := "FINISH"
  const ReviewToolName: string := "review"
  const QueryArg: string := "query"
  const CommentsArg: string := "comments"
  const NextArg: string := "next"

  /** The tools bound to the supervisor's chat model, in order. */
  const SupervisorTools: seq<string> := [SearchWikipedia, SearchArxiv, SearchWeb, JudgeStatement]

  datatype Node = Supervisor | Wikipedia | Arxiv | Web | Judgement | Review {
    predicate IsResearch() { Wikipedia? || Arxiv? || Web? }
  }

  datatype Target = Goto(node: Node) | End

  /** The tool a research node executes. */
  function ToolName(n: Node): string
    requires n.IsResearch()
  {
    match n
    case Wikipedia => SearchWikipedia
    case Arxiv => SearchArxiv
    case Web => SearchWeb
  }

  // ---------------------------------------------------------------------
  // Routing
  // ---------------------------------------------------------------------

  /** The supervisor's conditional path map. */
  const SupervisorPaths: map<string, Node> :=
    map[SearchWikipedia := Wikipedia, SearchArxiv := Arxiv, SearchWeb := Web, JudgeStatement := Judgement]

  /** The review node's conditional path map. */
  const ReviewPaths: map<string, Target> := map[Improve := Goto(Supervisor), Finish := End]

  /**
   * The node that follows `from`, given the routing key the state holds
   * after `from` ran: the fixed edges, and the two conditional maps, whose
   * unknown keys have no successor (`None`).
   */
  function Route(from: Node, key: Option<string>): Option<Target> {
    match from
    case Supervisor =>
      if key.Some? && key.value in SupervisorPaths then Some(Goto(SupervisorPaths[key.value])) else None
    case Wikipedia => Some(Goto(Supervisor))
    case Arxiv => Some(Goto(Supervisor))
    case Web => Some(Goto(Supervisor))
    case Judgement => Some(Goto(Review))
    case Review =>
      if key.Some? && key.value in ReviewPaths then Some(ReviewPaths[key.value]) else None
  }

  // ---------------------------------------------------------------------
  // Providers
  // ---------------------------------------------------------------------

  /** A provider's reply to one attempt: an answer, a failure that may be retried, or one that may not. */
  datatype Reply<T> = Answer(value: T) | Transient | Fatal

  datatype Oracles = Oracles(
    supervisor: (nat, seq<Message>) -> Reply<Completion>,
    wikipedia: (nat, string) -> Reply<seq<Document>>,
    arxiv: (nat, string) -> Reply<seq<Document>>,
    web: (nat, string) -> Reply<seq<Document>>,
    judge: (nat, string, seq<Message>) -> Reply<Option<Verdict>>,
    reviewer: (nat, string, Option<Verdict>) -> Reply<Completion>)

  function Retriever(o: Oracles, n: Node): (nat, string) -> Reply<seq<Document>>
    requires n.IsResearch()
  {
    match n
    case Wikipedia => o.wikipedia
    case Arxiv => o.arxiv
    case Web => o.web
  }

  // ---------------------------------------------------------------------
  // Node bodies
  // ---------------------------------------------------------------------

  /** `next_action`: the name of the first proposed tool call, or the fallback key. */
  function NextAction(m: Completion): string {
    if |m.toolCalls| > 0 then m.toolCalls[0].name else SupervisorFallback
  }

  /** The tool messages of a log, in order. */
  function ToolMessages(log: seq<Message>): (r: seq<Message>)
    ensures |r| <= |log|
    ensures forall i :: 0 <= i < |r| ==> r[i].ToolMessage?
  {
    if log == [] then []
    else (if log[0].ToolMessage? then [log[0]] else []) + ToolMessages(log[1..])
  }

  /** The supervisor's patch: its decision logged, research recomputed, the routing key set. */
  function SupervisorPatch(s: GraphState, m: Completion): Patch {
    Patch([AIMessage(m.content, m.toolCalls)], Put(ToolMessages(s.messages)), Keep, Keep, Put(NextAction(m)))
  }

  function ToRecord(d: Document): DocumentRecord {
    DocumentRecord(d.pageContent, d.metadata, "Document")
  }

  /** `[doc.dict() for doc in docs]`. */
  function Records(docs: seq<Document>): (r: seq<DocumentRecord>)
    ensures |r| == |docs|
    ensures forall i :: 0 <= i < |docs| ==>
      r[i].pageContent == docs[i].pageContent && r[i].metadata == docs[i].metadata && r[i].kind == "Document"
  {
    if docs == [] then [] else [ToRecord(docs[0])] + Records(docs[1..])
  }

  /** The first tool call of the last logged message, when that message is a model decision that has one. */
  function LastToolCall(log: seq<Message>): Option<ToolCall> {
    if log != [] && log[|log| - 1].AIMessage? && |log[|log| - 1].toolCalls| > 0
    then Some(log[|log| - 1].toolCalls[0])
    else None
  }

  /** A research node's patch: one tool message answering the call it executed. */
  function ResearchPatch(n: Node, call: ToolCall, docs: seq<Document>): Patch
    requires n.IsResearch()
  {
    Patch([ToolMessage(ToolName(n), Documents(Records(docs)), call.id)], Keep, Keep, Keep, Keep)
  }

  /** The judge's patch: the verdict overwritten, nothing else. */
  function JudgePatch(v: Option<Verdict>): Patch {
    Patch([], Keep, Put(v), Keep, Keep)
  }

  /**
   * The review node's patch, or `None` where one of its lookups raises: the
   * reviewer's first tool call and its `comments` argument, the first tool
   * call of the last logged message, and the reviewer's `next` vote, which
   * is read only while `improved` is still false.
   */
  function ReviewPatch(s: GraphState, m: Completion): Option<Patch> {
    if |m.toolCalls| == 0 || CommentsArg !in m.toolCalls[0].args then None
    else
      var args := m.toolCalls[0].args;
      match LastToolCall(s.messages)
      case None => None
      case Some(call) =>
        if !s.improved && NextArg !in args then None
        else
          var next := if s.improved then Finish else args[NextArg];
          Some(Patch([ToolMessage(ReviewToolName, Comments(args[CommentsArg]), call.id)], Keep, Keep, Put(true), Put(next)))
  }

  /** The outcome of one attempt at running a node. */
  datatype Attempt = Patched(patch: Patch) | Retryable | Failed

  function FromReply<T>(r: Reply<T>, f: T -> Attempt): Attempt {
    match r
    case Answer(v) => f(v)
    case Transient => Retryable
    case Fatal => Failed
  }

  /** One attempt at node `n` on state `s`, the `clock`-th attempt of the run. */
  function RunNode(n: Node, s: GraphState, o: Oracles, clock: nat): Attempt {
    match n
    case Supervisor =>
      FromReply(o.supervisor(clock, s.messages), (m: Completion) => Patched(SupervisorPatch(s, m)))
    case Judgement =>
      if s.research.None? then Failed
      else FromReply(o.judge(clock, s.statement, s.research.value), (v: Option<Verdict>) => Patched(JudgePatch(v)))
    case Review =>
      FromReply(o.reviewer(clock, s.statement, s.verdict),
        (m: Completion) => var p := ReviewPatch(s, m); if p.Some? then Patched(p.value) else Failed)
    case _ =>
      match LastToolCall(s.messages)
      case None => Failed
      case Some(call) =>
        if QueryArg !in call.args then Failed
        else FromReply(Retriever(o, n)(clock, call.args[QueryArg]), (docs: seq<Document>) => Patched(ResearchPatch(n, call, docs)))
  }

  // ---------------------------------------------------------------------
  // Retry policy and the run
  // ---------------------------------------------------------------------

  /** `RetryPolicy(max_attempts=2)` on every node. */
  const MaxAttempts: nat := 2

  /**
   * Running node `n` from its `attempt`-th attempt on: a retryable failure
   * is retried while attempts remain. Returns the last attempt's outcome and
   * the clock after it.
   */
  function Invoke(n: Node, s: GraphState, o: Oracles, clock: nat, attempt: nat): (r: (Attempt, nat))
    requires 1 <= attempt <= MaxAttempts
    ensures clock < r.1 <= clock + MaxAttempts - attempt + 1
    decreases MaxAttempts - attempt
  {
    var a := RunNode(n, s, o, clock);
    if a.Retryable? && attempt < MaxAttempts then Invoke(n, s, o, clock + 1, attempt + 1) else (a, clock + 1)
  }

  datatype Failure =
    | RetriesExhausted(node: Node)
    | NodeFailed(node: Node)
    | NoRoute(node: Node, key: Option<string>)
    | OutOfFuel

  /** Where a run stands: the state, the node about to run, the clock and the nodes run so far. */
  datatype Config = Config(state: GraphState, at: Node, clock: nat, trace: seq<Node>)

  /** A finished run's last state, or the failure that ended it; both with the nodes that ran. */
  datatype RunResult = Finished(state: GraphState, trace: seq<Node>) | Aborted(failure: Failure, trace: seq<Node>)

  datatype StepResult = Stepped(state: GraphState, target: Target, clock: nat) | Stopped(failure: Failure)

  /** One engine step: run the current node with retries, merge its patch, route. */
  function Step(c: Config, o: Oracles): StepResult {
    var (a, clock) := Invoke(c.at, c.state, o, c.clock, 1);
    match a
    case Retryable => Stopped(RetriesExhausted(c.at))
    case Failed => Stopped(NodeFailed(c.at))
    case Patched(p) =>
      var s := Merge(c.state, p);
      match Route(c.at, s.next)
      case None => Stopped(NoRoute(c.at, s.next))
      case Some(t) => Stepped(s, t, clock)
  }

  /** Running from `c` for at most `fuel` steps. */
  function Exec(c: Config, o: Oracles, fuel: nat): RunResult
    decreases fuel, 1
  {
    if fuel == 0 then Aborted(OutOfFuel, c.trace) else Continue(c, o, fuel)
  }

  /** Running from `c` with fuel left: one step, then the rest of the run with one step less. */
  function Continue(c: Config, o: Oracles, fuel: nat): RunResult
    requires fuel > 0
    decreases fuel, 0
  {
    match Step(c, o)
    case Stopped(f) => Aborted(f, c.trace)
    case Stepped(s, t, clock) =>
      if t.End? then Finished(s, c.trace + [c.at])
      else Exec(Config(s, t.node, clock, c.trace + [c.at]), o, fuel - 1)
  }

  /** The configuration a run starts in: the initial state, at the supervisor. */
  function Start(statement: string): Config {
    Config(InitialState(statement), Supervisor, 0, [])
  }

  /** `multi_agent_fact_check`: run the graph on the statement and project the final state to its verdict. */
  function FactCheck(statement: string, o: Oracles, fuel: nat): Result<Option<Verdict>, Failure> {
    match Exec(Start(statement), o, fuel)
    case Finished(s, _) => Ok(s.verdict)
    case Aborted(f, _) => Err(f)
  }
}

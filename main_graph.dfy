/** The main graph: a router over the plan and its cursor, and the two
    bridge nodes that run the research or writing subgraph for the current
    task, mark it completed and advance the cursor. */
module MainGraph {
  import opened Wrappers
  import opened Json
  import opened Vfs
  import opened State
  import Planner
  import Writer

  /** The draft the writing bridge names. */
  const DraftFile: string := "draft.md"

  /** The router's answers: "planner", "researcher", "writer" and END. */
  datatype Route = ToPlanner | ToResearcher | ToWriter | ToEnd

  /** `router`. */
  function Router(plan: seq<Task>, index: nat): (r: Route)
    ensures r == ToPlanner <==> plan == []
    ensures plan != [] && index >= |plan| ==> r == ToEnd
    ensures r == ToResearcher <==> index < |plan| && plan[index].kind == Str("research")
    ensures r == ToWriter <==> index < |plan| && plan[index].kind == Str("write")
  {
    if plan == [] then ToPlanner
    else if index >= |plan| then ToEnd
    else if plan[index].kind == Str("research") then ToResearcher
    else if plan[index].kind == Str("write") then ToWriter
    else ToEnd
  }

  predicate Dispatches(r: Route) {
    r == ToResearcher || r == ToWriter
  }

  /** The bridges' plan comprehension: the task at `index` marked completed. */
  function MarkCompleted(plan: seq<Task>, index: nat): (r: seq<Task>)
    ensures |r| == |plan|
    ensures forall k :: 0 <= k < |plan| && k != index ==> r[k] == plan[k]
    ensures index < |plan| ==> r[index] == plan[index].(status := Completed)
  {
    seq(|plan|, k requires 0 <= k < |plan| => if k == index then plan[k].(status := Completed) else plan[k])
  }

  /** `call_researcher` and `call_writer` as written (the two differ only in
      the subgraph they start and its input). The subgraph is handed the
      store under the key "vfs", which its state does not declare, so it
      starts from an empty store, and its result is discarded: the bridge
      returns the incoming store unchanged. */
  function Bridge(s: AgentState): (r: AgentState)
    requires s.currentTaskIndex < |s.plan|
    ensures r.vfsData == s.vfsData
    ensures r == s.(plan := r.plan, currentTaskIndex := r.currentTaskIndex)
  {
    s.(plan := MarkCompleted(s.plan, s.currentTaskIndex), currentTaskIndex := s.currentTaskIndex + 1)
  }

  /** The bridge as evidently intended: the store the subgraph returns
      becomes the new store. */
  function MergingBridge(s: AgentState, out: Store): (r: AgentState)
    requires s.currentTaskIndex < |s.plan|
    ensures r.vfsData == out
  {
    Bridge(s).(vfsData := out)
  }

  /** Whenever the router dispatches to a bridge, the bridge keeps the plan's
      length, marks exactly the current task completed and changes nothing
      else in it, and moves the cursor one step, never past the plan's end. */
  lemma DispatchAdvancesCursor(s: AgentState, out: Store)
    requires Dispatches(Router(s.plan, s.currentTaskIndex))
    ensures var r := MergingBridge(s, out);
            && s.currentTaskIndex < r.currentTaskIndex == s.currentTaskIndex + 1 <= |r.plan| == |s.plan|
            && r.plan[s.currentTaskIndex].status == Completed
            && r.plan[s.currentTaskIndex] == s.plan[s.currentTaskIndex].(status := Completed)
            && (forall k :: 0 <= k < |s.plan| && k != s.currentTaskIndex ==> r.plan[k] == s.plan[k])
  {
  }

  /** The main graph's run with the bridges as written. */
  function RunAsWritten(s: AgentState): (r: AgentState)
    decreases |s.plan| - s.currentTaskIndex
  {
    if Dispatches(Router(s.plan, s.currentTaskIndex)) then RunAsWritten(Bridge(s)) else s
  }

  /** As written, however many tasks run, the store the run ends with is the
      one it started with. */
  lemma {:induction false} AsWrittenKeepsStore(s: AgentState)
    ensures RunAsWritten(s).vfsData == s.vfsData
    decreases |s.plan| - s.currentTaskIndex
  {
    if Dispatches(Router(s.plan, s.currentTaskIndex)) {
      AsWrittenKeepsStore(Bridge(s));
    }
  }

  /** The discrepancy on a concrete run: the fallback plan from an empty
      store ends with all four tasks passed yet no draft at all, whatever
      the writing model answers. */
  lemma AsWrittenNeverDrafts(s: AgentState)
    requires s.plan == Planner.FallbackPlan(s.topic) && s.currentTaskIndex == 0 && s.vfsData == Empty
    ensures RunAsWritten(s).currentTaskIndex == 4
    ensures !RunAsWritten(s).vfsData.Exists(DraftFile)
  {
    AsWrittenKeepsStore(s);
    var s1 := Bridge(s);
    var s2 := Bridge(s1);
    var s3 := Bridge(s2);
    var s4 := Bridge(s3);
    assert RunAsWritten(s) == RunAsWritten(s1) == RunAsWritten(s2) == RunAsWritten(s3) == RunAsWritten(s4) == s4;
  }

  /** The research subgraph's store: any valid store that keeps every name
      it was given (it only adds notes). */
  ghost predicate ResearchOnlyAdds(research: (Value, Store) -> Store) {
    forall q: Value, d: Store :: d.Valid() ==> research(q, d).Valid() && d.files.Keys <= research(q, d).files.Keys
  }

  /** A writing model that always answers. */
  ghost predicate AlwaysAnswers(model: (string, string, string) -> Option<string>) {
    forall a: string, b: string, c: string :: model(a, b, c).Some?
  }

  /** The main graph's loop with the corrected bridges: route, run the
      subgraph the route names on the current store, take its store, mark
      the task and advance, until the router answers "planner" (empty plan)
      or END. */
  method RunPlan(s0: AgentState, research: (Value, Store) -> Store,
                 model: (string, string, string) -> Option<string>)
    returns (s: AgentState)
    requires s0.vfsData.Valid() && ResearchOnlyAdds(research)
    ensures !Dispatches(Router(s.plan, s.currentTaskIndex))
    ensures s == s0.(plan := s.plan, currentTaskIndex := s.currentTaskIndex, vfsData := s.vfsData)
    ensures |s.plan| == |s0.plan|
    ensures s0.currentTaskIndex <= s.currentTaskIndex
    ensures s0.currentTaskIndex < s.currentTaskIndex ==> s.currentTaskIndex <= |s.plan|
    ensures forall k :: 0 <= k < |s.plan| ==>
              s.plan[k] == if s0.currentTaskIndex <= k < s.currentTaskIndex
                           then s0.plan[k].(status := Completed) else s0.plan[k]
    ensures forall k :: s0.currentTaskIndex <= k < s.currentTaskIndex ==>
              s0.plan[k].kind == Str("research") || s0.plan[k].kind == Str("write")
    ensures s0.vfsData.files.Keys <= s.vfsData.files.Keys
    ensures AlwaysAnswers(model) && (exists k :: s0.currentTaskIndex <= k < s.currentTaskIndex
                                                 && s0.plan[k].kind == Str("write"))
            ==> s.vfsData.Exists(DraftFile)
  {
    s := s0;
    ghost var wrote := false;
    var route := Router(s.plan, s.currentTaskIndex);
    while Dispatches(route)
      invariant route == Router(s.plan, s.currentTaskIndex)
      invariant s == s0.(plan := s.plan, currentTaskIndex := s.currentTaskIndex, vfsData := s.vfsData)
      invariant |s.plan| == |s0.plan| && s.vfsData.Valid()
      invariant s0.currentTaskIndex <= s.currentTaskIndex
      invariant s0.currentTaskIndex < s.currentTaskIndex ==> s.currentTaskIndex <= |s.plan|
      invariant forall k :: 0 <= k < |s.plan| ==>
                  s.plan[k] == if s0.currentTaskIndex <= k < s.currentTaskIndex
                               then s0.plan[k].(status := Completed) else s0.plan[k]
      invariant forall k :: s0.currentTaskIndex <= k < s.currentTaskIndex ==>
                  s0.plan[k].kind == Str("research") || s0.plan[k].kind == Str("write")
      invariant s0.vfsData.files.Keys <= s.vfsData.files.Keys
      invariant wrote <==> exists k :: s0.currentTaskIndex <= k < s.currentTaskIndex
                                       && s0.plan[k].kind == Str("write")
      invariant wrote && AlwaysAnswers(model) ==> s.vfsData.Exists(DraftFile)
      decreases |s.plan| - s.currentTaskIndex
    {
      assert s.plan[s.currentTaskIndex].kind == s0.plan[s.currentTaskIndex].kind;
      var out := RunTask(s, research, model);
      DispatchAdvancesCursor(s, out);
      wrote := wrote || route == ToWriter;
      s := MergingBridge(s, out);
      route := Router(s.plan, s.currentTaskIndex);
    }
  }

  /** The subgraph the router names, run on the current store for the
      current task: the store it hands back keeps every name, and a writing
      step with an answering model leaves the draft stored. */
  method RunTask(s: AgentState, research: (Value, Store) -> Store,
                 model: (string, string, string) -> Option<string>)
    returns (out: Store)
    requires Dispatches(Router(s.plan, s.currentTaskIndex))
    requires s.vfsData.Valid() && ResearchOnlyAdds(research)
    ensures out.Valid() && s.vfsData.files.Keys <= out.files.Keys
    ensures Router(s.plan, s.currentTaskIndex) == ToWriter && AlwaysAnswers(model) ==> out.Exists(DraftFile)
  {
    var task := s.plan[s.currentTaskIndex];
    if Router(s.plan, s.currentTaskIndex) == ToResearcher {
      out := research(task.description, s.vfsData);
    } else {
      out := Writer.RunWriter(PyStr(task.description), s.vfsData, DraftFile, model);
      WriterKeepsNames(PyStr(task.description), s.vfsData, model);
    }
  }

  /** One writing step keeps every stored name, and with an answering model
      the draft is stored afterwards. */
  lemma WriterKeepsNames(task: string, data: Store, model: (string, string, string) -> Option<string>)
    requires data.Valid()
    ensures data.files.Keys <= Writer.WriterRun(task, data, DraftFile, model).files.Keys
    ensures AlwaysAnswers(model) ==> Writer.WriterRun(task, data, DraftFile, model).Exists(DraftFile)
  {
    Writer.AppendKeepsDraft(task, Writer.ResearchContext(data), data, DraftFile, model);
  }
}

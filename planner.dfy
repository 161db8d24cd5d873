/** `create_initial_plan`: turn the planning model's reply into a numbered
    list of pending tasks, or fall back to a fixed four-task plan when the
    reply is missing, does not parse, or is not a list of objects. */
module Planner {
  import opened Wrappers
  import opened Json
  import opened Text
  import opened Reply
  import opened State

  /** The elements `enumerate(tasks_data)` walks. A list yields its items and
      a string its one-character strings. An empty object yields nothing; a
      non-empty one yields its keys, and the first of them (a str) fails at
      `.get`, so it is None like the values that are not iterable at all. */
  function Steps(data: Value): Option<seq<Value>> {
    match data
    case Arr(items) => Some(items)
    case Str(s) => Some(seq(|s|, i requires 0 <= i < |s| => Str([s[i]])))
    case Obj(m) => if m == map[] then Some([]) else None
    case _ => None
  }

  /** The task built from the step at 0-based position `i`. */
  function NormalisedTask(i: nat, step: map<string, Value>): Task {
    Task(i + 1, Get(step, "type", Str("research")), Get(step, "description", Str("Do work")),
         Pending, map[])
  }

  /** All steps normalised, or None when one of them is not an object (it has
      no `.get`, and the exception discards the whole list). */
  function Normalised(steps: seq<Value>): Option<seq<Task>> {
    if forall k :: 0 <= k < |steps| ==> steps[k].Obj?
    then Some(seq(|steps|, i requires 0 <= i < |steps| => NormalisedTask(i, steps[i].fields)))
    else None
  }

  function FallbackPlan(topic: string): seq<Task> {
    [ Task(1, Str("research"), Str("Research key facts about " + topic), Pending, map[]),
      Task(2, Str("write"), Str("Write the Introduction"), Pending, map[]),
      Task(3, Str("write"), Str("Write the Main Body"), Pending, map[]),
      Task(4, Str("write"), Str("Write the Conclusion"), Pending, map[]) ]
  }

  /** The plan for a parse outcome (None: no reply, or a payload that does
      not parse): ids 1..n in order, every task pending with no params,
      whichever path produced it. */
  function Plan(topic: string, parsed: Option<Value>): (plan: seq<Task>)
    ensures forall k :: 0 <= k < |plan| ==>
              plan[k].id == k + 1 && plan[k].status == Pending && plan[k].params == map[]
  {
    if parsed.None? then FallbackPlan(topic)
    else match Steps(parsed.value)
      case None => FallbackPlan(topic)
      case Some(steps) =>
        match Normalised(steps)
        case None => FallbackPlan(topic)
        case Some(tasks) => tasks
  }

  /** `create_initial_plan`: the reply's payload is parsed, then planned. */
  method CreateInitialPlan(topic: string, reply: Option<string>, parse: string -> Option<Value>)
    returns (plan: seq<Task>)
    ensures plan == Plan(topic, Parsed(reply, parse))
  {
    plan := PlanFromParsed(topic, Parsed(reply, parse));
  }

  /** The normalisation loop, appending one task per step and abandoning
      the list for the fallback at the first step that is not an object. */
  method PlanFromParsed(topic: string, parsed: Option<Value>) returns (plan: seq<Task>)
    ensures plan == Plan(topic, parsed)
  {
    if parsed.None? {
      return FallbackPlan(topic);
    }
    var steps := Steps(parsed.value);
    if steps.None? {
      return FallbackPlan(topic);
    }
    var data := steps.value;
    var tasks: seq<Task> := [];
    for i := 0 to |data|
      invariant |tasks| == i
      invariant forall k :: 0 <= k < i ==> data[k].Obj? && tasks[k] == NormalisedTask(k, data[k].fields)
    {
      if !data[i].Obj? {
        assert Normalised(data).None?;
        return FallbackPlan(topic);
      }
      tasks := tasks + [NormalisedTask(i, data[i].fields)];
    }
    assert tasks == seq(|data|, i requires 0 <= i < |data| => NormalisedTask(i, data[i].fields));
    plan := tasks;
  }

  /** A parsed list of objects becomes a plan of the same length and order;
      each task takes the step's type and description, or "research" and
      "Do work" where the step lacks them. */
  lemma ListOfObjectsKeepsOrder(topic: string, items: seq<Value>)
    requires forall k :: 0 <= k < |items| ==> items[k].Obj?
    ensures var plan := Plan(topic, Some(Arr(items)));
            && |plan| == |items|
            && forall k :: 0 <= k < |plan| ==>
                 && plan[k].kind == (if "type" in items[k].fields then items[k].fields["type"] else Str("research"))
                 && plan[k].description == (if "description" in items[k].fields then items[k].fields["description"]
                                            else Str("Do work"))
  {
  }

  /** With no reply, an unparseable payload, or a list holding a non-object,
      the plan is the fixed four-task fallback: one research task on the
      topic, then the introduction, main body and conclusion. */
  lemma FailureGivesFallback(topic: string, parsed: Option<Value>)
    requires || parsed.None?
             || (parsed.value.Arr? && exists k :: 0 <= k < |parsed.value.items| && !parsed.value.items[k].Obj?)
    ensures var plan := Plan(topic, parsed);
            && |plan| == 4
            && plan[0].kind == Str("research") && plan[0].description == Str("Research key facts about " + topic)
            && (forall k :: 1 <= k < 4 ==> plan[k].kind == Str("write"))
            && plan[1].description == Str("Write the Introduction")
            && plan[2].description == Str("Write the Main Body")
            && plan[3].description == Str("Write the Conclusion")
  {
  }

  /** An empty list, empty string or empty object parses to an empty plan
      rather than to the fallback. */
  lemma EmptyValueGivesEmptyPlan(topic: string, parsed: Option<Value>)
    requires parsed == Some(Arr([])) || parsed == Some(Str("")) || parsed == Some(Obj(map[]))
    ensures Plan(topic, parsed) == []
  {
    var steps := Steps(parsed.value);
    assert steps.Some? && |steps.value| == 0;
    var tasks := Normalised(steps.value);
    assert tasks.Some? && |tasks.value| == 0;
  }
}

/** The evaluator graph: three critics each add one critique to a shared
    list (combined by concatenation), then an optimizer rewrites the draft
    from the joined critiques. */
module Evaluator {
  import opened Wrappers
  import opened Text
  import opened Vfs

  datatype Critic = Qwen | Kimi | Llama {
    function Name(): string {
      match this
      case Qwen => "Qwen"
      case Kimi => "Kimi"
      case Llama => "Llama"
    }
  }

  /** The three branches, in the order the graph adds their edges. */
  const Branches: seq<Critic> := [Qwen, Kimi, Llama]

  datatype EvaluatorState = EvaluatorState(draftFile: string, vfsData: Store, critiques: seq<string>)

  function GetDraft(s: EvaluatorState): string {
    s.vfsData.ContentOr(s.draftFile)
  }

  /** One critic node's update: a one-element list holding the notice for
      a missing draft, the model's answer, or the error message prefixed
      with the critic's name. `reply` is the answer or the exception text. */
  function CritiqueUpdate(c: Critic, draft: string, reply: Result<string, string>): (update: seq<string>)
    ensures |update| == 1
    ensures draft == "" ==> update[0] == c.Name() + ": No draft to critique."
    ensures draft != "" && reply.Ok? ==> update[0] == reply.value
    ensures draft != "" && reply.Err? ==> update[0] == c.Name() + " Error: " + reply.error
  {
    if draft == "" then [c.Name() + ": No draft to critique."]
    else match reply
      case Ok(text) => [text]
      case Err(e) => [c.Name() + " Error: " + e]
  }

  /** The `critiques` channel's reducer, `operator.add`. */
  function Reduce(current: seq<string>, update: seq<string>): seq<string> {
    current + update
  }

  /** The updates of the branches in `order`, folded in with the reducer. */
  function Collect(order: seq<Critic>, draft: string, replies: Critic -> Result<string, string>): seq<string>
    decreases |order|
  {
    if order == [] then []
    else Reduce(Collect(order[..|order| - 1], draft, replies),
                CritiqueUpdate(order[|order| - 1], draft, replies(order[|order| - 1])))
  }

  /** Whatever order the branches finish in, each contributes exactly one
      critique, at its own position. */
  lemma {:induction false} CollectOnePerBranch(order: seq<Critic>, draft: string,
                                               replies: Critic -> Result<string, string>)
    ensures |Collect(order, draft, replies)| == |order|
    ensures forall k :: 0 <= k < |order| ==>
              Collect(order, draft, replies)[k] == CritiqueUpdate(order[k], draft, replies(order[k]))[0]
    decreases |order|
  {
    if order != [] {
      var init := order[..|order| - 1];
      CollectOnePerBranch(init, draft, replies);
      assert forall k :: 0 <= k < |init| ==> init[k] == order[k];
    }
  }

  /** `optimize_node`. None is the empty update: there is no draft, or the
      rewrite raised. Otherwise the draft is overwritten with the answer. The
      optimizer is asked with the draft and the critiques joined by blank
      lines. */
  method Optimize(s: EvaluatorState, rewrite: (string, string) -> Option<string>) returns (out: Option<Store>)
    requires s.vfsData.Valid()
    ensures GetDraft(s) == "" ==> out.None?
    ensures GetDraft(s) != "" ==>
              out == match rewrite(GetDraft(s), Join("\n\n", s.critiques))
                     case None => None
                     case Some(text) => Some(s.vfsData.Write(s.draftFile, text, None))
  {
    var draft := GetDraft(s);
    if draft == "" {
      return None;
    }
    var critiquesText := Join("\n\n", s.critiques);
    var reply := rewrite(draft, critiquesText);
    if reply.None? {
      return None;
    }
    var vfs := new VFS.FromData(s.vfsData);
    vfs.WriteFile(s.draftFile, reply.value, None);
    out := Some(vfs.Data());
  }

  /** An optimizer update replaces the draft wholesale (no "here is"
      stripping, empty metadata) and keeps every other file. */
  lemma OptimizeOverwrites(s: EvaluatorState, text: string)
    requires s.vfsData.Valid()
    ensures var out := s.vfsData.Write(s.draftFile, text, None);
            && out.Read(s.draftFile) == Ok(text)
            && out.files[s.draftFile].metadata == map[]
            && (forall n :: n != s.draftFile ==> out.Get(n) == s.vfsData.Get(n))
  {
    ReadAfterWrite(s.vfsData, s.draftFile, text, None);
    WriteFrame(s.vfsData, s.draftFile, text, None);
  }

  /** The whole graph with the fan-out run branch after branch: the three
      critiques are appended to those already in the state, then the
      optimizer runs on the combined list. */
  method Evaluate(s: EvaluatorState, replies: Critic -> Result<string, string>,
                  rewrite: (string, string) -> Option<string>)
    returns (r: EvaluatorState)
    requires s.vfsData.Valid()
    ensures r.draftFile == s.draftFile
    ensures r.critiques == s.critiques + Collect(Branches, GetDraft(s), replies)
    ensures |r.critiques| == |s.critiques| + 3
    ensures GetDraft(s) == "" ==> r.vfsData == s.vfsData
    ensures GetDraft(s) != "" ==>
              r.vfsData == match rewrite(GetDraft(s), Join("\n\n", r.critiques))
                           case None => s.vfsData
                           case Some(text) => s.vfsData.Write(s.draftFile, text, None)
  {
    var draft := GetDraft(s);
    var critiques := s.critiques;
    critiques := Reduce(critiques, CritiqueUpdate(Qwen, draft, replies(Qwen)));
    critiques := Reduce(critiques, CritiqueUpdate(Kimi, draft, replies(Kimi)));
    critiques := Reduce(critiques, CritiqueUpdate(Llama, draft, replies(Llama)));
    assert Branches[..2] == [Qwen, Kimi] && Branches[..2][..1] == [Qwen] && [Qwen][..0] == [];
    r := s.(critiques := critiques);
    CollectOnePerBranch(Branches, draft, replies);
    var out := Optimize(r, rewrite);
    if out.Some? {
      r := r.(vfsData := out.value);
    }
  }
}

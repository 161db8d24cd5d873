/** The humanizer loop: a critic scores the draft for machine-like prose,
    a refiner rewrites it, and the loop goes round again while the score
    is above 3 and fewer than three rewrites have been counted. */
module Humanizer {
  import opened Wrappers
  import opened Json
  import opened Text
  import opened Reply
  import opened Vfs

  /** `last_critique` is a parsed JSON object; an absent critique is the
      empty map (both are falsy where the refiner tests it). */
  datatype HumanizerState = HumanizerState(draftFile: string, vfsData: Store,
                                           lastCritique: map<string, Value>, iterationCount: int)

  /** Where `should_continue` sends the graph: back to the critic, or END. */
  datatype Next = Critic | Finish

  const ScoreKey: string := "ai_artifact_score"
  const Threshold: int := 3
  const MaxIterations: int := 3

  const ZeroCritique: map<string, Value> := map[ScoreKey := Num(0)]
  const ErrorCritique: map<string, Value> := map[ScoreKey := Num(0), "general_feedback" := Str("Error in critic")]

  /** `get_draft`: the draft's content, "" when it is not stored. */
  function GetDraft(s: HumanizerState): string {
    s.vfsData.ContentOr(s.draftFile)
  }

  /** The critic's reply as a critique: its payload parsed to an object, or
      None when there is no reply, the payload does not parse, or the parsed
      value is not an object (the log line's `.get` raises on it). */
  function ParsedCritique(reply: Option<string>, parse: string -> Option<Value>): Option<map<string, Value>> {
    match Parsed(reply, parse)
    case Some(Obj(m)) => Some(m)
    case _ => None
  }

  /** `humanization_critic_node`: the critique replaces the last one; the
      count is passed through unchanged. */
  function CriticNode(s: HumanizerState, reply: Option<string>, parse: string -> Option<Value>): (r: HumanizerState)
    ensures r == s.(lastCritique := r.lastCritique)
    ensures GetDraft(s) == "" ==> r.lastCritique == ZeroCritique
    ensures GetDraft(s) != "" ==>
              r.lastCritique == match ParsedCritique(reply, parse) case Some(m) => m case None => ErrorCritique
  {
    if GetDraft(s) == "" then s.(lastCritique := ZeroCritique)
    else match ParsedCritique(reply, parse)
      case Some(m) => s.(lastCritique := m)
      case None => s.(lastCritique := ErrorCritique)
  }

  /** `should_continue`. The score defaults to 0; a number is compared with
      the threshold, a boolean (an int in Python) never exceeds it, and any
      other value makes the comparison raise (None). */
  function ShouldContinue(critique: map<string, Value>, count: int): (r: Option<Next>)
    ensures r == Some(Critic) <==>
              ScoreKey in critique && critique[ScoreKey].Num? && critique[ScoreKey].n > Threshold
              && count < MaxIterations
    ensures ScoreKey !in critique ==> r == Some(Finish)
    ensures r.None? <==> ScoreKey in critique && !critique[ScoreKey].Num? && !critique[ScoreKey].Bool?
  {
    match Get(critique, ScoreKey, Num(0))
    case Num(n) => Some(if n > Threshold && count < MaxIterations then Critic else Finish)
    case Bool(_) => Some(Finish)
    case _ => None
  }

  /** The critic fails open: with no draft, no reply, an unparseable reply
      or one that is not an object, the loop ends after this round. */
  lemma CriticFailsOpen(s: HumanizerState, reply: Option<string>, parse: string -> Option<Value>, count: int)
    requires GetDraft(s) == "" || ParsedCritique(reply, parse).None?
    ensures ShouldContinue(CriticNode(s, reply, parse).lastCritique, count) == Some(Finish)
  {
  }

  /** `refiner_node`. With no draft or no critique nothing changes. Otherwise
      the count goes up by one, and the draft is replaced by the reply (its
      "here is" line dropped, metadata emptied) when there is one. */
  method Refiner(s: HumanizerState, reply: Option<string>) returns (r: HumanizerState)
    requires s.vfsData.Valid()
    ensures r.vfsData.Valid()
    ensures r.draftFile == s.draftFile && r.lastCritique == s.lastCritique
    ensures GetDraft(s) == "" || s.lastCritique == map[] ==> r == s
    ensures GetDraft(s) != "" && s.lastCritique != map[] ==>
              && r.iterationCount == s.iterationCount + 1
              && r.vfsData == (if reply.Some? then s.vfsData.Write(s.draftFile, StripChatPrefix(reply.value), None)
                               else s.vfsData)
  {
    var draft := GetDraft(s);
    if draft == "" || s.lastCritique == map[] {
      return s;
    }
    if reply.None? {
      return s.(iterationCount := s.iterationCount + 1);
    }
    var content := reply.value;
    if "here is" <= Lower(Strip(content)) {
      content := AfterFirstLine(content);
    }
    var vfs := new VFS.FromData(s.vfsData);
    vfs.WriteFile(s.draftFile, content, None);
    r := s.(vfsData := vfs.Data(), iterationCount := s.iterationCount + 1);
  }

  /** A critic whose every reply parses to a score above the threshold. */
  ghost predicate CriticAlwaysHigh(critic: nat -> Option<string>, parse: string -> Option<Value>) {
    forall k: nat :: var c := ParsedCritique(critic(k), parse);
                     c.Some? && ScoreKey in c.value && c.value[ScoreKey].Num? && c.value[ScoreKey].n > Threshold
  }

  /** A refiner whose every round still counts and leaves a non-empty draft:
      it either fails (the draft stays, the count still rises) or replies
      with text that is not empty once its "here is" line is dropped. */
  ghost predicate RefinerAlwaysRewrites(refiner: nat -> Option<string>) {
    forall k: nat :: refiner(k).None? || StripChatPrefix(refiner(k).value) != ""
  }

  /** A critique that sends the graph to END whatever the count: it did not
      parse (the critic's error critique scores 0), or its score is missing
      or a number no higher than the threshold. */
  predicate LowCritique(c: Option<map<string, Value>>) {
    c.None? || ScoreKey !in c.value || (c.value[ScoreKey].Num? && c.value[ScoreKey].n <= Threshold)
  }

  /** The critic-refiner cycle, round `k` using the critic's and the
      refiner's `k`-th replies, until `should_continue` stops it (or raises,
      outcome None). Each round runs the refiner once, counted or not; the
      loop ends within 3 - count rounds (one when the count is already 3);
      only the draft can change; a first critique that does not score above
      3 ends the loop after one round; and a critic that always scores high
      with a refiner that always counts takes exactly 3 rounds from 0. */
  method Humanize(s0: HumanizerState, critic: nat -> Option<string>, refiner: nat -> Option<string>,
                  parse: string -> Option<Value>)
    returns (s: HumanizerState, rounds: nat, outcome: Option<Next>)
    requires s0.vfsData.Valid()
    ensures s.vfsData.Valid() && s.draftFile == s0.draftFile
    ensures outcome != Some(Critic) && outcome == ShouldContinue(s.lastCritique, s.iterationCount)
    ensures 1 <= rounds <= (if s0.iterationCount < MaxIterations then MaxIterations - s0.iterationCount else 1)
    ensures s0.iterationCount <= s.iterationCount <= s0.iterationCount + rounds
    ensures forall n :: n != s0.draftFile ==> s.vfsData.Get(n) == s0.vfsData.Get(n)
    ensures GetDraft(s0) == "" ==> rounds == 1 && s.vfsData == s0.vfsData && s.iterationCount == s0.iterationCount
    ensures (s0.iterationCount == 0 && GetDraft(s0) != "" && CriticAlwaysHigh(critic, parse)
             && RefinerAlwaysRewrites(refiner)) ==> rounds == 3 && s.iterationCount == 3
    ensures GetDraft(s0) != "" && LowCritique(ParsedCritique(critic(0), parse)) ==>
              rounds == 1 && outcome == Some(Finish)
  {
    s := s0;
    rounds := 0;
    outcome := Some(Critic);
    ghost var high := s0.iterationCount == 0 && GetDraft(s0) != "" && CriticAlwaysHigh(critic, parse)
                      && RefinerAlwaysRewrites(refiner);
    while outcome == Some(Critic)
      invariant s.vfsData.Valid() && s.draftFile == s0.draftFile
      invariant forall n :: n != s0.draftFile ==> s.vfsData.Get(n) == s0.vfsData.Get(n)
      invariant rounds == 0 ==> s.iterationCount == s0.iterationCount
      invariant rounds > 0 ==> outcome == ShouldContinue(s.lastCritique, s.iterationCount)
      invariant s0.iterationCount <= s.iterationCount <= s0.iterationCount + rounds
      invariant outcome == Some(Critic) && rounds > 0 ==>
                  s.iterationCount == s0.iterationCount + rounds < MaxIterations
      invariant outcome != Some(Critic) ==>
                  1 <= rounds <= (if s0.iterationCount < MaxIterations then MaxIterations - s0.iterationCount else 1)
      invariant GetDraft(s0) == "" ==> s.vfsData == s0.vfsData && s.iterationCount == s0.iterationCount
                                       && (rounds > 0 ==> outcome == Some(Finish) && rounds == 1)
      invariant high ==> GetDraft(s) != "" && s.iterationCount == rounds && (outcome != Some(Critic) ==> rounds == 3)
      invariant rounds > 0 && GetDraft(s0) != "" && LowCritique(ParsedCritique(critic(0), parse)) ==>
                  rounds == 1 && outcome == Some(Finish)
      decreases (if outcome == Some(Critic) then 1 else 0)
                + (if s0.iterationCount + rounds < MaxIterations then MaxIterations - s0.iterationCount - rounds else 0)
    {
      if high {
        HighRound(critic, refiner, parse, rounds);
      }
      s := Round(s, critic(rounds), refiner(rounds), parse);
      rounds := rounds + 1;
      outcome := ShouldContinue(s.lastCritique, s.iterationCount);
    }
  }

  /** The premises of the exact-count case, taken at round `k`. */
  lemma HighRound(critic: nat -> Option<string>, refiner: nat -> Option<string>,
                  parse: string -> Option<Value>, k: nat)
    requires CriticAlwaysHigh(critic, parse) && RefinerAlwaysRewrites(refiner)
    ensures var c := ParsedCritique(critic(k), parse);
            && c.Some? && ScoreKey in c.value && c.value[ScoreKey].Num? && c.value[ScoreKey].n > Threshold
            && (refiner(k).None? || StripChatPrefix(refiner(k).value) != "")
  {
  }

  /** One pass through the critic and the refiner. Only the draft can
      change; the count rises by at most one, and the loop only goes on
      after a counted rewrite; with no draft the round is a no-op that
      ends the loop; otherwise the critique is the critic's; a high score
      on a draft the refiner keeps non-empty always counts. */
  method Round(s: HumanizerState, reply: Option<string>, rewrite: Option<string>, parse: string -> Option<Value>)
    returns (r: HumanizerState)
    requires s.vfsData.Valid()
    ensures r.vfsData.Valid() && r.draftFile == s.draftFile
    ensures forall n :: n != s.draftFile ==> r.vfsData.Get(n) == s.vfsData.Get(n)
    ensures s.iterationCount <= r.iterationCount <= s.iterationCount + 1
    ensures ShouldContinue(r.lastCritique, r.iterationCount) == Some(Critic) ==>
              r.iterationCount == s.iterationCount + 1
    ensures GetDraft(s) == "" ==> r.vfsData == s.vfsData && r.iterationCount == s.iterationCount
                                  && ShouldContinue(r.lastCritique, r.iterationCount) == Some(Finish)
    ensures GetDraft(s) != "" ==>
              r.lastCritique == match ParsedCritique(reply, parse) case Some(m) => m case None => ErrorCritique
    ensures (GetDraft(s) != "" && ParsedCritique(reply, parse).Some?
             && ScoreKey in ParsedCritique(reply, parse).value
             && ParsedCritique(reply, parse).value[ScoreKey].Num?
             && ParsedCritique(reply, parse).value[ScoreKey].n > Threshold
             && (rewrite.None? || StripChatPrefix(rewrite.value) != "")) ==>
              && r.iterationCount == s.iterationCount + 1 && GetDraft(r) != ""
              && ShouldContinue(r.lastCritique, r.iterationCount) == Some(if r.iterationCount < MaxIterations then Critic else Finish)
  {
    var mid := CriticNode(s, reply, parse);
    r := Refiner(mid, rewrite);
    if r.vfsData != mid.vfsData {
      WriteFrame(mid.vfsData, mid.draftFile, StripChatPrefix(rewrite.value), None);
      ReadAfterWrite(mid.vfsData, mid.draftFile, StripChatPrefix(rewrite.value), None);
    }
  }
}

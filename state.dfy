/** The records the stages exchange, and the main graph's state. A
    TypedDict whose fields the stages only read or replace becomes a
    datatype; the store travels as a `Store` value. */
module State {
  import Json
  import opened Wrappers
  import opened Vfs

  datatype Status = Pending | Completed | Failed

  /** One plan step. `kind` (the `type` key) and `description` are whatever
      the planner's parsed reply held, so they are JSON values: the router
      compares `kind` with the strings "research" and "write". */
  datatype Task = Task(id: int, kind: Json.Value, description: Json.Value,
                       status: Status, params: map<string, Json.Value>)

  datatype FAQItem = FAQItem(question: string, answer: string)

  datatype InternalLink = InternalLink(anchorText: string, suggestedTarget: string, context: string)

  datatype ExternalLink = ExternalLink(sourceName: string, url: string, anchorText: string,
                                       placementContext: string)

  /** A keyword density kept exact, as the percentage num / den. */
  datatype Ratio = Ratio(num: nat, den: nat)

  /** `keyword_density` is a dict, kept as its (keyword, density) entries in
      insertion order; `total_words` is absent until the analysis has run. */
  datatype KeywordReport = KeywordReport(primary: string, secondary: seq<string>, lsi: seq<string>,
                                         density: seq<(string, Ratio)>, recommendations: seq<string>,
                                         totalWords: Option<nat>)

  datatype LinkingReport = LinkingReport(internalLinks: seq<InternalLink>, externalLinks: seq<ExternalLink>)

  /** The main graph's state. The reports are absent until a stage fills
      them. */
  datatype AgentState = AgentState(
    topic: string, wordCount: int, language: string,
    plan: seq<Task>, currentTaskIndex: nat,
    vfsData: Store,
    faqs: seq<FAQItem>, keywordReport: Option<KeywordReport>, linkingReport: Option<LinkingReport>,
    logs: seq<string>)
}

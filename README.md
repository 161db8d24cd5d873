# article-agent in Dafny

A Dafny model of the core of article-agent. article-agent is a LangGraph
application that writes an SEO article about a topic in these steps:

- A **planner** asks a model for a task list.
- A **main graph** walks that plan. It sends research tasks to a research
  sub-graph and writing tasks to a **writer** sub-graph.
- Post-processing sub-graphs rework the draft:
  - the **humanizer** runs a critic/refiner loop;
  - the **evaluator** has three critics and an optimizer;
  - the **FAQ** generator adds questions and answers;
  - the **keyword analyzer** extracts keywords and computes densities;
  - the **linking** strategist suggests internal and external links.

All stages share a **virtual file system** (VFS). It maps file names to
files with content and metadata, and it lists names in first-write order.

The model follows the source file by file:

| file | models |
|---|---|
| `wrappers.dfy` | `Option` and `Result` |
| `json.dfy` | the JSON values `json.loads` yields, `dict.get` with a default, and Python's `str()` of integers and values |
| `text.dfy` | the string built-ins the stages use: `strip`, `lower`, `find`/`in`, `split`, `startswith`, `count`, `join`, `\w+` word counting, slicing. It also holds the code-fence extraction every stage applies to a model reply. |
| `reply.dfy` | the shared "strip fences, then `json.loads`" step, with the parser as a parameter |
| `vfs.dfy` | the `VFS` class, as a value (`Store`) and as a Dafny `class` whose methods update it in place |
| `state.dfy` | the records of the shared state: `Task`, `FAQItem`, the link records, the keyword and linking reports, `AgentState` |
| `planner.dfy`, `main_graph.dfy`, `writer.dfy`, `humanizer.dfy`, `evaluator.dfy`, `faq.dfy`, `keyword_analyzer.dfy`, `linking.dfy` | one module per graph node file |

Each node is a function of its input state and of the model's reply. Where
the source loops, a method with a loop is proved equal to that function.
The properties the source relies on are lemmas about these functions:

- the fallbacks on every failure path;
- which files each stage reads and which it writes;
- the router's dispatch;
- the bounds on the humanizer's loop;
- the layout of the generated Markdown reports.

Model calls and `json.loads` are function parameters. The model therefore
holds for every reply and every parse outcome.

## Model

| member | source | states |
|---|---|---|
| Vfs.Store.Write | app/core/vfs.py:24-28 | writing keeps the store consistent (distinct listed names, one file per name, each stored under its own name) and adds exactly the written name to the stored names |
| Vfs.Store.ContentOr | app/graphs/writer.py:40-42 | the text a node reads for a file is the file's content when it exists and "" otherwise |
| Vfs.ReadAfterWrite | app/core/vfs.py:18-28 | after a write the file exists, reading returns the written content, and the stored file carries the metadata, `None` becoming `{}` |
| Vfs.WriteTwice | app/core/vfs.py:24-28 | a second write of the same name replaces the first completely |
| Vfs.MetadataReplaced | app/core/vfs.py:26-27 | rewriting an existing file replaces its metadata; `None` clears it to `{}` |
| Vfs.WriteFrame | app/core/vfs.py:24-28 | a write changes no other file; the listing keeps its order, grows by one only for a new name, and holds the name exactly once |
| Vfs.GetAgreesWithRead | app/core/vfs.py:18-38 | `get_file` succeeds exactly when `read_file` does and returns the same content under the same name; both report not-found for a missing name |
| Vfs.ListedIsStored | app/core/vfs.py:14-16 | every listed name is a stored file |
| Vfs.VFS.constructor | app/core/vfs.py:10-12 | a new VFS is empty and consistent |
| Vfs.VFS.FromData | app/main_graph.py:22-23 | hydrating a VFS from stored data gives exactly that data |
| Vfs.VFS.ListFiles | app/core/vfs.py:14-16 | returns the names in first-write order |
| Vfs.VFS.ReadFile | app/core/vfs.py:18-22 | returns the content, or the not-found error for a missing name |
| Vfs.VFS.WriteFile | app/core/vfs.py:24-28 | the new state is the old store with the write applied, and stays consistent |
| Vfs.VFS.Exists | app/core/vfs.py:30-32 | true exactly when the name is stored |
| Vfs.VFS.GetFile | app/core/vfs.py:34-38 | returns the whole file record, or the not-found error |
| Json.NatToStringRoundTrip | app/graphs/keyword_analyzer.py:190 | the decimal rendering of a word count reads back as the same number |
| Text.Strip | app/agents/planner.py:66 | the stripped text neither starts nor ends with whitespace |
| Text.StripKeepsTrimmed | app/agents/planner.py:66 | stripping text that neither starts nor ends with whitespace changes nothing |
| Text.UnfencedPayload | app/agents/planner.py:61-66 | a reply without a code fence is parsed whole, stripped |
| Text.JsonFencedPayload | app/agents/planner.py:61-64 | the payload of a reply holding a json fence is the stripped text between that fence and the next fence |
| Text.BareFencedPayload | app/agents/planner.py:63-64 | with no json fence, the payload is the stripped text between the first two bare fences |
| Text.StripChatPrefix | app/graphs/writer.py:72-73 | a reply that starts (stripped, lowercased) with "here is" loses its first line; any other reply is kept; the result is always a suffix of the reply |
| Text.WordCountZeroIff | app/graphs/keyword_analyzer.py:126-130 | the word count is zero exactly when the text has no word character |
| Text.Count | app/graphs/keyword_analyzer.py:139 | the occurrence count is zero exactly when the keyword does not occur |
| Text.FirstField | app/graphs/linking.py:120 | the topic's first word exists exactly when the topic is not all whitespace; it is the maximal non-space run at the start of the trimmed topic |
| Text.JoinContainsEach | app/graphs/evaluator.py:116 | every critique occurs in the joined critique text |
| Reply.Parsed | app/agents/planner.py:61-66 | no reply gives no parse; otherwise the parser sees the fence-stripped payload |
| Reply.JsonFencedReply | app/agents/planner.py:61-66 | a reply holding a json-fenced block parses exactly as the block's text |
| Reply.BareFencedReply | app/agents/planner.py:61-66 | a reply holding a bare-fenced block and no json fence parses exactly as the block's text |
| Planner.Plan | app/agents/planner.py:52-89 | whichever path produced it, the plan numbers its tasks 1..n in order, all pending and without params |
| Planner.CreateInitialPlan | app/agents/planner.py:9-89 | the node returns the plan for the parsed reply |
| Planner.PlanFromParsed | app/agents/planner.py:69-80 | the normalisation loop computes that plan |
| Planner.ListOfObjectsKeepsOrder | app/agents/planner.py:69-78 | a list of objects becomes one task per step in order; type and description come from the step, defaulting to "research" and "Do work" |
| Planner.FailureGivesFallback | app/agents/planner.py:82-89 | a failed parse or a list holding a non-object gives the four-task fallback: research the topic, then write the introduction, main body and conclusion |
| Planner.EmptyValueGivesEmptyPlan | app/agents/planner.py:69-80 | an empty list, empty string or empty object parses into an empty plan, not the fallback |
| Writer.ResearchFiles | app/graphs/writer.py:19-23 | every stored file under "research/" among the listed names is collected |
| Writer.GatherContext | app/graphs/writer.py:12-28 | the gathering loop returns the research context of the store |
| Writer.EachNoteQuoted | app/graphs/writer.py:19-23 | each research note's content appears in the context, under its source line |
| Writer.NoticeIffNoResearch | app/graphs/writer.py:25-26 | the context is the "no research" notice exactly when the store holds no research file |
| Writer.ResearchFilesAreResearch | app/graphs/writer.py:20 | only stored files under "research/" are collected, unchanged |
| Writer.OtherFilesIgnored | app/graphs/writer.py:19-23 | writing a file outside "research/" leaves the context unchanged |
| Writer.SameResearchFiles | app/graphs/writer.py:19-23 | stores that agree on their research files collect the same files |
| Writer.DraftTail | app/graphs/writer.py:44 | the model sees the last 2000 characters of the draft, or the start marker for an empty draft |
| Writer.WriteNode | app/graphs/writer.py:33-81 | the node's new store is the specified write and stays consistent |
| Writer.AppendKeepsDraft | app/graphs/writer.py:72-79 | on a reply the draft becomes the old draft, a blank line and the reply without its "here is" line, with empty metadata, and nothing else changes; with no reply the store is unchanged |
| Writer.RunWriter | app/graphs/writer.py:83-93 | the two-node sub-graph gathers the context, then writes |
| MainGraph.Router | app/main_graph.py:81-95 | an empty plan routes to "planner"; a finished plan routes to the end; otherwise a "research" task goes to the researcher, a "write" task to the writer, and any other kind ends the run |
| MainGraph.MarkCompleted | app/main_graph.py:45-48 | only the current task changes, and it becomes completed |
| MainGraph.Bridge | app/main_graph.py:42-50 | as written, a bridge returns the hydrated store unchanged and only advances the plan |
| MainGraph.MergingBridge | app/main_graph.py:42-50 | the corrected bridge keeps the store the sub-graph returned |
| MainGraph.DispatchAdvancesCursor | app/main_graph.py:45-49 | after a dispatched task the cursor moves by one within the plan, the task is completed and no other task changes |
| MainGraph.AsWrittenKeepsStore | app/main_graph.py:25-31 | as written, no run of the plan changes the store, because each sub-graph receives it under a key it does not read |
| MainGraph.AsWrittenNeverDrafts | app/main_graph.py:59-64 | as written, the fallback plan runs all four tasks and still leaves no draft.md |
| MainGraph.RunTask | app/main_graph.py:11-76 | one dispatched task keeps the store consistent and every file; a writing task with an answering model leaves a draft |
| MainGraph.RunPlan | app/main_graph.py:99-138 | the run stops at a route that does not dispatch; it completes exactly the tasks it passed, keeps every file, and leaves a draft once a writing task ran with an answering model |
| MainGraph.WriterKeepsNames | app/main_graph.py:52-76 | the writer keeps every file, and with an answering model it leaves draft.md |
| Humanizer.CriticNode | app/graphs/humanizer.py:20-79 | an empty draft scores 0; a parsed reply becomes the critique; a failure becomes the error critique scored 0; nothing else changes |
| Humanizer.ShouldContinue | app/graphs/humanizer.py:136-150 | the loop goes on exactly when the score is a number above 3 and fewer than 3 rounds have run; a missing score finishes; a score that is neither a number nor a boolean makes the comparison fail |
| Humanizer.CriticFailsOpen | app/graphs/humanizer.py:73-79 | an empty draft or a failed critique always ends the loop |
| Humanizer.Refiner | app/graphs/humanizer.py:81-134 | with no draft or no critique nothing changes; otherwise the round counter goes up by one and the draft is replaced by the rewrite without its "here is" line |
| Humanizer.Round | app/graphs/humanizer.py:20-150 | a critic/refiner round keeps every other file and raises the counter by at most one; with a draft, the critique it leaves is the critic's (the error critique on failure); a high score with a refiner that fails or leaves a non-empty draft always counts and keeps the draft non-empty |
| Humanizer.Humanize | app/graphs/humanizer.py:152-171 | the loop ends on a non-continuing decision after at most 3 rounds, changing only the draft; on a draft, a first critique that fails or whose score is missing or at most 3 ends it after exactly one round; scores above 3 from a fresh start, with a refiner that fails or keeps the draft non-empty, give exactly 3 rounds |
| Evaluator.CritiqueUpdate | app/graphs/evaluator.py:24-51 | each critic adds one entry: the "no draft" notice, the reply, or the error line |
| Evaluator.CollectOnePerBranch | app/graphs/evaluator.py:152-176 | the fan-out adds one critique per critic, in critic order |
| Evaluator.Optimize | app/graphs/evaluator.py:111-150 | with a draft and a reply, the draft is overwritten by the rewrite of the joined critiques; otherwise nothing is written |
| Evaluator.OptimizeOverwrites | app/graphs/evaluator.py:143-147 | the optimizer's write replaces the draft wholesale, with empty metadata, and keeps every other file |
| Evaluator.Evaluate | app/graphs/evaluator.py:152-176 | the sub-graph appends exactly three critiques and then optimizes with them |
| Faq.ValidFaqs | app/graphs/faq.py:91-97 | validation never adds items |
| Faq.ValidFaqsAppend | app/graphs/faq.py:91-97 | validation works item by item |
| Faq.ValidFaqsAllOrNone | app/graphs/faq.py:91-97 | items that all have a question and an answer are all kept in order; items that all lack one are all dropped |
| Faq.ResearchContents | app/graphs/faq.py:38-42 | the loop collects the contents of the research notes in listing order |
| Faq.Validate | app/graphs/faq.py:91-97 | the validation loop keeps exactly the valid items |
| Faq.ExtractQuestions | app/graphs/faq.py:27-109 | the node returns the FAQs extracted from the store's draft and research |
| Faq.FaqsOfParsed | app/graphs/faq.py:83-109 | the parse handling returns the validated FAQs or the fallback |
| Faq.FailureGivesFallback | app/graphs/faq.py:102-109 | a failed parse or a scalar reply gives the three fallback FAQs |
| Faq.OtherFilesIgnored | app/graphs/faq.py:38-47 | writing a file that is neither research nor the draft does not change the extracted FAQs |
| Faq.SameResearchNotes | app/graphs/faq.py:38-42 | writing a non-research file keeps the research notes |
| Faq.FormatFaq | app/graphs/faq.py:112-139 | no FAQs writes nothing; otherwise faq_section.md holds the rendered section; the FAQs pass through unchanged |
| Faq.SectionLayout | app/graphs/faq.py:122-132 | the section starts with its header, each FAQ appears as a question heading followed by its answer, and the write keeps every other file |
| Faq.RunFaqGraph | app/graphs/faq.py:142-153 | the sub-graph extracts then formats: the extracted FAQs pass through, faq_section.md holds their section exactly when there is one, every other file is kept, and a failed model or parse leaves the three fixed FAQs saved |
| KeywordAnalyzer.Strings | app/graphs/keyword_analyzer.py:87-95 | a list of strings is read element by element; anything else is rejected |
| KeywordAnalyzer.ReportFromValue | app/graphs/keyword_analyzer.py:87-107 | an extracted report has no densities and no word count yet; a non-object reply gives the fallback report |
| KeywordAnalyzer.ReportFromParsed | app/graphs/keyword_analyzer.py:80-107 | a failed parse gives the fallback report |
| KeywordAnalyzer.ExtractKeywords | app/graphs/keyword_analyzer.py:35-107 | the extraction node's report has no densities and no word count, and is either recommendation-free or the fallback |
| KeywordAnalyzer.FailureGivesFallback | app/graphs/keyword_analyzer.py:97-107 | a failure makes the topic the primary keyword, with empty lists and the extraction-failed notice |
| KeywordAnalyzer.MissingKeysDefault | app/graphs/keyword_analyzer.py:89-91 | missing keys default to the topic and empty lists |
| KeywordAnalyzer.WellTypedKept | app/graphs/keyword_analyzer.py:87-95 | well-typed keys are taken over as they are |
| KeywordAnalyzer.DensityOf | app/graphs/keyword_analyzer.py:139-141 | a density is over the total word count, and is zero exactly when the keyword does not occur or has no words |
| KeywordAnalyzer.BandOf | app/graphs/keyword_analyzer.py:144-149 | the density is low exactly below 0.5 and over-optimised exactly above 3.0 |
| KeywordAnalyzer.RatioBounds | app/graphs/keyword_analyzer.py:144-149 | the band thresholds read as integer comparisons |
| KeywordAnalyzer.Put | app/graphs/keyword_analyzer.py:140 | a dict assignment keeps key order, updates an existing key in place and appends a new one |
| KeywordAnalyzer.FillShape | app/graphs/keyword_analyzer.py:152-155 | filling in the secondary keywords keeps the entries already there, keeps keys distinct and gives each key its own density |
| KeywordAnalyzer.DensityTableShape | app/graphs/keyword_analyzer.py:137-155 | the table has the primary keyword first, then the first five secondary keywords, each once, each with its density |
| KeywordAnalyzer.NoticesDiffer | app/graphs/keyword_analyzer.py:144-167 | the density notice, the introduction warning and the heading tip are distinct |
| KeywordAnalyzer.Heading | app/graphs/keyword_analyzer.py:162-164 | a matching line starts with "##" and its capture is not empty |
| KeywordAnalyzer.HeadingCapture | app/graphs/keyword_analyzer.py:162-164 | a line matches exactly when it starts with "##" and a whitespace character and has at least one more character after them; the capture is a suffix of the line after that whitespace character: everything from the first non-space character on when text follows, the line's last character when only whitespace follows |
| KeywordAnalyzer.RecommendationRules | app/graphs/keyword_analyzer.py:144-167 | with a primary keyword the density notice comes first; the introduction warning appears exactly when the first 500 characters lack the keyword; the heading tip appears exactly when no heading mentions it |
| KeywordAnalyzer.LowerAll | app/graphs/keyword_analyzer.py:122-123 | each keyword is lowercased |
| KeywordAnalyzer.FillDensities | app/graphs/keyword_analyzer.py:152-155 | the secondary-keyword loop fills the table |
| KeywordAnalyzer.Recommend | app/graphs/keyword_analyzer.py:143-167 | the recommendation steps give the specified list |
| KeywordAnalyzer.HeadingScan | app/graphs/keyword_analyzer.py:162-167 | the heading loop finds a match exactly when some heading mentions the keyword |
| KeywordAnalyzer.Analyse | app/graphs/keyword_analyzer.py:122-172 | the analysis steps give the specified report |
| KeywordAnalyzer.AnalyzeDensity | app/graphs/keyword_analyzer.py:110-183 | a draft without words leaves the report alone and writes nothing; otherwise the analysed report is saved as the keyword report file |
| KeywordAnalyzer.NoWordsNoAnalysis | app/graphs/keyword_analyzer.py:129-130 | a draft without word characters leaves the report as it was |
| KeywordAnalyzer.AnalysisShape | app/graphs/keyword_analyzer.py:126-172 | the analysis sets the word count, keeps the keywords and holds a distinct-key density table of the primary and first five secondary keywords |
| KeywordAnalyzer.AppendBullets | app/graphs/keyword_analyzer.py:194-202 | the bullet loop appends one bullet per keyword |
| KeywordAnalyzer.DensityRows | app/graphs/keyword_analyzer.py:204-208 | the density loop appends one table row per entry |
| KeywordAnalyzer.FormatKeywordReport | app/graphs/keyword_analyzer.py:186-214 | the formatter's steps give the specified Markdown |
| KeywordAnalyzer.SecondaryListed | app/graphs/keyword_analyzer.py:194-197 | each secondary keyword is a bullet of its section, in order |
| KeywordAnalyzer.LsiListed | app/graphs/keyword_analyzer.py:199-202 | each LSI keyword is a bullet of its section, in order |
| KeywordAnalyzer.DensityListed | app/graphs/keyword_analyzer.py:204-208 | each density entry is a row of the table, in order |
| KeywordAnalyzer.RecommendationListed | app/graphs/keyword_analyzer.py:210-212 | the recommendations section ends the report, one bullet per recommendation in order |
| KeywordAnalyzer.RunKeywordGraph | app/graphs/keyword_analyzer.py:217-228 | the sub-graph analyses the report the extraction produced and saves it only for a draft with words; a failed model or parse keeps the topic as primary keyword, and with a wordless draft the failure notice as the only recommendation |
| Linking.ValidInternal | app/graphs/linking.py:98-105 | validation never adds links |
| Linking.ValidInternalFrom | app/graphs/linking.py:98-105 | every kept link comes from an item with an anchor text |
| Linking.ValidInternalAll | app/graphs/linking.py:98-105 | items that all have an anchor text are all kept in order |
| Linking.ValidInternalAppend | app/graphs/linking.py:98-105 | validation works item by item: the links kept from a concatenation are those kept from each part |
| Linking.ValidateInternal | app/graphs/linking.py:98-105 | the validation loop keeps exactly the valid links |
| Linking.InternalFromValue | app/graphs/linking.py:95-99 | at most five internal links survive |
| Linking.FallbackLinks | app/graphs/linking.py:114-137 | the three fixed suggestions exist exactly when the topic has a word |
| Linking.FallbackNamesTopic | app/graphs/linking.py:114-137 | each fixed suggestion targets a page named after the topic; the first anchor is the topic's first word plus " guide" |
| Linking.SuggestInternal | app/graphs/linking.py:41-137 | the report has no external links and at most five internal ones; the node fails only for a topic with no word |
| Linking.SuggestInternalLinks | app/graphs/linking.py:41-137 | the node's steps give the specified report |
| Linking.FailureGivesFallback | app/graphs/linking.py:114-137 | any failure gives the three fixed suggestions |
| Linking.FailureCases | app/graphs/linking.py:89-99 | a failed parse, a non-object reply or an `internal_links` value that cannot be sliced is a failure |
| Linking.Sources | app/graphs/linking.py:155-162 | a source is never empty or "unknown" |
| Linking.SourcesComeFromNotes | app/graphs/linking.py:155-162 | every source is the url of a research note |
| Linking.ResearchSources | app/graphs/linking.py:155-162 | the source loop collects the research urls in listing order |
| Linking.ValidExternal | app/graphs/linking.py:215-223 | validation never adds links |
| Linking.ValidateExternal | app/graphs/linking.py:215-223 | the validation loop keeps exactly the items with a source name |
| Linking.ValidExternalFrom | app/graphs/linking.py:215-223 | every kept source comes from an item with a source name |
| Linking.ValidExternalAppend | app/graphs/linking.py:215-223 | validation works item by item: the sources kept from a concatenation are those kept from each part |
| Linking.ExternalFromValue | app/graphs/linking.py:215-216 | at most four external links survive validation |
| Linking.WithSourcesShape | app/graphs/linking.py:225-233 | the completion keeps the model's links first and unchanged, cites every source, and adds each uncited source once |
| Linking.Externalised | app/graphs/linking.py:225-246 | internal links are kept; on success at most four external links remain |
| Linking.AddSources | app/graphs/linking.py:225-233 | the completion loop computes the completion |
| Linking.AppendFallbackSources | app/graphs/linking.py:237-246 | the failure loop appends one fallback record per source |
| Linking.SuggestExternalLinks | app/graphs/linking.py:140-257 | the node returns the specified report and saves its Markdown as linking_report.md |
| Linking.SuccessCitesSources | app/graphs/linking.py:225-235 | on success the model's links come first; with at most two of them both first sources are cited; no source is cited twice or re-cited |
| Linking.FailureAppendsSources | app/graphs/linking.py:237-246 | on failure the existing links stay, followed by one record for each of the first two sources |
| Linking.ShortUrl | app/graphs/linking.py:275-276 | a url over 50 characters shows its first 50 and an ellipsis; a shorter one is shown whole |
| Linking.InternalRows | app/graphs/linking.py:267-269 | the loop appends one row per internal link |
| Linking.ExternalRows | app/graphs/linking.py:277 | the loop appends one row per external link |
| Linking.FormatLinkingReport | app/graphs/linking.py:260-279 | the formatter's steps give the specified Markdown |
| Linking.InternalListed | app/graphs/linking.py:264-269 | each internal link is a row of the first table, in order |
| Linking.ExternalListed | app/graphs/linking.py:271-277 | the external table ends the report, each link a row in order |
| Linking.RunLinkingGraph | app/graphs/linking.py:282-293 | the sub-graph runs the external step on the internal step's report: the internal links survive, there are at most five internal and four external links, linking_report.md holds the rendered report and every other file is kept |

## Left out

- Model calls, `json.loads`, clocks and logging are parameters or omitted. Model calls (`llm.invoke`) are functions from the prompt's inputs to an optional reply, with `None` for a raised exception. `json.loads` is a parser parameter. Prompt wording is not modelled, only which inputs each prompt sees and how they are cut. `print` calls are omitted.
- Floating point is not modelled. Densities are exact rationals, and the thresholds 0.5 and 3.0 are compared exactly. `round(..., 2)` and the `%.1f`/`%` renderings are parameters (`pct`, `show`).
- Unicode is reduced. `lower()` and `\w` cover ASCII letters, digits and `_` only. Whitespace for `strip`/`split` is Python's set of Unicode whitespace characters.
- KeywordAnalyzer.Heading: the multiline regex `^##\s+(.+)$` is modelled line by line on "\n" breaks only. Its `\s+` may cross a line break in Python; the model does not capture that.
- Json.PyStr: `str()` of a nested list or object is rendered as a fixed placeholder, not as Python's repr.
- KeywordAnalyzer.ReportFromValue returns None when `primary_keyword` is present but not a string, or a keyword list is present but not a list of strings. A non-string primary keyword is stored by the source (app/graphs/keyword_analyzer.py:88) and makes `analyze_density_node` raise at `.lower()` (app/graphs/keyword_analyzer.py:122); the model ends the keyword graph there with None. For the lists, the model leaves out the reports the source builds from such values. A string `secondary_keywords` is lowercased and listed character by character (app/graphs/keyword_analyzer.py:123, 194-197). A string or a list of non-strings as `lsi_keywords` is only rendered with `f"- {kw}"` (app/graphs/keyword_analyzer.py:199-202). Neither raises in the source.
- Linking.FallbackLinks: a topic with no word makes `topic.split()[0]` raise inside the except handler. The model returns None there.
- MainGraph.Router: an empty plan routes to "planner", but the conditional edges (app/main_graph.py:108-136) map no "planner" route. The model treats that route as one that does not dispatch, so `MainGraph.RunPlan` stops there.
- Humanizer.CriticNode: the state's initial `last_critique` of None is modelled as an empty map.
- The research sub-graph (`app/graphs/researcher.py`) is not part of this model. It is a parameter of `MainGraph.RunPlan` that may only add files.
- The API server (`app/api/server.py`), the run script, the search and scraper tools, and the LangGraph builder calls are not part of this model. The wiring of every graph is written out: the main graph in `MainGraph.RunPlan`, the writer in `Writer.RunWriter`, the evaluator in `Evaluator.Evaluate`, the humanizer in `Humanizer.Humanize`, and the FAQ, keyword and linking sub-graphs in `Faq.RunFaqGraph`, `KeywordAnalyzer.RunKeywordGraph` and `Linking.RunLinkingGraph`.
- Evaluator.Evaluate runs the three critics in a fixed order (Qwen, Kimi, Llama). LangGraph may schedule them in parallel. Only the order of their entries in `critiques` is observable, and the model fixes one order.
- The report dictionaries the keyword and linking nodes update in place are modelled as values. Aliasing between the state and the node's local copy is not captured.
- The sources the external-link prompt sees are passed as a list of strings, not as their `json.dumps` text.
- Text.Strip: its relation to the original text (a slice) is stated on Text.TrimLeft and Text.TrimRight, not on Strip itself.

## Findings

| source | as written | input that shows it | evidently intended | confidence | as-written member | corrected member |
|---|---|---|---|---|---|---|
| app/main_graph.py:25-31 | `call_researcher` and `call_writer` pass the hydrated store to the sub-graphs under the key "vfs". The sub-graphs' states (app/graphs/writer.py:7-10) declare and read `vfs_data`. Each sub-graph therefore starts from an empty store, and the bridge returns the parent's unchanged store. | the fallback plan from an empty store: all four tasks run, and no draft.md is ever stored | the sub-graph receives the store as `vfs_data`, and the bridge keeps the store the sub-graph returns | not executed | MainGraph.AsWrittenNeverDrafts | MainGraph.RunPlan |

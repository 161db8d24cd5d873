/** The FAQ graph: ask a model for question-answer pairs about the research
    notes and the draft, keep the well-formed ones (or three fixed ones on
    any failure), then render them as a markdown section saved to the
    store. */
module Faq {
  import opened Wrappers
  import opened Json
  import opened Text
  import opened Reply
  import opened Vfs
  import opened State
  import Writer

  const FaqFile: string := "faq_section.md"
  const Header: string := "\n\n---\n\n## Frequently Asked Questions\n\n"

  const FallbackFaqs: seq<FAQItem> := [
    FAQItem("What are the main benefits?",
            "The main benefits include improved efficiency, better outcomes, and time savings."),
    FAQItem("How do I get started?",
            "Start by understanding the basics, then gradually implement the key concepts discussed in this article."),
    FAQItem("Is this suitable for beginners?",
            "Yes, the concepts covered are accessible to beginners while also providing value for experienced practitioners.")
  ]

  function Contents(files: seq<File>): (r: seq<string>)
    ensures |r| == |files| && forall k :: 0 <= k < |r| ==> r[k] == files[k].content
  {
    seq(|files|, k requires 0 <= k < |files| => files[k].content)
  }

  /** The research part of the prompt: the first three notes joined by line
      breaks, cut to 4000 characters. */
  function ResearchExcerpt(contents: seq<string>): string {
    Prefix(Join("\n", Prefix(contents, 3)), 4000)
  }

  /** A parsed item the validation keeps. */
  predicate IsFaqObject(v: Value) {
    v.Obj? && "question" in v.fields && "answer" in v.fields
  }

  function ToFaq(v: Value): FAQItem
    requires IsFaqObject(v)
  {
    FAQItem(PyStr(v.fields["question"]), PyStr(v.fields["answer"]))
  }

  /** The kept items, in order, with both fields stringified. */
  function ValidFaqs(items: seq<Value>): (r: seq<FAQItem>)
    ensures |r| <= |items|
    decreases |items|
  {
    if items == [] then []
    else
      var last := items[|items| - 1];
      ValidFaqs(items[..|items| - 1]) + (if IsFaqObject(last) then [ToFaq(last)] else [])
  }

  /** Validation works item by item: the result for a concatenation is the
      concatenation of the results. */
  lemma {:induction false} ValidFaqsAppend(a: seq<Value>, b: seq<Value>)
    ensures ValidFaqs(a + b) == ValidFaqs(a) + ValidFaqs(b)
    decreases |b|
  {
    if b == [] {
      assert a + b == a;
    } else {
      var b' := b[..|b| - 1];
      ValidFaqsAppend(a, b');
      assert (a + b)[..|a + b| - 1] == a + b';
    }
  }

  /** When every item is a question-answer object, every one is kept, in
      order; when none is, nothing is. */
  lemma {:induction false} ValidFaqsAllOrNone(items: seq<Value>)
    ensures (forall k :: 0 <= k < |items| ==> IsFaqObject(items[k])) ==>
              |ValidFaqs(items)| == |items|
              && forall k :: 0 <= k < |items| ==> ValidFaqs(items)[k] == ToFaq(items[k])
    ensures (forall k :: 0 <= k < |items| ==> !IsFaqObject(items[k])) ==> ValidFaqs(items) == []
    decreases |items|
  {
    if items != [] {
      var init := items[..|items| - 1];
      var last := items[|items| - 1];
      ValidFaqsAllOrNone(init);
      assert forall k :: 0 <= k < |init| ==> init[k] == items[k];
      assert ValidFaqs(items) == ValidFaqs(init) + (if IsFaqObject(last) then [ToFaq(last)] else []);
      if forall k :: 0 <= k < |items| ==> IsFaqObject(items[k]) {
        forall k | 0 <= k < |items| ensures ValidFaqs(items)[k] == ToFaq(items[k]) {
          if k < |init| {
            assert ValidFaqs(items)[k] == ValidFaqs(init)[k];
          }
        }
      }
    }
  }

  /** The validated FAQs of a parsed reply, or None where iterating it
      raises. A string or an object is walked as its characters or keys,
      which are strings, so nothing is kept. */
  function Validated(data: Value): Option<seq<FAQItem>> {
    match data
    case Arr(items) => Some(ValidFaqs(items))
    case Str(_) => Some([])
    case Obj(_) => Some([])
    case _ => None
  }

  /** The FAQs a parse outcome yields: the fallback when there is no reply,
      it does not parse, or the parsed value cannot be iterated. */
  function FaqsFromParsed(parsed: Option<Value>): seq<FAQItem> {
    if parsed.None? then FallbackFaqs else Validated(parsed.value).GetOr(FallbackFaqs)
  }

  /** What `extract_questions_node` returns as `faqs`. The model is asked
      with the research excerpt and the first 3000 characters of the draft. */
  function ExtractedFaqs(data: Store, draftFile: string, generate: (string, string) -> Option<string>,
                         parse: string -> Option<Value>): seq<FAQItem>
  {
    var research := ResearchExcerpt(Contents(Writer.ResearchFiles(data, data.names)));
    FaqsFromParsed(Parsed(generate(research, Prefix(data.ContentOr(draftFile), 3000)), parse))
  }

  /** The research-collecting loop. */
  method ResearchContents(data: Store) returns (research: seq<string>)
    requires data.Valid()
    ensures research == Contents(Writer.ResearchFiles(data, data.names))
  {
    var vfs := new VFS.FromData(data);
    var names := vfs.ListFiles();
    research := [];
    for i := 0 to |names|
      invariant vfs.Data() == data && names == data.names
      invariant research == Contents(Writer.ResearchFiles(data, names[..i]))
    {
      ContentsStep(data, names, i);
      ListedIsStored(data, i);
      if Writer.IsResearch(names[i]) {
        var content := vfs.ReadFile(names[i]);
        research := research + [content.value];
      }
    }
    assert names[..|names|] == names;
  }

  lemma ContentsStep(s: Store, names: seq<string>, i: nat)
    requires i < |names|
    ensures Contents(Writer.ResearchFiles(s, names[..i + 1]))
            == Contents(Writer.ResearchFiles(s, names[..i]))
               + (if Writer.IsResearch(names[i]) && names[i] in s.files then [s.files[names[i]].content] else [])
  {
    assert names[..i + 1][..i] == names[..i];
  }

  /** The validation loop. */
  method Validate(items: seq<Value>) returns (kept: seq<FAQItem>)
    ensures kept == ValidFaqs(items)
  {
    kept := [];
    for i := 0 to |items|
      invariant kept == ValidFaqs(items[..i])
    {
      assert items[..i + 1][..i] == items[..i];
      if IsFaqObject(items[i]) {
        kept := kept + [FAQItem(PyStr(items[i].fields["question"]), PyStr(items[i].fields["answer"]))];
      }
    }
    assert items[..|items|] == items;
  }

  /** `extract_questions_node`: collect the research notes, ask, validate. */
  method ExtractQuestions(data: Store, draftFile: string, generate: (string, string) -> Option<string>,
                          parse: string -> Option<Value>)
    returns (faqs: seq<FAQItem>)
    requires data.Valid()
    ensures faqs == ExtractedFaqs(data, draftFile, generate, parse)
  {
    var research := ResearchContents(data);
    var vfs := new VFS.FromData(data);
    var draft := "";
    var present := vfs.Exists(draftFile);
    if present {
      var r := vfs.ReadFile(draftFile);
      draft := r.value;
    }
    faqs := FaqsOfParsed(Parsed(generate(ResearchExcerpt(research), Prefix(draft, 3000)), parse));
  }

  /** The try block after the call: fall back, or validate the items. */
  method FaqsOfParsed(parsed: Option<Value>) returns (faqs: seq<FAQItem>)
    ensures faqs == FaqsFromParsed(parsed)
  {
    if parsed.None? {
      return FallbackFaqs;
    }
    match parsed.value {
      case Arr(items) =>
        faqs := Validate(items);
      case Str(_) =>
        faqs := [];
      case Obj(_) =>
        faqs := [];
      case _ =>
        faqs := FallbackFaqs;
    }
  }

  /** Any failure to get or parse a reply, or a parsed number, boolean or
      null, gives exactly the three fixed FAQs. */
  lemma FailureGivesFallback(parsed: Option<Value>)
    requires parsed.None? || parsed.value.Num? || parsed.value.Bool? || parsed.value.Null?
    ensures FaqsFromParsed(parsed) == FallbackFaqs
    ensures |FallbackFaqs| == 3
  {
  }

  /** Only the research notes and the draft reach the model: saving any other
      file changes nothing. */
  lemma OtherFilesIgnored(data: Store, draftFile: string, name: string, content: string,
                          metadata: Option<map<string, string>>,
                          generate: (string, string) -> Option<string>, parse: string -> Option<Value>)
    requires data.Valid() && !Writer.IsResearch(name) && name != draftFile
    ensures ExtractedFaqs(data.Write(name, content, metadata), draftFile, generate, parse)
            == ExtractedFaqs(data, draftFile, generate, parse)
  {
    var t := data.Write(name, content, metadata);
    SameResearchNotes(data, name, content, metadata);
    assert t.ContentOr(draftFile) == data.ContentOr(draftFile);
    var research := ResearchExcerpt(Contents(Writer.ResearchFiles(data, data.names)));
    assert ResearchExcerpt(Contents(Writer.ResearchFiles(t, t.names))) == research;
  }

  lemma SameResearchNotes(data: Store, name: string, content: string, metadata: Option<map<string, string>>)
    requires data.Valid() && !Writer.IsResearch(name)
    ensures var t := data.Write(name, content, metadata);
            Writer.ResearchFiles(t, t.names) == Writer.ResearchFiles(data, data.names)
  {
    var t := data.Write(name, content, metadata);
    forall n | n in data.names && Writer.IsResearch(n)
      ensures (n in data.files <==> n in t.files) && (n in data.files ==> data.files[n] == t.files[n])
    {
      assert n != name;
    }
    Writer.SameResearchFiles(data, t, data.names);
    if name !in data.files {
      assert t.names[..|t.names| - 1] == data.names;
    }
  }

  /** One FAQ rendered as a level-3 heading and its answer. */
  function FaqBlock(f: FAQItem): string {
    "### " + f.question + "\n\n" + f.answer + "\n\n"
  }

  function FaqMarkdown(faqs: seq<FAQItem>): string {
    Header + ConcatMap(faqs, FaqBlock)
  }

  /** `format_faq_node`: the FAQs are returned unchanged; with none, the
      store is left alone (None); otherwise the section is saved under
      "faq_section.md" with empty metadata. */
  method FormatFaq(faqs: seq<FAQItem>, data: Store) returns (outFaqs: seq<FAQItem>, store: Option<Store>)
    requires data.Valid()
    ensures outFaqs == faqs
    ensures faqs == [] ==> store.None?
    ensures faqs != [] ==> store == Some(data.Write(FaqFile, FaqMarkdown(faqs), None))
  {
    if faqs == [] {
      return [], None;
    }
    var md := Header;
    for i := 0 to |faqs|
      invariant md == Header + ConcatMap(faqs[..i], FaqBlock)
    {
      assert faqs[..i + 1][..i] == faqs[..i];
      md := md + "### " + faqs[i].question + "\n\n" + faqs[i].answer + "\n\n";
    }
    assert faqs[..|faqs|] == faqs;
    var vfs := new VFS.FromData(data);
    vfs.WriteFile(FaqFile, md, None);
    return faqs, Some(vfs.Data());
  }

  /** The section starts with the fixed header, and FAQ `k`'s block follows
      the blocks of the FAQs before it; saving it touches no other file. */
  lemma SectionLayout(faqs: seq<FAQItem>, data: Store, k: nat)
    requires data.Valid() && k < |faqs|
    ensures Header <= FaqMarkdown(faqs)
    ensures OccursAt(FaqMarkdown(faqs), "### " + faqs[k].question + "\n\n" + faqs[k].answer + "\n\n",
                     |Header| + |ConcatMap(faqs[..k], FaqBlock)|)
    ensures var out := data.Write(FaqFile, FaqMarkdown(faqs), None);
            out.Read(FaqFile) == Ok(FaqMarkdown(faqs))
            && forall n :: n != FaqFile ==> out.Get(n) == data.Get(n)
  {
    var body := ConcatMap(faqs, FaqBlock);
    ConcatMapOccurs(faqs, FaqBlock, k);
    var i := |ConcatMap(faqs[..k], FaqBlock)|;
    var b := FaqBlock(faqs[k]);
    assert (Header + body)[|Header| + i..|Header| + i + |b|] == body[i..i + |b|];
    ReadAfterWrite(data, FaqFile, FaqMarkdown(faqs), None);
    WriteFrame(data, FaqFile, FaqMarkdown(faqs), None);
  }

  // ------------------------------------------------------------- the graph

  /** The sub-graph: `extract_questions` then `format_faq`. The FAQs the
      extraction produced pass through the formatter; the section is saved
      exactly when there is at least one, and any failure of the model or
      the parser leaves the three fixed FAQs saved as the section. */
  method RunFaqGraph(data: Store, draftFile: string, generate: (string, string) -> Option<string>,
                     parse: string -> Option<Value>)
    returns (faqs: seq<FAQItem>, store: Store)
    requires data.Valid()
    ensures faqs == ExtractedFaqs(data, draftFile, generate, parse)
    ensures store.Valid()
    ensures faqs == [] ==> store == data
    ensures faqs != [] ==> store.Read(FaqFile) == Ok(FaqMarkdown(faqs))
    ensures forall n :: n != FaqFile ==> store.Get(n) == data.Get(n)
    ensures Parsed(generate(ResearchExcerpt(Contents(Writer.ResearchFiles(data, data.names))),
                            Prefix(data.ContentOr(draftFile), 3000)), parse).None?
            ==> faqs == FallbackFaqs && store.Read(FaqFile) == Ok(FaqMarkdown(FallbackFaqs))
  {
    faqs := ExtractQuestions(data, draftFile, generate, parse);
    var formatted, saved := FormatFaq(faqs, data);
    faqs := formatted;
    store := data;
    if saved.Some? {
      store := saved.value;
      ReadAfterWrite(data, FaqFile, FaqMarkdown(faqs), None);
      WriteFrame(data, FaqFile, FaqMarkdown(faqs), None);
    }
  }
}

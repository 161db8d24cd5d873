/** The linking graph: a model suggests internal links (three fixed ones on
    failure), then external sources to cite, completed with the urls of the
    research notes; the report is rendered as two markdown tables saved to
    the store. */
module Linking {
  import opened Wrappers
  import opened Json
  import opened Text
  import opened Reply
  import opened Vfs
  import opened State
  import Writer

  const ReportFile: string := "linking_report.md"

  /** The sub-graph's state; the external step reads the report the
      internal step produced (see `RunLinkingGraph`). */
  datatype LinkingState = LinkingState(vfsData: Store, draftFile: string, topic: string,
                                       linkingReport: LinkingReport)

  // -------------------------------------------------------- internal links

  /** A parsed item the internal validation keeps. */
  predicate IsInternalObject(v: Value) {
    v.Obj? && "anchor_text" in v.fields
  }

  function ToInternal(v: Value): InternalLink
    requires IsInternalObject(v)
  {
    InternalLink(PyStr(v.fields["anchor_text"]), PyStr(Get(v.fields, "suggested_target", Str(""))),
                 PyStr(Get(v.fields, "context", Str(""))))
  }

  /** The kept items, in order, with their fields stringified. */
  function ValidInternal(items: seq<Value>): (r: seq<InternalLink>)
    ensures |r| <= |items|
    decreases |items|
  {
    if items == [] then []
    else
      var last := items[|items| - 1];
      ValidInternal(items[..|items| - 1]) + (if IsInternalObject(last) then [ToInternal(last)] else [])
  }

  /** Every kept link comes from an item with an anchor text. */
  lemma {:induction false} ValidInternalFrom(items: seq<Value>, j: nat)
    requires j < |ValidInternal(items)|
    ensures exists k :: 0 <= k < |items| && IsInternalObject(items[k]) && ValidInternal(items)[j] == ToInternal(items[k])
    decreases |items|
  {
    var init := items[..|items| - 1];
    var last := items[|items| - 1];
    var ri := ValidInternal(init);
    assert ValidInternal(items) == ri + (if IsInternalObject(last) then [ToInternal(last)] else []);
    if j < |ri| {
      ValidInternalFrom(init, j);
      var k :| 0 <= k < |init| && IsInternalObject(init[k]) && ri[j] == ToInternal(init[k]);
      assert items[k] == init[k];
    } else {
      assert ValidInternal(items)[j] == ToInternal(items[|items| - 1]);
    }
  }

  /** When every item has an anchor text, every item is kept, in order. */
  lemma {:induction false} ValidInternalAll(items: seq<Value>)
    requires forall k :: 0 <= k < |items| ==> IsInternalObject(items[k])
    ensures |ValidInternal(items)| == |items|
    ensures forall k :: 0 <= k < |items| ==> ValidInternal(items)[k] == ToInternal(items[k])
    decreases |items|
  {
    if items != [] {
      var init := items[..|items| - 1];
      assert forall k :: 0 <= k < |init| ==> init[k] == items[k];
      ValidInternalAll(init);
      var ri := ValidInternal(init);
      assert ValidInternal(items) == ri + [ToInternal(items[|items| - 1])];
      forall k | 0 <= k < |items| ensures ValidInternal(items)[k] == ToInternal(items[k]) {
        if k < |init| {
          assert ValidInternal(items)[k] == ri[k];
        }
      }
    }
  }

  /** Validation works item by item: the links kept from a concatenation
      are those kept from each part, so a valid item among invalid ones is
      still kept, in its place. */
  lemma {:induction false} ValidInternalAppend(a: seq<Value>, b: seq<Value>)
    ensures ValidInternal(a + b) == ValidInternal(a) + ValidInternal(b)
    decreases |b|
  {
    if b == [] {
      assert a + b == a;
    } else {
      var b' := b[..|b| - 1];
      ValidInternalAppend(a, b');
      assert (a + b)[..|a + b| - 1] == a + b';
    }
  }

  /** The validation loop over the first five items. */
  method ValidateInternal(items: seq<Value>) returns (kept: seq<InternalLink>)
    ensures kept == ValidInternal(items)
  {
    kept := [];
    for i := 0 to |items|
      invariant kept == ValidInternal(items[..i])
    {
      assert items[..i + 1][..i] == items[..i];
      var link := items[i];
      if link.Obj? && "anchor_text" in link.fields {
        kept := kept + [InternalLink(PyStr(link.fields["anchor_text"]),
                                     PyStr(Get(link.fields, "suggested_target", Str(""))),
                                     PyStr(Get(link.fields, "context", Str(""))))];
      }
    }
    assert items[..|items|] == items;
  }

  /** The links a parsed `internal_links` value yields: the valid ones among
      its first five items. A string slices into characters, none of them a
      link; slicing any other non-list raises (None). */
  function InternalFromValue(v: Value): (r: Option<seq<InternalLink>>)
    ensures r.Some? ==> |r.value| <= 5
  {
    match v
    case Arr(items) => Some(ValidInternal(Prefix(items, 5)))
    case Str(_) => Some([])
    case _ => None
  }

  /** The suggestions a parse outcome yields, None on any failure. */
  function InternalFromParsed(parsed: Option<Value>): Option<seq<InternalLink>> {
    if parsed.None? || !parsed.value.Obj? then None
    else InternalFromValue(Get(parsed.value.fields, "internal_links", Arr([])))
  }

  const BestPractices: string := "best practices"
  const GettingStarted: string := "getting started"

  /** The three fixed suggestions. Building the first anchor takes the
      topic's first word, which raises when the topic has none (None). */
  function FallbackLinks(topic: string): (r: Option<seq<InternalLink>>)
    ensures r.None? <==> forall k :: 0 <= k < |topic| ==> IsSpace(topic[k])
    ensures r.Some? ==> |r.value| == 3
  {
    match FirstField(topic)
    case None => None
    case Some(word) =>
      Some([InternalLink(word + " guide", "Complete Guide to " + topic, "Link from introduction to comprehensive guide"),
            InternalLink(BestPractices, topic + " Best Practices", "Link from practical tips section"),
            InternalLink(GettingStarted, topic + " for Beginners", "Link for newcomers to the topic")])
  }

  /** Each fixed suggestion points at a page named after the whole topic;
      the first anchor is the topic's first word. */
  lemma FallbackNamesTopic(topic: string)
    requires FallbackLinks(topic).Some?
    ensures var links := FallbackLinks(topic).value;
            && Contains(links[0].suggestedTarget, topic)
            && Contains(links[1].suggestedTarget, topic)
            && Contains(links[2].suggestedTarget, topic)
            && links[0].anchorText == FirstField(topic).value + " guide"
  {
    EndsWith("Complete Guide to ", topic);
    StartsWith(topic, " Best Practices");
    StartsWith(topic, " for Beginners");
  }

  lemma StartsWith(a: string, b: string)
    ensures Contains(a + b, a)
  {
    assert OccursAt(a + b, a, 0);
    ContainsIff(a + b, a);
  }

  lemma EndsWith(a: string, b: string)
    ensures Contains(a + b, b)
  {
    assert (a + b)[|a|..|a| + |b|] == b;
    assert OccursAt(a + b, b, |a|);
    ContainsIff(a + b, b);
  }

  /** `suggest_internal_links_node`: the model sees the topic and the first
      5000 characters of the draft. The report has no external links yet;
      None means the fallback itself raised. */
  function SuggestInternal(data: Store, draftFile: string, topic: string,
                           model: (string, string) -> Option<string>, parse: string -> Option<Value>)
    : (r: Option<LinkingReport>)
    ensures r.Some? ==> r.value.externalLinks == [] && |r.value.internalLinks| <= 5
    ensures r.None? ==> forall k :: 0 <= k < |topic| ==> IsSpace(topic[k])
  {
    var parsed := Parsed(model(topic, Prefix(data.ContentOr(draftFile), 5000)), parse);
    match InternalFromParsed(parsed)
    case Some(links) => Some(LinkingReport(links, []))
    case None =>
      match FallbackLinks(topic)
      case Some(links) => Some(LinkingReport(links, []))
      case None => None
  }

  method SuggestInternalLinks(s: LinkingState, model: (string, string) -> Option<string>,
                              parse: string -> Option<Value>)
    returns (r: Option<LinkingReport>)
    requires s.vfsData.Valid()
    ensures r == SuggestInternal(s.vfsData, s.draftFile, s.topic, model, parse)
  {
    var vfs := new VFS.FromData(s.vfsData);
    var draft := "";
    var present := vfs.Exists(s.draftFile);
    if present {
      var f := vfs.ReadFile(s.draftFile);
      draft := f.value;
    }
    var parsed := Parsed(model(s.topic, Prefix(draft, 5000)), parse);
    var links := InternalFromParsed(parsed);
    if links.Some? {
      return Some(LinkingReport(links.value, []));
    }
    var fallback := FallbackLinks(s.topic);
    if fallback.None? {
      return None;
    }
    return Some(LinkingReport(fallback.value, []));
  }

  /** Any failure with a topic that has a word gives the three fixed
      suggestions: a guide named after the first word, best practices and
      getting started. */
  lemma FailureGivesFallback(data: Store, draftFile: string, topic: string,
                             model: (string, string) -> Option<string>, parse: string -> Option<Value>)
    requires InternalFromParsed(Parsed(model(topic, Prefix(data.ContentOr(draftFile), 5000)), parse)).None?
    requires FirstField(topic).Some?
    ensures var r := SuggestInternal(data, draftFile, topic, model, parse);
            && r.Some? && |r.value.internalLinks| == 3
            && r.value.internalLinks[0].anchorText == FirstField(topic).value + " guide"
            && r.value.internalLinks[1].anchorText == BestPractices
            && r.value.internalLinks[2].anchorText == GettingStarted
  {
  }

  /** A parse that fails, or a parsed value that is not an object, or an
      `internal_links` entry that is neither a list nor a string, is such a
      failure. */
  lemma FailureCases(parsed: Option<Value>)
    requires parsed.None? || !parsed.value.Obj?
             || (var v := Get(parsed.value.fields, "internal_links", Arr([]));
                 !v.Arr? && !v.Str?)
    ensures InternalFromParsed(parsed).None?
  {
  }

  // -------------------------------------------------------- external links

  /** The url a research note's metadata gives, when it counts as a source:
      present, not empty and not "unknown". */
  function SourceUrl(f: File): Option<string> {
    if |f.metadata| == 0 then None
    else
      var url := if "url" in f.metadata then f.metadata["url"] else "";
      if url != "" && url != "unknown" then Some(url) else None
  }

  /** The research sources among `names`, in listing order. */
  function Sources(s: Store, names: seq<string>): (r: seq<string>)
    ensures forall j :: 0 <= j < |r| ==> r[j] != "" && r[j] != "unknown"
    decreases |names|
  {
    if names == [] then []
    else
      var n := names[|names| - 1];
      var more := if Writer.IsResearch(n) && n in s.files && SourceUrl(s.files[n]).Some?
                  then [SourceUrl(s.files[n]).value] else [];
      Sources(s, names[..|names| - 1]) + more
  }

  /** Every source is the url of some research note among the names. */
  lemma {:induction false} SourcesComeFromNotes(s: Store, names: seq<string>, j: nat)
    requires j < |Sources(s, names)|
    ensures exists n :: n in names && Writer.IsResearch(n) && n in s.files
                        && SourceUrl(s.files[n]) == Some(Sources(s, names)[j])
    decreases |names|
  {
    var init := names[..|names| - 1];
    var n := names[|names| - 1];
    if j < |Sources(s, init)| {
      SourcesComeFromNotes(s, init, j);
      var m :| m in init && Writer.IsResearch(m) && m in s.files && SourceUrl(s.files[m]) == Some(Sources(s, init)[j]);
      assert m in names;
    } else {
      assert Sources(s, names)[j] == SourceUrl(s.files[n]).value;
    }
  }

  lemma SourcesStep(s: Store, names: seq<string>, i: nat)
    requires i < |names|
    ensures var n := names[i];
            Sources(s, names[..i + 1])
            == Sources(s, names[..i])
               + (if Writer.IsResearch(n) && n in s.files && SourceUrl(s.files[n]).Some?
                  then [SourceUrl(s.files[n]).value] else [])
  {
    assert names[..i + 1][..i] == names[..i];
  }

  /** The research-source loop. */
  method ResearchSources(data: Store) returns (sources: seq<string>)
    requires data.Valid()
    ensures sources == Sources(data, data.names)
  {
    var vfs := new VFS.FromData(data);
    var names := vfs.ListFiles();
    sources := [];
    for i := 0 to |names|
      invariant vfs.Data() == data && names == data.names
      invariant sources == Sources(data, names[..i])
    {
      SourcesStep(data, names, i);
      ListedIsStored(data, i);
      if Writer.IsResearch(names[i]) {
        var f := vfs.GetFile(names[i]);
        var url := SourceUrl(f.value);
        if url.Some? {
          sources := sources + [url.value];
        }
      }
    }
    assert names[..|names|] == names;
  }

  predicate IsExternalObject(v: Value) {
    v.Obj? && "source_name" in v.fields
  }

  function ToExternal(v: Value): ExternalLink
    requires IsExternalObject(v)
  {
    ExternalLink(PyStr(v.fields["source_name"]), PyStr(Get(v.fields, "url", Str(""))),
                 PyStr(Get(v.fields, "anchor_text", Str(""))), PyStr(Get(v.fields, "placement_context", Str(""))))
  }

  function ValidExternal(items: seq<Value>): (r: seq<ExternalLink>)
    ensures |r| <= |items|
    decreases |items|
  {
    if items == [] then []
    else
      var last := items[|items| - 1];
      ValidExternal(items[..|items| - 1]) + (if IsExternalObject(last) then [ToExternal(last)] else [])
  }

  /** Every kept source comes from an item with a source name. */
  lemma {:induction false} ValidExternalFrom(items: seq<Value>, j: nat)
    requires j < |ValidExternal(items)|
    ensures exists k :: 0 <= k < |items| && IsExternalObject(items[k]) && ValidExternal(items)[j] == ToExternal(items[k])
    decreases |items|
  {
    var init := items[..|items| - 1];
    var last := items[|items| - 1];
    var ri := ValidExternal(init);
    assert ValidExternal(items) == ri + (if IsExternalObject(last) then [ToExternal(last)] else []);
    if j < |ri| {
      ValidExternalFrom(init, j);
      var k :| 0 <= k < |init| && IsExternalObject(init[k]) && ri[j] == ToExternal(init[k]);
      assert items[k] == init[k];
    } else {
      assert ValidExternal(items)[j] == ToExternal(items[|items| - 1]);
    }
  }

  /** Validation works item by item, as for the internal links. */
  lemma {:induction false} ValidExternalAppend(a: seq<Value>, b: seq<Value>)
    ensures ValidExternal(a + b) == ValidExternal(a) + ValidExternal(b)
    decreases |b|
  {
    if b == [] {
      assert a + b == a;
    } else {
      var b' := b[..|b| - 1];
      ValidExternalAppend(a, b');
      assert (a + b)[..|a + b| - 1] == a + b';
    }
  }

  method ValidateExternal(items: seq<Value>) returns (kept: seq<ExternalLink>)
    ensures kept == ValidExternal(items)
  {
    kept := [];
    for i := 0 to |items|
      invariant kept == ValidExternal(items[..i])
    {
      assert items[..i + 1][..i] == items[..i];
      var link := items[i];
      if link.Obj? && "source_name" in link.fields {
        kept := kept + [ExternalLink(PyStr(link.fields["source_name"]), PyStr(Get(link.fields, "url", Str(""))),
                                     PyStr(Get(link.fields, "anchor_text", Str(""))),
                                     PyStr(Get(link.fields, "placement_context", Str(""))))];
      }
    }
    assert items[..|items|] == items;
  }

  function Urls(links: seq<ExternalLink>): (r: seq<string>)
    ensures |r| == |links| && forall j :: 0 <= j < |links| ==> r[j] == links[j].url
  {
    seq(|links|, j requires 0 <= j < |links| => links[j].url)
  }

  /** The record a research source becomes after a model reply. */
  function CitedSource(url: string): ExternalLink {
    ExternalLink("Research Source", url, "according to research", "Primary research source used for this article")
  }

  /** The record a research source becomes when the model failed. */
  function FallbackSource(url: string): ExternalLink {
    ExternalLink("Research Source", url, "according to research", "Primary research source")
  }

  /** The completion loop: each url not yet cited by the list as it has
      grown so far is appended. */
  function WithSources(links: seq<ExternalLink>, urls: seq<string>): (r: seq<ExternalLink>)
    decreases |urls|
  {
    if urls == [] then links
    else
      var w := WithSources(links, urls[..|urls| - 1]);
      var u := urls[|urls| - 1];
      if u in Urls(w) then w else w + [CitedSource(u)]
  }

  /** The completion keeps the model's links first and unchanged, cites
      every url, and adds only citations of urls the list did not have,
      each once. */
  lemma {:induction false} WithSourcesShape(links: seq<ExternalLink>, urls: seq<string>)
    ensures var r := WithSources(links, urls);
            && links <= r && |r| <= |links| + |urls|
            && (forall u :: u in urls ==> u in Urls(r))
            && (forall j :: |links| <= j < |r| ==> r[j] == CitedSource(r[j].url) && r[j].url in urls
                                                   && r[j].url !in Urls(links))
            && (forall i, j :: |links| <= i < j < |r| ==> r[i].url != r[j].url)
    decreases |urls|
  {
    if urls != [] {
      var init := urls[..|urls| - 1];
      var u := urls[|urls| - 1];
      WithSourcesShape(links, init);
      var w := WithSources(links, init);
      var r := WithSources(links, urls);
      assert urls == init + [u];
      forall v | v in urls ensures v in Urls(r) {
        if v in init {
          var i :| 0 <= i < |Urls(w)| && Urls(w)[i] == v;
          assert Urls(r)[i] == v;
        } else {
          assert v == u;
          if u !in Urls(w) {
            assert Urls(r)[|w|] == u;
          }
        }
      }
      if u !in Urls(w) {
        assert Urls(links) <= Urls(w) by {
          assert forall i :: 0 <= i < |links| ==> Urls(links)[i] == Urls(w)[i];
        }
        forall i | |links| <= i < |w| ensures w[i].url != u {
          assert Urls(w)[i] == w[i].url;
        }
      }
    }
  }

  /** The external links a parsed `external_links` value yields: the valid
      ones among its first four items; None where slicing raises. */
  function ExternalFromValue(v: Value): (r: Option<seq<ExternalLink>>)
    ensures r.Some? ==> |r.value| <= 4
  {
    match v
    case Arr(items) => Some(ValidExternal(Prefix(items, 4)))
    case Str(_) => Some([])
    case _ => None
  }

  function ExternalFromParsed(parsed: Option<Value>): Option<seq<ExternalLink>> {
    if parsed.None? || !parsed.value.Obj? then None
    else ExternalFromValue(Get(parsed.value.fields, "external_links", Arr([])))
  }

  /** The report after `suggest_external_links_node`. On success the
      external links become the valid suggestions completed with the first
      two research sources, cut to four; on failure the first two sources
      are appended to the links already there. Internal links are kept. */
  function Externalised(report: LinkingReport, sources: seq<string>, suggested: Option<seq<ExternalLink>>)
    : (r: LinkingReport)
    ensures r.internalLinks == report.internalLinks
    ensures suggested.Some? ==> |r.externalLinks| <= 4
  {
    match suggested
    case Some(links) => report.(externalLinks := Prefix(WithSources(links, Prefix(sources, 2)), 4))
    case None =>
      var cited := Prefix(sources, 2);
      report.(externalLinks := report.externalLinks
                               + seq(|cited|, j requires 0 <= j < |cited| => FallbackSource(cited[j])))
  }

  /** The sub-graph's second step, as a function of the store. The model
      sees the topic, the first five sources and the first 3000 characters
      of the draft. */
  function SuggestedExternal(s: LinkingState, model: (string, seq<string>, string) -> Option<string>,
                             parse: string -> Option<Value>): LinkingReport
  {
    var sources := Sources(s.vfsData, s.vfsData.names);
    var reply := model(s.topic, Prefix(sources, 5), Prefix(s.vfsData.ContentOr(s.draftFile), 3000));
    Externalised(s.linkingReport, sources, ExternalFromParsed(Parsed(reply, parse)))
  }

  /** The completion loop of the success path. */
  method AddSources(links: seq<ExternalLink>, urls: seq<string>) returns (r: seq<ExternalLink>)
    ensures r == WithSources(links, urls)
  {
    r := links;
    for i := 0 to |urls|
      invariant r == WithSources(links, urls[..i])
    {
      assert urls[..i + 1][..i] == urls[..i];
      var cited := false;
      for j := 0 to |r|
        invariant cited <==> urls[i] in Urls(r[..j])
      {
        assert Urls(r[..j + 1]) == Urls(r[..j]) + [r[j].url];
        if r[j].url == urls[i] {
          cited := true;
        }
      }
      assert r[..|r|] == r;
      if !cited {
        r := r + [CitedSource(urls[i])];
      }
    }
    assert urls[..|urls|] == urls;
  }

  /** The append loop of the failure path. */
  method AppendFallbackSources(links: seq<ExternalLink>, urls: seq<string>) returns (r: seq<ExternalLink>)
    ensures r == links + seq(|urls|, j requires 0 <= j < |urls| => FallbackSource(urls[j]))
  {
    r := links;
    for i := 0 to |urls|
      invariant r == links + seq(i, j requires 0 <= j < i => FallbackSource(urls[j]))
    {
      r := r + [FallbackSource(urls[i])];
    }
  }

  /** `suggest_external_links_node`: the report is always saved under
      "linking_report.md" with empty metadata. */
  method SuggestExternalLinks(s: LinkingState, model: (string, seq<string>, string) -> Option<string>,
                              parse: string -> Option<Value>)
    returns (report: LinkingReport, store: Store)
    requires s.vfsData.Valid()
    ensures report == SuggestedExternal(s, model, parse)
    ensures store == s.vfsData.Write(ReportFile, LinkingMarkdown(report), None)
  {
    var sources := ResearchSources(s.vfsData);
    var vfs := new VFS.FromData(s.vfsData);
    var draft := "";
    var present := vfs.Exists(s.draftFile);
    if present {
      var f := vfs.ReadFile(s.draftFile);
      draft := f.value;
    }
    var reply := model(s.topic, Prefix(sources, 5), Prefix(draft, 3000));
    var suggested := ExternalFromParsed(Parsed(reply, parse));
    report := s.linkingReport;
    if suggested.Some? {
      var validated := suggested.value;
      validated := AddSources(validated, Prefix(sources, 2));
      report := report.(externalLinks := Prefix(validated, 4));
    } else {
      var links := AppendFallbackSources(report.externalLinks, Prefix(sources, 2));
      report := report.(externalLinks := links);
    }
    var md := FormatLinkingReport(report);
    vfs.WriteFile(ReportFile, md, None);
    store := vfs.Data();
  }

  /** On success the model's valid suggestions come first, unchanged; when
      there are at most two of them, each of the first two research sources
      is cited, and no source is cited twice. */
  lemma SuccessCitesSources(report: LinkingReport, sources: seq<string>, links: seq<ExternalLink>)
    requires |links| <= 4
    ensures var ext := Externalised(report, sources, Some(links)).externalLinks;
            && links <= ext
            && (|links| <= 2 ==> forall u :: u in Prefix(sources, 2) ==> u in Urls(ext))
            && (forall i, j :: |links| <= i < j < |ext| ==> ext[i].url != ext[j].url)
            && (forall j :: |links| <= j < |ext| ==> ext[j].url !in Urls(links))
  {
    var w := WithSources(links, Prefix(sources, 2));
    WithSourcesShape(links, Prefix(sources, 2));
    var ext := Prefix(w, 4);
    assert links <= ext by {
      assert ext == w[..|ext|];
    }
    if |links| <= 2 {
      assert ext == w;
    }
  }

  /** On failure the links already in the report stay, followed by one
      record per research source among the first two. */
  lemma FailureAppendsSources(report: LinkingReport, sources: seq<string>)
    ensures var ext := Externalised(report, sources, None).externalLinks;
            && report.externalLinks <= ext
            && |ext| == |report.externalLinks| + |Prefix(sources, 2)|
            && forall j :: 0 <= j < |Prefix(sources, 2)| ==>
                 ext[|report.externalLinks| + j] == FallbackSource(sources[j])
  {
  }

  // ------------------------------------------------------------- formatting

  const Title: string := "## \U{1F517} Linking Strategy Report\n\n"
  const InternalHeader: string :=
    "### Internal Links (3-5 Suggestions)\n\n"
    + "| Anchor Text | Suggested Target Page | Context |\n"
    + "|-------------|----------------------|----------|\n"
  const ExternalHeader: string :=
    "### External Links (Authoritative Sources)\n\n"
    + "| Source | URL | Anchor Text | Placement |\n"
    + "|--------|-----|-------------|----------|\n"

  /** A url as the table shows it: the first 50 characters and an ellipsis
      when it is longer. */
  function ShortUrl(url: string): (r: string)
    ensures |url| <= 50 ==> r == url
    ensures |url| > 50 ==> |r| == 53 && r[..50] == url[..50] && r[50..] == "..."
  {
    if |url| > 50 then url[..50] + "..." else url
  }

  function InternalRow(l: InternalLink): string {
    "| " + l.anchorText + " | " + l.suggestedTarget + " | " + l.context + " |\n"
  }

  function ExternalRow(l: ExternalLink): string {
    "| " + l.sourceName + " | " + ShortUrl(l.url) + " | " + l.anchorText + " | " + l.placementContext + " |\n"
  }

  /** `format_linking_report`. */
  function LinkingMarkdown(report: LinkingReport): string {
    BeforeExternalRows(report) + ConcatMap(report.externalLinks, ExternalRow)
  }

  /** Everything up to the external table's rows. */
  function BeforeExternalRows(report: LinkingReport): string {
    Title + InternalHeader + ConcatMap(report.internalLinks, InternalRow) + "\n" + ExternalHeader
  }

  /** The first table's rows. */
  method InternalRows(links: seq<InternalLink>) returns (rows: string)
    ensures rows == ConcatMap(links, InternalRow)
  {
    rows := "";
    for i := 0 to |links|
      invariant rows == ConcatMap(links[..i], InternalRow)
    {
      assert links[..i + 1][..i] == links[..i];
      rows := rows + "| " + links[i].anchorText + " | " + links[i].suggestedTarget + " | " + links[i].context + " |\n";
    }
    assert links[..|links|] == links;
  }

  /** The second table's rows, long urls shortened. */
  method ExternalRows(links: seq<ExternalLink>) returns (rows: string)
    ensures rows == ConcatMap(links, ExternalRow)
  {
    rows := "";
    for i := 0 to |links|
      invariant rows == ConcatMap(links[..i], ExternalRow)
    {
      assert links[..i + 1][..i] == links[..i];
      rows := rows + ExternalRow(links[i]);
    }
    assert links[..|links|] == links;
  }

  method FormatLinkingReport(report: LinkingReport) returns (md: string)
    ensures md == LinkingMarkdown(report)
  {
    var rows := InternalRows(report.internalLinks);
    md := Title + InternalHeader + rows + "\n";
    rows := ExternalRows(report.externalLinks);
    md := md + ExternalHeader + rows;
  }

  /** Internal link `k` is a row of the first table, after the rows before
      it. */
  lemma InternalListed(report: LinkingReport, k: nat)
    requires k < |report.internalLinks|
    ensures OccursAt(LinkingMarkdown(report), InternalRow(report.internalLinks[k]),
                     |Title| + |InternalHeader| + |ConcatMap(report.internalLinks[..k], InternalRow)|)
  {
    var b := InternalRow(report.internalLinks[k]);
    var i := |Title| + |InternalHeader| + |ConcatMap(report.internalLinks[..k], InternalRow)|;
    ConcatMapOccursAfter(Title + InternalHeader, report.internalLinks, InternalRow, k);
    var x := Title + InternalHeader + ConcatMap(report.internalLinks, InternalRow);
    OccursExtend(x, "\n", b, i);
    x := x + "\n";
    OccursExtend(x, ExternalHeader, b, i);
    x := x + ExternalHeader;
    assert x == BeforeExternalRows(report);
    OccursExtend(x, ConcatMap(report.externalLinks, ExternalRow), b, i);
  }

  /** External link `k` is a row of the second table, after the rows before
      it; the table ends the report. */
  lemma ExternalListed(report: LinkingReport, k: nat)
    requires k < |report.externalLinks|
    ensures var md := LinkingMarkdown(report);
            var rows := ConcatMap(report.externalLinks, ExternalRow);
            |rows| <= |md| && md[|md| - |rows|..] == rows
            && OccursAt(md, ExternalRow(report.externalLinks[k]),
                        |md| - |rows| + |ConcatMap(report.externalLinks[..k], ExternalRow)|)
  {
    var x := BeforeExternalRows(report);
    ConcatMapOccursAfter(x, report.externalLinks, ExternalRow, k);
    SuffixAfter(x, ConcatMap(report.externalLinks, ExternalRow));
  }

  // ------------------------------------------------------------- the graph

  /** The sub-graph: `suggest_internal` then `suggest_external`, the second
      node reading the report the first one produced. None marks the
      internal step's fallback raising on a topic with no word. Whatever the
      models answer, the internal links survive the external step, there
      are at most five of them and at most four external links, and the
      rendered report is saved. */
  method RunLinkingGraph(s: LinkingState, internalModel: (string, string) -> Option<string>,
                         externalModel: (string, seq<string>, string) -> Option<string>,
                         parse: string -> Option<Value>)
    returns (r: Option<LinkingState>)
    requires s.vfsData.Valid()
    ensures r.None? <==> SuggestInternal(s.vfsData, s.draftFile, s.topic, internalModel, parse).None?
    ensures r.Some? ==>
              var internal := SuggestInternal(s.vfsData, s.draftFile, s.topic, internalModel, parse).value;
              && r.value.draftFile == s.draftFile && r.value.topic == s.topic
              && r.value.linkingReport == SuggestedExternal(s.(linkingReport := internal), externalModel, parse)
              && r.value.linkingReport.internalLinks == internal.internalLinks
    ensures r.Some? ==> |r.value.linkingReport.internalLinks| <= 5 && |r.value.linkingReport.externalLinks| <= 4
    ensures r.Some? ==> r.value.vfsData.Read(ReportFile) == Ok(LinkingMarkdown(r.value.linkingReport))
    ensures r.Some? ==> forall n :: n != ReportFile ==> r.value.vfsData.Get(n) == s.vfsData.Get(n)
  {
    var internal := SuggestInternalLinks(s, internalModel, parse);
    if internal.None? {
      return None;
    }
    var report, store := SuggestExternalLinks(s.(linkingReport := internal.value), externalModel, parse);
    ReadAfterWrite(s.vfsData, ReportFile, LinkingMarkdown(report), None);
    WriteFrame(s.vfsData, ReportFile, LinkingMarkdown(report), None);
    return Some(s.(linkingReport := report, vfsData := store));
  }
}

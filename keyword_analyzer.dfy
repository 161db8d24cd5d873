/** The keyword-analysis graph: a model names the primary, secondary and
    semantically related keywords of the draft; the analysis then counts
    keyword densities, adds SEO recommendations and saves a markdown
    report to the store. */
module KeywordAnalyzer {
  import opened Wrappers
  import opened Json
  import opened Text
  import opened Reply
  import opened Vfs
  import opened State

  const ReportFile: string := "keyword_report.md"

  /** The sub-graph's state. */
  datatype KeywordState = KeywordState(vfsData: Store, draftFile: string, topic: string,
                                       keywordReport: KeywordReport)

  // ------------------------------------------------------------ extraction

  const ExtractionFailed: string := "Unable to extract keywords automatically"

  /** The report the extraction falls back to on any failure. */
  function FallbackReport(topic: string): KeywordReport {
    KeywordReport(topic, [], [], [], [ExtractionFailed], None)
  }

  /** A parsed list of strings, or None when the value is not one. */
  function Strings(v: Value): (r: Option<seq<string>>)
    ensures r.Some? ==> v.Arr? && |r.value| == |v.items|
                        && forall k :: 0 <= k < |v.items| ==> v.items[k] == Str(r.value[k])
    ensures v.Arr? && (forall k :: 0 <= k < |v.items| ==> v.items[k].Str?) ==> r.Some?
  {
    if v.Arr? && forall k :: 0 <= k < |v.items| ==> v.items[k].Str? then
      Some(seq(|v.items|, k requires 0 <= k < |v.items| => v.items[k].s))
    else None
  }

  /** The report a parsed reply yields. A value that is not an object makes
      `.get` raise, which falls back. None marks an object whose fields do
      not have the declared types (see README, "Left out"). */
  function ReportFromValue(topic: string, v: Value): (r: Option<KeywordReport>)
    ensures r.Some? ==> r.value.density == [] && r.value.totalWords.None?
                        && (r.value.recommendations == [] || r.value == FallbackReport(topic))
    ensures !v.Obj? ==> r == Some(FallbackReport(topic))
  {
    if !v.Obj? then Some(FallbackReport(topic))
    else
      var primary := Get(v.fields, "primary_keyword", Str(topic));
      var secondary := Strings(Get(v.fields, "secondary_keywords", Arr([])));
      var lsi := Strings(Get(v.fields, "lsi_keywords", Arr([])));
      if primary.Str? && secondary.Some? && lsi.Some? then
        Some(KeywordReport(primary.s, secondary.value, lsi.value, [], [], None))
      else None
  }

  /** The report a parse outcome yields; any failure falls back. */
  function ReportFromParsed(topic: string, parsed: Option<Value>): (r: Option<KeywordReport>)
    ensures r.Some? ==> r.value.density == [] && r.value.totalWords.None?
                        && (r.value.recommendations == [] || r.value == FallbackReport(topic))
    ensures parsed.None? ==> r == Some(FallbackReport(topic))
  {
    if parsed.None? then Some(FallbackReport(topic)) else ReportFromValue(topic, parsed.value)
  }

  /** `extract_keywords_node`: the model sees the topic and the first 6000
      characters of the draft. Whatever happens, the report has no
      densities and no word count yet, and its only possible recommendation
      is the failure notice. */
  function ExtractKeywords(data: Store, draftFile: string, topic: string,
                           model: (string, string) -> Option<string>, parse: string -> Option<Value>)
    : (r: Option<KeywordReport>)
    ensures r.Some? ==> r.value.density == [] && r.value.totalWords.None?
                        && (r.value.recommendations == [] || r.value == FallbackReport(topic))
  {
    ReportFromParsed(topic, Parsed(model(topic, Prefix(data.ContentOr(draftFile), 6000)), parse))
  }

  /** No reply, a reply that does not parse, or a parsed value that is not
      an object: the report names the topic as primary keyword and carries
      the failure notice. */
  lemma FailureGivesFallback(topic: string, parsed: Option<Value>)
    requires parsed.None? || !parsed.value.Obj?
    ensures ReportFromParsed(topic, parsed) == Some(KeywordReport(topic, [], [], [], [ExtractionFailed], None))
  {
  }

  /** A parsed object without the keyword keys gives the topic as primary
      keyword, empty keyword lists and no recommendation. */
  lemma MissingKeysDefault(topic: string, fields: map<string, Value>)
    requires "primary_keyword" !in fields && "secondary_keywords" !in fields && "lsi_keywords" !in fields
    ensures ReportFromValue(topic, Obj(fields)) == Some(KeywordReport(topic, [], [], [], [], None))
  {
    assert Strings(Arr([])) == Some([]);
  }

  /** Well-typed keyword fields are taken over as they are, in order. */
  lemma WellTypedKept(topic: string, p: string, sec: seq<string>, lsi: seq<string>,
                      fields: map<string, Value>)
    requires Get(fields, "primary_keyword", Str(topic)) == Str(p)
    requires Get(fields, "secondary_keywords", Arr([])) == Arr(seq(|sec|, k requires 0 <= k < |sec| => Str(sec[k])))
    requires Get(fields, "lsi_keywords", Arr([])) == Arr(seq(|lsi|, k requires 0 <= k < |lsi| => Str(lsi[k])))
    ensures ReportFromValue(topic, Obj(fields)) == Some(KeywordReport(p, sec, lsi, [], [], None))
  {
    var s := Strings(Get(fields, "secondary_keywords", Arr([])));
    var l := Strings(Get(fields, "lsi_keywords", Arr([])));
    assert s.Some? && l.Some?;
    assert s.value == sec;
    assert l.value == lsi;
  }

  // --------------------------------------------------------------- density

  /** The density of `kw` in the lowered draft, as a percentage kept exact:
      occurrences times the keyword's word count, per hundred words. */
  function DensityOf(text: string, kw: string, total: nat): (r: Ratio)
    ensures r.den == total
    ensures r.num == 0 <==> !Contains(text, kw) || FieldCount(kw) == 0
  {
    Ratio(Count(text, kw) * FieldCount(kw) * 100, total)
  }

  datatype Band = Low | Over | Optimal

  /** The three density bands the recommendation distinguishes: below
      0.5 %, above 3 %, and in between. */
  function BandOf(r: Ratio): (b: Band)
    requires r.den > 0
    ensures b == Low <==> (r.num as real) / (r.den as real) < 0.5
    ensures b == Over <==> (r.num as real) / (r.den as real) > 3.0
  {
    RatioBounds(r);
    if 2 * r.num < r.den then Low else if r.num > 3 * r.den then Over else Optimal
  }

  lemma RatioBounds(r: Ratio)
    requires r.den > 0
    ensures (r.num as real) / (r.den as real) < 0.5 <==> 2 * r.num < r.den
    ensures (r.num as real) / (r.den as real) > 3.0 <==> r.num > 3 * r.den
  {
    var n, d := r.num as real, r.den as real;
    QuotientBounds(n, d, 0.5);
    QuotientBounds(n, d, 3.0);
    assert (2 * r.num) as real == 2.0 * n && (3 * r.den) as real == 3.0 * d;
  }

  /** For a positive divisor, comparing the quotient with a bound is
      comparing the dividend with the bound times the divisor. */
  lemma QuotientBounds(n: real, d: real, c: real)
    requires d > 0.0
    ensures n / d < c <==> n < c * d
    ensures n / d > c <==> n > c * d
  {
    var q := n / d;
    assert q * d == n;
    if q < c { assert q * d < c * d; } else { assert q * d >= c * d; }
    if q > c { assert q * d > c * d; } else { assert q * d <= c * d; }
  }

  /** The keys of a density table, in insertion order. */
  function Keys(d: seq<(string, Ratio)>): (r: seq<string>)
    ensures |r| == |d| && forall i :: 0 <= i < |d| ==> r[i] == d[i].0
  {
    seq(|d|, i requires 0 <= i < |d| => d[i].0)
  }

  predicate DistinctKeys(d: seq<(string, Ratio)>) {
    forall i, j :: 0 <= i < j < |d| ==> d[i].0 != d[j].0
  }

  /** `density[k] = v` on a dict kept as its entries: an existing key keeps
      its place and takes the new value; a new key is added last. */
  function Put(d: seq<(string, Ratio)>, k: string, v: Ratio): (r: seq<(string, Ratio)>)
    ensures k in Keys(d) ==> |r| == |d|
    ensures k !in Keys(d) ==> r == d + [(k, v)]
    ensures forall i :: 0 <= i < |d| ==> r[i].0 == d[i].0
    ensures forall i :: 0 <= i < |d| && d[i].0 != k ==> r[i] == d[i]
    ensures forall i :: 0 <= i < |r| && r[i].0 == k ==> r[i].1 == v
  {
    if k in Keys(d) then seq(|d|, i requires 0 <= i < |d| => if d[i].0 == k then (k, v) else d[i])
    else d + [(k, v)]
  }

  /** The secondary-keyword loop: each keyword's density put in turn. */
  function Fill(d: seq<(string, Ratio)>, text: string, kws: seq<string>, total: nat): seq<(string, Ratio)>
    decreases |kws|
  {
    if kws == [] then d
    else
      var kw := kws[|kws| - 1];
      Put(Fill(d, text, kws[..|kws| - 1], total), kw, DensityOf(text, kw, total))
  }

  /** The densities the analysis records: the primary keyword first when it
      is not empty, then the (at most five) secondary keywords. */
  function DensityTable(text: string, primary: string, kws: seq<string>, total: nat): seq<(string, Ratio)> {
    var start := if primary != "" then [(primary, DensityOf(text, primary, total))] else [];
    Fill(start, text, kws, total)
  }

  /** Filling keeps the keys distinct, records for every key its own
      density, keeps the first keys in place and has exactly the starting
      keys and the filled ones. */
  lemma {:induction false} FillShape(d: seq<(string, Ratio)>, text: string, kws: seq<string>, total: nat)
    requires DistinctKeys(d)
    requires forall i :: 0 <= i < |d| ==> d[i].1 == DensityOf(text, d[i].0, total)
    ensures var r := Fill(d, text, kws, total);
            && DistinctKeys(r)
            && |d| <= |r|
            && (forall i :: 0 <= i < |d| ==> r[i] == d[i])
            && (forall i :: 0 <= i < |r| ==> r[i].1 == DensityOf(text, r[i].0, total))
            && (forall k :: k in Keys(r) <==> k in Keys(d) || k in kws)
    decreases |kws|
  {
    if kws != [] {
      var init := kws[..|kws| - 1];
      var kw := kws[|kws| - 1];
      FillShape(d, text, init, total);
      var f := Fill(d, text, init, total);
      var v := DensityOf(text, kw, total);
      PutDistinct(f, kw, v);
      PutKeys(f, kw, v);
      assert kws == init + [kw];
    }
  }

  /** Putting a key keeps the keys distinct. */
  lemma PutDistinct(d: seq<(string, Ratio)>, k: string, v: Ratio)
    requires DistinctKeys(d)
    ensures DistinctKeys(Put(d, k, v))
  {
    if k !in Keys(d) {
      forall i | 0 <= i < |d| ensures d[i].0 != k {
        assert d[i].0 == Keys(d)[i];
      }
    }
  }

  /** Putting a key adds it to the keys and no other. */
  lemma PutKeys(d: seq<(string, Ratio)>, k: string, v: Ratio)
    ensures forall x :: x in Keys(Put(d, k, v)) <==> x in Keys(d) || x == k
  {
    var r := Put(d, k, v);
    if k in Keys(d) {
      assert Keys(r) == Keys(d);
    } else {
      assert Keys(r) == Keys(d) + [k];
    }
  }

  /** The recorded densities: one entry per distinct keyword, each with its
      own density, the primary keyword first when there is one, and exactly
      the primary keyword and the given secondary keywords as keys. */
  lemma DensityTableShape(text: string, primary: string, kws: seq<string>, total: nat)
    ensures var t := DensityTable(text, primary, kws, total);
            && DistinctKeys(t)
            && (forall i :: 0 <= i < |t| ==> t[i].1 == DensityOf(text, t[i].0, total))
            && (primary != "" ==> |t| > 0 && t[0].0 == primary)
            && (forall k :: k in Keys(t) <==> (k == primary && primary != "") || k in kws)
  {
    var start := if primary != "" then [(primary, DensityOf(text, primary, total))] else [];
    FillShape(start, text, kws, total);
    if primary != "" {
      assert Keys(start) == [primary];
    } else {
      assert Keys(start) == [];
    }
  }

  // ------------------------------------------------------- recommendations

  const Warning: string := "\U{26A0}\U{FE0F} "

  /** The one recommendation about the primary keyword's density. `pct`
      renders the percentage with one decimal. */
  function BandMessage(primary: string, r: Ratio, pct: Ratio -> string): string
    requires r.den > 0
  {
    match BandOf(r)
    case Low => Warning + "Primary keyword '" + primary + "' density is low (" + pct(r) + "%). Aim for 1-2%."
    case Over => Warning + "Primary keyword '" + primary + "' may be over-optimized (" + pct(r) + "%). Reduce to 1-2%."
    case Optimal => "\U{2705} Primary keyword '" + primary + "' density is optimal (" + pct(r) + "%)."
  }

  // Each notice is one sentence; its opening words are written as a
  // literal of their own so that the verifier can read their characters.
  const IntroWarning: string :=
    "\U{26A0}\U{FE0F} Primary keyword not found" + " in introduction. Add it to the first paragraph."
  const HeadingTip: string := "\U{1F4A1} Consider" + " adding primary keyword to at least one H2 heading."

  /** The two notices are never mistaken for the density message. */
  lemma NoticesDiffer(primary: string, r: Ratio, pct: Ratio -> string)
    requires r.den > 0
    ensures BandMessage(primary, r, pct) != IntroWarning
    ensures BandMessage(primary, r, pct) != HeadingTip
    ensures IntroWarning != HeadingTip
  {
    var m := BandMessage(primary, r, pct);
    var lead := Warning + "Primary keyword ";
    assert |lead| == 19 && lead[0] == '\U{26A0}';
    assert IntroWarning[19] == 'n' && IntroWarning[0] == '\U{26A0}';
    assert HeadingTip[0] == '\U{1F4A1}';
    match BandOf(r) {
      case Low =>
        var w := lead + "'";
        assert w[19] == '\'';
        assert m[19] == '\'' && m[0] == '\U{26A0}';
      case Over =>
        var w := lead + "'";
        assert w[19] == '\'';
        assert m[19] == '\'' && m[0] == '\U{26A0}';
      case Optimal =>
        assert m[0] == '\U{2705}';
    }
  }

  /** The heading text `^##\s+(.+)$` captures on one line. The line must
      be "##", at least one whitespace character and at least one more
      character. When text follows the whitespace run, the greedy `\s+`
      takes the whole run and the capture is the rest of the line; when the
      rest is all whitespace, `\s+` gives back one character and the
      capture is the line's last character. */
  function Heading(line: string): (r: Option<string>)
    ensures r.Some? ==> r.value != [] && "##" <= line
  {
    if |line| >= 4 && line[..2] == "##" && IsSpace(line[2]) then
      var rest := TrimLeft(line[2..]);
      if rest != [] then Some(rest) else Some(line[|line| - 1..])
    else None
  }

  /** When a line is a heading, and which text it captures: after text
      that is not all whitespace, everything from the first non-space
      character on; after whitespace only, the last character. */
  lemma HeadingCapture(line: string)
    ensures Heading(line).Some? <==> |line| >= 4 && line[..2] == "##" && IsSpace(line[2])
    ensures Heading(line).Some? ==>
            var h := Heading(line).value;
            && |h| <= |line| - 3 && h == line[|line| - |h|..]
            && ((exists k :: 2 < k < |line| && !IsSpace(line[k])) ==>
                  !IsSpace(h[0]) && forall k :: 2 <= k < |line| - |h| ==> IsSpace(line[k]))
            && ((forall k :: 2 <= k < |line| ==> IsSpace(line[k])) ==> |h| == 1)
  {
    if Heading(line).None? {
      return;
    }
    var rest := TrimLeft(line[2..]);
    assert forall k :: 2 <= k < |line| ==> line[2..][k - 2] == line[k];
    if rest == [] {
      assert forall k :: 2 <= k < |line| ==> IsSpace(line[k]);
    }
  }

  /** Some H2 heading of the draft mentions the keyword, case-insensitively
      on the heading's side. */
  predicate HeadingMentions(lines: seq<string>, primary: string) {
    exists k :: 0 <= k < |lines| && Mentions(lines[k], primary)
  }

  /** The line is an H2 heading whose lowercased text holds the keyword. */
  predicate Mentions(line: string, primary: string) {
    Heading(line).Some? && Contains(Lower(Heading(line).value), primary)
  }

  /** Everything the analysis recommends for a draft whose lowered text has
      `total > 0` words. */
  function Recommendations(draft: string, primary: string, total: nat, pct: Ratio -> string): seq<string>
    requires total > 0
  {
    if primary == "" then []
    else
      [BandMessage(primary, DensityOf(Lower(draft), primary, total), pct)]
      + (if !Contains(Lower(Prefix(draft, 500)), primary) then [IntroWarning] else [])
      + (if !HeadingMentions(Lines(draft), primary) then [HeadingTip] else [])
  }

  /** With a primary keyword, the recommendations start with exactly one
      density message and the rest are the two notices; the introduction
      notice is given exactly when the keyword is missing from the first
      500 characters, the heading tip exactly when no H2 heading mentions
      it. Without one, nothing is recommended. */
  lemma RecommendationRules(draft: string, primary: string, total: nat, pct: Ratio -> string)
    requires total > 0
    ensures var recs := Recommendations(draft, primary, total, pct);
            && (primary == "" ==> recs == [])
            && (primary != "" ==> |recs| >= 1
                                  && recs[0] == BandMessage(primary, DensityOf(Lower(draft), primary, total), pct)
                                  && forall i :: 1 <= i < |recs| ==> recs[i] == IntroWarning || recs[i] == HeadingTip)
            && (IntroWarning in recs <==> primary != "" && !Contains(Lower(Prefix(draft, 500)), primary))
            && (HeadingTip in recs <==> primary != "" && !HeadingMentions(Lines(draft), primary))
  {
    var recs := Recommendations(draft, primary, total, pct);
    if primary != "" {
      var band := BandMessage(primary, DensityOf(Lower(draft), primary, total), pct);
      NoticesDiffer(primary, DensityOf(Lower(draft), primary, total), pct);
      var intro := if !Contains(Lower(Prefix(draft, 500)), primary) then [IntroWarning] else [];
      var tip := if !HeadingMentions(Lines(draft), primary) then [HeadingTip] else [];
      assert recs == [band] + intro + tip;
      assert IntroWarning in recs <==> IntroWarning in intro;
      assert HeadingTip in recs <==> HeadingTip in tip;
    }
  }


  // --------------------------------------------------------------- analysis

  function LowerAll(xs: seq<string>): (r: seq<string>)
    ensures |r| == |xs| && forall k :: 0 <= k < |xs| ==> r[k] == Lower(xs[k])
  {
    seq(|xs|, k requires 0 <= k < |xs| => Lower(xs[k]))
  }

  /** The report after `analyze_density_node`: unchanged for a draft with no
      word; otherwise the lowered keywords' densities, the recommendations
      and the word count replace what was there. */
  function Analysed(report: KeywordReport, draft: string, pct: Ratio -> string): KeywordReport {
    var text := Lower(draft);
    var total := WordCount(text);
    if total == 0 then report
    else
      var primary := Lower(report.primary);
      report.(density := DensityTable(text, primary, Prefix(LowerAll(report.secondary), 5), total),
              recommendations := Recommendations(draft, primary, total, pct),
              totalWords := Some(total))
  }

  /** The secondary-keyword loop of `analyze_density_node`. */
  method FillDensities(start: seq<(string, Ratio)>, text: string, kws: seq<string>, total: nat)
    returns (density: seq<(string, Ratio)>)
    ensures density == Fill(start, text, kws, total)
  {
    density := start;
    for i := 0 to |kws|
      invariant density == Fill(start, text, kws[..i], total)
    {
      assert kws[..i + 1][..i] == kws[..i];
      density := Put(density, kws[i], DensityOf(text, kws[i], total));
    }
    assert kws[..|kws|] == kws;
  }

  /** The recommendation steps of `analyze_density_node`. */
  method Recommend(draft: string, primary: string, total: nat, pct: Ratio -> string) returns (recs: seq<string>)
    requires total > 0
    ensures recs == Recommendations(draft, primary, total, pct)
  {
    if primary == "" {
      return [];
    }
    recs := [BandMessage(primary, DensityOf(Lower(draft), primary, total), pct)];
    if !Contains(Lower(Prefix(draft, 500)), primary) {
      recs := recs + [IntroWarning];
    }
    var mentioned := HeadingScan(Lines(draft), primary);
    if !mentioned {
      recs := recs + [HeadingTip];
    }
  }

  /** The analysis proper: densities, recommendations and word count. */
  method Analyse(report: KeywordReport, draft: string, pct: Ratio -> string) returns (r: KeywordReport)
    ensures r == Analysed(report, draft, pct)
  {
    var text := Lower(draft);
    var total := WordCount(text);
    if total == 0 {
      return report;
    }
    var primary := Lower(report.primary);
    var secondary := LowerAll(report.secondary);
    var density: seq<(string, Ratio)> := [];
    if primary != "" {
      density := [(primary, DensityOf(text, primary, total))];
    }
    density := FillDensities(density, text, Prefix(secondary, 5), total);
    var recs := Recommend(draft, primary, total, pct);
    r := report.(density := density, recommendations := recs, totalWords := Some(total));
  }

  /** `analyze_density_node`. `pct` renders a density with one decimal for
      the messages, `show` renders it as the report prints it. With no word
      in the draft nothing is saved (None); otherwise the markdown report is
      saved under "keyword_report.md" with empty metadata. */
  method AnalyzeDensity(s: KeywordState, pct: Ratio -> string, show: Ratio -> string)
    returns (report: KeywordReport, store: Option<Store>)
    requires s.vfsData.Valid()
    ensures report == Analysed(s.keywordReport, s.vfsData.ContentOr(s.draftFile), pct)
    ensures WordCount(Lower(s.vfsData.ContentOr(s.draftFile))) == 0 ==> report == s.keywordReport && store.None?
    ensures WordCount(Lower(s.vfsData.ContentOr(s.draftFile))) > 0 ==>
              store == Some(s.vfsData.Write(ReportFile, KeywordMarkdown(report, show), None))
  {
    var vfs := new VFS.FromData(s.vfsData);
    var draft := "";
    var present := vfs.Exists(s.draftFile);
    if present {
      var r := vfs.ReadFile(s.draftFile);
      draft := r.value;
    }
    report := Analyse(s.keywordReport, draft, pct);
    if WordCount(Lower(draft)) == 0 {
      return report, None;
    }
    var md := FormatKeywordReport(report, show);
    vfs.WriteFile(ReportFile, md, None);
    store := Some(vfs.Data());
  }

  /** The `any(...)` over the headings, for a non-empty keyword. */
  method HeadingScan(lines: seq<string>, primary: string) returns (found: bool)
    ensures found <==> primary != "" && HeadingMentions(lines, primary)
  {
    if primary == "" {
      return false;
    }
    found := false;
    for i := 0 to |lines|
      invariant found <==> exists k :: 0 <= k < i && Mentions(lines[k], primary)
    {
      if Mentions(lines[i], primary) {
        found := true;
      }
    }
  }

  /** A draft with no word token leaves the report as the extraction left
      it: no densities, no word count. */
  lemma NoWordsNoAnalysis(report: KeywordReport, draft: string, pct: Ratio -> string)
    requires forall k :: 0 <= k < |draft| ==> !IsWordChar(draft[k])
    ensures Analysed(report, draft, pct) == report
  {
    var text := Lower(draft);
    forall k | 0 <= k < |text| ensures !IsWordChar(text[k]) {
      assert text[k] == LowerChar(draft[k]);
    }
    WordCountZeroIff(text);
  }

  /** After the analysis the report records the word count, at most six
      densities (the primary keyword's and the first five secondary
      keywords', lowered, each once), each the density of its own keyword;
      the keywords themselves are kept as extracted. */
  lemma AnalysisShape(report: KeywordReport, draft: string, pct: Ratio -> string)
    requires WordCount(Lower(draft)) > 0
    ensures var r := Analysed(report, draft, pct);
            var total := WordCount(Lower(draft));
            && r.totalWords == Some(total)
            && r.primary == report.primary && r.secondary == report.secondary && r.lsi == report.lsi
            && DistinctKeys(r.density)
            && (forall i :: 0 <= i < |r.density| ==> r.density[i].1 == DensityOf(Lower(draft), r.density[i].0, total))
            && (forall k :: k in Keys(r.density) <==>
                  (k == Lower(report.primary) && k != "") || k in Prefix(LowerAll(report.secondary), 5))
  {
    var total := WordCount(Lower(draft));
    DensityTableShape(Lower(draft), Lower(report.primary), Prefix(LowerAll(report.secondary), 5), total);
  }

  // ------------------------------------------------------------- formatting

  const Title: string := "## \U{1F4CA} Keyword Analysis Report\n\n"
  const DensityHeader: string := "### Keyword Density\n| Keyword | Density |\n|---------|--------|\n"

  function Bullet(item: string): string {
    "- " + item + "\n"
  }

  function DensityRow(e: (string, string)): string {
    "| " + e.0 + " | " + e.1 + "% |\n"
  }

  /** The densities as the report prints them. */
  function Rendered(d: seq<(string, Ratio)>, show: Ratio -> string): (r: seq<(string, string)>)
    ensures |r| == |d| && forall i :: 0 <= i < |d| ==> r[i] == (d[i].0, show(d[i].1))
  {
    seq(|d|, i requires 0 <= i < |d| => (d[i].0, show(d[i].1)))
  }

  function TotalSection(total: Option<nat>): string {
    "**Total Word Count:** " + (match total case Some(n) => NatToString(n) case None => "N/A") + "\n\n"
  }

  function PrimarySection(primary: string): string {
    "### Primary Keyword\n`" + primary + "`\n\n"
  }

  function SecondarySection(kws: seq<string>): string {
    "### Secondary Keywords\n" + ConcatMap(kws, Bullet) + "\n"
  }

  function LsiSection(kws: seq<string>): string {
    "### LSI Keywords (Semantically Related)\n" + ConcatMap(kws, Bullet) + "\n"
  }

  function DensitySection(d: seq<(string, Ratio)>, show: Ratio -> string): string {
    DensityHeader + ConcatMap(Rendered(d, show), DensityRow) + "\n"
  }

  function RecommendationSection(recs: seq<string>): string {
    "### SEO Recommendations\n" + ConcatMap(recs, Bullet)
  }

  /** `format_keyword_report`. */
  function KeywordMarkdown(report: KeywordReport, show: Ratio -> string): string {
    BeforeRecommendations(report, show) + RecommendationSection(report.recommendations)
  }

  /** The report up to the secondary keywords. */
  function BeforeSecondary(report: KeywordReport): string {
    Title + TotalSection(report.totalWords) + PrimarySection(report.primary)
  }

  /** The report up to the LSI keywords. */
  function BeforeLsi(report: KeywordReport): string {
    BeforeSecondary(report) + SecondarySection(report.secondary)
  }

  /** The report up to the density table. */
  function BeforeDensity(report: KeywordReport): string {
    BeforeLsi(report) + LsiSection(report.lsi)
  }

  /** The report up to the recommendations. */
  function BeforeRecommendations(report: KeywordReport, show: Ratio -> string): string {
    BeforeDensity(report) + DensitySection(report.density, show)
  }

  /** One `md += f"- {x}\n"` loop. */
  method AppendBullets(md: string, items: seq<string>) returns (r: string)
    ensures r == md + ConcatMap(items, Bullet)
  {
    r := md;
    for i := 0 to |items|
      invariant r == md + ConcatMap(items[..i], Bullet)
    {
      assert items[..i + 1][..i] == items[..i];
      r := r + "- " + items[i] + "\n";
    }
    assert items[..|items|] == items;
  }

  /** The density table's rows. */
  method DensityRows(d: seq<(string, Ratio)>, show: Ratio -> string) returns (rows: string)
    ensures rows == ConcatMap(Rendered(d, show), DensityRow)
  {
    rows := "";
    for i := 0 to |d|
      invariant rows == ConcatMap(Rendered(d, show)[..i], DensityRow)
    {
      assert Rendered(d, show)[..i + 1][..i] == Rendered(d, show)[..i];
      rows := rows + "| " + d[i].0 + " | " + show(d[i].1) + "% |\n";
    }
    assert Rendered(d, show)[..|d|] == Rendered(d, show);
  }

  /** `format_keyword_report`, section by section. */
  method FormatKeywordReport(report: KeywordReport, show: Ratio -> string) returns (md: string)
    ensures md == KeywordMarkdown(report, show)
  {
    md := BeforeSecondary(report);
    var section := AppendBullets("### Secondary Keywords\n", report.secondary);
    md := md + (section + "\n");
    section := AppendBullets("### LSI Keywords (Semantically Related)\n", report.lsi);
    md := md + (section + "\n");
    assert md == BeforeDensity(report);
    var rows := DensityRows(report.density, show);
    md := md + (DensityHeader + rows + "\n");
    assert md == BeforeRecommendations(report, show);
    section := AppendBullets("### SEO Recommendations\n", report.recommendations);
    md := md + section;
  }

  /** What the report holds before the density table stays in place. */
  lemma BeforeDensityKept(report: KeywordReport, show: Ratio -> string, sub: string, i: int)
    requires OccursAt(BeforeDensity(report), sub, i)
    ensures OccursAt(KeywordMarkdown(report, show), sub, i)
  {
    OccursExtendTwice(BeforeDensity(report), DensitySection(report.density, show),
                      RecommendationSection(report.recommendations), sub, i);
  }

  /** Secondary keyword `k` is listed as a bullet in its section, after the
      bullets of the keywords before it. */
  lemma SecondaryListed(report: KeywordReport, show: Ratio -> string, k: nat)
    requires k < |report.secondary|
    ensures OccursAt(KeywordMarkdown(report, show), Bullet(report.secondary[k]),
                     |BeforeSecondary(report)| + |"### Secondary Keywords\n"|
                     + |ConcatMap(report.secondary[..k], Bullet)|)
  {
    var i := |BeforeSecondary(report)| + |"### Secondary Keywords\n"| + |ConcatMap(report.secondary[..k], Bullet)|;
    ListedInSection(BeforeSecondary(report), "### Secondary Keywords\n", report.secondary, Bullet, "\n",
                    LsiSection(report.lsi), k, i);
    BeforeDensityKept(report, show, Bullet(report.secondary[k]), i);
  }

  /** LSI keyword `k` is listed as a bullet in its section, after the
      bullets of the keywords before it. */
  lemma LsiListed(report: KeywordReport, show: Ratio -> string, k: nat)
    requires k < |report.lsi|
    ensures OccursAt(KeywordMarkdown(report, show), Bullet(report.lsi[k]),
                     |BeforeLsi(report)| + |"### LSI Keywords (Semantically Related)\n"|
                     + |ConcatMap(report.lsi[..k], Bullet)|)
  {
    var head := "### LSI Keywords (Semantically Related)\n";
    var j := |head| + |ConcatMap(report.lsi[..k], Bullet)|;
    ConcatMapInSection(head, report.lsi, Bullet, "\n", k);
    OccursAfter(BeforeLsi(report), LsiSection(report.lsi), Bullet(report.lsi[k]), j);
    BeforeDensityKept(report, show, Bullet(report.lsi[k]), |BeforeLsi(report)| + j);
  }

  /** Density entry `k` is a row of the table, after the rows before it. */
  lemma DensityListed(report: KeywordReport, show: Ratio -> string, k: nat)
    requires k < |report.density|
    ensures OccursAt(KeywordMarkdown(report, show),
                     "| " + report.density[k].0 + " | " + show(report.density[k].1) + "% |\n",
                     |BeforeDensity(report)| + |DensityHeader|
                     + |ConcatMap(Rendered(report.density, show)[..k], DensityRow)|)
  {
    var rs := Rendered(report.density, show);
    ListedInSection(BeforeDensity(report), DensityHeader, rs, DensityRow, "\n",
                    RecommendationSection(report.recommendations), k,
                    |BeforeDensity(report)| + |DensityHeader| + |ConcatMap(rs[..k], DensityRow)|);
  }

  /** Recommendation `k` is listed as a bullet in the last section, after the
      bullets of the recommendations before it. */
  lemma RecommendationListed(report: KeywordReport, show: Ratio -> string, k: nat)
    requires k < |report.recommendations|
    ensures var md := KeywordMarkdown(report, show);
            var recs := RecommendationSection(report.recommendations);
            |recs| <= |md| && recs == md[|md| - |recs|..]
            && OccursAt(md, Bullet(report.recommendations[k]),
                        |md| - |recs| + |"### SEO Recommendations\n"| + |ConcatMap(report.recommendations[..k], Bullet)|)
  {
    LastSectionOccurs(BeforeRecommendations(report, show), "### SEO Recommendations\n", report.recommendations, Bullet, k);
  }

  // ------------------------------------------------------------- the graph

  /** The sub-graph: `extract_keywords` then `analyze_density`, the second
      node reading the report the first one produced. None marks an
      extraction the model leaves out (see `ReportFromValue`). When the
      model or the parser fails, the analysis runs on the fallback report,
      so the topic stays the primary keyword; a wordless draft then keeps
      the failure notice as the only recommendation. */
  method RunKeywordGraph(s: KeywordState, model: (string, string) -> Option<string>,
                         parse: string -> Option<Value>, pct: Ratio -> string, show: Ratio -> string)
    returns (r: Option<KeywordState>)
    requires s.vfsData.Valid()
    ensures r.None? <==> ExtractKeywords(s.vfsData, s.draftFile, s.topic, model, parse).None?
    ensures r.Some? ==>
              && r.value.draftFile == s.draftFile && r.value.topic == s.topic
              && r.value.keywordReport
                 == Analysed(ExtractKeywords(s.vfsData, s.draftFile, s.topic, model, parse).value,
                             s.vfsData.ContentOr(s.draftFile), pct)
    ensures r.Some? && WordCount(Lower(s.vfsData.ContentOr(s.draftFile))) == 0 ==> r.value.vfsData == s.vfsData
    ensures r.Some? && WordCount(Lower(s.vfsData.ContentOr(s.draftFile))) > 0 ==>
              r.value.vfsData == s.vfsData.Write(ReportFile, KeywordMarkdown(r.value.keywordReport, show), None)
    ensures Parsed(model(s.topic, Prefix(s.vfsData.ContentOr(s.draftFile), 6000)), parse).None? ==>
              && r.Some? && r.value.keywordReport.primary == s.topic
              && (WordCount(Lower(s.vfsData.ContentOr(s.draftFile))) == 0 ==>
                    r.value.keywordReport.recommendations == [ExtractionFailed])
  {
    var extracted := ExtractKeywords(s.vfsData, s.draftFile, s.topic, model, parse);
    if extracted.None? {
      return None;
    }
    var report, saved := AnalyzeDensity(s.(keywordReport := extracted.value), pct, show);
    var out := s.(keywordReport := report);
    if saved.Some? {
      out := out.(vfsData := saved.value);
    }
    return Some(out);
  }
}

/** The writer subgraph: gather the research notes into a context, then
    append one newly written section to the draft. */
module Writer {
  import opened Wrappers
  import opened Text
  import opened Vfs

  const NoResearch: string := "No research available."
  const StartOfArticle: string := "(Start of Article)"

  predicate IsResearch(name: string) {
    "research/" <= name
  }

  /** The url a research note was saved under, "unknown" when it has none. */
  function SourceLabel(f: File): string {
    if "url" in f.metadata then f.metadata["url"] else "unknown"
  }

  /** What one research note adds to the context. */
  function SourceBlock(f: File): string {
    "\n--- Source: " + SourceLabel(f) + " ---\n" + f.content + "\n"
  }

  /** The research notes among `names`, in listing order. */
  function ResearchFiles(s: Store, names: seq<string>): (r: seq<File>)
    ensures forall n :: n in names && IsResearch(n) && n in s.files ==> s.files[n] in r
    decreases |names|
  {
    if names == [] then []
    else
      var last := names[|names| - 1];
      var init := names[..|names| - 1];
      assert names == init + [last];
      ResearchFiles(s, init) + (if IsResearch(last) && last in s.files then [s.files[last]] else [])
  }

  /** The context the writer is given: every research note's block in
      listing order, or the fixed notice when there is none. */
  function ResearchContext(s: Store): string {
    var body := ConcatMap(ResearchFiles(s, s.names), SourceBlock);
    if body == "" then NoResearch else body
  }

  /** `gather_context_node`: one pass over the listed names. */
  method GatherContext(data: Store) returns (context: string)
    requires data.Valid()
    ensures context == ResearchContext(data)
  {
    var vfs := new VFS.FromData(data);
    var files := vfs.ListFiles();
    var text := "";
    for i := 0 to |files|
      invariant vfs.Data() == data && files == data.names
      invariant text == ConcatMap(ResearchFiles(data, files[..i]), SourceBlock)
    {
      GatherStep(data, files, i);
      ListedIsStored(data, i);
      if IsResearch(files[i]) {
        var file := vfs.GetFile(files[i]);
        text := text + SourceBlock(file.value);
      }
    }
    assert files[..|files|] == files;
    context := if text == "" then NoResearch else text;
  }

  /** One more listed name adds its block when it is a stored research note. */
  lemma GatherStep(s: Store, names: seq<string>, i: nat)
    requires i < |names|
    ensures ConcatMap(ResearchFiles(s, names[..i + 1]), SourceBlock)
            == ConcatMap(ResearchFiles(s, names[..i]), SourceBlock)
               + (if IsResearch(names[i]) && names[i] in s.files then SourceBlock(s.files[names[i]]) else "")
  {
    assert names[..i + 1][..i] == names[..i];
    if IsResearch(names[i]) && names[i] in s.files {
      var f := s.files[names[i]];
      assert [f][..0] == [];
      ConcatMapAppend(ResearchFiles(s, names[..i]), [f], SourceBlock);
    } else {
      assert ResearchFiles(s, names[..i + 1]) == ResearchFiles(s, names[..i]);
    }
  }

  /** Every research note appears in the context behind its source line,
      labelled with its url or "unknown". */
  lemma EachNoteQuoted(s: Store, name: string)
    requires s.Valid() && name in s.files && IsResearch(name)
    ensures var f := s.files[name];
            var tag := if "url" in f.metadata then f.metadata["url"] else "unknown";
            exists i :: OccursAt(ResearchContext(s), "\n--- Source: " + tag + " ---\n" + f.content + "\n", i)
  {
    var r := ResearchFiles(s, s.names);
    assert s.files[name] in r;
    var k :| 0 <= k < |r| && r[k] == s.files[name];
    var body := ConcatMap(r, SourceBlock);
    ConcatMapOccurs(r, SourceBlock, k);
    var i := |ConcatMap(r[..k], SourceBlock)|;
    assert OccursAt(body, SourceBlock(r[k]), i);
    assert |SourceBlock(r[k])| > 0;
    assert ResearchContext(s) == body;
  }

  /** The notice is the context exactly when no research note is stored
      (a note's block starts with a line break, so never spells the notice). */
  lemma NoticeIffNoResearch(s: Store)
    requires s.Valid()
    ensures ResearchContext(s) == NoResearch <==> forall n :: n in s.files ==> !IsResearch(n)
  {
    var r := ResearchFiles(s, s.names);
    if r != [] {
      ConcatMapOccurs(r, SourceBlock, 0);
      var body := ConcatMap(r, SourceBlock);
      assert body[0] == SourceBlock(r[0])[0] == '\n';
      assert r[0] in r;
      ResearchFilesAreResearch(s, s.names, r[0]);
    }
  }

  /** What `ResearchFiles` keeps is a stored research note. */
  lemma {:induction false} ResearchFilesAreResearch(s: Store, names: seq<string>, f: File)
    requires s.Valid() && f in ResearchFiles(s, names)
    ensures f.name in s.files && IsResearch(f.name) && s.files[f.name] == f
    decreases |names|
  {
    var last := names[|names| - 1];
    var init := names[..|names| - 1];
    if f !in ResearchFiles(s, init) {
      assert f == s.files[last];
    } else {
      ResearchFilesAreResearch(s, init, f);
    }
  }

  /** Saving a file outside "research/" leaves the context as it was. */
  lemma OtherFilesIgnored(s: Store, name: string, content: string, metadata: Option<map<string, string>>)
    requires s.Valid() && !IsResearch(name)
    ensures ResearchContext(s.Write(name, content, metadata)) == ResearchContext(s)
  {
    var t := s.Write(name, content, metadata);
    assert t.files == s.files[name := File(name, content, metadata.GetOr(map[]))];
    forall n | n in s.names && IsResearch(n)
      ensures (n in s.files <==> n in t.files) && (n in s.files ==> s.files[n] == t.files[n])
    {
      assert n != name;
    }
    SameResearchFiles(s, t, s.names);
    if name !in s.files {
      assert t.names == s.names + [name];
      assert t.names[..|t.names| - 1] == s.names;
      assert ResearchFiles(t, t.names) == ResearchFiles(t, s.names);
    } else {
      assert t.names == s.names;
    }
  }

  lemma {:induction false} SameResearchFiles(s: Store, t: Store, names: seq<string>)
    requires forall n :: n in names && IsResearch(n) ==>
               (n in s.files <==> n in t.files) && (n in s.files ==> s.files[n] == t.files[n])
    ensures ResearchFiles(s, names) == ResearchFiles(t, names)
    decreases |names|
  {
    if names != [] {
      var init := names[..|names| - 1];
      assert forall n :: n in init ==> n in names;
      SameResearchFiles(s, t, init);
    }
  }

  /** The end of the draft the writer is shown: its last 2000 characters, or
      the start-of-article marker when there is no draft yet. */
  function DraftTail(draft: string): (r: string)
    ensures draft == "" ==> r == StartOfArticle
    ensures draft != "" ==> |r| == (if |draft| < 2000 then |draft| else 2000)
                            && r == draft[|draft| - |r|..]
  {
    if draft == "" then StartOfArticle else Tail(draft, 2000)
  }

  /** The store after one `write_node` step. The model is asked with the
      task, the context and the draft's tail; no answer (it raised) leaves
      the store as it was. */
  function Written(task: string, context: string, data: Store, draftFile: string,
                   model: (string, string, string) -> Option<string>): Store
    requires data.Valid()
  {
    var current := data.ContentOr(draftFile);
    match model(task, context, DraftTail(current))
    case None => data
    case Some(reply) => data.Write(draftFile, current + "\n\n" + StripChatPrefix(reply), None)
  }

  /** `write_node`. */
  method WriteNode(task: string, context: string, data: Store, draftFile: string,
                   model: (string, string, string) -> Option<string>)
    returns (out: Store)
    requires data.Valid()
    ensures out.Valid()
    ensures out == Written(task, context, data, draftFile, model)
  {
    var vfs := new VFS.FromData(data);
    var current := "";
    var present := vfs.Exists(draftFile);
    if present {
      var r := vfs.ReadFile(draftFile);
      current := r.value;
    }
    var reply := model(task, context, DraftTail(current));
    if reply.Some? {
      var section := reply.value;
      if "here is" <= Lower(Strip(section)) {
        section := AfterFirstLine(section);
      }
      vfs.WriteFile(draftFile, current + "\n\n" + section, None);
    }
    out := vfs.Data();
  }

  /** A successful step keeps the whole old draft as a prefix and adds a
      blank line and the reply (minus any "here is" line) after it, with
      empty metadata; other files are untouched; a failed step changes
      nothing. */
  lemma AppendKeepsDraft(task: string, context: string, data: Store, draftFile: string,
                         model: (string, string, string) -> Option<string>)
    requires data.Valid()
    ensures var out := Written(task, context, data, draftFile, model);
            var current := data.ContentOr(draftFile);
            match model(task, context, DraftTail(current))
            case None => out == data
            case Some(reply) =>
              && out.Read(draftFile) == Ok(current + "\n\n" + StripChatPrefix(reply))
              && out.files[draftFile].metadata == map[]
              && current + "\n\n" <= out.files[draftFile].content
              && StripChatPrefix(reply) <= reply[|reply| - |StripChatPrefix(reply)|..]
              && (forall n :: n != draftFile ==> out.Get(n) == data.Get(n))
  {
    var current := data.ContentOr(draftFile);
    var reply := model(task, context, DraftTail(current));
    if reply.Some? {
      ReadAfterWrite(data, draftFile, current + "\n\n" + StripChatPrefix(reply.value), None);
      WriteFrame(data, draftFile, current + "\n\n" + StripChatPrefix(reply.value), None);
    }
  }

  /** The writer subgraph as a whole: context first, then one write. */
  function WriterRun(task: string, data: Store, draftFile: string,
                     model: (string, string, string) -> Option<string>): Store
    requires data.Valid()
  {
    Written(task, ResearchContext(data), data, draftFile, model)
  }

  method RunWriter(task: string, data: Store, draftFile: string,
                   model: (string, string, string) -> Option<string>)
    returns (out: Store)
    requires data.Valid()
    ensures out.Valid() && out == WriterRun(task, data, draftFile, model)
  {
    var context := GatherContext(data);
    out := WriteNode(task, context, data, draftFile, model);
  }
}

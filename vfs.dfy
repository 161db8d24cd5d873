/** The in-memory document store every stage reads and writes: a keyed map
    from file name to File, with unconditional upsert and reads that fail on
    a missing name. Its contents travel through the graph state as
    `vfs_data`; each stage builds a private VFS from them, mutates that copy
    and returns the copy's contents. */
module Vfs {
  import opened Wrappers

  datatype File = File(name: string, content: string, metadata: map<string, string>)

  /** `FileNotFoundError`. */
  datatype Error = FileNotFound(name: string)

  /** The contents of a store, i.e. the `_files` dict: the names in
      insertion order (the order `list_files` reports) and the file stored
      under each name. */
  datatype Store = Store(names: seq<string>, files: map<string, File>) {

    /** Names are listed once each, exactly the keys are listed, and every
        file is stored under its own name (as `write_file` always does). */
    ghost predicate Valid() {
      && (forall i, j :: 0 <= i < j < |names| ==> names[i] != names[j])
      && (forall n :: n in files <==> n in names)
      && (forall n :: n in files ==> files[n].name == n)
    }

    function List(): seq<string> {
      names
    }

    predicate Exists(name: string) {
      name in files
    }

    function Read(name: string): Result<string, Error> {
      if name in files then Ok(files[name].content) else Err(FileNotFound(name))
    }

    function Get(name: string): Result<File, Error> {
      if name in files then Ok(files[name]) else Err(FileNotFound(name))
    }

    /** `write_file(name, content, metadata)`: replaces the whole entry;
        omitted metadata (None) becomes the empty map. A new name is listed
        last; an existing name keeps its place. */
    function Write(name: string, content: string, metadata: Option<map<string, string>>): (s: Store)
      requires Valid()
      ensures s.Valid()
      ensures s.files.Keys == files.Keys + {name}
    {
      var names' := if name in files then names else names + [name];
      Store(names', files[name := File(name, content, metadata.GetOr(map[]))])
    }

    /** The content of `name`, or "" when it is absent: the
        `exists`-then-`read_file` idiom every stage uses for the draft. */
    function ContentOr(name: string): (r: string)
      ensures Exists(name) ==> Read(name) == Ok(r)
      ensures !Exists(name) ==> r == ""
    {
      if name in files then files[name].content else ""
    }
  }

  const Empty: Store := Store([], map[])

  /** After a write, the name exists and reads back what was written,
      and get_file returns the new File, metadata included. */
  lemma ReadAfterWrite(s: Store, name: string, content: string, metadata: Option<map<string, string>>)
    requires s.Valid()
    ensures var s' := s.Write(name, content, metadata);
            && s'.Exists(name)
            && s'.Read(name) == Ok(content)
            && s'.Get(name) == Ok(File(name, content, metadata.GetOr(map[])))
  {
  }

  /** Writing a name twice is the same as writing it once with the second
      content and metadata: nothing of the first write stays visible. */
  lemma WriteTwice(s: Store, name: string, c1: string, m1: Option<map<string, string>>,
                   c2: string, m2: Option<map<string, string>>)
    requires s.Valid()
    ensures s.Write(name, c1, m1).Write(name, c2, m2) == s.Write(name, c2, m2)
  {
  }

  /** Metadata is replaced wholesale, never merged with what was there. */
  lemma MetadataReplaced(s: Store, name: string, content: string, metadata: map<string, string>)
    requires s.Valid() && s.Exists(name)
    ensures s.Write(name, content, Some(metadata)).files[name].metadata == metadata
    ensures s.Write(name, content, None).files[name].metadata == map[]
  {
  }

  /** A write leaves every other entry as it was, keeps the earlier names in
      their order, and lists the written name exactly once. */
  lemma WriteFrame(s: Store, name: string, content: string, metadata: Option<map<string, string>>)
    requires s.Valid()
    ensures var s' := s.Write(name, content, metadata);
            && (forall other :: other != name ==> s'.Get(other) == s.Get(other))
            && s.List() <= s'.List()
            && |s'.List()| == |s.List()| + (if s.Exists(name) then 0 else 1)
            && (exists i :: 0 <= i < |s'.List()| && s'.List()[i] == name)
            && (forall i, j :: 0 <= i < j < |s'.List()| && s'.List()[i] == name ==> s'.List()[j] != name)
  {
    var s' := s.Write(name, content, metadata);
    if name in s.files {
      assert name in s.names;
    } else {
      assert s'.names[|s.names|] == name;
    }
  }

  /** get_file agrees with read_file and carries the name it was asked
      for; both fail together, with FileNotFound for that name. */
  lemma GetAgreesWithRead(s: Store, name: string)
    requires s.Valid()
    ensures s.Get(name).Ok? <==> s.Read(name).Ok?
    ensures s.Get(name).Ok? ==> s.Get(name).value.name == name
                                && s.Read(name) == Ok(s.Get(name).value.content)
    ensures !s.Exists(name) ==> s.Read(name) == Err(FileNotFound(name))
                                && s.Get(name) == Err(FileNotFound(name))
  {
  }

  /** Every listed name is stored. */
  lemma ListedIsStored(s: Store, k: nat)
    requires s.Valid() && k < |s.names|
    ensures s.names[k] in s.files
  {
  }

  /** The VFS object a stage works on. Python keeps one ordered dict;
      here its key order and its entries are two fields. */
  class VFS {
    var names: seq<string>
    var files: map<string, File>

    function Data(): Store
      reads this
    {
      Store(names, files)
    }

    ghost predicate Valid()
      reads this
    {
      Data().Valid()
    }

    constructor ()
      ensures Valid() && Data() == Empty
    {
      names := [];
      files := map[];
    }

    /** `vfs = VFS(); vfs._files = dict(vfs_data)`: a private copy. */
    constructor FromData(data: Store)
      requires data.Valid()
      ensures Valid() && Data() == data
    {
      names := data.names;
      files := data.files;
    }

    method ListFiles() returns (r: seq<string>)
      ensures r == Data().List()
    {
      r := names;
    }

    method ReadFile(name: string) returns (r: Result<string, Error>)
      ensures r == Data().Read(name)
    {
      if name !in files {
        return Err(FileNotFound(name));
      }
      r := Ok(files[name].content);
    }

    method WriteFile(name: string, content: string, metadata: Option<map<string, string>>)
      requires Valid()
      modifies this
      ensures Valid()
      ensures Data() == old(Data()).Write(name, content, metadata)
    {
      var md := if metadata.None? then map[] else metadata.value;
      if name !in files {
        names := names + [name];
      }
      files := files[name := File(name, content, md)];
    }

    method Exists(name: string) returns (b: bool)
      ensures b == Data().Exists(name)
    {
      b := name in files;
    }

    method GetFile(name: string) returns (r: Result<File, Error>)
      ensures r == Data().Get(name)
    {
      if name !in files {
        return Err(FileNotFound(name));
      }
      r := Ok(files[name]);
    }
  }
}

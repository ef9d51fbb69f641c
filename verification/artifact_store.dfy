/** The append-only artifact store, its bundle index, and the reader of that index. */
module ArtifactStores {
  import opened Outcomes
  import opened Ordering
  import opened CanonicalJson
  import opened CanonicalLaws
  import opened JsonObjects
  import opened Hashing
  import opened Manifests
  import opened PublicArtifacts

  /** The files of the public directory: name to text. */
  type Files = map<string, string>

  function FileName(id: string): string
  {
    id + ".json"
  }

  lemma FileNameIsInjective(id: string, id': string)
    requires FileName(id) == FileName(id')
    ensures id == id'
  {
    assert |FileName(id)| == |id| + 5 && |FileName(id')| == |id'| + 5;
    assert id == FileName(id)[..|id|] && id' == FileName(id')[..|id'|];
  }

  /** The file holds the canonical text of a verified artifact and is named after it. */
  predicate GoodFile(c: Crypto, words: Vocabulary, name: string, raw: string)
  {
    var v := ParseCanonical(raw);
    v.Success? && Verify(c, words, v.value).Success? && name == FileName(Verify(c, words, v.value).value)
  }

  ghost predicate GoodStore(c: Crypto, words: Vocabulary, files: Files)
  {
    forall name | name in files :: GoodFile(c, words, name, files[name])
  }

  /** No file was removed or changed. */
  ghost predicate Grown(files: Files, files': Files)
  {
    forall name | name in files :: name in files' && files'[name] == files[name]
  }

  // ----------------------------------------------------------- append and load

  function Write(files: Files, name: string, raw: string): (Result<()>, Files)
  {
    if name in files then (if files[name] != raw then Failure(ArtifactHashMismatch) else Success(()), files)
    else (Success(()), files[name := raw])
  }

  /** `append`. */
  function AppendStep(c: Crypto, words: Vocabulary, files: Files, v: Json): (Result<string>, Files)
  {
    match (Verify(c, words, v), CanonicalText(v))
    case (Failure(e), _) => (Failure(e), files)
    case (Success(_), Failure(e)) => (Failure(e), files)
    case (Success(id), Success(raw)) =>
      match Write(files, FileName(id), raw)
      case (Failure(e), files') => (Failure(e), files')
      case (Success(_), files') => (Success(id), files')
  }

  /** `load`; None stands for the error of reading a file that does not exist. */
  function Loaded(c: Crypto, words: Vocabulary, files: Files, id: string): Option<Result<Json>>
  {
    if !c.isDigest(id) then Some(Failure(NonCanonical))
    else if FileName(id) !in files then None
    else
      match ParseCanonical(files[FileName(id)])
      case Failure(e) => Some(Failure(e))
      case Success(v) =>
        if !v.Obj? then Some(Failure(NonCanonical))
        else match Verify(c, words, v) case Failure(e) => Some(Failure(e)) case Success(_) => Some(Success(v))
  }

  ghost predicate IsSomeArtifact(c: Crypto, words: Vocabulary, v: Json)
  {
    exists id :: IsArtifact(c, words, v, id, "ceremony_id") || IsArtifact(c, words, v, id, "decision_id")
  }

  lemma SomeArtifact(c: Crypto, words: Vocabulary, v: Json)
    ensures Verify(c, words, v).Success? <==> IsSomeArtifact(c, words, v)
    ensures forall id | Verify(c, words, v) == Success(id) ::
              v.Obj? && "artifact_id" in v.fields && v.fields["artifact_id"] == Str(id)
  {
    forall id ensures Verify(c, words, v) == Success(id) <==>
                      IsArtifact(c, words, v, id, "ceremony_id") || IsArtifact(c, words, v, id, "decision_id") {
      VerifyMeaning(c, words, v, id);
    }
  }

  /** What is loaded: the artifact in the file of that name, whatever its id. */
  lemma LoadedMeaning(c: Crypto, words: Vocabulary, files: Files, id: string, v: Json)
    ensures !c.isDigest(id) ==> Loaded(c, words, files, id) == Some(Failure(NonCanonical))
    ensures Loaded(c, words, files, id) == None <==> c.isDigest(id) && id + ".json" !in files
    ensures Loaded(c, words, files, id) == Some(Success(v)) <==>
            && c.isDigest(id) && id + ".json" in files && ParseCanonical(files[id + ".json"]) == Success(v)
            && IsSomeArtifact(c, words, v)
  {
    SomeArtifact(c, words, v);
  }

  lemma VerifiedText(c: Crypto, words: Vocabulary, v: Json)
    requires Ideal(c) && Verify(c, words, v).Success?
    ensures Valid(v) && c.isDigest(Verify(c, words, v).value)
    ensures GoodFile(c, words, FileName(Verify(c, words, v).value), Dumps(v))
  {
    VerifiedIsAddressed(c, words, v);
    AddressedIsValid(c, v, Verify(c, words, v).value, v.fields - {ARTIFACT_ID});
    ParseUndoesPrint(v);
  }

  /** Two artifacts are never filed under one name. */
  lemma NoCollision(c: Crypto, words: Vocabulary, files: Files, v: Json)
    requires Ideal(c) && GoodStore(c, words, files) && Verify(c, words, v).Success?
    requires FileName(Verify(c, words, v).value) in files
    ensures Valid(v) && files[FileName(Verify(c, words, v).value)] == Dumps(v)
  {
    var name := FileName(Verify(c, words, v).value);
    assert GoodFile(c, words, name, files[name]);
    var w := ParseCanonical(files[name]).value;
    FileNameIsInjective(Verify(c, words, v).value, Verify(c, words, w).value);
    SameIdSameArtifact(c, words, v, w);
    AcceptedTexts(files[name], w);
  }

  lemma AppendVerified(c: Crypto, words: Vocabulary, files: Files, v: Json, id: string, files': Files)
    requires Verify(c, words, v) == Success(id) && Valid(v)
    requires Write(files, FileName(id), Dumps(v)) == (Success(()), files')
    ensures AppendStep(c, words, files, v) == (Success(id), files')
  {
  }

  lemma WriteAgrees(files: Files, name: string, raw: string)
    requires name in files ==> files[name] == raw
    ensures Write(files, name, raw) == (Success(()), files[name := raw])
  {
    if name in files {
      assert files[name := raw] == files;
    }
  }

  lemma WriteKeeps(c: Crypto, words: Vocabulary, files: Files, name: string, raw: string)
    requires GoodStore(c, words, files) && GoodFile(c, words, name, raw)
    ensures GoodStore(c, words, files[name := raw])
  {
    var files' := files[name := raw];
    forall n | n in files' ensures GoodFile(c, words, n, files'[n]) {
      if n != name {
        assert GoodFile(c, words, n, files[n]);
      }
    }
  }

  /** `append` succeeds exactly on verified artifacts; it adds that one file at most and changes none. */
  lemma AppendMeaning(c: Crypto, words: Vocabulary, files: Files, v: Json)
    requires Ideal(c) && GoodStore(c, words, files)
    ensures var (r, files') := AppendStep(c, words, files, v);
            && r == Verify(c, words, v)
            && GoodStore(c, words, files')
            && (r.Failure? ==> files' == files)
            && (r.Success? ==> Valid(v) && files' == files[FileName(r.value) := Dumps(v)])
            && Grown(files, files')
  {
    if Verify(c, words, v).Success? {
      VerifiedText(c, words, v);
      var name := FileName(Verify(c, words, v).value);
      if name in files {
        NoCollision(c, words, files, v);
      }
      WriteAgrees(files, name, Dumps(v));
      WriteKeeps(c, words, files, name, Dumps(v));
      AppendVerified(c, words, files, v, Verify(c, words, v).value, files[name := Dumps(v)]);
    }
  }

  /** What was appended is loaded unchanged from the store and from every store grown out of it. */
  lemma AppendThenLoad(c: Crypto, words: Vocabulary, files: Files, v: Json, later: Files)
    requires Ideal(c) && GoodStore(c, words, files) && AppendStep(c, words, files, v).0.Success?
    requires Grown(AppendStep(c, words, files, v).1, later)
    ensures Loaded(c, words, later, AppendStep(c, words, files, v).0.value) == Some(Success(v))
  {
    AppendMeaning(c, words, files, v);
    VerifiedText(c, words, v);
    ParseUndoesPrint(v);
    var name := FileName(Verify(c, words, v).value);
    assert name in AppendStep(c, words, files, v).1;
  }

  /** The store after a sequence of appends, failing ones included. */
  function AppendAll(c: Crypto, words: Vocabulary, files: Files, vs: seq<Json>): Files
  {
    if vs == [] then files
    else AppendStep(c, words, AppendAll(c, words, files, vs[..|vs| - 1]), vs[|vs| - 1]).1
  }

  predicate FiledAs(c: Crypto, words: Vocabulary, v: Json, name: string)
  {
    Verify(c, words, v).Success? && name == FileName(Verify(c, words, v).value)
  }

  lemma AppendFiles(c: Crypto, words: Vocabulary, files: Files, v: Json, name: string)
    requires Ideal(c) && GoodStore(c, words, files)
    ensures name in AppendStep(c, words, files, v).1 <==> name in files || FiledAs(c, words, v, name)
  {
    AppendMeaning(c, words, files, v);
  }

  /** After any sequence of appends nothing stored before has changed. */
  lemma {:induction false} AppendAllGrows(c: Crypto, words: Vocabulary, files: Files, vs: seq<Json>)
    requires Ideal(c) && GoodStore(c, words, files)
    ensures GoodStore(c, words, AppendAll(c, words, files, vs)) && Grown(files, AppendAll(c, words, files, vs))
  {
    if vs != [] {
      var front := vs[..|vs| - 1];
      AppendAllGrows(c, words, files, front);
      AppendMeaning(c, words, AppendAll(c, words, files, front), vs[|vs| - 1]);
    }
  }

  lemma AppendAllStep(c: Crypto, words: Vocabulary, files: Files, front: seq<Json>, last: Json, name: string)
    requires Ideal(c) && GoodStore(c, words, files)
    ensures name in AppendAll(c, words, files, front + [last])
       <==> name in AppendAll(c, words, files, front) || FiledAs(c, words, last, name)
  {
    AppendAllGrows(c, words, files, front);
    AppendFiles(c, words, AppendAll(c, words, files, front), last, name);
    assert (front + [last])[..|front|] == front;
  }

  ghost predicate AnyFiled(c: Crypto, words: Vocabulary, vs: seq<Json>, name: string)
  {
    exists i :: 0 <= i < |vs| && FiledAs(c, words, vs[i], name)
  }

  lemma AnyFiledStep(c: Crypto, words: Vocabulary, front: seq<Json>, last: Json, name: string)
    ensures AnyFiled(c, words, front + [last], name) <==> AnyFiled(c, words, front, name) || FiledAs(c, words, last, name)
  {
    var vs := front + [last];
    if AnyFiled(c, words, front, name) {
      var i :| 0 <= i < |front| && FiledAs(c, words, front[i], name);
      assert FiledAs(c, words, vs[i], name);
    }
    assert vs[|front|] == last;
  }

  /** And exactly the verified artifacts among those appended have been added. */
  lemma {:induction false} AppendAllFiles(c: Crypto, words: Vocabulary, files: Files, vs: seq<Json>, name: string)
    requires Ideal(c) && GoodStore(c, words, files)
    ensures name in AppendAll(c, words, files, vs) <==> name in files || AnyFiled(c, words, vs, name)
  {
    if vs != [] {
      var front, last := vs[..|vs| - 1], vs[|vs| - 1];
      AppendAllFiles(c, words, files, front, name);
      AppendAllStep(c, words, files, front, last, name);
      AnyFiledStep(c, words, front, last, name);
      assert vs == front + [last];
    }
  }

  // ------------------------------------------------------------------- index

  const INDEX_SCHEMA := "vsdp-bundle-index/1"
  const INDEX_TAG := "vsdp/bundle-index/v1"
  const INDEX_ROOT := "index_root"
  const ENTRY_KEYS := ["artifact_id", "kind", "length", "path", "sha256"]
  const INDEX_KEYS := [
    "decision_id", "entries", "file_count", "profile_id", "schema", "status", "total_bytes", "index_root"]

  lemma IndexKeysAreDistinct()
    ensures Distinct(ENTRY_KEYS) && Distinct(INDEX_KEYS) && Distinct(INDEX_KEYS[..7])
  {
  }

  datatype Entry = Entry(artifactId: string, kind: string, length: nat, path: string, sha256: string)

  function EntryPath(name: string): string
  {
    "public/" + name
  }

  function EntryValues(e: Entry): seq<Json>
  {
    [Str(e.artifactId), Str(e.kind), Int(e.length), Str(e.path), Str(e.sha256)]
  }

  function EntryJson(e: Entry): Json
  {
    IndexKeysAreDistinct();
    Dict(ENTRY_KEYS, EntryValues(e))
  }

  function EntryJsons(entries: seq<Entry>): seq<Json>
  {
    seq(|entries|, i requires 0 <= i < |entries| => EntryJson(entries[i]))
  }

  function CharSize(c: char): nat
  {
    if c < 0x80 as char then 1 else if c < 0x800 as char then 2 else if c < 0x1_0000 as char then 3 else 4
  }

  /** The number of bytes of a text in UTF-8. */
  function Size(raw: string): nat
  {
    if raw == "" then 0 else Size(raw[..|raw| - 1]) + CharSize(raw[|raw| - 1])
  }

  function TotalBytes(entries: seq<Entry>): nat
  {
    if entries == [] then 0 else TotalBytes(entries[..|entries| - 1]) + entries[|entries| - 1].length
  }

  /** What `build_index` reads from one file. */
  function EntryOf(c: Crypto, words: Vocabulary, name: string, raw: string): Result<Entry>
  {
    match ParseCanonical(raw)
    case Failure(e) => Failure(e)
    case Success(v) =>
      if !v.Obj? then Failure(NonCanonical)
      else
        match Verify(c, words, v)
        case Failure(e) => Failure(e)
        case Success(id) =>
          if name != FileName(id) then Failure(ArtifactHashMismatch)
          else Success(Entry(id, v.fields[KIND].s, Size(raw), EntryPath(name), c.sha(Text(raw))))
  }

  /** What is read from the files, in the order of a list of names. */
  function Reads(c: Crypto, words: Vocabulary, files: Files, names: seq<string>): (rs: seq<Result<Entry>>)
    requires forall i | 0 <= i < |names| :: names[i] in files
    ensures |rs| == |names|
  {
    seq(|names|, i requires 0 <= i < |names| => EntryOf(c, words, names[i], files[names[i]]))
  }

  function IndexValues(decisionId: string, entries: seq<Entry>, status: string): seq<Json>
  {
    [Str(decisionId), Arr(EntryJsons(entries)), Int(|entries|), Str(PROFILE_ID), Str(INDEX_SCHEMA), Str(status),
     Int(TotalBytes(entries))]
  }

  /** The index without its root, over which the root is the hash. */
  function IndexBody(decisionId: string, entries: seq<Entry>, status: string): Json
  {
    IndexKeysAreDistinct();
    Dict(INDEX_KEYS[..7], IndexValues(decisionId, entries, status))
  }

  function Sealed(c: Crypto, decisionId: string, entries: seq<Entry>, status: string): Result<Json>
  {
    var body := IndexBody(decisionId, entries, status);
    if !Valid(body) then Failure(NonCanonical)
    else Success(Obj(body.fields[INDEX_ROOT := Str(DomainHash(c, INDEX_TAG, body))]))
  }

  lemma SortedNames(files: Files)
    ensures forall i | 0 <= i < |Sorted(files.Keys)| :: Sorted(files.Keys)[i] in files
  {
    forall i | 0 <= i < |Sorted(files.Keys)| ensures Sorted(files.Keys)[i] in files {
      assert Sorted(files.Keys)[i] in Elements(Sorted(files.Keys));
    }
  }

  /** `build_index`. */
  function BuiltIndex(c: Crypto, words: Vocabulary, files: Files, status: string, decisionId: string): Result<Json>
  {
    if status !in words.statuses || !c.isDigest(decisionId) then Failure(NonCanonical)
    else
      SortedNames(files);
      match Collect(Reads(c, words, files, Sorted(files.Keys)))
      case Failure(e) => Failure(e)
      case Success(entries) => Sealed(c, decisionId, entries, status)
  }

  /** What `load_index` checks of one entry: the path after it, and its length. */
  function CheckEntry(c: Crypto, words: Vocabulary, v: Json, prior: string): Result<(string, nat)>
  {
    match Fields(v, ENTRY_KEYS)
    case None => Failure(NonCanonical)
    case Some(f) =>
      if !IsHex(c, f[0]) || !IsHex(c, f[4]) || !f[1].Str? || f[1].s !in words.kinds then Failure(NonCanonical)
      else if !f[2].Int? || f[2].n < 0 then Failure(NonCanonical)
      else if f[3] != Str(EntryPath(FileName(f[0].s))) || !Less(prior, f[3].s) then Failure(NonCanonical)
      else Success((f[3].s, f[2].n))
  }

  /** The path of the last entry and the sum of the lengths, if every entry is in order. */
  function CheckEntries(c: Crypto, words: Vocabulary, entries: seq<Json>): Result<(string, nat)>
  {
    if entries == [] then Success(("", 0))
    else
      match CheckEntries(c, words, entries[..|entries| - 1])
      case Failure(e) => Failure(e)
      case Success((prior, total)) =>
        match CheckEntry(c, words, entries[|entries| - 1], prior)
        case Failure(e) => Failure(e)
        case Success((path, length)) => Success((path, total + length))
  }

  function IndexHead(c: Crypto, words: Vocabulary, f: seq<Json>): bool
    requires |f| == 8
  {
    && f[4] == Str(INDEX_SCHEMA) && f[3] == Str(PROFILE_ID)
    && IsHex(c, f[0]) && f[5].Str? && f[5].s in words.statuses && f[1].Arr?
  }

  function IndexTail(c: Crypto, v: Json, f: seq<Json>, total: nat): Result<Json>
    requires |f| == 8 && v.Obj? && f[1].Arr?
  {
    var unsigned := Obj(v.fields - {INDEX_ROOT});
    if f[2] != Int(|f[1].items|) || f[6] != Int(total) then Failure(NonCanonical)
    else if !IsHex(c, f[7]) || !Valid(unsigned) then Failure(NonCanonical)
    else if f[7].s != DomainHash(c, INDEX_TAG, unsigned) then Failure(ArtifactHashMismatch)
    else Success(v)
  }

  /** `load_index` on the text of the index file. */
  function LoadedIndex(c: Crypto, words: Vocabulary, text: string): Result<Json>
  {
    match ParseCanonical(text)
    case Failure(e) => Failure(e)
    case Success(v) =>
      match Fields(v, INDEX_KEYS)
      case None => Failure(NonCanonical)
      case Some(f) =>
        if !IndexHead(c, words, f) then Failure(NonCanonical)
        else
          match CheckEntries(c, words, f[1].items)
          case Failure(e) => Failure(e)
          case Success((_, total)) => IndexTail(c, v, f, total)
  }

  // ------------------------------------------------- what the index says

  /** In a good store every file gets its entry: named, typed and addressed. */
  lemma GoodFileHasEntry(c: Crypto, words: Vocabulary, name: string, raw: string)
    requires Ideal(c) && GoodFile(c, words, name, raw)
    ensures var r := EntryOf(c, words, name, raw);
            && r.Success? && c.isDigest(r.value.artifactId) && c.isDigest(r.value.sha256)
            && name == FileName(r.value.artifactId) && r.value.path == EntryPath(name)
            && r.value.kind in words.kinds && r.value.length == Size(raw)
  {
    var v := ParseCanonical(raw).value;
    VerifiedText(c, words, v);
    assert HashIsDigest(c, Text(raw));
  }

  function LastPath(entries: seq<Entry>): string
  {
    if entries == [] then "" else entries[|entries| - 1].path
  }

  ghost predicate InOrder(entries: seq<Entry>)
  {
    forall i, j | 0 <= i < j < |entries| :: Less(entries[i].path, entries[j].path)
  }

  /** An entry that `build_index` wrote passes every check of `load_index`. */
  ghost predicate Checkable(c: Crypto, words: Vocabulary, e: Entry)
  {
    && c.isDigest(e.artifactId) && c.isDigest(e.sha256) && e.kind in words.kinds
    && e.path == EntryPath(FileName(e.artifactId))
  }

  lemma CheckableChecks(c: Crypto, words: Vocabulary, e: Entry, prior: string)
    requires Checkable(c, words, e) && Less(prior, e.path)
    ensures CheckEntry(c, words, EntryJson(e), prior) == Success((e.path, e.length))
  {
    IndexKeysAreDistinct();
    FieldsOfDict(ENTRY_KEYS, EntryValues(e));
  }

  ghost predicate Passes(c: Crypto, words: Vocabulary, v: Json, e: Entry)
  {
    e.path != "" && forall prior | Less(prior, e.path) :: CheckEntry(c, words, v, prior) == Success((e.path, e.length))
  }

  lemma CheckOneMore(c: Crypto, words: Vocabulary, front: seq<Json>, last: Json, prior: string, total: nat, e: Entry)
    requires CheckEntries(c, words, front) == Success((prior, total))
    requires Passes(c, words, last, e) && Less(prior, e.path)
    ensures CheckEntries(c, words, front + [last]) == Success((e.path, total + e.length))
  {
    assert (front + [last])[..|front|] == front;
  }

  ghost predicate PassesAt(c: Crypto, words: Vocabulary, jsons: seq<Json>, entries: seq<Entry>, i: nat)
    requires i < |jsons| == |entries|
  {
    && Passes(c, words, jsons[i], entries[i])
    && Less(LastPath(entries[..i]), entries[i].path)
  }

  lemma TotalsOneMore(front: seq<Entry>, e: Entry)
    ensures LastPath(front + [e]) == e.path && TotalBytes(front + [e]) == TotalBytes(front) + e.length
  {
    assert (front + [e])[..|front|] == front;
  }

  lemma PassOneMore(c: Crypto, words: Vocabulary, entries: seq<Entry>, jsons: seq<Json>, n: nat)
    requires n < |entries| == |jsons| && PassesAt(c, words, jsons, entries, n)
    requires CheckEntries(c, words, jsons[..n]) == Success((LastPath(entries[..n]), TotalBytes(entries[..n])))
    ensures CheckEntries(c, words, jsons[..n + 1]) == Success((LastPath(entries[..n + 1]), TotalBytes(entries[..n + 1])))
  {
    PrefixStep(jsons, n);
    PrefixStep(entries, n);
    TotalsOneMore(entries[..n], entries[n]);
    CheckOneMore(c, words, jsons[..n], jsons[n], LastPath(entries[..n]), TotalBytes(entries[..n]), entries[n]);
  }

  lemma {:induction false} PassingEntriesCheck(c: Crypto, words: Vocabulary, entries: seq<Entry>, jsons: seq<Json>, n: nat)
    requires n <= |entries| == |jsons|
    requires forall i: nat | i < |entries| :: PassesAt(c, words, jsons, entries, i)
    ensures CheckEntries(c, words, jsons[..n]) == Success((LastPath(entries[..n]), TotalBytes(entries[..n])))
  {
    if n > 0 {
      PassingEntriesCheck(c, words, entries, jsons, n - 1);
      PassOneMore(c, words, entries, jsons, n - 1);
    }
  }

  lemma CheckableEntriesCheck(c: Crypto, words: Vocabulary, entries: seq<Entry>)
    requires forall i | 0 <= i < |entries| :: Checkable(c, words, entries[i])
    requires InOrder(entries)
    ensures CheckEntries(c, words, EntryJsons(entries)) == Success((LastPath(entries), TotalBytes(entries)))
  {
    var jsons := EntryJsons(entries);
    forall i: nat | i < |entries| ensures PassesAt(c, words, jsons, entries, i) {
      forall prior | Less(prior, entries[i].path)
        ensures CheckEntry(c, words, EntryJson(entries[i]), prior) == Success((entries[i].path, entries[i].length))
      {
        CheckableChecks(c, words, entries[i], prior);
      }
    }
    PassingEntriesCheck(c, words, entries, jsons, |entries|);
    assert jsons[..|entries|] == jsons && entries[..|entries|] == entries;
  }

  /** The entry is the one `build_index` makes for that file. */
  ghost predicate IsEntryFor(c: Crypto, words: Vocabulary, name: string, e: Entry)
  {
    Checkable(c, words, e) && e.path == EntryPath(name)
  }

  lemma GoodStoreReads(c: Crypto, words: Vocabulary, files: Files, names: seq<string>, i: nat)
    requires Ideal(c) && GoodStore(c, words, files) && i < |names|
    requires forall j | 0 <= j < |names| :: names[j] in files
    ensures Reads(c, words, files, names)[i].Success?
    ensures IsEntryFor(c, words, names[i], Reads(c, words, files, names)[i].value)
  {
    assert GoodFile(c, words, names[i], files[names[i]]);
    GoodFileHasEntry(c, words, names[i], files[names[i]]);
  }

  /** The entries in order: each file once, by strictly increasing path. */
  lemma ListedInOrder(c: Crypto, words: Vocabulary, names: seq<string>, entries: seq<Entry>)
    requires Increasing(names) && |entries| == |names|
    requires forall i | 0 <= i < |names| :: IsEntryFor(c, words, names[i], entries[i])
    ensures InOrder(entries) && forall i | 0 <= i < |entries| :: Checkable(c, words, entries[i])
    ensures forall name | name in names :: exists i :: 0 <= i < |entries| && entries[i].path == EntryPath(name)
  {
    forall i, j | 0 <= i < j < |entries| ensures Less(entries[i].path, entries[j].path) {
      assert IsEntryFor(c, words, names[i], entries[i]) && IsEntryFor(c, words, names[j], entries[j]);
      PrefixPreserves("public/", names[i], names[j]);
    }
    forall name | name in names ensures exists i :: 0 <= i < |entries| && entries[i].path == EntryPath(name) {
      var i :| 0 <= i < |names| && names[i] == name;
      assert IsEntryFor(c, words, names[i], entries[i]);
    }
  }

  lemma LoadSteps(c: Crypto, words: Vocabulary, v: Json, f: seq<Json>, path: string, total: nat)
    requires Valid(v) && |f| == 8 && Fields(v, INDEX_KEYS) == Some(f) && IndexHead(c, words, f)
    requires CheckEntries(c, words, f[1].items) == Success((path, total))
    ensures LoadedIndex(c, words, Dumps(v)) == IndexTail(c, v, f, total)
  {
    ParseUndoesPrint(v);
  }

  lemma TailHolds(c: Crypto, body: Json, v: Json, f: seq<Json>, total: nat)
    requires Ideal(c) && Valid(body) && body.Obj? && v.Obj? && |f| == 8 && f[1].Arr?
    requires v.fields - {INDEX_ROOT} == body.fields && f[7] == Str(DomainHash(c, INDEX_TAG, body))
    requires f[2] == Int(|f[1].items|) && f[6] == Int(total)
    ensures IndexTail(c, v, f, total) == Success(v)
  {
    DomainHashIsDigest(c, INDEX_TAG, body);
    assert Obj(v.fields - {INDEX_ROOT}) == body;
  }

  lemma HeadHolds(c: Crypto, words: Vocabulary, decisionId: string, entries: seq<Entry>, status: string, root: Json)
    requires status in words.statuses && c.isDigest(decisionId)
    ensures var f := IndexValues(decisionId, entries, status) + [root];
            && IndexHead(c, words, f)
            && f[1] == Arr(EntryJsons(entries)) && f[2] == Int(|entries|) && f[6] == Int(TotalBytes(entries)) && f[7] == root
  {
    var values := IndexValues(decisionId, entries, status);
    var f := values + [root];
    assert f[0] == values[0] && f[1] == values[1] && f[2] == values[2] && f[3] == values[3];
    assert f[4] == values[4] && f[5] == values[5] && f[6] == values[6] && f[7] == root;
  }

  lemma SealedIsLoaded(c: Crypto, words: Vocabulary, decisionId: string, entries: seq<Entry>, status: string)
    requires Ideal(c) && Sealed(c, decisionId, entries, status).Success?
    requires status in words.statuses && c.isDigest(decisionId)
    requires CheckEntries(c, words, EntryJsons(entries)) == Success((LastPath(entries), TotalBytes(entries)))
    ensures var v := Sealed(c, decisionId, entries, status).value;
            Valid(v) && LoadedIndex(c, words, Dumps(v)) == Success(v)
  {
    var body := IndexBody(decisionId, entries, status);
    var v := Sealed(c, decisionId, entries, status).value;
    var f := IndexValues(decisionId, entries, status) + [v.fields[INDEX_ROOT]];
    SealedFields(c, decisionId, entries, status);
    SealedIsValid(c, body, v);
    HeadHolds(c, words, decisionId, entries, status, v.fields[INDEX_ROOT]);
    LoadSteps(c, words, v, f, LastPath(entries), TotalBytes(entries));
    TailHolds(c, body, v, f, TotalBytes(entries));
  }

  lemma SealedIsValid(c: Crypto, body: Json, v: Json)
    requires Ideal(c) && Valid(body) && body.Obj?
    requires v == Obj(body.fields[INDEX_ROOT := Str(DomainHash(c, INDEX_TAG, body))])
    ensures Valid(v)
  {
    DomainHashIsDigest(c, INDEX_TAG, body);
    assert ValidString(INDEX_ROOT);
  }

  lemma SealedFields(c: Crypto, decisionId: string, entries: seq<Entry>, status: string)
    requires Sealed(c, decisionId, entries, status).Success?
    ensures var v := Sealed(c, decisionId, entries, status).value;
            && Fields(v, INDEX_KEYS) == Some(IndexValues(decisionId, entries, status) + [v.fields[INDEX_ROOT]])
            && v.fields - {INDEX_ROOT} == IndexBody(decisionId, entries, status).fields
  {
    IndexKeysAreDistinct();
    var v := Sealed(c, decisionId, entries, status).value;
    var values := IndexValues(decisionId, entries, status) + [v.fields[INDEX_ROOT]];
    assert INDEX_KEYS[7] == INDEX_ROOT;
    SplitLast(INDEX_KEYS, values);
    FieldsOfDict(INDEX_KEYS, values);
  }

  /** An object with one more key is the object without it, and that key added. */
  lemma SplitLast(keys: seq<string>, values: seq<Json>)
    requires Distinct(keys) && keys != [] && |keys| == |values|
    ensures var n := |keys| - 1;
            && Distinct(keys[..n])
            && Dict(keys, values).fields == Dict(keys[..n], values[..n]).fields[keys[n] := values[n]]
            && Dict(keys, values).fields - {keys[n]} == Dict(keys[..n], values[..n]).fields
  {
    var n := |keys| - 1;
    assert keys == keys[..n] + [keys[n]] && values == values[..n] + [values[n]];
    DictOneMore(keys[..n], values[..n], keys[n], values[n]);
  }

  lemma DictOneMore(keys: seq<string>, values: seq<Json>, k: string, v: Json)
    requires Distinct(keys + [k]) && |keys| == |values|
    ensures Distinct(keys) && k !in keys
    ensures Dict(keys + [k], values + [v]).fields == Dict(keys, values).fields[k := v]
    ensures Dict(keys, values).fields[k := v] - {k} == Dict(keys, values).fields
  {
    var all, all' := keys + [k], values + [v];
    assert forall i | 0 <= i < |keys| :: all[i] == keys[i] && all'[i] == values[i];
    assert all[|keys|] == k && all'[|keys|] == v;
    DictKeys(keys, values);
    DictKeys(all, all');
    SameMap(all, all', Dict(all, all').fields, Dict(keys, values).fields[k := v]);
  }

  lemma SameMap(keys: seq<string>, values: seq<Json>, m: map<string, Json>, m': map<string, Json>)
    requires |keys| == |values|
    requires forall k :: k in m <==> k in keys
    requires forall k :: k in m' <==> k in keys
    requires forall i | 0 <= i < |keys| :: m[keys[i]] == values[i] == m'[keys[i]]
    ensures m == m'
  {
  }

  lemma DictKeys(keys: seq<string>, values: seq<Json>)
    requires Distinct(keys) && |keys| == |values|
    ensures forall k :: k in Dict(keys, values).fields <==> k in keys
    ensures forall i | 0 <= i < |keys| :: Dict(keys, values).fields[keys[i]] == values[i]
  {
    var m := Dict(keys, values).fields;
    assert forall i | 0 <= i < |keys| :: keys[i] in m && m[keys[i]] == values[i];
  }

  /** The entries of a good store. */
  ghost predicate Complete(c: Crypto, words: Vocabulary, files: Files, entries: seq<Entry>)
  {
    && |entries| == |files| && InOrder(entries)
    && (forall i | 0 <= i < |entries| :: Checkable(c, words, entries[i]))
    && (forall name | name in files :: exists i :: 0 <= i < |entries| && entries[i].path == EntryPath(name))
  }

  lemma StoreEntries(c: Crypto, words: Vocabulary, files: Files) returns (entries: seq<Entry>)
    requires Ideal(c) && GoodStore(c, words, files)
    requires forall i | 0 <= i < |Sorted(files.Keys)| :: Sorted(files.Keys)[i] in files
    ensures Collect(Reads(c, words, files, Sorted(files.Keys))) == Success(entries)
    ensures Complete(c, words, files, entries)
  {
    var names := Sorted(files.Keys);
    var rs := Reads(c, words, files, names);
    forall i | 0 <= i < |rs| ensures rs[i].Success? && IsEntryFor(c, words, names[i], rs[i].value) {
      GoodStoreReads(c, words, files, names, i);
    }
    CollectMeaning(rs);
    entries := Collect(rs).value;
    ListedInOrder(c, words, names, entries);
    forall name | name in files ensures name in names {
      assert name in Elements(names);
    }
  }

  lemma BuiltFrom(c: Crypto, words: Vocabulary, files: Files, status: string, decisionId: string, entries: seq<Entry>)
    requires forall i | 0 <= i < |Sorted(files.Keys)| :: Sorted(files.Keys)[i] in files
    requires Collect(Reads(c, words, files, Sorted(files.Keys))) == Success(entries)
    ensures BuiltIndex(c, words, files, status, decisionId) ==
            if status !in words.statuses || !c.isDigest(decisionId) then Failure(NonCanonical)
            else Sealed(c, decisionId, entries, status)
  {
  }

  /** An index built over a good store lists every artifact once, by strictly increasing path, and is
      accepted when it is read back. */
  lemma BuildThenLoad(c: Crypto, words: Vocabulary, files: Files, status: string, decisionId: string) returns (entries: seq<Entry>)
    requires Ideal(c) && GoodStore(c, words, files)
    ensures var r := BuiltIndex(c, words, files, status, decisionId);
            && (r.Success? <==> status in words.statuses && c.isDigest(decisionId) && Valid(IndexBody(decisionId, entries, status)))
            && (r.Success? ==> Valid(r.value) && LoadedIndex(c, words, Dumps(r.value)) == Success(r.value)
                               && r == Sealed(c, decisionId, entries, status))
    ensures Complete(c, words, files, entries)
  {
    SortedNames(files);
    entries := StoreEntries(c, words, files);
    CheckableEntriesCheck(c, words, entries);
    BuiltFrom(c, words, files, status, decisionId, entries);
    if BuiltIndex(c, words, files, status, decisionId).Success? {
      SealedIsLoaded(c, words, decisionId, entries, status);
    }
  }

  // ---------------------------------------------------------------- the store

  class ArtifactStore {
    const c: Crypto
    const words: Vocabulary
    var files: Files

    ghost predicate Valid()
      reads this
    {
      Ideal(c) && GoodStore(c, words, files)
    }

    constructor (c: Crypto, words: Vocabulary := VOCABULARY)
      requires Ideal(c)
      ensures Valid() && files == map[] && this.c == c && this.words == words
    {
      this.c, this.words, this.files := c, words, map[];
    }

    method Append(v: Json) returns (r: Result<string>)
      requires Valid()
      modifies this`files
      ensures Valid()
      ensures (r, files) == AppendStep(c, words, old(files), v)
      ensures r.Success? <==> IsSomeArtifact(c, words, v)
      ensures r.Success? ==> files == old(files)[r.value + ".json" := Dumps(v)] && v.fields["artifact_id"] == Str(r.value)
      ensures Grown(old(files), files)
    {
      AppendMeaning(c, words, files, v);
      SomeArtifact(c, words, v);
      match Verify(c, words, v) {
        case Failure(e) => return Failure(e);
        case Success(id) =>
          match CanonicalText(v) {
            case Failure(e) => return Failure(e);
            case Success(raw) =>
              if FileName(id) in files {
                if files[FileName(id)] != raw {
                  return Failure(ArtifactHashMismatch);
                }
                return Success(id);
              }
              files := files[FileName(id) := raw];
              return Success(id);
          }
      }
    }

    method Load(id: string) returns (r: Option<Result<Json>>)
      requires Valid()
      ensures r == Loaded(c, words, files, id)
      ensures r == None <==> c.isDigest(id) && id + ".json" !in files
      ensures !c.isDigest(id) ==> r == Some(Failure(NonCanonical))
      ensures r.Some? && r.value.Success? ==>
                var v := r.value.value;
                && Verify(c, words, v) == Success(id) && Dumps(v) == files[id + ".json"]
                && (IsArtifact(c, words, v, id, "ceremony_id") || IsArtifact(c, words, v, id, "decision_id"))
    {
      LoadedMeaning(c, words, files, id, Null);
      r := Loaded(c, words, files, id);
      if r.Some? && r.value.Success? {
        assert GoodFile(c, words, FileName(id), files[FileName(id)]);
        FileNameIsInjective(id, Verify(c, words, r.value.value).value);
        VerifyMeaning(c, words, r.value.value, id);
        AcceptedTexts(files[FileName(id)], r.value.value);
      }
    }

    method BuildIndex(status: string, decisionId: string) returns (r: Result<Json>)
      requires Valid()
      ensures r == BuiltIndex(c, words, files, status, decisionId)
    {
      if status !in words.statuses || !c.isDigest(decisionId) {
        return Failure(NonCanonical);
      }
      SortedNames(files);
      var read := ReadEntries(c, words, files, Sorted(files.Keys));
      match read {
        case Failure(e) => return Failure(e);
        case Success(entries) => return Sealed(c, decisionId, entries, status);
      }
    }
  }

  /** The loop of `build_index` over the file names. */
  method ReadEntries(c: Crypto, words: Vocabulary, files: Files, names: seq<string>) returns (r: Result<seq<Entry>>)
    requires forall i | 0 <= i < |names| :: names[i] in files
    ensures r == Collect(Reads(c, words, files, names))
  {
    ghost var rs := Reads(c, words, files, names);
    var entries: seq<Entry> := [];
    for n := 0 to |names|
      invariant Collect(rs[..n]) == Success(entries)
    {
      CollectNext(rs, n);
      match EntryOf(c, words, names[n], files[names[n]]) {
        case Failure(e) =>
          CollectStops(rs, n + 1);
          return Failure(e);
        case Success(entry) => entries := entries + [entry];
      }
    }
    assert rs[..|names|] == rs;
    return Success(entries);
  }

  lemma {:induction false} ChecksFail(c: Crypto, words: Vocabulary, entries: seq<Json>, n: nat)
    requires n <= |entries| && CheckEntries(c, words, entries[..n]).Failure?
    ensures CheckEntries(c, words, entries) == CheckEntries(c, words, entries[..n])
    decreases |entries|
  {
    if n == |entries| {
      assert entries[..n] == entries;
    } else {
      var front := entries[..|entries| - 1];
      assert front[..n] == entries[..n];
      ChecksFail(c, words, front, n);
    }
  }

  /** The loop of `load_index` over the entries. */
  method ScanEntries(c: Crypto, words: Vocabulary, entries: seq<Json>) returns (r: Result<nat>)
    ensures r == match CheckEntries(c, words, entries) case Failure(e) => Failure(e) case Success((_, total)) => Success(total)
  {
    var prior, total := "", 0;
    for n := 0 to |entries|
      invariant CheckEntries(c, words, entries[..n]) == Success((prior, total))
    {
      assert entries[..n + 1][..n] == entries[..n];
      match CheckEntry(c, words, entries[n], prior) {
        case Failure(e) =>
          ChecksFail(c, words, entries, n + 1);
          return Failure(e);
        case Success((path, length)) => prior, total := path, total + length;
      }
    }
    assert entries[..|entries|] == entries;
    return Success(total);
  }

  method LoadIndex(c: Crypto, words: Vocabulary, text: string) returns (r: Result<Json>)
    ensures r == LoadedIndex(c, words, text)
  {
    match ParseCanonical(text) {
      case Failure(e) => return Failure(e);
      case Success(v) =>
        match Fields(v, INDEX_KEYS) {
          case None => return Failure(NonCanonical);
          case Some(f) =>
            if !IndexHead(c, words, f) {
              return Failure(NonCanonical);
            }
            var scanned := ScanEntries(c, words, f[1].items);
            match scanned {
              case Failure(e) => return Failure(e);
              case Success(total) => return IndexTail(c, v, f, total);
            }
        }
    }
  }
}

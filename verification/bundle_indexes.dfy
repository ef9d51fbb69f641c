/** Which index files the reader accepts. */
module BundleIndexes {
  import opened Outcomes
  import opened Ordering
  import opened CanonicalJson
  import opened CanonicalLaws
  import opened JsonObjects
  import opened Hashing
  import opened HashBytes
  import opened PublicArtifacts
  import opened ArtifactStores

  /** An entry that passes its checks is one that could have been written. */
  lemma CheckedEntry(c: Crypto, words: Vocabulary, v: Json, prior: string) returns (e: Entry)
    requires CheckEntry(c, words, v, prior).Success?
    ensures v == EntryJson(e) && Checkable(c, words, e) && Less(prior, e.path)
    ensures CheckEntry(c, words, v, prior) == Success((e.path, e.length))
  {
    IndexKeysAreDistinct();
    DictOfFields(v, ENTRY_KEYS);
    var f := Fields(v, ENTRY_KEYS).value;
    e := Entry(f[0].s, f[1].s, f[2].n, f[3].s, f[4].s);
    assert f == EntryValues(e);
  }

  lemma OneMoreInOrder(front: seq<Entry>, e: Entry)
    requires InOrder(front) && Less(LastPath(front), e.path)
    ensures InOrder(front + [e])
  {
    var entries := front + [e];
    forall i, j | 0 <= i < j < |entries| ensures Less(entries[i].path, entries[j].path) {
      if j == |front| && i < |front| - 1 {
        Transitive(front[i].path, LastPath(front), e.path);
      }
    }
  }

  /** The list is written from checkable entries in strict order. */
  ghost predicate WrittenFrom(c: Crypto, words: Vocabulary, jsons: seq<Json>, entries: seq<Entry>)
  {
    && EntryJsons(entries) == jsons && InOrder(entries)
    && forall i | 0 <= i < |entries| :: Checkable(c, words, entries[i])
  }

  lemma WrittenOneMore(c: Crypto, words: Vocabulary, jsons: seq<Json>, entries: seq<Entry>, last: Json, e: Entry)
    requires WrittenFrom(c, words, jsons, entries) && last == EntryJson(e)
    requires Checkable(c, words, e) && Less(LastPath(entries), e.path)
    ensures WrittenFrom(c, words, jsons + [last], entries + [e])
  {
    OneMoreInOrder(entries, e);
    EntryJsonsOneMore(entries, e);
  }

  ghost predicate Readable(c: Crypto, words: Vocabulary, jsons: seq<Json>, n: nat)
    requires n <= |jsons|
  {
    CheckEntries(c, words, jsons[..n]).Success?
  }

  lemma PrefixesAreReadable(c: Crypto, words: Vocabulary, jsons: seq<Json>)
    requires CheckEntries(c, words, jsons).Success?
    ensures forall n: nat | n <= |jsons| :: Readable(c, words, jsons, n)
  {
    forall n: nat | n <= |jsons| ensures Readable(c, words, jsons, n) {
      if CheckEntries(c, words, jsons[..n]).Failure? {
        ChecksFail(c, words, jsons, n);
      }
    }
  }

  lemma LastIsChecked(c: Crypto, words: Vocabulary, front: seq<Json>, last: Json, prior: string, total: nat)
    requires CheckEntries(c, words, front + [last]).Success? && CheckEntries(c, words, front) == Success((prior, total))
    ensures CheckEntry(c, words, last, prior).Success?
  {
    assert (front + [last])[..|front|] == front;
  }

  lemma NextIsChecked(c: Crypto, words: Vocabulary, jsons: seq<Json>, n: nat, entries: seq<Entry>)
    requires n < |jsons| && Readable(c, words, jsons, n + 1) && WrittenFrom(c, words, jsons[..n], entries)
    ensures CheckEntry(c, words, jsons[n], LastPath(entries)).Success?
  {
    ReadableNext(c, words, jsons, n);
    WrittenIsChecked(c, words, jsons[..n], entries);
    LastIsChecked(c, words, jsons[..n], jsons[n], LastPath(entries), TotalBytes(entries));
  }

  lemma ReadableNext(c: Crypto, words: Vocabulary, jsons: seq<Json>, n: nat)
    requires n < |jsons| && Readable(c, words, jsons, n + 1)
    ensures CheckEntries(c, words, jsons[..n] + [jsons[n]]).Success?
  {
    assert jsons[..n + 1] == jsons[..n] + [jsons[n]];
  }

  lemma WrittenIsChecked(c: Crypto, words: Vocabulary, jsons: seq<Json>, entries: seq<Entry>)
    requires WrittenFrom(c, words, jsons, entries)
    ensures CheckEntries(c, words, jsons) == Success((LastPath(entries), TotalBytes(entries)))
  {
    CheckableEntriesCheck(c, words, entries);
  }

  lemma NextEntry(c: Crypto, words: Vocabulary, jsons: seq<Json>, n: nat, entries: seq<Entry>) returns (e: Entry)
    requires n < |jsons| && Readable(c, words, jsons, n + 1) && WrittenFrom(c, words, jsons[..n], entries)
    ensures WrittenFrom(c, words, jsons[..n + 1], entries + [e])
  {
    NextIsChecked(c, words, jsons, n, entries);
    assert jsons[..n + 1] == jsons[..n] + [jsons[n]];
    e := CheckedEntry(c, words, jsons[n], LastPath(entries));
    WrittenOneMore(c, words, jsons[..n], entries, jsons[n], e);
  }

  /** A list of entries passes the loop only if it is written from checkable entries in strict order. */
  lemma {:induction false} CheckedEntries(c: Crypto, words: Vocabulary, jsons: seq<Json>, n: nat) returns (entries: seq<Entry>)
    requires n <= |jsons| && forall m: nat | m <= n :: Readable(c, words, jsons, m)
    ensures WrittenFrom(c, words, jsons[..n], entries)
  {
    entries := [];
    if n > 0 {
      var front := CheckedEntries(c, words, jsons, n - 1);
      var e := NextEntry(c, words, jsons, n - 1, front);
      entries := front + [e];
    }
  }

  lemma ReadEntries(c: Crypto, words: Vocabulary, jsons: seq<Json>) returns (entries: seq<Entry>)
    requires CheckEntries(c, words, jsons).Success?
    ensures WrittenFrom(c, words, jsons, entries)
    ensures CheckEntries(c, words, jsons) == Success((LastPath(entries), TotalBytes(entries)))
  {
    PrefixesAreReadable(c, words, jsons);
    entries := CheckedEntries(c, words, jsons, |jsons|);
    assert jsons[..|jsons|] == jsons;
    CheckableEntriesCheck(c, words, entries);
  }

  lemma EntryJsonsOneMore(front: seq<Entry>, e: Entry)
    ensures EntryJsons(front + [e]) == EntryJsons(front) + [EntryJson(e)]
  {
  }

  /** The index over a list of checkable entries in strictly increasing path order, with the right counters
      and the hash over all of it as its root. */
  ghost predicate GoodIndex(c: Crypto, words: Vocabulary, v: Json, decisionId: string, entries: seq<Entry>, status: string)
  {
    && status in words.statuses && c.isDigest(decisionId)
    && InOrder(entries) && (forall i | 0 <= i < |entries| :: Checkable(c, words, entries[i]))
    && Sealed(c, decisionId, entries, status) == Success(v)
  }

  lemma SealedFrom(c: Crypto, v: Json, decisionId: string, entries: seq<Entry>, status: string, root: Json)
    requires Fields(v, INDEX_KEYS) == Some(IndexValues(decisionId, entries, status) + [root])
    requires Valid(Obj(v.fields - {INDEX_ROOT}))
    requires root == Str(DomainHash(c, INDEX_TAG, Obj(v.fields - {INDEX_ROOT})))
    ensures Sealed(c, decisionId, entries, status) == Success(v)
  {
    IndexKeysAreDistinct();
    DictOfFields(v, INDEX_KEYS);
    var values := IndexValues(decisionId, entries, status) + [root];
    assert values[..7] == IndexValues(decisionId, entries, status);
    assert INDEX_KEYS[7] == INDEX_ROOT;
    SplitLast(INDEX_KEYS, values);
    assert IndexBody(decisionId, entries, status) == Obj(v.fields - {INDEX_ROOT});
  }

  lemma HeadValues(c: Crypto, words: Vocabulary, f: seq<Json>, entries: seq<Entry>)
    requires |f| == 8 && IndexHead(c, words, f) && f[1] == Arr(EntryJsons(entries))
    requires f[2] == Int(|entries|) && f[6] == Int(TotalBytes(entries))
    ensures f == IndexValues(f[0].s, entries, f[5].s) + [f[7]]
  {
  }

  lemma TailChecked(c: Crypto, v: Json, f: seq<Json>, total: nat)
    requires |f| == 8 && v.Obj? && f[1].Arr? && IndexTail(c, v, f, total).Success?
    ensures f[2] == Int(|f[1].items|) && f[6] == Int(total) && Valid(Obj(v.fields - {INDEX_ROOT}))
    ensures f[7] == Str(DomainHash(c, INDEX_TAG, Obj(v.fields - {INDEX_ROOT})))
  {
  }

  /** What the steps of `load_index` found, one after the other. */
  lemma LoadedParts(c: Crypto, words: Vocabulary, text: string) returns (v: Json, f: seq<Json>, total: nat)
    requires LoadedIndex(c, words, text).Success?
    ensures LoadedIndex(c, words, text) == Success(v) && ParseCanonical(text) == Success(v)
    ensures Fields(v, INDEX_KEYS) == Some(f) && |f| == 8 && IndexHead(c, words, f)
    ensures CheckEntries(c, words, f[1].items).Success? && CheckEntries(c, words, f[1].items).value.1 == total
    ensures IndexTail(c, v, f, total).Success?
  {
    v := ParseCanonical(text).value;
    f := Fields(v, INDEX_KEYS).value;
    total := CheckEntries(c, words, f[1].items).value.1;
  }

  lemma PartsAreGood(c: Crypto, words: Vocabulary, v: Json, f: seq<Json>, entries: seq<Entry>)
    requires Fields(v, INDEX_KEYS) == Some(f) && |f| == 8 && IndexHead(c, words, f)
    requires WrittenFrom(c, words, f[1].items, entries)
    requires f[2] == Int(|f[1].items|) && f[6] == Int(TotalBytes(entries)) && Valid(Obj(v.fields - {INDEX_ROOT}))
    requires f[7] == Str(DomainHash(c, INDEX_TAG, Obj(v.fields - {INDEX_ROOT})))
    ensures GoodIndex(c, words, v, f[0].s, entries, f[5].s)
  {
    assert |f[1].items| == |entries|;
    HeadValues(c, words, f, entries);
    SealedFrom(c, v, f[0].s, entries, f[5].s, f[7]);
  }

  lemma AcceptedIndex(c: Crypto, words: Vocabulary, text: string) returns (decisionId: string, entries: seq<Entry>, status: string)
    requires LoadedIndex(c, words, text).Success?
    ensures var v := LoadedIndex(c, words, text).value;
            Valid(v) && text == Dumps(v) && GoodIndex(c, words, v, decisionId, entries, status)
  {
    var v, f, total := LoadedParts(c, words, text);
    AcceptedTexts(text, v);
    entries := ReadEntries(c, words, f[1].items);
    TailChecked(c, v, f, total);
    PartsAreGood(c, words, v, f, entries);
    decisionId, status := f[0].s, f[5].s;
  }

  /** A text is accepted if and only if it is the canonical text of such an index. */
  lemma LoadedIndexMeaning(c: Crypto, words: Vocabulary, text: string, v: Json)
    requires Ideal(c)
    ensures LoadedIndex(c, words, text) == Success(v) <==>
            && Valid(v) && text == Dumps(v)
            && exists decisionId, entries, status :: GoodIndex(c, words, v, decisionId, entries, status)
  {
    if LoadedIndex(c, words, text) == Success(v) {
      var decisionId, entries, status := AcceptedIndex(c, words, text);
    }
    if Valid(v) && text == Dumps(v) {
      forall decisionId, entries, status | GoodIndex(c, words, v, decisionId, entries, status)
        ensures LoadedIndex(c, words, text) == Success(v)
      {
        CheckableEntriesCheck(c, words, entries);
        SealedIsLoaded(c, words, decisionId, entries, status);
      }
    }
  }

  // --------------------------------------------------------- what is written

  lemma Utf8Concat(a: string, b: string)
    ensures Utf8(a + b) == Utf8(a) + Utf8(b)
  {
    if a == "" {
      assert a + b == b;
    } else {
      assert (a + b)[1..] == a[1..] + b;
      Utf8Concat(a[1..], b);
    }
  }

  /** `len(raw)` counts the bytes of the UTF-8 text. */
  lemma {:induction false} SizeIsUtf8(raw: string)
    ensures Size(raw) == |Utf8(raw)|
  {
    if raw != "" {
      var front, last := raw[..|raw| - 1], raw[|raw| - 1];
      assert raw == front + [last];
      SizeIsUtf8(front);
      Utf8Concat(front, [last]);
      assert Utf8([last]) == CharBytes(last);
      CharBytesLead(last);
    }
  }

  /** The entry of a file: the artifact in it, its size in bytes, its place and the hash of its text. */
  ghost predicate EntryFits(c: Crypto, words: Vocabulary, name: string, raw: string, e: Entry)
  {
    && name == e.artifactId + ".json" && e.path == "public/" + name
    && e.length == |Utf8(raw)| && e.sha256 == c.sha(Text(raw))
    && exists v :: ArtifactIn(c, words, raw, v, e.artifactId) && v.fields["kind"] == Str(e.kind)
  }

  /** The text is the canonical text of the artifact with this id. */
  ghost predicate ArtifactIn(c: Crypto, words: Vocabulary, raw: string, v: Json, id: string)
  {
    ParseCanonical(raw) == Success(v) && (IsArtifact(c, words, v, id, "ceremony_id") || IsArtifact(c, words, v, id, "decision_id"))
  }

  lemma EntryMeaning(c: Crypto, words: Vocabulary, name: string, raw: string, e: Entry)
    ensures EntryOf(c, words, name, raw) == Success(e) <==> EntryFits(c, words, name, raw, e)
  {
    SizeIsUtf8(raw);
    var parsed := ParseCanonical(raw);
    if parsed.Success? {
      forall id ensures Verify(c, words, parsed.value) == Success(id) <==> ArtifactIn(c, words, raw, parsed.value, id) {
        VerifyMeaning(c, words, parsed.value, id);
      }
      assert KIND == "kind";
    }
  }

  /** One entry for every file, in the order of their names. */
  ghost predicate Indexes(c: Crypto, words: Vocabulary, files: Files, entries: seq<Entry>)
  {
    var names := Sorted(files.Keys);
    |entries| == |names| && forall i | 0 <= i < |entries| :: EntryAt(c, words, files, names, entries, i)
  }

  ghost predicate EntryAt(c: Crypto, words: Vocabulary, files: Files, names: seq<string>, entries: seq<Entry>, i: nat)
    requires i < |entries| == |names|
  {
    names[i] in files && EntryFits(c, words, names[i], files[names[i]], entries[i])
  }

  lemma ReadsMeaning(c: Crypto, words: Vocabulary, files: Files, names: seq<string>, entries: seq<Entry>)
    requires names == Sorted(files.Keys) && forall i | 0 <= i < |names| :: names[i] in files
    ensures Collect(Reads(c, words, files, names)) == Success(entries) <==> Indexes(c, words, files, entries)
  {
    var rs := Reads(c, words, files, names);
    CollectedMeaning(rs, entries);
    if |entries| == |names| {
      forall i | 0 <= i < |names| ensures rs[i] == Success(entries[i]) <==> EntryAt(c, words, files, names, entries, i) {
        EntryMeaning(c, words, names[i], files[names[i]], entries[i]);
      }
    }
  }

  lemma CollectedMeaning<T>(rs: seq<Result<T>>, values: seq<T>)
    ensures Collect(rs) == Success(values) <==> |values| == |rs| && forall i | 0 <= i < |rs| :: rs[i] == Success(values[i])
  {
    CollectMeaning(rs);
    if |values| == |rs| && forall i | 0 <= i < |rs| :: rs[i] == Success(values[i]) {
      assert Collect(rs).value == values;
    }
  }

  /** An index is built from a directory exactly when every file in it is an artifact under its own name;
      it is then the sealed list of their entries. */
  lemma BuiltIndexMeaning(c: Crypto, words: Vocabulary, files: Files, status: string, decisionId: string, v: Json)
    ensures BuiltIndex(c, words, files, status, decisionId) == Success(v) <==>
            && status in words.statuses && c.isDigest(decisionId)
            && exists entries :: Indexes(c, words, files, entries) && Sealed(c, decisionId, entries, status) == Success(v)
  {
    SortedNames(files);
    var names := Sorted(files.Keys);
    var read := Collect(Reads(c, words, files, names));
    forall entries ensures read == Success(entries) <==> Indexes(c, words, files, entries) {
      ReadsMeaning(c, words, files, names, entries);
    }
  }
}

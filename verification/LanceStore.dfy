/**
 The store's operations run without interruption, loop by loop, against the table functions that
 the interleaved protocol steps through. Any table call may fail; a failed call changes nothing.
 */
module LanceStores {
  import opened Arithmetic
  import opened Collections
  import opened Records
  import opened StoreTables
  import opened StoreProtocol

  const KEY_LOOKUP_CHUNK: nat := 512

  datatype BatchWriteStats = BatchWriteStats(chunksWritten: nat, embeddingsWritten: nat)

  // ----- choosing and embedding new content -----

  method SelectNewContent(keyed: seq<Keyed>, stored: set<Key>) returns (newContent: seq<Keyed>)
    ensures newContent == NewContent(keyed, stored)
  {
    newContent := [];
    var queued: set<Key> := {};
    assert keyed[0..] == keyed && stored + queued == stored;
    for i := 0 to |keyed|
      invariant newContent + NewContent(keyed[i..], stored + queued) == NewContent(keyed, stored)
    {
      var e := keyed[i];
      NewContentFrom(keyed, i, stored + queued);
      if e.key in stored || e.file.chunks == [] {
        continue;
      }
      if e.key !in queued {
        assert stored + queued + {e.key} == stored + (queued + {e.key});
        queued := queued + {e.key};
        newContent := newContent + [e];
      }
    }
  }

  lemma NewContentFrom(keyed: seq<Keyed>, i: nat, known: set<Key>)
    requires i < |keyed|
    ensures NewContent(keyed[i..], known) ==
      if keyed[i].key in known || keyed[i].file.chunks == [] then NewContent(keyed[i+1..], known)
      else [keyed[i]] + NewContent(keyed[i+1..], known + {keyed[i].key})
  {
    assert keyed[i..][1..] == keyed[i+1..];
  }

  /** The search texts of all entries, in the order they are sent to the embedder. */
  function FlatTexts(entries: seq<Keyed>): seq<Text> {
    if entries == [] then [] else FileTexts(entries[0].file) + FlatTexts(entries[1..])
  }

  function FileTexts(file: PreparedFile): (texts: seq<Text>)
    ensures |texts| == |file.chunks|
  {
    seq(|file.chunks|, i requires 0 <= i < |file.chunks| => file.chunks[i].searchText)
  }

  /** The vectors filed under the entries' keys, put back into one list. */
  function Gathered(entries: seq<Keyed>, embedded: Embedded): seq<Vector>
    requires forall e :: e in entries ==> e.key in embedded
  {
    if entries == [] then []
    else assert entries[0] in entries; embedded[entries[0].key] + Gathered(entries[1..], embedded)
  }

  predicate SizedFor(entries: seq<Keyed>, embedded: Embedded) {
    forall e :: e in entries ==> e.key in embedded && |embedded[e.key]| == |e.file.chunks|
  }

  lemma {:induction false} GatheredSnoc(entries: seq<Keyed>, e: Keyed, embedded: Embedded, v: seq<Vector>)
    requires forall x :: x in entries ==> x.key in embedded && x.key != e.key
    ensures Gathered(entries + [e], embedded[e.key := v]) == Gathered(entries, embedded) + v
  {
    if entries == [] {
      assert entries + [e] == [e];
      assert Gathered([e], embedded[e.key := v]) == v + Gathered([], embedded[e.key := v]);
    } else {
      assert (entries + [e])[1..] == entries[1..] + [e];
      GatheredSnoc(entries[1..], e, embedded, v);
    }
  }

  lemma {:induction false} FlatTextsSnoc(entries: seq<Keyed>, e: Keyed)
    ensures FlatTexts(entries + [e]) == FlatTexts(entries) + FileTexts(e.file)
  {
    if entries == [] {
      assert entries + [e] == [e];
      assert FlatTexts([e]) == FileTexts(e.file) + FlatTexts([]);
    } else {
      assert (entries + [e])[1..] == entries[1..] + [e];
      FlatTextsSnoc(entries[1..], e);
    }
  }

  /**
   Flattens the texts of all entries into one embedder call and files the answer back per key.
   On success the filed vectors, read in entry order, are the embedder's answer again.
   */
  method EmbedContent(enabled: bool, entries: seq<Keyed>, embedder: seq<Text> -> Result<seq<Vector>>)
    returns (r: Result<Embedded>)
    requires DistinctKeys(entries)
    ensures !enabled || entries == [] ==> r == Ok(map[])
    ensures enabled && entries != [] ==>
      (r.Ok? <==> embedder(FlatTexts(entries)).Ok? && |embedder(FlatTexts(entries)).value| == |FlatTexts(entries)|)
    ensures enabled && entries != [] && r.Ok? ==> Filed(entries, r.value, embedder(FlatTexts(entries)).value)
  {
    if !enabled || entries == [] {
      return Ok(map[]);
    }
    var texts: seq<Text> := [];
    for i := 0 to |entries|
      invariant texts == FlatTexts(entries[..i])
    {
      assert entries[..i+1] == entries[..i] + [entries[i]];
      FlatTextsSnoc(entries[..i], entries[i]);
      texts := texts + FileTexts(entries[i].file);
    }
    assert entries[..|entries|] == entries;
    var answer := embedder(texts);
    if answer.Err? || |answer.value| != |texts| {
      return Err;
    }
    var embedded := SplitVectors(entries, answer.value);
    return Ok(embedded);
  }

  /** Each entry's key, and no other, has a vector per chunk; read in order they are `vectors`. */
  predicate Filed(entries: seq<Keyed>, embedded: Embedded, vectors: seq<Vector>) {
    && SizedFor(entries, embedded) && embedded.Keys == (set e | e in entries :: e.key)
    && Gathered(entries, embedded) == vectors
  }

  /** Cuts one list of vectors into a stretch per entry. */
  method SplitVectors(entries: seq<Keyed>, vectors: seq<Vector>) returns (embedded: Embedded)
    requires DistinctKeys(entries) && |vectors| == |FlatTexts(entries)|
    ensures Filed(entries, embedded, vectors)
  {
    embedded := map[];
    var next := 0;
    assert Filed([], embedded, []);
    for i := 0 to |entries|
      invariant next == |FlatTexts(entries[..i])| <= |vectors|
      invariant Filed(entries[..i], embedded, vectors[..next])
    {
      FlatTextsNext(entries, i);
      var end := next + |entries[i].file.chunks|;
      FileNext(entries, i, embedded, vectors, next, end);
      embedded := embedded[entries[i].key := vectors[next..end]];
      next := end;
    }
    assert entries[..|entries|] == entries && vectors[..|vectors|] == vectors;
  }

  lemma FlatTextsNext(entries: seq<Keyed>, i: nat)
    requires i < |entries|
    ensures |FlatTexts(entries[..i+1])| == |FlatTexts(entries[..i])| + |entries[i].file.chunks| <= |FlatTexts(entries)|
  {
    assert entries[..i+1] == entries[..i] + [entries[i]];
    FlatTextsSnoc(entries[..i], entries[i]);
    FlatTextsPrefix(entries, i + 1);
  }

  /** Filing one more entry's vectors keeps what was filed before. */
  lemma FileOneMore(entries: seq<Keyed>, e: Keyed, embedded: Embedded, vectors: seq<Vector>, buf: seq<Vector>)
    requires Filed(entries, embedded, vectors) && |buf| == |e.file.chunks|
    requires forall x :: x in entries ==> x.key != e.key
    ensures Filed(entries + [e], embedded[e.key := buf], vectors + buf)
  {
    GatheredSnoc(entries, e, embedded, buf);
  }

  lemma FileNext(entries: seq<Keyed>, i: nat, embedded: Embedded, vectors: seq<Vector>, next: nat, end: nat)
    requires i < |entries| && DistinctKeys(entries)
    requires end == next + |entries[i].file.chunks| <= |vectors| && Filed(entries[..i], embedded, vectors[..next])
    ensures Filed(entries[..i+1], embedded[entries[i].key := vectors[next..end]], vectors[..end])
  {
    assert entries[..i+1] == entries[..i] + [entries[i]] && vectors[..next] + vectors[next..end] == vectors[..end];
    FileOneMore(entries[..i], entries[i], embedded, vectors[..next], vectors[next..end]);
  }

  lemma {:induction false} FlatTextsPrefix(entries: seq<Keyed>, n: nat)
    requires n <= |entries|
    ensures |FlatTexts(entries[..n])| <= |FlatTexts(entries)|
  {
    if n > 0 {
      assert entries[..n][1..] == entries[1..][..n-1];
      FlatTextsPrefix(entries[1..], n - 1);
    }
  }

  function EmbedAll(cfg: Config, texts: seq<Text>): (vectors: seq<Vector>)
    ensures |vectors| == |texts|
  {
    seq(|texts|, i requires 0 <= i < |texts| => cfg.embed(texts[i]))
  }

  /** When the embedder answers text by text, every key gets the vectors of its own chunks. */
  lemma {:induction false} SplitGivesOwnVectors(cfg: Config, entries: seq<Keyed>, embedded: Embedded, e: Keyed)
    requires SizedFor(entries, embedded) && Gathered(entries, embedded) == EmbedAll(cfg, FlatTexts(entries))
    requires e in entries
    ensures embedded[e.key] == FileVectors(cfg, e.file)
  {
    var head := entries[0];
    assert head in entries;
    var mine, rest := embedded[head.key], Gathered(entries[1..], embedded);
    var n := |head.file.chunks|;
    var all := EmbedAll(cfg, FlatTexts(entries));
    assert all == mine + rest;
    assert mine == all[..n] && rest == all[n..];
    assert all[..n] == FileVectors(cfg, head.file);
    assert all[n..] == EmbedAll(cfg, FlatTexts(entries[1..]));
    if e != head {
      SplitGivesOwnVectors(cfg, entries[1..], embedded, e);
    }
  }

  function ChunkTotal(files: seq<PreparedFile>): nat {
    if files == [] then 0 else ChunkTotal(files[..|files|-1]) + |files[|files|-1].chunks|
  }

  function EntryFiles(entries: seq<Keyed>): (files: seq<PreparedFile>)
    ensures |files| == |entries|
  {
    seq(|entries|, i requires 0 <= i < |entries| => entries[i].file)
  }

  function OwnOf(entries: seq<Keyed>, vectors: Embedded): (own: seq<Option<seq<Vector>>>)
    ensures |own| == |entries|
  {
    seq(|entries|, i requires 0 <= i < |entries| =>
      if entries[i].key in vectors then Some(vectors[entries[i].key]) else None)
  }

  function VectorTotal(own: seq<Option<seq<Vector>>>): nat {
    if own == [] then 0
    else VectorTotal(own[..|own|-1]) + if own[|own|-1].Some? then |own[|own|-1].value| else 0
  }

  predicate Sized(entries: seq<Keyed>, own: seq<Option<seq<Vector>>>)
    requires |own| == |entries|
  {
    forall i :: 0 <= i < |entries| && own[i].Some? ==> |own[i].value| == |entries[i].file.chunks|
  }

  function PairedRows(entries: seq<Keyed>, own: seq<Option<seq<Vector>>>): seq<ContentRow>
    requires |own| == |entries| && Sized(entries, own)
  {
    if entries == [] then []
    else ContentRows(entries[0].file, entries[0].key, own[0]) + PairedRows(entries[1..], own[1..])
  }

  lemma SizedFrom(entries: seq<Keyed>, own: seq<Option<seq<Vector>>>, i: nat)
    requires |own| == |entries| && i <= |entries| && Sized(entries, own)
    ensures Sized(entries[i..], own[i..])
  {}

  lemma PairedRowsFrom(entries: seq<Keyed>, own: seq<Option<seq<Vector>>>, i: nat)
    requires |own| == |entries| && i < |entries| && Sized(entries, own)
    ensures Sized(entries[i..], own[i..]) && Sized(entries[i+1..], own[i+1..])
    ensures PairedRows(entries[i..], own[i..])
      == ContentRows(entries[i].file, entries[i].key, own[i]) + PairedRows(entries[i+1..], own[i+1..])
  {
    SizedFrom(entries, own, i);
    SizedFrom(entries, own, i + 1);
    assert entries[i..][1..] == entries[i+1..] && own[i..][1..] == own[i+1..];
  }

  lemma {:induction false} PairedRowsAreNewRows(
    cfg: Config, prepared: Embedded, entries: seq<Keyed>, own: seq<Option<seq<Vector>>>)
    requires EmbeddedFor(cfg, prepared, entries) && |own| == |entries|
    requires forall i :: 0 <= i < |entries| ==> own[i] == EntryVectors(cfg, prepared, entries[i])
    ensures Sized(entries, own) && PairedRows(entries, own) == NewRows(cfg, prepared, entries)
    ensures VectorTotal(own) == if cfg.enabled then ChunkTotal(EntryFiles(entries)) else 0
  {
    if entries != [] {
      PairedRowsAreNewRows(cfg, prepared, entries[1..], own[1..]);
    }
    VectorsPerChunk(cfg, prepared, entries, own);
  }

  lemma {:induction false} VectorsPerChunk(
    cfg: Config, prepared: Embedded, entries: seq<Keyed>, own: seq<Option<seq<Vector>>>)
    requires EmbeddedFor(cfg, prepared, entries) && |own| == |entries|
    requires forall i :: 0 <= i < |entries| ==> own[i] == EntryVectors(cfg, prepared, entries[i])
    ensures VectorTotal(own) == if cfg.enabled then ChunkTotal(EntryFiles(entries)) else 0
  {
    var n := |entries|;
    if n > 0 {
      VectorsPerChunk(cfg, prepared, entries[..n-1], own[..n-1]);
      assert EntryFiles(entries)[..n-1] == EntryFiles(entries[..n-1]);
      assert entries[n-1] in entries;
    }
  }

  function KeySet(keys: seq<Key>): set<Key> {
    set k | k in keys
  }

  // ----- the collection's target -----

  /** The content rows whose key some map row references. */
  function MappedRows(table: seq<ContentRow>, files: Files): seq<ContentRow> {
    if table == [] then []
    else (if Mapped(files, table[0].key) then [table[0]] else []) + MappedRows(table[1..], files)
  }

  lemma {:induction false} DropUnmapped(table: seq<ContentRow>, files: Files, keys: set<Key>)
    requires forall r :: r in table ==> (r.key in keys <==> !Mapped(files, r.key))
    ensures DropKeys(table, keys) == MappedRows(table, files)
  {
    if table != [] {
      assert table[0] in table;
      DropUnmapped(table[1..], files, keys);
    }
  }

  lemma {:induction false} MappedRowsSurvive(table: seq<ContentRow>, files: Files, keys: set<Key>)
    requires forall k :: k in keys ==> !Mapped(files, k)
    ensures MappedRows(DropKeys(table, keys), files) == MappedRows(table, files)
  {
    if table != [] {
      MappedRowsSurvive(table[1..], files, keys);
      var rest := DropKeys(table[1..], keys);
      if table[0].key in keys {
        assert DropKeys(table, keys) == rest;
      } else {
        assert DropKeys(table, keys)[1..] == rest;
      }
    }
  }

  lemma {:induction false} DropTwice(table: seq<ContentRow>, a: set<Key>, b: set<Key>)
    ensures DropKeys(DropKeys(table, a), b) == DropKeys(table, a + b)
  {
    if table != [] {
      DropTwice(table[1..], a, b);
      var rest := DropKeys(table[1..], a);
      if table[0].key in a {
        assert DropKeys(table, a) == rest;
      } else {
        assert DropKeys(table, a)[1..] == rest;
      }
    }
  }

  lemma {:induction false} DropShrinks(table: seq<ContentRow>, keys: set<Key>)
    ensures |DropKeys(table, keys)| <= |table|
  {
    if table != [] {
      DropShrinks(table[1..], keys);
    }
  }

  lemma {:induction false} DropNothing(table: seq<ContentRow>)
    ensures DropKeys(table, {}) == table
  {
    if table != [] {
      DropNothing(table[1..]);
    }
  }

  /** A row of a sound table has an `ord = 0` sibling, so the candidate scan sees its key. */
  lemma RowKeyIsStored(table: seq<ContentRow>, r: ContentRow)
    requires OrdsComplete(RowsFor(table, r.key)) && r in table
    ensures exists z :: z in table && z.chunk.ord == 0 && z.key == r.key
  {
    RowsForMember(table, r.key, r);
    var z := RowsFor(table, r.key)[0];
    assert z in RowsFor(table, r.key);
    RowsForMember(table, r.key, z);
  }

  class LanceStore {
    const cfg: Config
    /** Whether the n-th table or embedder call fails. */
    const fails: nat -> bool
    var calls: nat
    var table: seq<ContentRow>
    var files: Files

    ghost predicate Valid()
      reads this
    {
      KeysIdentifyContent(cfg) && TableSound(cfg, table) && MapSound(cfg, table, files)
    }

    /** Some call numbered in `from..to` failed. */
    predicate Faulted(from: nat, to: nat) {
      exists n :: from <= n < to && fails(n)
    }

    constructor (cfg: Config, fails: nat -> bool)
      requires KeysIdentifyContent(cfg)
      ensures Valid() && table == [] && files == map[] && this.cfg == cfg && this.fails == fails
    {
      this.cfg, this.fails := cfg, fails;
      calls, table, files := 0, [], map[];
      new;
      EmptyStore(cfg);
    }

    /** A store found on disk with sound tables. */
    constructor Open(cfg: Config, fails: nat -> bool, table: seq<ContentRow>, files: Files)
      requires KeysIdentifyContent(cfg) && TableSound(cfg, table) && MapSound(cfg, table, files)
      ensures Valid() && this.cfg == cfg && this.fails == fails && calls == 0
      ensures this.table == table && this.files == files
    {
      this.cfg, this.fails := cfg, fails;
      calls, this.table, this.files := 0, table, files;
    }

    method Call() returns (ok: bool)
      modifies this`calls
      ensures calls == old(calls) + 1 && ok == !fails(old(calls))
    {
      ok := !fails(calls);
      calls := calls + 1;
    }

    /** `needed` calls succeed one after the other, or the last one made is the first that fails. */
    predicate FailsAt(from: nat, to: nat, needed: nat, ok: bool) {
      if ok then to == from + needed && !Faulted(from, to)
      else from < to <= from + needed && fails(to - 1) && !Faulted(from, to - 1)
    }

    lemma FailsThen(from: nat, mid: nat, to: nat, first: nat, second: nat, ok: bool)
      requires FailsAt(from, mid, first, true) && FailsAt(mid, to, second, ok)
      ensures FailsAt(from, to, first + second, ok)
    {}

    /** Which of `keys` have content rows, looked up at most 512 keys at a time. */
    method StoredContentKeys(keys: seq<Key>) returns (r: Result<set<Key>>)
      modifies this`calls
      ensures r.Ok? ==> r.value == set k | k in keys && Stored(table, k)
      ensures FailsAt(old(calls), calls, CeilDiv(|KeySet(keys)|, 512), r.Ok?)
    {
      var left := KeySet(keys);
      var stored: set<Key> := {};
      while left != {}
        invariant left <= KeySet(keys)
        invariant stored == set k | k in keys && k !in left && Stored(table, k)
        invariant calls + CeilDiv(|left|, 512) == old(calls) + CeilDiv(|KeySet(keys)|, 512)
        invariant !Faulted(old(calls), calls)
        decreases |left|
      {
        var group := TakeUpTo(left, KEY_LOOKUP_CHUNK);
        LookupRound(left, group);
        var ok := Call();
        if !ok {
          return Err;
        }
        stored := stored + set k | k in group && Stored(table, k);
        left := left - group;
      }
      return Ok(stored);
    }

    static lemma LookupRound(left: set<Key>, group: set<Key>)
      requires group <= left && group != {} && (|group| == 512 || group == left) && |group| <= 512
      ensures CeilDiv(|left|, 512) == CeilDiv(|left - group|, 512) + 1
    {
      assert left == group + (left - group);
    }

    /** One embedder call, if embeddings are on and there is something to embed. */
    method Embed(entries: seq<Keyed>) returns (r: Result<Embedded>)
      requires DistinctKeys(entries)
      modifies this`calls
      ensures r.Ok? ==> EmbeddedFor(cfg, r.value, entries)
      ensures r.Ok? ==> r.value.Keys == if cfg.enabled then set e | e in entries :: e.key else {}
      ensures FailsAt(old(calls), calls, if cfg.enabled && entries != [] then 1 else 0, r.Ok?)
    {
      if !cfg.enabled || entries == [] {
        return Ok(map[]);
      }
      var ok := Call();
      var c := cfg;
      r := EmbedContent(true, entries,
                        (texts: seq<Text>) => if ok then Ok(EmbedAll(c, texts)) else Result<seq<Vector>>.Err);
      if r.Ok? {
        forall e | e in entries
          ensures r.value[e.key] == FileVectors(cfg, e.file)
        {
          SplitGivesOwnVectors(cfg, entries, r.value, e);
        }
      }
    }

    /** Derives the batch's keys, looks them up, and picks one file per key that is not stored. */
    method FindNewContent(batch: seq<PreparedFile>) returns (r: Result<seq<Keyed>>)
      modifies this`calls
      ensures r.Ok? ==> r.value == NewContent(KeyedBatch(cfg, batch), StoredOf(cfg, table, batch))
      ensures FailsAt(old(calls), calls, CeilDiv(|BatchKeys(cfg, batch)|, 512), r.Ok?)
    {
      var keyed := KeyedBatch(cfg, batch);
      var keys := seq(|keyed|, i requires 0 <= i < |keyed| => keyed[i].key);
      KeysOfBatch(cfg, batch, keys);
      var stored := StoredContentKeys(keys);
      if stored.Err? {
        return Err;
      }
      assert stored.value == StoredOf(cfg, table, batch) by { StoredAgrees(cfg, table, batch, keys, stored.value); }
      var entries := SelectNewContent(keyed, stored.value);
      return Ok(entries);
    }

    /** Embeds what an unguarded lookup reports as new: the protocol's preparation, run alone. */
    method PrepareBatch(batch: seq<PreparedFile>) returns (r: Result<Embedded>)
      requires Valid() && StorableBatch(batch)
      modifies this`calls
      ensures Valid() && (r.Ok? ==> r.value == PreparedVectors(cfg, batch, StoredOf(cfg, table, batch)))
      ensures r.Ok? ==> EmbeddedSound(cfg, r.value)
      ensures FailsAt(old(calls), calls, PrepareCalls(cfg, table, batch), r.Ok?)
    {
      var found := FindNewContent(batch);
      if found.Err? {
        return Err;
      }
      var candidates := found.value;
      NewContentEntries(KeyedBatch(cfg, batch), StoredOf(cfg, table, batch));
      ghost var looked := calls;
      r := Embed(candidates);
      FailsThen(old(calls), looked, calls, CeilDiv(|BatchKeys(cfg, batch)|, 512),
                if cfg.enabled && candidates != [] then 1 else 0, r.Ok?);
      if r.Ok? {
        OwnVectorsAreAll(cfg, candidates, r.value);
        PreparedVectorsAreSound(cfg, batch, StoredOf(cfg, table, batch));
      }
    }

    static method MissingVectors(entries: seq<Keyed>, prepared: Embedded) returns (missing: seq<Keyed>)
      requires DistinctKeys(entries)
      ensures forall e :: e in missing <==> e in entries && e.key !in prepared
      ensures DistinctKeys(missing)
    {
      missing := [];
      for i := 0 to |entries|
        invariant forall e :: e in missing <==> e in entries[..i] && e.key !in prepared
        invariant DistinctKeys(missing)
      {
        assert forall e :: e in entries[..i] ==> e.key != entries[i].key;
        if entries[i].key !in prepared {
          missing := missing + [entries[i]];
        }
      }
    }

    /** The vectors of each entry, or none for a key that was not embedded, and how many there are. */
    static method TakeVectors(entries: seq<Keyed>, vectors: Embedded) returns (own: seq<Option<seq<Vector>>>,
                              written: nat)
      ensures own == OwnOf(entries, vectors) && written == VectorTotal(own)
    {
      own := [];
      written := 0;
      for i := 0 to |entries|
        invariant own == OwnOf(entries[..i], vectors)
        invariant written == VectorTotal(own)
      {
        var v: Option<seq<Vector>> := if entries[i].key in vectors then Some(vectors[entries[i].key]) else None;
        assert (own + [v])[..|own|] == own;
        own := own + [v];
        written := written + if v.Some? then |v.value| else 0;
      }
      assert entries[..|entries|] == entries;
    }

    /** One row per chunk, paired with its vector; a vector count that differs from the chunk count fails. */
    static method BuildRecordBatch(entries: seq<Keyed>, own: seq<Option<seq<Vector>>>)
      returns (r: Result<seq<ContentRow>>)
      requires |own| == |entries|
      ensures r.Ok? <==> Sized(entries, own)
      ensures r.Ok? ==> r.value == PairedRows(entries, own)
    {
      var rows: seq<ContentRow> := [];
      for i := 0 to |entries|
        invariant Sized(entries[..i], own[..i])
        invariant Sized(entries, own) ==> rows + PairedRows(entries[i..], own[i..]) == PairedRows(entries, own)
      {
        var e := entries[i];
        if Sized(entries, own) {
          PairedRowsFrom(entries, own, i);
        }
        if own[i].Some? && |own[i].value| != |e.file.chunks| {
          return Err;
        }
        rows := rows + ContentRows(e.file, e.key, own[i]);
      }
      assert entries[..|entries|] == entries && own[..|own|] == own;
      assert rows + [] == rows;
      return Ok(rows);
    }

    /** The vectors to write with each entry: prepared ones, and ones made now for keys that lack them. */
    method GatherVectors(entries: seq<Keyed>, prepared: Embedded)
      returns (r: Result<(seq<Option<seq<Vector>>>, nat)>)
      requires DistinctKeys(entries) && EmbeddedFor(cfg, prepared, entries)
      modifies this`calls
      ensures r.Ok? ==> |r.value.0| == |entries| && r.value.1 == VectorTotal(r.value.0)
      ensures r.Ok? ==> forall i :: 0 <= i < |entries| ==> r.value.0[i] == EntryVectors(cfg, prepared, entries[i])
      ensures FailsAt(old(calls), calls, if cfg.enabled && Lacks(entries, prepared) then 1 else 0, r.Ok?)
    {
      var missing := MissingVectors(entries, prepared);
      MissingIsLacking(entries, prepared, missing);
      var made := Embed(missing);
      if made.Err? {
        return Err;
      }
      var own, written := TakeVectors(entries, prepared + made.value);
      forall i | 0 <= i < |entries|
        ensures own[i] == EntryVectors(cfg, prepared, entries[i])
      {
        OwnVectors(cfg, prepared, made.value, missing, entries, entries[i]);
      }
      return Ok((own, written));
    }

    /** Adds the rows of new content with a vector for every chunk, and counts the vectors. */
    method WriteContent(entries: seq<Keyed>, prepared: Embedded) returns (r: Result<nat>)
      requires DistinctKeys(entries) && EmbeddedFor(cfg, prepared, entries)
      modifies this`calls, this`table
      ensures r.Ok? ==> table == old(table) + NewRows(cfg, prepared, entries)
      ensures r.Ok? ==> r.value == if cfg.enabled then ChunkTotal(EntryFiles(entries)) else 0
      ensures r.Err? ==> table == old(table)
      ensures FailsAt(old(calls), calls, WriteCalls(cfg, entries, prepared), r.Ok?)
    {
      var gathered := GatherVectors(entries, prepared);
      if gathered.Err? {
        return Err;
      }
      ghost var embedded := calls;
      var (own, written) := gathered.value;
      PairedRowsAreNewRows(cfg, prepared, entries, own);
      var rows := BuildRecordBatch(entries, own);
      var ok := Call();
      FailsThen(old(calls), embedded, calls, if cfg.enabled && Lacks(entries, prepared) then 1 else 0, 1, ok);
      if rows.Err? || !ok {
        return Err;
      }
      table := table + rows.value;
      return Ok(written);
    }

    /** Adds the content of the new entries, if there are any. */
    method AddNew(entries: seq<Keyed>, prepared: Embedded) returns (r: Result<nat>)
      requires DistinctKeys(entries) && EmbeddedFor(cfg, prepared, entries)
      modifies this`calls, this`table
      ensures r.Ok? ==> table == old(table) + NewRows(cfg, prepared, entries)
      ensures r.Ok? ==> r.value == if cfg.enabled then ChunkTotal(EntryFiles(entries)) else 0
      ensures r.Err? ==> table == old(table)
      ensures FailsAt(old(calls), calls, if entries != [] then WriteCalls(cfg, entries, prepared) else 0, r.Ok?)
    {
      if entries == [] {
        return Ok(0);
      }
      r := WriteContent(entries, prepared);
    }

    /** A key's vectors come from the prepared batch, or from the second embedding pass. */
    static lemma OwnVectors(cfg: Config, prepared: Embedded, made: Embedded, missing: seq<Keyed>,
                            entries: seq<Keyed>, e: Keyed)
      requires EmbeddedFor(cfg, prepared, entries) && EmbeddedFor(cfg, made, missing) && e in entries
      requires DistinctKeys(entries)
      requires forall x :: x in missing <==> x in entries && x.key !in prepared
      requires made.Keys == if cfg.enabled then set x | x in missing :: x.key else {}
      ensures var vectors := prepared + made;
        (if e.key in vectors then Some(vectors[e.key]) else None) == EntryVectors(cfg, prepared, e)
    {
      if e.key in made {
        var x :| x in missing && x.key == e.key;
        assert x == e;
      } else if e.key !in prepared {
        assert e in missing;
      }
    }

    /**
     Every root sees the whole batch or none of it: the batch exactly if the failure, if any, comes after
     the map write. A batch of two corpora or roots is refused; otherwise it fails exactly when one of the
     calls it needs does.
     */
    method CommitBatch(batch: seq<PreparedFile>, embedded: Embedded) returns (r: Result<BatchWriteStats>)
      requires Valid() && StorableBatch(batch) && EmbeddedSound(cfg, embedded)
      modifies this
      ensures Valid()
      ensures batch == [] ==> r == Ok(BatchWriteStats(0, 0)) && table == old(table) && files == old(files)
      ensures (exists f, g :: f in batch && g in batch && f.corpusKey != g.corpusKey) ==>
        r.Err? && table == old(table) && files == old(files) && calls == old(calls)
      ensures (forall f, g :: f in batch && g in batch ==> f.corpusKey == g.corpusKey) && batch != [] ==>
        FailsAt(old(calls), calls, old(CommitCalls(cfg, table, batch, embedded)), r.Ok?)
      ensures r.Ok? || calls > old(calls) + old(MapCalls(cfg, table, batch, embedded)) ==>
        Shown(table, files) == PutCopies(cfg, old(Shown(table, files)), batch)
      ensures r.Err? && calls <= old(calls) + old(MapCalls(cfg, table, batch, embedded)) ==>
        Shown(table, files) == old(Shown(table, files))
      ensures r.Ok? && DistinctRefs(batch) ==>
        HoldsBatch(cfg, old(Shown(table, files)), Shown(table, files), batch)
      ensures r.Ok? ==> r.value.chunksWritten == ChunkTotal(batch)
      ensures r.Ok? ==> r.value.embeddingsWritten == (if cfg.enabled
        then ChunkTotal(EntryFiles(NewContent(KeyedBatch(cfg, batch), old(StoredOf(cfg, table, batch)))))
        else 0)
    {
      var same := CheckSameCorpus(batch);
      if DistinctRefs(batch) {
        PutHoldsBatch(cfg, Shown(table, files), batch);
      }
      if batch == [] {
        return Ok(BatchWriteStats(0, 0));
      }
      if !same {
        return Err;
      }
      r := CommitOne(batch, embedded);
    }

    /** The commit of a batch that belongs together. */
    method CommitOne(batch: seq<PreparedFile>, embedded: Embedded) returns (r: Result<BatchWriteStats>)
      requires Valid() && StorableBatch(batch) && EmbeddedSound(cfg, embedded)
      modifies this
      ensures Valid()
      ensures FailsAt(old(calls), calls, old(CommitCalls(cfg, table, batch, embedded)), r.Ok?)
      ensures r.Ok? || calls > old(calls) + old(MapCalls(cfg, table, batch, embedded)) ==>
        Shown(table, files) == PutCopies(cfg, old(Shown(table, files)), batch)
      ensures r.Err? && calls <= old(calls) + old(MapCalls(cfg, table, batch, embedded)) ==>
        Shown(table, files) == old(Shown(table, files))
      ensures r.Ok? ==> r.value.chunksWritten == ChunkTotal(batch)
      ensures r.Ok? ==> r.value.embeddingsWritten == (if cfg.enabled
        then ChunkTotal(EntryFiles(NewContent(KeyedBatch(cfg, batch), old(StoredOf(cfg, table, batch)))))
        else 0)
    {
      ghost var start := calls;
      CommitSteps(cfg, table, files, batch, embedded);
      var chunks := CountChunks(batch);
      var added := AddBatchContent(batch, embedded);
      if added.Err? {
        return Err;
      }
      ghost var written := calls;
      var ok := WriteMapAndRefresh(batch, added.value.0);
      FailsThen(start, written, calls, written - start, if added.value.0 then 3 else 2, ok);
      if !ok {
        return Err;
      }
      return Ok(BatchWriteStats(chunks, added.value.1));
    }

    /** The lookup and the add of a commit: whether content was new, and the vectors written with it. */
    method AddBatchContent(batch: seq<PreparedFile>, embedded: Embedded) returns (r: Result<(bool, nat)>)
      requires DistinctKeys(NewOf(cfg, table, batch)) && EmbeddedFor(cfg, embedded, NewOf(cfg, table, batch))
      modifies this`calls, this`table
      ensures r.Ok? ==> table == old(table) + NewRows(cfg, embedded, old(NewOf(cfg, table, batch)))
      ensures r.Ok? ==> r.value.0 == (old(NewOf(cfg, table, batch)) != [])
      ensures r.Ok? ==>
        r.value.1 == if cfg.enabled then ChunkTotal(EntryFiles(old(NewOf(cfg, table, batch)))) else 0
      ensures r.Err? ==> table == old(table)
      ensures FailsAt(old(calls), calls, old(MapCalls(cfg, table, batch, embedded)) - 1, r.Ok?)
    {
      ghost var start := calls;
      var found := FindNewContent(batch);
      if found.Err? {
        return Err;
      }
      var entries := found.value;
      ghost var looked := calls;
      var added := AddNew(entries, embedded);
      FailsThen(start, looked, calls, CeilDiv(|BatchKeys(cfg, batch)|, 512),
                if entries != [] then WriteCalls(cfg, entries, embedded) else 0, added.Ok?);
      if added.Err? {
        return Err;
      }
      return Ok((entries != [], added.value));
    }

    /** Merges the map rows; if that succeeds, refreshes the indexes. */
    method WriteMapAndRefresh(batch: seq<PreparedFile>, added: bool) returns (ok: bool)
      modifies this`calls, this`files
      ensures FailsAt(old(calls), calls, if added then 3 else 2, ok)
      ensures calls == old(calls) + 1 ==> files == old(files)
      ensures calls > old(calls) + 1 ==> files == MergeFiles(cfg, old(files), batch)
    {
      ok := Call();
      if !ok {
        return;
      }
      files := MergeFiles(cfg, files, batch);
      ghost var mapped := calls;
      ok := RefreshBoth(added);
      FailsThen(old(calls), mapped, calls, 1, if added then 2 else 1, ok);
    }

    /** Refreshes the map's indexes, then those of the content table if content was added. */
    method RefreshBoth(added: bool) returns (ok: bool)
      modifies this`calls
      ensures FailsAt(old(calls), calls, if added then 2 else 1, ok)
    {
      ok := Call();
      if ok && added {
        ok := Call();
      }
    }

    /** A batch must belong to one corpus and root: that of its first file. */
    static method CheckSameCorpus(batch: seq<PreparedFile>) returns (same: bool)
      ensures same <==> forall f, g :: f in batch && g in batch ==> f.corpusKey == g.corpusKey
    {
      for i := 0 to |batch|
        invariant forall j :: 0 <= j < i ==> batch[j].corpusKey == batch[0].corpusKey
      {
        if batch[i].corpusKey != batch[0].corpusKey {
          return false;
        }
      }
      return true;
    }

    static method CountChunks(batch: seq<PreparedFile>) returns (total: nat)
      ensures total == ChunkTotal(batch)
    {
      total := 0;
      for i := 0 to |batch|
        invariant total == ChunkTotal(batch[..i])
      {
        assert batch[..i+1][..i] == batch[..i];
        total := total + |batch[i].chunks|;
      }
      assert batch[..|batch|] == batch;
    }

    /** Removes one file's map row; its content stays until a collection finds it unreferenced. */
    method DeleteFile(id: FileId) returns (r: Result<()>)
      requires Valid()
      modifies this`calls, this`files
      ensures Valid()
      ensures Shown(table, files) == if r.Ok? then old(Shown(table, files)) - {id} else old(Shown(table, files))
      ensures calls == old(calls) + 1 && (r.Err? <==> fails(old(calls)))
    {
      var ok := Call();
      if !ok {
        return Err;
      }
      UngatedStep(cfg, Quiet(table, files), Step.DeleteFile(id));
      files := DropFile(files, id);
      return Ok(());
    }

    /** Removes every map row of `root`, in every corpus, and reports how many. */
    method DeleteRoot(root: Text) returns (r: Result<nat>)
      requires Valid()
      modifies this`calls, this`files
      ensures Valid() && (r.Err? ==> files == old(files))
      ensures r.Ok? ==> files == DropRoot(old(files), root) && r.value == |old(files)| - |files|
      ensures calls == old(calls) + 1 && (r.Err? <==> fails(old(calls)))
    {
      var ok := Call();
      if !ok {
        return Err;
      }
      UngatedStep(cfg, Quiet(table, files), Step.DeleteRoot(root));
      var kept := DropRoot(files, root);
      assert kept.Keys <= files.Keys;
      assert |files.Keys - kept.Keys| == |files.Keys| - |kept.Keys|;
      var removed := |files| - |kept|;
      files := kept;
      return Ok(removed);
    }

    /** Moves one file's mtime; its content, every other file and every other column stay. */
    method TouchMtime(id: FileId, mtimeMs: int) returns (r: Result<()>)
      requires Valid()
      modifies this`calls, this`files
      ensures Valid() && files.Keys == old(files).Keys
      ensures forall other :: other in files && other != id ==> files[other] == old(files)[other]
      ensures Shown(table, files) == if r.Ok? && id in old(files)
        then old(Shown(table, files))[id := old(Shown(table, files))[id].(mtimeMs := mtimeMs)]
        else old(Shown(table, files))
      ensures calls == old(calls) + 1 && (r.Err? <==> fails(old(calls)))
    {
      var ok := Call();
      if !ok {
        return Err;
      }
      UngatedStep(cfg, Quiet(table, files), Step.TouchMtime(id, mtimeMs));
      files := SetMtime(files, id, mtimeMs);
      return Ok(());
    }

    /** Scans for the keys with content that no map row references, each once. */
    method OrphanCandidates() returns (r: Result<seq<Key>>)
      modifies this`calls
      ensures r.Ok? ==> KeySet(r.value) == OrphanKeys(table, files) && |r.value| == |OrphanKeys(table, files)|
      ensures FailsAt(old(calls), calls, 2, r.Ok?)
    {
      var scanned := Call();
      if !scanned {
        return Err;
      }
      var referenced := Call();
      if !referenced {
        return Err;
      }
      var candidates := ListOrphans(table, files);
      return Ok(candidates);
    }

    static method ListOrphans(table: seq<ContentRow>, files: Files) returns (keys: seq<Key>)
      ensures KeySet(keys) == OrphanKeys(table, files) && |keys| == |OrphanKeys(table, files)|
    {
      OrphansAreMissing(table, files);
      keys := ListMissing(StoredKeys(table), LiveKeys(files));
    }

    /** The stored keys that are not live, each once. */
    static method ListMissing(stored: set<Key>, live: set<Key>) returns (keys: seq<Key>)
      ensures KeySet(keys) == stored - live && |keys| == |stored - live|
    {
      var left := stored;
      keys := [];
      while left != {}
        invariant left <= stored && KeySet(keys) == stored - live - left && |keys| == |KeySet(keys)|
        decreases |left|
      {
        var k :| k in left;
        left := left - {k};
        if k !in live {
          assert KeySet(keys + [k]) == KeySet(keys) + {k};
          keys := keys + [k];
        }
        assert stored - live - left == KeySet(keys);
      }
    }

    /** Sound tables that show every root what the content table `was` showed, with all its mapped rows. */
    ghost predicate Kept(was: seq<ContentRow>)
      reads this
    {
      Valid() && Shown(table, files) == Shown(was, files) && MappedRows(table, files) == MappedRows(was, files)
    }

    /** Rechecks one group under the gate and deletes the keys that are still unmapped. */
    method CollectGroup(group: seq<Key>) returns (r: Result<nat>)
      requires Valid()
      modifies this`calls, this`table
      ensures Kept(old(table))
      ensures r.Ok? ==> table == DropKeys(old(table), UnmappedOf(group, files)) && r.value == |old(table)| - |table|
      ensures r.Err? ==> table == old(table)
      ensures FailsAt(old(calls), calls, if UnmappedOf(group, files) == {} then 1 else 2, r.Ok?)
    {
      var rechecked := Call();
      if !rechecked {
        return Err;
      }
      var orphans := UnmappedOf(group, files);
      DropNothing(table);
      if orphans == {} {
        return Ok(0);
      }
      var deleted := Call();
      if !deleted {
        return Err;
      }
      DropKeepsTable(cfg, table, orphans);
      DropKeepsMap(cfg, table, files, orphans);
      MappedRowsSurvive(table, files, orphans);
      DropShrinks(table, orphans);
      var left := DropKeys(table, orphans);
      r := Ok(|table| - |left|);
      table := left;
    }

    /**
     Leaves exactly the rows whose key is mapped and counts the others, 512 keys at a time. It fails
     exactly when one of the calls it needs fails. A failure never takes a mapped row; it leaves the
     table as it was if and only if it comes no later than the first delete, the fourth call.
     */
    method DeleteOrphanContent() returns (r: Result<nat>)
      requires Valid()
      modifies this`calls, this`table
      ensures Kept(old(table))
      ensures r.Ok? ==> table == MappedRows(old(table), files) && r.value == |old(table)| - |table|
      ensures FailsAt(old(calls), calls, CollectionCalls(|OrphanKeys(old(table), files)|), r.Ok?)
      ensures r.Err? && Faulted(old(calls), old(calls) + 4) ==> table == old(table)
      ensures r.Err? && !Faulted(old(calls), old(calls) + 4) ==> |table| < |old(table)|
    {
      var candidates := OrphanCandidates();
      if candidates.Err? {
        return Err;
      }
      LeavesMapped(table, files, candidates.value);
      r := CollectGroups(candidates.value);
    }

    /** Works through the candidates 512 at a time; what was deleted before a failure stays deleted. */
    method CollectGroups(keys: seq<Key>) returns (r: Result<nat>)
      requires Valid() && KeySet(keys) == OrphanKeys(table, files)
      modifies this`calls, this`table
      ensures Kept(old(table))
      ensures r.Ok? ==> table == DropKeys(old(table), KeySet(keys)) && r.value == |old(table)| - |table|
      ensures FailsAt(old(calls), calls, 2 * CeilDiv(|keys|, KEY_LOOKUP_CHUNK), r.Ok?)
      ensures r.Err? ==> if calls <= old(calls) + 2 then table == old(table) else |table| < |old(table)|
    {
      DropNothing(table);
      var removed: nat := 0;
      var i := 0;
      assert KeySet(keys[..0]) == {};
      while i < |keys|
        invariant 0 <= i <= |keys|
        invariant table == DropKeys(old(table), KeySet(keys[..i]))
        invariant removed == |old(table)| - |table| && (i > 0 ==> removed > 0)
        invariant Kept(old(table))
        invariant calls == old(calls) + GroupCalls(|keys|, i) && !Faulted(old(calls), calls)
        invariant i > 0 ==> calls >= old(calls) + 2
      {
        var end := if i + KEY_LOOKUP_CHUNK <= |keys| then i + KEY_LOOKUP_CHUNK else |keys|;
        NextGroup(old(table), files, keys, i, end);
        NextGroupCalls(|keys|, i, end);
        var rows := CollectGroup(keys[i..end]);
        if rows.Err? {
          return Err;
        }
        removed := removed + rows.value;
        i := end;
      }
      assert keys[..i] == keys;
      return Ok(removed);
    }
  }

  /** The calls that bring the collection of `n` keys to key `i`. */
  function GroupCalls(n: nat, i: nat): (calls: int)
    requires i <= n
  {
    2 * CeilDiv(n, KEY_LOOKUP_CHUNK) - 2 * CeilDiv(n - i, KEY_LOOKUP_CHUNK)
  }

  lemma NextGroupCalls(n: nat, i: nat, end: nat)
    requires i < end <= n && end == if i + KEY_LOOKUP_CHUNK <= n then i + KEY_LOOKUP_CHUNK else n
    ensures GroupCalls(n, end) == GroupCalls(n, i) + 2 <= 2 * CeilDiv(n, KEY_LOOKUP_CHUNK)
  {}

  /** The keys with content that no map row references. */
  function OrphanKeys(table: seq<ContentRow>, files: Files): set<Key> {
    set row | row in table && row.chunk.ord == 0 && !Mapped(files, row.key) :: row.key
  }

  function StoredKeys(table: seq<ContentRow>): set<Key> {
    set row | row in table && row.chunk.ord == 0 :: row.key
  }

  function LiveKeys(files: Files): set<Key> {
    set id | id in files :: files[id].key
  }

  lemma OrphansAreMissing(table: seq<ContentRow>, files: Files)
    ensures StoredKeys(table) - LiveKeys(files) == OrphanKeys(table, files)
  {
    forall k
      ensures k in LiveKeys(files) <==> Mapped(files, k)
    {
    }
  }

  function UnmappedOf(group: seq<Key>, files: Files): set<Key> {
    set k | k in group && !Mapped(files, k)
  }

  /** Two scans, and a recheck and a delete for each group of 512 keys. */
  function CollectionCalls(keys: nat): nat {
    2 + 2 * CeilDiv(keys, 512)
  }

  /** The next group extends what was dropped, and the first one takes a row. */
  lemma NextGroup(table: seq<ContentRow>, files: Files, keys: seq<Key>, i: nat, end: nat)
    requires i < end <= |keys| && KeySet(keys) == OrphanKeys(table, files)
    ensures UnmappedOf(keys[i..end], files) == KeySet(keys[i..end]) != {}
    ensures DropKeys(DropKeys(table, KeySet(keys[..i])), KeySet(keys[i..end])) == DropKeys(table, KeySet(keys[..end]))
    ensures |DropKeys(table, KeySet(keys[..end]))| < |table|
  {
    forall k | k in keys[i..end]
      ensures !Mapped(files, k)
    {
      assert k in KeySet(keys);
    }
    assert keys[i] in keys[i..end];
    assert keys[i] in UnmappedOf(keys[i..end], files) && keys[i] in KeySet(keys[i..end]);
    assert keys[..end] == keys[..i] + keys[i..end];
    assert KeySet(keys[..end]) == KeySet(keys[..i]) + KeySet(keys[i..end]);
    DropTwice(table, KeySet(keys[..i]), KeySet(keys[i..end]));
    assert keys[i] in KeySet(keys);
    var row :| row in table && row.chunk.ord == 0 && row.key == keys[i];
    DropTakes(table, KeySet(keys[..end]), row);
  }

  lemma {:induction false} DropTakes(table: seq<ContentRow>, keys: set<Key>, row: ContentRow)
    requires row in table && row.key in keys
    ensures |DropKeys(table, keys)| < |table|
  {
    if row == table[0] {
      DropShrinks(table[1..], keys);
    } else {
      DropTakes(table[1..], keys, row);
    }
  }

  /** Dropping every orphan key of a sound table leaves the mapped rows. */
  lemma LeavesMapped(table: seq<ContentRow>, files: Files, keys: seq<Key>)
    requires KeySet(keys) == OrphanKeys(table, files) && OrdsSound(table)
    ensures DropKeys(table, KeySet(keys)) == MappedRows(table, files)
  {
    forall row | row in table
      ensures row.key in KeySet(keys) <==> !Mapped(files, row.key)
    {
      RowKeyIsStored(table, row);
    }
    DropUnmapped(table, files, KeySet(keys));
  }

  lemma {:induction false} VectorsOfAt(cfg: Config, entries: seq<Keyed>, k: Key)
    requires DistinctKeys(entries)
    ensures k in VectorsOf(cfg, entries) <==> exists e :: e in entries && e.key == k
    ensures forall e :: e in entries && e.key == k ==> VectorsOf(cfg, entries)[k] == FileVectors(cfg, e.file)
  {
    if entries != [] {
      VectorsOfAt(cfg, entries[1..], k);
      assert entries == [entries[0]] + entries[1..];
      assert entries[0] in entries;
    }
  }

  /** Filing every entry's own vectors and nothing else is what the protocol's preparation does. */
  lemma OwnVectorsAreAll(cfg: Config, entries: seq<Keyed>, embedded: Embedded)
    requires DistinctKeys(entries) && EmbeddedFor(cfg, embedded, entries)
    requires embedded.Keys == if cfg.enabled then set e | e in entries :: e.key else {}
    ensures embedded == if cfg.enabled then VectorsOf(cfg, entries) else map[]
  {
    if cfg.enabled {
      forall k
        ensures k in embedded <==> k in VectorsOf(cfg, entries)
        ensures k in embedded ==> embedded[k] == VectorsOf(cfg, entries)[k]
      {
        VectorsOfAt(cfg, entries, k);
      }
    }
  }

  function StoredOf(cfg: Config, table: seq<ContentRow>, batch: seq<PreparedFile>): set<Key> {
    set k | k in BatchKeys(cfg, batch) && Stored(table, k)
  }

  lemma KeysOfBatch(cfg: Config, batch: seq<PreparedFile>, keys: seq<Key>)
    requires |keys| == |batch| && forall i :: 0 <= i < |batch| ==> keys[i] == cfg.derive(batch[i])
    ensures KeySet(keys) == BatchKeys(cfg, batch)
  {
    forall k
      ensures k in KeySet(keys) <==> k in BatchKeys(cfg, batch)
    {
      if k in keys {
        var i :| 0 <= i < |keys| && keys[i] == k;
        assert batch[i] in batch;
      }
      if k in BatchKeys(cfg, batch) {
        var f :| f in batch && cfg.derive(f) == k;
        var i :| 0 <= i < |batch| && batch[i] == f;
        assert keys[i] == k;
      }
    }
  }

  lemma StoredAgrees(cfg: Config, table: seq<ContentRow>, batch: seq<PreparedFile>, keys: seq<Key>, stored: set<Key>)
    requires KeySet(keys) == BatchKeys(cfg, batch)
    requires stored == set k | k in keys && Stored(table, k)
    ensures stored == StoredOf(cfg, table, batch)
  {
    assert forall k :: k in keys <==> k in KeySet(keys);
  }

  // ----- how many calls an operation needs -----

  /** Some entry has no prepared vectors. */
  predicate Lacks(entries: seq<Keyed>, prepared: Embedded) {
    exists i :: 0 <= i < |entries| && entries[i].key !in prepared
  }

  lemma MissingIsLacking(entries: seq<Keyed>, prepared: Embedded, missing: seq<Keyed>)
    requires forall e :: e in missing <==> e in entries && e.key !in prepared
    ensures missing != [] <==> Lacks(entries, prepared)
  {
    if missing != [] {
      assert missing[0] in missing;
    }
    if Lacks(entries, prepared) {
      var i :| 0 <= i < |entries| && entries[i].key !in prepared;
      assert entries[i] in missing;
    }
  }

  /** An embedder call for what lacks vectors, and the add. */
  function WriteCalls(cfg: Config, entries: seq<Keyed>, prepared: Embedded): nat {
    (if cfg.enabled && Lacks(entries, prepared) then 1 else 0) + 1
  }

  function NewOf(cfg: Config, table: seq<ContentRow>, batch: seq<PreparedFile>): seq<Keyed> {
    NewContent(KeyedBatch(cfg, batch), StoredOf(cfg, table, batch))
  }

  function PrepareCalls(cfg: Config, table: seq<ContentRow>, batch: seq<PreparedFile>): nat {
    CeilDiv(|BatchKeys(cfg, batch)|, 512) + if cfg.enabled && NewOf(cfg, table, batch) != [] then 1 else 0
  }

  /** The calls of a commit up to its map write: lookups, the content if any is new, the map. */
  function MapCalls(cfg: Config, table: seq<ContentRow>, batch: seq<PreparedFile>, prepared: Embedded): nat {
    var entries := NewOf(cfg, table, batch);
    CeilDiv(|BatchKeys(cfg, batch)|, 512) + (if entries != [] then WriteCalls(cfg, entries, prepared) else 0) + 1
  }

  /** All calls of a commit: up to the map write, then the refresh of one or both tables' indexes. */
  function CommitCalls(cfg: Config, table: seq<ContentRow>, batch: seq<PreparedFile>, prepared: Embedded): nat {
    MapCalls(cfg, table, batch, prepared) + if NewOf(cfg, table, batch) != [] then 2 else 1
  }

  /** A state with the given tables and nothing in flight. */
  function Quiet(table: seq<ContentRow>, files: Files): State {
    State(table, files, None, map[])
  }

  /** An uninterrupted commit is the protocol's content step followed by its map step. */
  lemma CommitSteps(cfg: Config, table: seq<ContentRow>, files: Files, batch: seq<PreparedFile>, embedded: Embedded)
    requires KeysIdentifyContent(cfg) && TableSound(cfg, table) && MapSound(cfg, table, files)
    requires StorableBatch(batch) && EmbeddedSound(cfg, embedded)
    ensures var entries := NewContent(KeyedBatch(cfg, batch), StoredOf(cfg, table, batch));
      && DistinctKeys(entries) && EmbeddedFor(cfg, embedded, entries)
      && var after := table + NewRows(cfg, embedded, entries);
      && (entries == [] ==> after == table)
      && TableSound(cfg, after) && MapSound(cfg, after, files) && Shown(after, files) == Shown(table, files)
      && MapSound(cfg, after, MergeFiles(cfg, files, batch))
      && Shown(after, MergeFiles(cfg, files, batch)) == PutCopies(cfg, Shown(table, files), batch)
  {
    var stored := StoredOf(cfg, table, batch);
    var s := Checked(cfg, table, files, batch, embedded);
    NewContentEntries(KeyedBatch(cfg, batch), stored);
    CheckedIsInv(cfg, table, files, batch, embedded);
    AddContentStep(cfg, s, 0);
    AddBacksWholeBatch(cfg, s, batch);
    WriteMapStep(cfg, After(cfg, s, AddContent(0)), 0);
  }

  /** A commit that runs alone, after its lookup under the gate. */
  function Checked(cfg: Config, table: seq<ContentRow>, files: Files, batch: seq<PreparedFile>,
                   embedded: Embedded): State {
    State(table, files, Some(0), map[0 := Checking(batch, embedded, {}, StoredOf(cfg, table, batch))])
  }

  lemma CheckedIsInv(cfg: Config, table: seq<ContentRow>, files: Files, batch: seq<PreparedFile>, embedded: Embedded)
    requires TableSound(cfg, table) && MapSound(cfg, table, files)
    requires StorableBatch(batch) && EmbeddedSound(cfg, embedded)
    ensures var s := Checked(cfg, table, files, batch, embedded);
      && Inv(cfg, s) && Enabled(cfg, s, AddContent(0))
      && forall f :: f in batch && cfg.derive(f) in s.ops[0].stored ==> RowsFor(table, cfg.derive(f)) != []
  {
    forall f | f in batch
      ensures cfg.derive(f) in StoredOf(cfg, table, batch) <==> RowsFor(table, cfg.derive(f)) != []
    {
      StoredIsFaithful(table, cfg.derive(f));
    }
    EmbeddedForNewContent(cfg, batch, embedded, StoredOf(cfg, table, batch));
  }

  lemma AddBacksWholeBatch(cfg: Config, s: State, batch: seq<PreparedFile>)
    requires Core(cfg, s) && Enabled(cfg, s, AddContent(0)) && s.ops[0].batch == batch
    requires forall f :: f in batch && cfg.derive(f) in s.ops[0].stored ==> RowsFor(s.table, cfg.derive(f)) != []
    ensures BatchBacked(cfg, After(cfg, s, AddContent(0)).table, batch)
  {
    forall id | Winner(batch, id).Some? && Winner(batch, id).value.chunks != []
      ensures RowsFor(After(cfg, s, AddContent(0)).table, cfg.derive(Winner(batch, id).value)) != []
    {
      WinnerIsMember(batch, id);
      AddBacksBatch(cfg, s, 0, Winner(batch, id).value);
    }
  }
}

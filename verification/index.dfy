/** The asset index (`HD2Index` in src/index.rs): a map from asset id to the container
    holding the asset and the asset's data record, built by scanning a directory of
    containers, and the reads of an asset's bytes from the three files of its container.
    The directory is given as the list of its entries, in the order the scan visits them,
    and the file system the reads open as a map from path to file contents. */
module AssetIndex {
  import opened Basics
  import opened Container
  import opened Paths

  /** `Entry`: the container an asset lives in, by id, and the asset's record. */
  datatype Entry = Entry(fileId: u64, record: DataRecord)

  /** One entry of the scanned directory: its file name, whether it is a regular file,
      and its contents. */
  datatype DirEntry = DirEntry(name: string, isFile: bool, bytes: seq<byte>)

  /** A decoder of containers. The build decodes with `Decode`; the facts about the scan
      below hold for any decoder. */
  type Decoder = seq<byte> -> Option<Hd2DataFile>

  /** Why a build stops; the source panics at these points. */
  datatype BuildError =
    | DecodeFailed(name: string)
    | BadFileName(name: string, kind: IntErrorKind)

  /** The failures of the reads. */
  datatype IoError = NotFound(path: string) | UnexpectedEof

  /** The scan decodes a directory entry only if it is a regular file whose name has no extension. */
  predicate Accepted(e: DirEntry)
  {
    e.isFile && FileExtension(e.name).None?
  }

  /** The entries inserted for one container: one per record, in the records' order. */
  function EntriesOf(fileId: u64, records: seq<DataRecord>): seq<Entry>
  {
    seq(|records|, t requires 0 <= t < |records| => Entry(fileId, records[t]))
  }

  /** What one directory entry adds to the index: nothing when it is not accepted; otherwise
      it must decode, then its name must parse as a hexadecimal `u64`, the container's id. */
  function FileEntries(e: DirEntry, decode: Decoder): Result<seq<Entry>, BuildError>
  {
    if !Accepted(e) then Success([])
    else
      match decode(e.bytes)
      case None => Failure(DecodeFailed(e.name))
      case Some(file) =>
        match ParseHexU64(e.name)
        case Failure(kind) => Failure(BadFileName(e.name, kind))
        case Success(fileId) => Success(EntriesOf(fileId, file.dataHeaders))
  }

  /** The entries a build inserts, in order; or the error of the first directory entry
      that stops it. */
  function Scan(dir: seq<DirEntry>, decode: Decoder): Result<seq<Entry>, BuildError>
  {
    if |dir| == 0 then Success([])
    else
      match Scan(dir[..|dir| - 1], decode)
      case Failure(e) => Failure(e)
      case Success(es) =>
        match FileEntries(dir[|dir| - 1], decode)
        case Failure(e) => Failure(e)
        case Success(more) => Success(es + more)
  }

  /** The map made by inserting `es` in order under their record ids: a later entry
      replaces an earlier one with the same id. */
  function ItemsOf(es: seq<Entry>): map<u64, Entry>
  {
    if |es| == 0 then map[]
    else ItemsOf(es[..|es| - 1])[es[|es| - 1].record.id := es[|es| - 1]]
  }

  /** The record ids among `es`. */
  function IdsOf(es: seq<Entry>): set<u64>
  {
    set t | 0 <= t < |es| :: es[t].record.id
  }

  /** The ids of all records of all accepted directory entries that decode. */
  function AcceptedIds(dir: seq<DirEntry>, decode: Decoder): set<u64>
  {
    set i, r | 0 <= i < |dir| && r in FileRecords(dir[i], decode) :: r.id
  }

  /** The records a directory entry contributes: those of an accepted container that decodes. */
  function FileRecords(e: DirEntry, decode: Decoder): seq<DataRecord>
  {
    if Accepted(e) && decode(e.bytes).Some? then decode(e.bytes).value.dataHeaders else []
  }

  lemma EntriesOfSnoc(fileId: u64, records: seq<DataRecord>, j: nat)
    requires j < |records|
    ensures EntriesOf(fileId, records[..j + 1]) == EntriesOf(fileId, records[..j]) + [Entry(fileId, records[j])]
  {
  }

  /** One insertion: the map of `es + [e]` is the map of `es` with `e` stored under its id. */
  lemma ItemsOfSnoc(es: seq<Entry>, e: Entry)
    ensures ItemsOf(es + [e]) == ItemsOf(es)[e.record.id := e]
  {
    assert (es + [e])[..|es|] == es;
  }

  /** The keys of the map are exactly the ids of the inserted entries. */
  lemma {:induction false} ItemsKeys(es: seq<Entry>)
    ensures ItemsOf(es).Keys == IdsOf(es)
  {
    if |es| > 0 {
      var init := es[..|es| - 1];
      ItemsKeys(init);
      forall k | k in IdsOf(es)
        ensures k in ItemsOf(es)
      {
        var t :| 0 <= t < |es| && es[t].record.id == k;
        if t < |init| {
          assert init[t] == es[t];
        }
      }
      forall k | k in IdsOf(init)
        ensures k in IdsOf(es)
      {
        var t :| 0 <= t < |init| && init[t].record.id == k;
        assert es[t] == init[t];
      }
    }
  }

  /** The entry stored under `k` is the last inserted entry with id `k`. */
  lemma {:induction false} ItemsLastEntry(es: seq<Entry>, k: u64)
    ensures k in ItemsOf(es) ==> exists t | 0 <= t < |es| ::
      es[t] == ItemsOf(es)[k] && es[t].record.id == k && forall t' | t < t' < |es| :: es[t'].record.id != k
  {
    if |es| == 0 {
      return;
    }
    var init, e := es[..|es| - 1], es[|es| - 1];
    if k in ItemsOf(es) && e.record.id != k {
      ItemsLastEntry(init, k);
      var t :| 0 <= t < |init| && init[t] == ItemsOf(init)[k] && init[t].record.id == k
        && forall t' | t < t' < |init| :: init[t'].record.id != k;
      assert es[t] == init[t];
    }
  }

  /** An inserted entry that no later entry with the same id follows is the one stored. */
  lemma {:induction false} ItemsLastWins(es: seq<Entry>, t: nat)
    requires t < |es|
    requires forall t' | t < t' < |es| :: es[t'].record.id != es[t].record.id
    ensures es[t].record.id in ItemsOf(es) && ItemsOf(es)[es[t].record.id] == es[t]
  {
    if t < |es| - 1 {
      var init := es[..|es| - 1];
      assert init[t] == es[t];
      ItemsLastWins(init, t);
    }
  }

  /** Once a prefix of the directory stops the build, the whole build stops with its error. */
  lemma {:induction false} ScanFailureStops(dir: seq<DirEntry>, decode: Decoder, i: nat)
    requires i <= |dir| && Scan(dir[..i], decode).Failure?
    ensures Scan(dir, decode) == Failure(Scan(dir[..i], decode).error)
    decreases |dir|
  {
    if i == |dir| {
      assert dir[..i] == dir;
    } else {
      var init := dir[..|dir| - 1];
      assert init[..i] == dir[..i];
      ScanFailureStops(init, decode, i);
    }
  }

  /** The entries one accepted container adds: its records, each with the id its name parses to. */
  lemma FileEntriesContents(d: DirEntry, decode: Decoder, e: Entry)
    requires FileEntries(d, decode).Success?
    ensures e in FileEntries(d, decode).value <==>
      Accepted(d) && ParseHexU64(d.name) == Success(e.fileId) && e.record in FileRecords(d, decode)
  {
    if Accepted(d) {
      var more, records := FileEntries(d, decode).value, FileRecords(d, decode);
      if e in more {
        var t :| 0 <= t < |more| && more[t] == e;
        assert records[t] == e.record;
      }
      if ParseHexU64(d.name) == Success(e.fileId) && e.record in records {
        var t :| 0 <= t < |records| && records[t] == e.record;
        assert more[t] == e;
      }
    }
  }

  /** A build that completes went through every directory entry without an error. */
  lemma {:induction false} ScanCompletes(dir: seq<DirEntry>, decode: Decoder)
    requires Scan(dir, decode).Success?
    ensures forall i | 0 <= i < |dir| :: FileEntries(dir[i], decode).Success?
  {
    if |dir| > 0 {
      var init := dir[..|dir| - 1];
      ScanCompletes(init, decode);
      forall i | 0 <= i < |init|
        ensures FileEntries(dir[i], decode).Success?
      {
        assert dir[i] == init[i];
      }
    }
  }

  /** `e` is among the entries directory entry `d` adds. */
  predicate AddedBy(d: DirEntry, decode: Decoder, e: Entry)
  {
    FileEntries(d, decode).Success? && e in FileEntries(d, decode).value
  }

  /** A build that completes inserted exactly the entries the directory entries add. */
  lemma {:induction false} ScanEntries(dir: seq<DirEntry>, decode: Decoder, e: Entry)
    requires Scan(dir, decode).Success?
    ensures e in Scan(dir, decode).value <==> exists i | 0 <= i < |dir| :: AddedBy(dir[i], decode, e)
  {
    if |dir| > 0 {
      var init, last := dir[..|dir| - 1], dir[|dir| - 1];
      ScanEntries(init, decode, e);
      var es, more := Scan(init, decode).value, FileEntries(last, decode).value;
      assert Scan(dir, decode).value == es + more;
      if e in es {
        var i :| 0 <= i < |init| && AddedBy(init[i], decode, e);
        assert dir[i] == init[i];
      } else if e in more {
        assert AddedBy(dir[|dir| - 1], decode, e);
      } else {
        forall i | 0 <= i < |dir|
          ensures !AddedBy(dir[i], decode, e)
        {
          if i < |init| {
            assert dir[i] == init[i];
          }
        }
      }
    }
  }

  /** After a build, the ids in the index are exactly the ids of the records of the
      accepted containers. */
  lemma IndexKeys(dir: seq<DirEntry>, decode: Decoder)
    requires Scan(dir, decode).Success?
    ensures ItemsOf(Scan(dir, decode).value).Keys == AcceptedIds(dir, decode)
  {
    var es := Scan(dir, decode).value;
    ItemsKeys(es);
    forall k | k in AcceptedIds(dir, decode)
      ensures k in IdsOf(es)
    {
      var i, r :| 0 <= i < |dir| && r in FileRecords(dir[i], decode) && r.id == k;
      ScanCompletes(dir, decode);
      var fileId := ParseHexU64(dir[i].name).value;
      FileEntriesContents(dir[i], decode, Entry(fileId, r));
      ScanEntries(dir, decode, Entry(fileId, r));
      var t :| 0 <= t < |es| && es[t] == Entry(fileId, r);
    }
    forall k | k in IdsOf(es)
      ensures k in AcceptedIds(dir, decode)
    {
      var t :| 0 <= t < |es| && es[t].record.id == k;
      ScanEntries(dir, decode, es[t]);
      var i :| 0 <= i < |dir| && AddedBy(dir[i], decode, es[t]);
      FileEntriesContents(dir[i], decode, es[t]);
    }
  }

  /** After a build, the entry under each id holds a record with that id from an accepted
      container, and the container id its file name parses to. */
  lemma IndexEntry(dir: seq<DirEntry>, decode: Decoder, k: u64)
    requires Scan(dir, decode).Success? && k in ItemsOf(Scan(dir, decode).value)
    ensures var e := ItemsOf(Scan(dir, decode).value)[k];
      e.record.id == k && exists i | 0 <= i < |dir| ::
        Accepted(dir[i]) && ParseHexU64(dir[i].name) == Success(e.fileId) && e.record in FileRecords(dir[i], decode)
  {
    var es := Scan(dir, decode).value;
    ItemsLastEntry(es, k);
    var e := ItemsOf(es)[k];
    ScanEntries(dir, decode, e);
    var i :| 0 <= i < |dir| && AddedBy(dir[i], decode, e);
    FileEntriesContents(dir[i], decode, e);
  }

  /** The bytes `File::read` leaves in a zeroed buffer of `n` bytes after a seek to
      `offset`: the file's bytes from `offset` as far as they go, then zeros. */
  function ReadAt(file: seq<byte>, offset: nat, n: nat): seq<byte>
  {
    seq(n, t requires 0 <= t < n => if offset + t < |file| then file[offset + t] else 0)
  }

  /** A read that lies inside the file gives exactly that range of the file. */
  lemma ReadAtWithin(file: seq<byte>, offset: nat, n: nat)
    requires offset + n <= |file|
    ensures |ReadAt(file, offset, n)| == n && ReadAt(file, offset, n) == file[offset..offset + n]
  {
  }

  /** The `load_n_*` guard: `size < N as u32`, where the cast keeps the low 32 bits of `N`. */
  predicate TooShort(size: u32, n: u64)
  {
    size < n % U32_LIMIT
  }

  /** `File::open`, `seek(SeekFrom::Start(offset))` and `read` into a zeroed buffer of `n`
      bytes; the number of bytes read is ignored. */
  method ReadFile(fs: map<string, seq<byte>>, path: string, offset: nat, n: nat)
    returns (r: Result<seq<byte>, IoError>)
    ensures r.Failure? <==> path !in fs
    ensures r.Failure? ==> r.error == NotFound(path)
    ensures r.Success? ==> |r.value| == n && r.value == ReadAt(fs[path], offset, n)
  {
    if path !in fs {
      return Failure(NotFound(path));
    }
    var file := fs[path];
    var buf := new byte[n](_ => 0);
    var t := 0;
    while t < n && offset + t < |file|
      invariant t <= n && (t == 0 || offset + t <= |file|)
      invariant forall u | 0 <= u < t :: buf[u] == file[offset + u]
      invariant forall u | t <= u < n :: buf[u] == 0
    {
      buf[t] := file[offset + t];
      t := t + 1;
    }
    assert buf[..] == ReadAt(file, offset, n);
    r := Success(buf[..]);
  }

  /** The counterexample behind `load_n_data_bytes`: a record whose stream size is large
      enough passes the guard although its data section is shorter than `N`. */
  lemma DataGuardChecksStreamSize()
    ensures var record := DataRecord(1, Texture, 0, 0, 0, 0, 16, 0, 0);
      !TooShort(record.streamSize, 4) && record.dataSize < 4
      && ReadAt([0x11, 0x22, 0x33, 0x44], record.offset, 4) == [0x11, 0x22, 0x33, 0x44]
  {
  }

  /** The index: its directory and its map from asset id to entry. */
  class HD2Index {
    var baseDir: string
    var items: map<u64, Entry>
    /** The entries the build inserted, in order. */
    ghost var inserted: seq<Entry>

    ghost predicate Valid()
      reads this
    {
      items == ItemsOf(inserted)
    }

    /** The index before the scan: the directory and an empty map. */
    constructor (path: string)
      ensures Valid() && baseDir == path && items == map[] && inserted == []
    {
      baseDir := path;
      items := map[];
      inserted := [];
    }

    /** `create_index`: visit the directory entries in order; decode each regular file
        without an extension, read its name as the container id, and insert each of its
        records under the record's id. A container that does not decode or whose name is
        not hexadecimal stops the build. */
    static method Build(path: string, dir: seq<DirEntry>, decode: Decoder) returns (r: Result<HD2Index, BuildError>)
      ensures r.Failure? <==> Scan(dir, decode).Failure?
      ensures r.Failure? ==> r.error == Scan(dir, decode).error
      ensures r.Success? ==>
        fresh(r.value) && r.value.Valid() && r.value.baseDir == path && r.value.inserted == Scan(dir, decode).value
    {
      var index := new HD2Index(path);
      var i := 0;
      while i < |dir|
        invariant i <= |dir| && Scan(dir[..i], decode).Success?
        invariant fresh(index) && index.Valid() && index.baseDir == path
        invariant index.inserted == Scan(dir[..i], decode).value
      {
        var entry := dir[i];
        assert dir[..i + 1][..i] == dir[..i];
        if entry.isFile && FileExtension(entry.name).None? {
          var file := decode(entry.bytes);
          if file.None? {
            ScanFailureStops(dir, decode, i + 1);
            return Failure(DecodeFailed(entry.name));
          }
          var fileId := ParseHexU64(entry.name);
          if fileId.Failure? {
            ScanFailureStops(dir, decode, i + 1);
            return Failure(BadFileName(entry.name, fileId.error));
          }
          index.InsertRecords(fileId.value, file.value.dataHeaders);
          assert FileEntries(entry, decode) == Success(EntriesOf(fileId.value, file.value.dataHeaders));
        }
        i := i + 1;
      }
      assert dir[..i] == dir;
      r := Success(index);
    }

    /** `create_index`, which reads each container with `Decode`. */
    static method CreateIndex(path: string, dir: seq<DirEntry>) returns (r: Result<HD2Index, BuildError>)
      ensures r.Failure? <==> Scan(dir, Decode).Failure?
      ensures r.Failure? ==> r.error == Scan(dir, Decode).error
      ensures r.Success? ==>
        fresh(r.value) && r.value.Valid() && r.value.baseDir == path && r.value.inserted == Scan(dir, Decode).value
    {
      r := Build(path, dir, Decode);
    }

    /** The inner loop of `create_index`: insert each record of a container under the
        record's id, with the container's id. */
    method InsertRecords(fileId: u64, records: seq<DataRecord>)
      requires Valid()
      modifies this
      ensures Valid() && baseDir == old(baseDir) && inserted == old(inserted) + EntriesOf(fileId, records)
    {
      ghost var before := inserted;
      var j := 0;
      while j < |records|
        invariant j <= |records|
        invariant Valid() && baseDir == old(baseDir)
        invariant inserted == before + EntriesOf(fileId, records[..j])
      {
        var record := records[j];
        ItemsOfSnoc(inserted, Entry(fileId, record));
        items := items[record.id := Entry(fileId, record)];
        inserted := inserted + [Entry(fileId, record)];
        EntriesOfSnoc(fileId, records, j);
        j := j + 1;
      }
      assert records[..j] == records;
    }

    /** `len`: the number of distinct ids among the inserted entries. */
    function Len(): (n: nat)
      reads this
      ensures Valid() ==> n == |IdsOf(inserted)|
    {
      ItemsKeys(inserted);
      |items|
    }

    /** `ids`: every id in the index, each once, in no particular order. */
    ghost function Ids(): (ids: seq<u64>)
      reads this
      ensures |ids| == Len()
      ensures forall k :: k in ids <==> k in items
      ensures forall a, b | 0 <= a < b < |ids| :: ids[a] != ids[b]
    {
      Enumerate(items.Keys)
    }

    /** `index`: the entry stored under `id`, which is the last entry the build inserted with that id. */
    function Index(id: u64): (e: Entry)
      requires id in items
      reads this
      ensures Valid() ==> e.record.id == id
      ensures Valid() ==> exists t | 0 <= t < |inserted| ::
        inserted[t] == e && forall t' | t < t' < |inserted| :: inserted[t'].record.id != id
    {
      ItemsLastEntry(inserted, id);
      items[id]
    }

    /** `resolve_data_file`: the directory joined with the container id as 16 hex digits. */
    function ResolveDataFile(id: u64): string
      reads this
    {
      Join(baseDir, Hex16(id))
    }

    /** `resolve_stream_file`: the data file path with extension `stream`. */
    function ResolveStreamFile(id: u64): string
      reads this
    {
      PathWithExtension(ResolveDataFile(id), "stream")
    }

    /** `resolve_gpu_file`: the data file path with extension `gpu_resources`. */
    function ResolveGpuFile(id: u64): string
      reads this
    {
      PathWithExtension(ResolveDataFile(id), "gpu_resources")
    }

    /** `load_data_bytes`: `data_size` bytes from `offset` in the asset's container. */
    method LoadDataBytes(fs: map<string, seq<byte>>, id: u64) returns (r: Result<seq<byte>, IoError>)
      requires id in items
      ensures r.Failure? <==> ResolveDataFile(items[id].fileId) !in fs
      ensures r.Failure? ==> r.error == NotFound(ResolveDataFile(items[id].fileId))
      ensures r.Success? ==> |r.value| == items[id].record.dataSize
      ensures r.Success? ==>
        r.value == ReadAt(fs[ResolveDataFile(items[id].fileId)], items[id].record.offset, items[id].record.dataSize)
    {
      var e := items[id];
      r := ReadFile(fs, ResolveDataFile(e.fileId), e.record.offset, e.record.dataSize);
    }

    /** `load_n_data_bytes`: `N` bytes from `offset` in the asset's container, after a
        guard that compares `N` with the record's stream size. */
    method LoadNDataBytes(fs: map<string, seq<byte>>, id: u64, n: u64) returns (r: Result<seq<byte>, IoError>)
      requires id in items
      ensures TooShort(items[id].record.streamSize, n) ==> r == Failure(UnexpectedEof)
      ensures !TooShort(items[id].record.streamSize, n) ==> (r.Failure? <==> ResolveDataFile(items[id].fileId) !in fs)
      ensures !TooShort(items[id].record.streamSize, n) && r.Failure? ==> r.error == NotFound(ResolveDataFile(items[id].fileId))
      ensures r.Success? ==> |r.value| == n
      ensures r.Success? ==> r.value == ReadAt(fs[ResolveDataFile(items[id].fileId)], items[id].record.offset, n)
    {
      var e := items[id];
      if TooShort(e.record.streamSize, n) {
        return Failure(UnexpectedEof);
      }
      r := ReadFile(fs, ResolveDataFile(e.fileId), e.record.offset, n);
    }

    /** `load_n_data_bytes` with the guard on the data size: a read it lets through lies
        within the asset's data section of the container. */
    method LoadNDataBytesChecked(fs: map<string, seq<byte>>, id: u64, n: u64) returns (r: Result<seq<byte>, IoError>)
      requires id in items
      ensures TooShort(items[id].record.dataSize, n) ==> r == Failure(UnexpectedEof)
      ensures !TooShort(items[id].record.dataSize, n) ==> (r.Failure? <==> ResolveDataFile(items[id].fileId) !in fs)
      ensures !TooShort(items[id].record.dataSize, n) && r.Failure? ==> r.error == NotFound(ResolveDataFile(items[id].fileId))
      ensures r.Success? ==> |r.value| == n
      ensures r.Success? ==> r.value == ReadAt(fs[ResolveDataFile(items[id].fileId)], items[id].record.offset, n)
      ensures r.Success? && n < U32_LIMIT ==> n <= items[id].record.dataSize
    {
      var e := items[id];
      if TooShort(e.record.dataSize, n) {
        return Failure(UnexpectedEof);
      }
      r := ReadFile(fs, ResolveDataFile(e.fileId), e.record.offset, n);
    }

    /** `load_stream_bytes`: `stream_size` bytes from `stream_offset` in the stream file. */
    method LoadStreamBytes(fs: map<string, seq<byte>>, id: u64) returns (r: Result<seq<byte>, IoError>)
      requires id in items
      ensures r.Failure? <==> ResolveStreamFile(items[id].fileId) !in fs
      ensures r.Failure? ==> r.error == NotFound(ResolveStreamFile(items[id].fileId))
      ensures r.Success? ==> |r.value| == items[id].record.streamSize
      ensures r.Success? ==>
        r.value == ReadAt(fs[ResolveStreamFile(items[id].fileId)], items[id].record.streamOffset, items[id].record.streamSize)
    {
      var e := items[id];
      r := ReadFile(fs, ResolveStreamFile(e.fileId), e.record.streamOffset, e.record.streamSize);
    }

    /** `load_n_stream_bytes`: `N` bytes from `stream_offset` in the stream file, when the
        stream size is at least `N as u32`. */
    method LoadNStreamBytes(fs: map<string, seq<byte>>, id: u64, n: u64) returns (r: Result<seq<byte>, IoError>)
      requires id in items
      ensures TooShort(items[id].record.streamSize, n) ==> r == Failure(UnexpectedEof)
      ensures !TooShort(items[id].record.streamSize, n) ==> (r.Failure? <==> ResolveStreamFile(items[id].fileId) !in fs)
      ensures !TooShort(items[id].record.streamSize, n) && r.Failure? ==> r.error == NotFound(ResolveStreamFile(items[id].fileId))
      ensures r.Success? ==> |r.value| == n
      ensures r.Success? ==> r.value == ReadAt(fs[ResolveStreamFile(items[id].fileId)], items[id].record.streamOffset, n)
    {
      var e := items[id];
      if TooShort(e.record.streamSize, n) {
        return Failure(UnexpectedEof);
      }
      r := ReadFile(fs, ResolveStreamFile(e.fileId), e.record.streamOffset, n);
    }

    /** `load_gpu_bytes`: `gpu_size` bytes from `gpu_offset` in the GPU resources file. */
    method LoadGpuBytes(fs: map<string, seq<byte>>, id: u64) returns (r: Result<seq<byte>, IoError>)
      requires id in items
      ensures r.Failure? <==> ResolveGpuFile(items[id].fileId) !in fs
      ensures r.Failure? ==> r.error == NotFound(ResolveGpuFile(items[id].fileId))
      ensures r.Success? ==> |r.value| == items[id].record.gpuSize
      ensures r.Success? ==>
        r.value == ReadAt(fs[ResolveGpuFile(items[id].fileId)], items[id].record.gpuOffset, items[id].record.gpuSize)
    {
      var e := items[id];
      r := ReadFile(fs, ResolveGpuFile(e.fileId), e.record.gpuOffset, e.record.gpuSize);
    }

    /** `load_n_gpu_bytes`: `N` bytes from `gpu_offset` in the GPU resources file, when the
        GPU size is at least `N as u32`. */
    method LoadNGpuBytes(fs: map<string, seq<byte>>, id: u64, n: u64) returns (r: Result<seq<byte>, IoError>)
      requires id in items
      ensures TooShort(items[id].record.gpuSize, n) ==> r == Failure(UnexpectedEof)
      ensures !TooShort(items[id].record.gpuSize, n) ==> (r.Failure? <==> ResolveGpuFile(items[id].fileId) !in fs)
      ensures !TooShort(items[id].record.gpuSize, n) && r.Failure? ==> r.error == NotFound(ResolveGpuFile(items[id].fileId))
      ensures r.Success? ==> |r.value| == n
      ensures r.Success? ==> r.value == ReadAt(fs[ResolveGpuFile(items[id].fileId)], items[id].record.gpuOffset, n)
    {
      var e := items[id];
      if TooShort(e.record.gpuSize, n) {
        return Failure(UnexpectedEof);
      }
      r := ReadFile(fs, ResolveGpuFile(e.fileId), e.record.gpuOffset, n);
    }
  }

  /** The elements of a set of ids, each once, in some order. */
  ghost function Enumerate(s: set<u64>): (ids: seq<u64>)
    ensures |ids| == |s|
    ensures forall k :: k in ids <==> k in s
    ensures forall a, b | 0 <= a < b < |ids| :: ids[a] != ids[b]
    decreases |s|
  {
    if s == {} then []
    else
      var k :| k in s;
      [k] + Enumerate(s - {k})
  }

  /** The data file of a container is named by its id and has no extension, so a scan of the
      directory takes it up. */
  lemma ResolvedDataFile(index: HD2Index, id: u64)
    ensures LastComponent(index.ResolveDataFile(id)) == Hex16(id)
    ensures ParseHexU64(LastComponent(index.ResolveDataFile(id))) == Success(id)
    ensures FileExtension(LastComponent(index.ResolveDataFile(id))).None?
  {
    var name := Hex16(id);
    assert '/' !in name by {
      forall t | 0 <= t < 16
        ensures name[t] != '/'
      {
        assert IsLowerHexDigit(name[t]);
      }
    }
    JoinLastComponent(index.baseDir, name);
    ContainerPathWithExtension(index.baseDir, id, "stream");
    HexRoundTrip(id);
  }

  /** The two extensions the index adds contain neither a dot nor a separator. */
  lemma PlainExtensions()
    ensures '.' !in "stream" && '/' !in "stream"
    ensures '.' !in "gpu_resources" && '/' !in "gpu_resources"
  {
  }

  /** The stream file is the data file's path plus `.stream`, an extension, so a scan of
      the directory passes it over. */
  lemma ResolvedStreamFile(index: HD2Index, id: u64)
    ensures index.ResolveStreamFile(id) == index.ResolveDataFile(id) + ("." + "stream")
    ensures FileExtension(LastComponent(index.ResolveStreamFile(id))) == Some("stream")
  {
    ContainerPathWithExtension(index.baseDir, id, "stream");
    PlainExtensions();
    DottedContainerPath(index.baseDir, id, "stream");
  }

  /** The GPU resources file is the data file's path plus `.gpu_resources`, an extension,
      so a scan of the directory passes it over too. */
  lemma ResolvedGpuFile(index: HD2Index, id: u64)
    ensures index.ResolveGpuFile(id) == index.ResolveDataFile(id) + ("." + "gpu_resources")
    ensures FileExtension(LastComponent(index.ResolveGpuFile(id))) == Some("gpu_resources")
  {
    ContainerPathWithExtension(index.baseDir, id, "gpu_resources");
    PlainExtensions();
    DottedContainerPath(index.baseDir, id, "gpu_resources");
  }

  /** Distinct container ids resolve to distinct data files. */
  lemma ResolveInjective(index: HD2Index, a: u64, b: u64)
    requires index.ResolveDataFile(a) == index.ResolveDataFile(b)
    ensures a == b
  {
    ResolvedDataFile(index, a);
    ResolvedDataFile(index, b);
  }
}

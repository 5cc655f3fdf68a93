# hd2re core, modelled in Dafny

hd2re catalogues the asset archives of a game. An archive directory holds containers
named by 16 hexadecimal digits. Each container starts with a header, a directory of asset
types and a list of 80-byte data records, and two companion files sit beside it: a
`.stream` and a `.gpu_resources` file. This project models three layers of the tool:

- **The name hash** (`basics.dfy`, `hash.dfy`, `dictionary.dfy`). `stingray_hash` is
  MurmurHash64A with seed 0, written as the source's block loop, tail xors and final mix.
  It is proved equal to a reference fold over little-endian 8-byte blocks.
  Also modelled:
  - the identity hasher `NoHash`/`NoHashHasher` used for maps keyed by asset ids;
  - the name dictionary `Dictionary`, which maps the hash of each kept line to the line.
- **The container decoder** (`parse.dfy`). The binary layout becomes a pure function from
  bytes to `Option<Hd2DataFile>`, with every offset written out. It covers:
  - the magic number;
  - the two counts and the 0x44 bytes of padding after `data_count`;
  - 32-byte type headers;
  - the 8-byte backward seek;
  - 80-byte data records;
  - the 45 named `DataType` tags.

  An encoder is defined beside it, and decoding an encoded container is proved to give it back.
- **The asset index** (`paths.dfy`, `index.dfy`). `create_index` scans a directory, given
  as a list of entries. It decodes every regular file whose name has no extension, reads
  the name as the container id and inserts each record under its id. Also modelled:
  - the `{:016x}` container names and `u64::from_str_radix(_, 16)`;
  - `Path::join`, `extension` and `with_extension` on Unix paths;
  - the three path resolvers;
  - the six byte loaders, which read from a file system given as a map from path to
    contents.

The hash works on bit-vectors (`bv64`, bytes as `bv8`). The decoder, the index and the
maps work on unbounded integers restricted to the `u32`/`u64` ranges. Rust's `N as u32`
truncation in the `load_n_*` guards is written out as `N % 2^32`.

## Model

| member | source | states |
|---|---|---|
| Hash.StingrayHash | src/hash.rs:7-67 | The loop, tail and final mix compute `MurmurHash64A(key)`: the fold of the little-endian 8-byte blocks from `len * m`, then the partial block, then the two shift/multiply rounds |
| Hash.MixBlocks | src/hash.rs:11-35 | The loop stops at `i == len - (len & 7)`, after exactly `len / 8` blocks, with `h` the fold of those blocks |
| Hash.MixNextBlock | src/hash.rs:19-32 | One iteration turns the fold of the first `b` blocks into the fold of the first `b + 1` |
| Hash.ReadBlock | src/hash.rs:19-26 | The eight shifted ors build the little-endian word of `key[i..i+8]` |
| Hash.BlockIsLittleEndian | src/hash.rs:19-26 | Byte `j` of an assembled block is input byte `j` |
| Hash.BlockUnrolled | src/hash.rs:19-26 | The recursive block is the word with byte `j` at bit `8 * j` |
| Hash.FullBlocksEnd | src/hash.rs:14 | `len - (len & 7)` is a multiple of 8, at most `len`, within 8 of `len`, and equal to `8 * (len / 8)` |
| Hash.XorTail | src/hash.rs:37-58 | The seven guarded xors of the tail bytes, highest lane first |
| Hash.SourceTailIsBlockXor | src/hash.rs:37-58 | Those guarded xors amount to one xor with the little-endian word of the tail bytes |
| Hash.FinishHash | src/hash.rs:37-66 | Tail, conditional multiply and final mix complete the hash to `MurmurHash64A(key)` |
| Hash.TailMultiplyOnlyForPartialBlock | src/hash.rs:59-61 | The tail multiply by `m` happens exactly when `len % 8 != 0` |
| Hash.EmptyKeyHashesToZero | src/hash.rs:7-67 | The empty input hashes to 0 |
| Hash.NoHash.BuildHasher | src/hash.rs:87-93 | A built hasher is new and finishes with 0 |
| Hash.NoHashHasher.WriteU64 | src/hash.rs:82-84 | After `write_u64(i)`, `finish()` is `i`, whatever was written before |
| Hash.HashKey | src/hash.rs:73-93 | A `u64` key hashed through `NoHash` is its own hash |
| NameDictionary.Dictionary.Load | src/hash.rs:101-111 | The loaded map is the in-order insertion of every kept line under its hash |
| NameDictionary.DictionaryKeys | src/hash.rs:103-109 | The keys are exactly the hashes of the lines that are neither empty nor `//` comments |
| NameDictionary.DictionaryEntries | src/hash.rs:103-109 | Every stored line is a kept line of the file, stored under its own hash |
| NameDictionary.LastLineWins | src/hash.rs:108 | A kept line with no later kept line of the same hash is the one stored |
| NameDictionary.Dictionary.Get | src/hash.rs:113-115 | Nothing exactly when no kept line has that hash; otherwise a kept line with that hash |
| NameDictionary.Dictionary.Len | src/hash.rs:117-119 | The number of distinct hashes of kept lines |
| Container.TagRoundTrip | src/parse.rs:28-79 | Every `DataType` decodes from its own tag |
| Container.DataTypeOfIsTag | src/parse.rs:28-79 | A tag that decodes is the tag of the type it decodes to |
| Container.TagInjective | src/parse.rs:31-79 | No two types share a tag |
| Container.TextureTagIsHashOfName | src/parse.rs:73 | The `Texture` tag is `stingray_hash(b"texture")` |
| Container.ParseTypeHeader | src/parse.rs:17-25 | A type header reads if and only if its tag names a type |
| Container.DecodeTypeHeaders | src/parse.rs:11-12 | Exactly `type_count` headers, header `i` read at `80 + 32 * i`, and failure iff one of them fails |
| Container.ParseDataRecord | src/parse.rs:81-100 | A record reads if and only if its tag at byte 8 names a type |
| Container.DecodeDataRecords | src/parse.rs:13-14 | Exactly `data_count` records, record `j` read at `72 + 32 * type_count + 80 * j`, and failure iff one of them fails |
| Container.Decode | src/parse.rs:5-15 | Success iff the magic matches and every counted header and record reads; then the counts are the `u32`s at 4 and 8 and the lists have those lengths |
| Container.UnknownTypeTagFails | src/parse.rs:17-19 | An unknown tag in the type directory fails the whole decode |
| Container.UnknownRecordTagFails | src/parse.rs:81-84 | An unknown tag in a data record fails the whole decode |
| Container.DecodedLength | src/parse.rs:11-14 | A decoded container's headers and records lie within its bytes |
| Container.ParseEncodedTypeHeader | src/parse.rs:17-25 | Reading an encoded type header gives it back |
| Container.ParseEncodedDataRecord | src/parse.rs:81-100 | Reading an encoded record gives it back, field by field at its offset |
| Container.EncodedCounts | src/parse.rs:6-10 | An encoding starts with the magic and the two counts |
| Container.DecodesTo | src/parse.rs:5-15 | Bytes with the magic, the counts and each header and record at its place decode to that container |
| Container.DecodeEncode | src/parse.rs:5-100 | Decoding the encoding of a container gives it back |
| Paths.Hex16 | src/index.rs:62 | `{:016x}` gives sixteen lower-case hexadecimal digits |
| Paths.ParseDigitsValue | src/index.rs:47 | The radix-16 digit loop succeeds iff every character is a digit and the value fits in 64 bits, and then gives that value |
| Paths.ParsedNameIsHex | src/index.rs:47 | A name that parses is one or more digits after an optional `+`, and its value is theirs |
| Paths.HexRoundTrip | src/index.rs:47 | Parsing a formatted name with radix 16 gives back the id |
| Paths.Hex16Injective | src/index.rs:62 | Distinct ids get distinct names |
| Paths.JoinLastComponent | src/index.rs:62 | Joining a relative name without separators ends the path with that name |
| Paths.ExtensionOfWithExtension | src/index.rs:66 | `with_extension` gives the file the extension asked for and keeps its stem |
| Paths.ContainerPathWithExtension | src/index.rs:65-71 | A container path has no extension, and `with_extension(ext)` appends `.` and `ext` to it |
| Paths.DottedContainerPath | src/index.rs:65-71 | A container path with `.ext` appended has extension `ext` |
| AssetIndex.HD2Index.constructor | src/index.rs:34-37 | The index starts with the given directory and an empty map |
| AssetIndex.HD2Index.Build | src/index.rs:32-55 | The build fails iff the scan meets a container that does not decode or whose name is not hexadecimal, with that error; otherwise the map is the in-order insertion of every record of every accepted container |
| AssetIndex.HD2Index.CreateIndex | src/index.rs:32-55 | `Build` with the container decoder |
| AssetIndex.HD2Index.InsertRecords | src/index.rs:48-50 | Each record is inserted under its id with the container's id, in order |
| AssetIndex.ScanFailureStops | src/index.rs:45-47 | The first failing directory entry decides the outcome of the whole build |
| AssetIndex.ScanCompletes | src/index.rs:40-52 | A completed build went through every directory entry without error |
| AssetIndex.FileEntriesContents | src/index.rs:42-50 | An accepted container adds exactly its records, each with the id its name parses to; any other entry adds nothing |
| AssetIndex.ScanEntries | src/index.rs:40-52 | A completed build inserted exactly the entries the directory entries add |
| AssetIndex.ItemsKeys | src/index.rs:49 | The keys of the map are the ids of the inserted entries |
| AssetIndex.ItemsLastEntry | src/index.rs:49 | The entry under an id is the last inserted entry with that id |
| AssetIndex.ItemsLastWins | src/index.rs:49 | An inserted entry that no later entry with its id follows is the stored one |
| AssetIndex.IndexKeys | src/index.rs:40-52 | After a build the ids are exactly those of the records of the accepted containers |
| AssetIndex.IndexEntry | src/index.rs:48-50 | The entry under an id holds a record with that id from an accepted container, with the container id its name parses to |
| AssetIndex.HD2Index.Len | src/index.rs:57-59 | `len` is the number of distinct ids inserted |
| AssetIndex.HD2Index.Ids | src/index.rs:136-138 | `ids` yields every key of the map exactly once, `len` of them |
| AssetIndex.HD2Index.Index | src/index.rs:141-146 | `index[id]` is the last inserted entry with that id |
| AssetIndex.ResolvedDataFile | src/index.rs:61-63 | The data file's name is the 16-digit id, which parses back to the id and has no extension |
| AssetIndex.ResolveInjective | src/index.rs:61-63 | Distinct container ids resolve to distinct data files |
| AssetIndex.ResolvedStreamFile | src/index.rs:65-67 | The stream file is the data file path plus `.stream`, an extension |
| AssetIndex.ResolvedGpuFile | src/index.rs:69-71 | The GPU file is the data file path plus `.gpu_resources`, an extension |
| AssetIndex.ReadFile | src/index.rs:75-78 | Opening fails iff the file is missing; otherwise the buffer has the requested length and holds the file's bytes from the offset, zero-filled past its end |
| AssetIndex.ReadAtWithin | src/index.rs:76-78 | A read inside the file gives exactly that byte range |
| AssetIndex.HD2Index.LoadDataBytes | src/index.rs:73-80 | `data_size` bytes from `offset` of the container named by the entry's file id |
| AssetIndex.HD2Index.LoadNDataBytes | src/index.rs:82-92 | `UnexpectedEof` when `stream_size < N as u32`; otherwise `N` bytes from `offset` of the container |
| AssetIndex.HD2Index.LoadNDataBytesChecked | src/index.rs:82-92 | The guard on `data_size`: a read that passes stays within the asset's data |
| AssetIndex.HD2Index.LoadStreamBytes | src/index.rs:94-101 | `stream_size` bytes from `stream_offset` of the stream file |
| AssetIndex.HD2Index.LoadNStreamBytes | src/index.rs:103-113 | `UnexpectedEof` when `stream_size < N as u32`; otherwise `N` bytes from `stream_offset` of the stream file |
| AssetIndex.HD2Index.LoadGpuBytes | src/index.rs:115-122 | `gpu_size` bytes from `gpu_offset` of the GPU file |
| AssetIndex.HD2Index.LoadNGpuBytes | src/index.rs:124-134 | `UnexpectedEof` when `gpu_size < N as u32`; otherwise `N` bytes from `gpu_offset` of the GPU file |
| AssetIndex.DataGuardChecksStreamSize | src/index.rs:84 | A record with `stream_size` 16 and `data_size` 0 passes the guard for `N = 4` |

Where the code and the written description of the format disagree, the model follows the code:
- The 0x44 bytes of padding follow `data_count`.
- A tag outside the 45 named ones fails the decode; no catch-all type exists.
- A container whose name is not hexadecimal stops the build, like one that does not decode.
  The source unwraps both.
- A read past the end of a file leaves the rest of the zeroed buffer as zeros. It is not
  an error, because the byte count `read` returns is ignored.

## Left out

- Persistence of the index with `speedy` (`read_from_file`/`write_to_file`): the wire
  format is generated by the library and not visible.
- src/sniff.rs, src/sniff/, src/convert.rs and src/main.rs: drivers over external
  libraries and processes.
- The progress count, `println!` and the `Instant` timing in `create_index`: output only.
- `NoHashHasher::write`: the source makes it unreachable, and the model has no such method.
- Directory enumeration: the entries are given as a list in scan order, each with its
  name, its file type and its contents. `fs::read_dir` and `File::open` failures, which
  the source unwraps, are not modelled.
- Dictionary.Load: the file is given as its list of lines. Reading it and splitting it
  with `lines()` are not modelled.
- Non-UTF-8 file names (`to_str().unwrap()`): names are strings.
- AssetIndex.ReadFile: the only I/O error modelled is a missing file. A seek or read
  error, and a read returning fewer bytes than available, are not modelled.
- HD2Index.Ids: a ghost sequence in some order. The order of a `HashMap`'s keys is left open.
- HD2Index.Build: it takes the decoder as a parameter, so the scan facts hold for any
  decoder. CreateIndex fixes it to `Decode`.
- Paths.PathWithExtension: no normalisation of a trailing `/` or `.` component, and no
  Windows path syntax. The model covers `/`-separated paths. Container paths, the only
  ones the index builds, end in a plain 16-digit name.
- Container.Decode: it reads from a byte sequence. binrw's stream cursor is replaced by
  offsets, and a field read past the end fails.

## Findings

| source | as written | input that shows it | evidently intended | confidence | as-written member | corrected member |
|---|---|---|---|---|---|---|
| src/index.rs:84 | `load_n_data_bytes` guards on `stream_size` but reads the data file at `offset` | a record with `data_size` 0 and `stream_size` 16, read with `N = 4`: the guard passes and 4 bytes past the asset's data are returned | guard on `data_size`, like the other two `load_n_*` functions guard on the size of the file they read | not executed | AssetIndex.HD2Index.LoadNDataBytes; AssetIndex.DataGuardChecksStreamSize | AssetIndex.HD2Index.LoadNDataBytesChecked |

/** The layout of one archive container (src/parse.rs): the header, the type directory and
    the data records, decoded from the file's bytes, and the encoder that inverts the decoder. */
module Container {
  import opened Basics
  import opened Hash

  /** The asset type of a record: the named 64-bit tags of the engine (src/parse.rs:31-79).
      A tag outside this list does not decode. */
  datatype DataType =
    Unknown | Skeleton | Unknown3 | Unknown4 | Unknown5 | Unknown6 | Unknown7 | Wav | Unknown9 |
    Unknown10 | Unknown11 | Unknown12 | Unknown13 | Unknown14 | Unknown15 | Unknown16 | Unknown17 |
    Unknown18 | Unknown19 | Unknown20 | Unknown21 | Unknown22 | Unknown23 | Unknown24 | Unknown25 |
    Unknown26 | Unknown27 | Unknown28 | Unknown29 | Unknown30 | Unknown31 | Unknown32 | Unknown33 |
    Unknown34 | Unknown35 | Unknown36 | Unknown37 | Unknown38 | Unknown39 | Texture | Model |
    Havok | Material | Map | Strings

  /** The 64-bit tag of each asset type. */
  function Tag(t: DataType): u64
  {
    match t
    case Unknown => 0xA819_3123_526F_AD64
    case Skeleton => 0x18DE_AD01_056B_72E9
    case Unknown3 => 0x931E_336D_7646_CC26
    case Unknown4 => 0xA486_D404_5106_165C
    case Unknown5 => 0xAB2F_78E8_85F5_13C6
    case Unknown6 => 0x535A_7BD3_E650_D799
    case Unknown7 => 0xAF32_095C_82F2_B070
    case Wav => 0x504B_5523_5D21_440E
    case Unknown9 => 0xE985_C5F6_1C16_9997
    case Unknown10 => 0x250E_0A11_AC8E_26F8
    case Unknown11 => 0x9831_CA89_3B0D_087D
    case Unknown12 => 0x1D59_BD66_87DB_6B33
    case Unknown13 => 0x57A1_3425_2799_79D7
    case Unknown14 => 0xAA59_65F0_3029_FA18
    case Unknown15 => 0xC4F0_F4BE_7FB0_C8D6
    case Unknown16 => 0xD701_4A50_4779_53E0
    case Unknown17 => 0xFE73_C7DC_FF8A_7CA5
    case Unknown18 => 0xA14E_8DFA_2CD1_17E2
    case Unknown19 => 0xF750_5933_166D_6755
    case Unknown20 => 0x92D3_EE03_8EEB_610D
    case Unknown21 => 0x9199_BB50_B689_6F02
    case Unknown22 => 0x2786_2FE2_4795_319C
    case Unknown23 => 0x0510_6B81_DCD5_8A13
    case Unknown24 => 0x9EFE_0A91_6AAE_7880
    case Unknown25 => 0x2A0A_70AC_FE47_6E1D
    case Unknown26 => 0x3B1F_A9E8_F6BA_C374
    case Unknown27 => 0x5FDD_5FE3_9107_6F9F
    case Unknown28 => 0x8264_5835_E6B7_3232
    case Unknown29 => 0xAD9C_6D9E_D1E5_E77A
    case Unknown30 => 0xB8FD_4D2C_EDE2_0ED7
    case Unknown31 => 0xD50A_8B7E_1C82_B110
    case Unknown32 => 0xE3F2_8510_3595_7AF5
    case Unknown33 => 0x6592_B918_E67F_082C
    case Unknown34 => 0xF7A0_9F8B_B35A_1D49
    case Unknown35 => 0xFCAA_F813_B4D3_CC1E
    case Unknown36 => 0xB277_B11F_E4A6_1D37
    case Unknown37 => 0x7910_1031_58FC_1DE9
    case Unknown38 => 0x9E5C_3CC7_4575_AEB5
    case Unknown39 => 0xE5EE_32A4_7723_9A93
    case Texture => 0xCD42_38C6_A0C6_9E32
    case Model => 0xE0A4_8D0B_E9A7_453F
    case Havok => 0x5F72_03C8_F280_DAB8
    case Material => 0xEAC0_B497_876A_DEDF
    case Map => 0x2A69_0FD3_48FE_9AC5
    case Strings => 0x0D97_2BAB_10B4_0FD3
  }

  /** The asset type whose tag is `tag`, or `None` for a tag that names none. */
  function DataTypeOf(tag: int): Option<DataType>
  {
    if tag == 0xA819_3123_526F_AD64 then Some(Unknown)
    else if tag == 0x18DE_AD01_056B_72E9 then Some(Skeleton)
    else if tag == 0x931E_336D_7646_CC26 then Some(Unknown3)
    else if tag == 0xA486_D404_5106_165C then Some(Unknown4)
    else if tag == 0xAB2F_78E8_85F5_13C6 then Some(Unknown5)
    else if tag == 0x535A_7BD3_E650_D799 then Some(Unknown6)
    else if tag == 0xAF32_095C_82F2_B070 then Some(Unknown7)
    else if tag == 0x504B_5523_5D21_440E then Some(Wav)
    else if tag == 0xE985_C5F6_1C16_9997 then Some(Unknown9)
    else if tag == 0x250E_0A11_AC8E_26F8 then Some(Unknown10)
    else if tag == 0x9831_CA89_3B0D_087D then Some(Unknown11)
    else if tag == 0x1D59_BD66_87DB_6B33 then Some(Unknown12)
    else if tag == 0x57A1_3425_2799_79D7 then Some(Unknown13)
    else if tag == 0xAA59_65F0_3029_FA18 then Some(Unknown14)
    else if tag == 0xC4F0_F4BE_7FB0_C8D6 then Some(Unknown15)
    else if tag == 0xD701_4A50_4779_53E0 then Some(Unknown16)
    else if tag == 0xFE73_C7DC_FF8A_7CA5 then Some(Unknown17)
    else if tag == 0xA14E_8DFA_2CD1_17E2 then Some(Unknown18)
    else if tag == 0xF750_5933_166D_6755 then Some(Unknown19)
    else if tag == 0x92D3_EE03_8EEB_610D then Some(Unknown20)
    else if tag == 0x9199_BB50_B689_6F02 then Some(Unknown21)
    else if tag == 0x2786_2FE2_4795_319C then Some(Unknown22)
    else if tag == 0x0510_6B81_DCD5_8A13 then Some(Unknown23)
    else if tag == 0x9EFE_0A91_6AAE_7880 then Some(Unknown24)
    else if tag == 0x2A0A_70AC_FE47_6E1D then Some(Unknown25)
    else if tag == 0x3B1F_A9E8_F6BA_C374 then Some(Unknown26)
    else if tag == 0x5FDD_5FE3_9107_6F9F then Some(Unknown27)
    else if tag == 0x8264_5835_E6B7_3232 then Some(Unknown28)
    else if tag == 0xAD9C_6D9E_D1E5_E77A then Some(Unknown29)
    else if tag == 0xB8FD_4D2C_EDE2_0ED7 then Some(Unknown30)
    else if tag == 0xD50A_8B7E_1C82_B110 then Some(Unknown31)
    else if tag == 0xE3F2_8510_3595_7AF5 then Some(Unknown32)
    else if tag == 0x6592_B918_E67F_082C then Some(Unknown33)
    else if tag == 0xF7A0_9F8B_B35A_1D49 then Some(Unknown34)
    else if tag == 0xFCAA_F813_B4D3_CC1E then Some(Unknown35)
    else if tag == 0xB277_B11F_E4A6_1D37 then Some(Unknown36)
    else if tag == 0x7910_1031_58FC_1DE9 then Some(Unknown37)
    else if tag == 0x9E5C_3CC7_4575_AEB5 then Some(Unknown38)
    else if tag == 0xE5EE_32A4_7723_9A93 then Some(Unknown39)
    else if tag == 0xCD42_38C6_A0C6_9E32 then Some(Texture)
    else if tag == 0xE0A4_8D0B_E9A7_453F then Some(Model)
    else if tag == 0x5F72_03C8_F280_DAB8 then Some(Havok)
    else if tag == 0xEAC0_B497_876A_DEDF then Some(Material)
    else if tag == 0x2A69_0FD3_48FE_9AC5 then Some(Map)
    else if tag == 0x0D97_2BAB_10B4_0FD3 then Some(Strings)
    else None
  }

  /** Every type decodes from its own tag. */
  lemma TagRoundTrip(t: DataType)
    ensures DataTypeOf(Tag(t)) == Some(t)
  {
    if t.Unknown? || t.Skeleton? || t.Unknown3? || t.Unknown4? || t.Unknown5? ||
        t.Unknown6? || t.Unknown7? || t.Wav? || t.Unknown9? {
      TagRoundTripFirst(t);
    } else if t.Unknown10? || t.Unknown11? || t.Unknown12? || t.Unknown13? || t.Unknown14? ||
        t.Unknown15? || t.Unknown16? || t.Unknown17? || t.Unknown18? {
      TagRoundTripSecond(t);
    } else if t.Unknown19? || t.Unknown20? || t.Unknown21? || t.Unknown22? || t.Unknown23? ||
        t.Unknown24? || t.Unknown25? || t.Unknown26? || t.Unknown27? {
      TagRoundTripThird(t);
    } else if t.Unknown28? || t.Unknown29? || t.Unknown30? || t.Unknown31? || t.Unknown32? ||
        t.Unknown33? || t.Unknown34? || t.Unknown35? || t.Unknown36? {
      TagRoundTripFourth(t);
    } else {
      TagRoundTripFifth(t);
    }
  }

  /** `TagRoundTrip` for the first nine types of the list. */
  lemma TagRoundTripFirst(t: DataType)
    requires t.Unknown? || t.Skeleton? || t.Unknown3? || t.Unknown4? || t.Unknown5? ||
      t.Unknown6? || t.Unknown7? || t.Wav? || t.Unknown9?
    ensures DataTypeOf(Tag(t)) == Some(t)
  {
  }

  /** `TagRoundTrip` for the second nine types of the list. */
  lemma TagRoundTripSecond(t: DataType)
    requires t.Unknown10? || t.Unknown11? || t.Unknown12? || t.Unknown13? || t.Unknown14? ||
      t.Unknown15? || t.Unknown16? || t.Unknown17? || t.Unknown18?
    ensures DataTypeOf(Tag(t)) == Some(t)
  {
  }

  /** `TagRoundTrip` for the third nine types of the list. */
  lemma TagRoundTripThird(t: DataType)
    requires t.Unknown19? || t.Unknown20? || t.Unknown21? || t.Unknown22? || t.Unknown23? ||
      t.Unknown24? || t.Unknown25? || t.Unknown26? || t.Unknown27?
    ensures DataTypeOf(Tag(t)) == Some(t)
  {
  }

  /** `TagRoundTrip` for the fourth nine types of the list. */
  lemma TagRoundTripFourth(t: DataType)
    requires t.Unknown28? || t.Unknown29? || t.Unknown30? || t.Unknown31? || t.Unknown32? ||
      t.Unknown33? || t.Unknown34? || t.Unknown35? || t.Unknown36?
    ensures DataTypeOf(Tag(t)) == Some(t)
  {
  }

  /** `TagRoundTrip` for the fifth nine types of the list. */
  lemma TagRoundTripFifth(t: DataType)
    requires t.Unknown37? || t.Unknown38? || t.Unknown39? || t.Texture? || t.Model? ||
      t.Havok? || t.Material? || t.Map? || t.Strings?
    ensures DataTypeOf(Tag(t)) == Some(t)
  {
  }

  /** A tag that decodes is the tag of the type it decodes to. */
  lemma DataTypeOfIsTag(tag: int, t: DataType)
    requires DataTypeOf(tag) == Some(t)
    ensures Tag(t) == tag
  {
  }

  /** No two types share a tag. */
  lemma TagInjective(a: DataType, b: DataType)
    requires Tag(a) == Tag(b)
    ensures a == b
  {
    TagRoundTrip(a);
    TagRoundTrip(b);
  }

  /** The `Texture` tag is the name hash of the word "texture". */
  lemma TextureTagIsHashOfName()
    ensures MurmurHash64A(TEXTURE_NAME) as int == Tag(Texture)
  {
    var key := TEXTURE_NAME;
    assert key[8 * 0..] == key;
    assert Blocks(WrappingMul(LengthWord(7), M), key, 0) == WrappingMul(LengthWord(7), M);
    TextureTail();
    TextureAvalanche();
  }

  /** The seven bytes of "texture" form one partial block, folded into the initial hash. */
  lemma TextureTail()
    ensures Tail(WrappingMul(LengthWord(7), M), TEXTURE_NAME) == 0x9c56b6c8ca9778f3
  {
    var key := TEXTURE_NAME;
    assert LengthWord(7) == 7;
    assert WrappingMul(7, M) == 0x6e80950782bd6313;
    BlockUnrolled(key);
    assert Block(key) == 0x65727574786574;
    assert Xor(0x6e80950782bd6313, 0x65727574786574) == 0x6ee5e772f6c50667;
    assert WrappingMul(0x6ee5e772f6c50667, M) == 0x9c56b6c8ca9778f3;
  }

  /** The final mix of the hash of "texture". */
  lemma TextureAvalanche()
    ensures Avalanche(0x9c56b6c8ca9778f3) == 0xcd4238c6a0c69e32
  {
    assert XorShift(0x9c56b6c8ca9778f3) == 0x9c56b6c8ca96405e;
    assert WrappingMul(0x9c56b6c8ca96405e, M) == 0xcd4238c6a0c704b6;
    assert XorShift(0xcd4238c6a0c704b6) == 0xcd4238c6a0c69e32;
  }

  /** The bytes of the word "texture". */
  const TEXTURE_NAME: seq<u8> := [0x74, 0x65, 0x78, 0x74, 0x75, 0x72, 0x65]

  /** The four bytes every container starts with. */
  const MAGIC: seq<byte> := [0x11, 0x00, 0x00, 0xF0]

  /** One entry of the type directory. Its encoding takes 32 bytes, the last 8 of them skipped. */
  datatype TypeHeader = TypeHeader(id: DataType, dataCount: u64, size: u32, dataHeaderSize: u32)

  /** One asset: its id, its type, and where its bytes sit in the container and in the
      companion stream and GPU files. Its encoding takes 80 bytes. */
  datatype DataRecord = DataRecord(
    id: u64, typeId: DataType, offset: u64, streamOffset: u32, gpuOffset: u64,
    dataSize: u32, streamSize: u32, gpuSize: u32, index: u32)

  /** A decoded container: the two counts, the type directory and the data records. */
  datatype Hd2DataFile = Hd2DataFile(
    typeCount: u32, dataCount: u32, typeHeaders: seq<TypeHeader>, dataHeaders: seq<DataRecord>)

  /** The little-endian `u32` at `pos`. */
  function U32At(s: seq<byte>, pos: nat): u32
    requires pos + 4 <= |s|
  {
    LittleEndianBound(s[pos..pos + 4]);
    Pow256Values();
    LittleEndian(s[pos..pos + 4])
  }

  /** The little-endian `u64` at `pos`. */
  function U64At(s: seq<byte>, pos: nat): u64
    requires pos + 8 <= |s|
  {
    LittleEndianBound(s[pos..pos + 8]);
    Pow256Values();
    LittleEndian(s[pos..pos + 8])
  }

  /** The fields of a type header from its 24 bytes that are read: tag at 0, record count at 8,
      size at 16, record header size at 20. */
  function ParseTypeHeader(s: seq<byte>): (r: Option<TypeHeader>)
    requires |s| == 24
    ensures r.Some? <==> DataTypeOf(U64At(s, 0)).Some?
  {
    var id :- DataTypeOf(U64At(s, 0));
    Some(TypeHeader(id, U64At(s, 8), U32At(s, 16), U32At(s, 20)))
  }

  /** The type header at `pos`, which needs 24 bytes there (its trailing 8 are only skipped). */
  function DecodeTypeHeader(b: seq<byte>, pos: nat): Option<TypeHeader>
  {
    if pos + 24 <= |b| then ParseTypeHeader(b[pos..pos + 24]) else None
  }

  /** The fields of a data record from its 80 bytes: id at 0, tag at 8, offset at 16,
      stream offset at 24, GPU offset at 32, data size at 56, stream size at 60, GPU size at 64
      and index at 76; bytes 28-31, 40-55 and 68-75 are skipped. */
  function ParseDataRecord(s: seq<byte>): (r: Option<DataRecord>)
    requires |s| == 80
    ensures r.Some? <==> DataTypeOf(U64At(s, 8)).Some?
  {
    var typeId :- DataTypeOf(U64At(s, 8));
    Some(DataRecord(U64At(s, 0), typeId, U64At(s, 16), U32At(s, 24), U64At(s, 32),
                    U32At(s, 56), U32At(s, 60), U32At(s, 64), U32At(s, 76)))
  }

  /** The data record at `pos`. */
  function DecodeDataRecord(b: seq<byte>, pos: nat): Option<DataRecord>
  {
    if pos + 80 <= |b| then ParseDataRecord(b[pos..pos + 80]) else None
  }

  /** Where type header `i` starts: after the magic, the two counts and 0x44 bytes of padding. */
  function TypeHeaderOffset(i: nat): nat
  {
    80 + 32 * i
  }

  /** Where data record `j` starts: 8 bytes back from the end of the type directory. */
  function DataRecordOffset(typeCount: nat, j: nat): nat
  {
    80 + 32 * typeCount - 8 + 80 * j
  }

  /** The first `n` type headers; none when any of them does not decode. */
  function DecodeTypeHeaders(b: seq<byte>, n: nat): (r: Option<seq<TypeHeader>>)
    ensures r.Some? <==> forall i | 0 <= i < n :: DecodeTypeHeader(b, TypeHeaderOffset(i)).Some?
    ensures r.Some? ==> |r.value| == n
    ensures r.Some? ==> forall i | 0 <= i < n :: DecodeTypeHeader(b, TypeHeaderOffset(i)) == Some(r.value[i])
  {
    if n == 0 then Some([])
    else
      var init :- DecodeTypeHeaders(b, n - 1);
      var last :- DecodeTypeHeader(b, TypeHeaderOffset(n - 1));
      Some(init + [last])
  }

  /** The first `n` data records after a directory of `typeCount` types; none when any of them
      does not decode. */
  function DecodeDataRecords(b: seq<byte>, typeCount: nat, n: nat): (r: Option<seq<DataRecord>>)
    ensures r.Some? <==> forall j | 0 <= j < n :: DecodeDataRecord(b, DataRecordOffset(typeCount, j)).Some?
    ensures r.Some? ==> |r.value| == n
    ensures r.Some? ==> forall j | 0 <= j < n ::
      DecodeDataRecord(b, DataRecordOffset(typeCount, j)) == Some(r.value[j])
  {
    if n == 0 then Some([])
    else
      var init :- DecodeDataRecords(b, typeCount, n - 1);
      var last :- DecodeDataRecord(b, DataRecordOffset(typeCount, n - 1));
      Some(init + [last])
  }

  /** `Hd2DataFile::read`: the magic, the two counts, the type directory, the records. */
  function Decode(b: seq<byte>): (r: Option<Hd2DataFile>)
    ensures r.Some? ==> |b| >= 12 && b[..4] == MAGIC
    ensures r.Some? ==> r.value.typeCount == U32At(b, 4) && r.value.dataCount == U32At(b, 8)
    ensures r.Some? ==> |r.value.typeHeaders| == r.value.typeCount && |r.value.dataHeaders| == r.value.dataCount
    ensures r.Some? ==> forall i | 0 <= i < r.value.typeCount ::
      DecodeTypeHeader(b, TypeHeaderOffset(i)) == Some(r.value.typeHeaders[i])
    ensures r.Some? ==> forall j | 0 <= j < r.value.dataCount ::
      DecodeDataRecord(b, DataRecordOffset(r.value.typeCount, j)) == Some(r.value.dataHeaders[j])
    ensures r.Some? <== |b| >= 12 && b[..4] == MAGIC
      && (forall i | 0 <= i < U32At(b, 4) :: DecodeTypeHeader(b, TypeHeaderOffset(i)).Some?)
      && (forall j | 0 <= j < U32At(b, 8) :: DecodeDataRecord(b, DataRecordOffset(U32At(b, 4), j)).Some?)
  {
    if |b| < 12 || b[..4] != MAGIC then None
    else
      var typeCount := U32At(b, 4);
      var dataCount := U32At(b, 8);
      var types :- DecodeTypeHeaders(b, typeCount);
      var records :- DecodeDataRecords(b, typeCount, dataCount);
      Some(Hd2DataFile(typeCount, dataCount, types, records))
  }

  /** Reading a field of a slice is reading the field at the same place in the whole. */
  lemma U64AtSlice(b: seq<byte>, pos: nat, len: nat, k: nat)
    requires pos + len <= |b| && k + 8 <= len
    ensures U64At(b[pos..pos + len], k) == U64At(b, pos + k)
  {
    SliceOfSlice(b, pos, pos + len, k, k + 8);
  }

  /** A type tag in the directory that names no type makes the whole decode fail. */
  lemma UnknownTypeTagFails(b: seq<byte>, i: nat)
    requires |b| >= 12 && i < U32At(b, 4) && TypeHeaderOffset(i) + 24 <= |b|
    requires DataTypeOf(U64At(b, TypeHeaderOffset(i))).None?
    ensures Decode(b).None?
  {
    var pos := TypeHeaderOffset(i);
    U64AtSlice(b, pos, 24, 0);
    assert DecodeTypeHeader(b, pos).None?;
  }

  /** A record tag that names no type makes the whole decode fail. */
  lemma UnknownRecordTagFails(b: seq<byte>, j: nat)
    requires |b| >= 12 && j < U32At(b, 8) && DataRecordOffset(U32At(b, 4), j) + 80 <= |b|
    requires DataTypeOf(U64At(b, DataRecordOffset(U32At(b, 4), j) + 8)).None?
    ensures Decode(b).None?
  {
    var pos := DataRecordOffset(U32At(b, 4), j);
    U64AtSlice(b, pos, 80, 8);
    assert DecodeDataRecord(b, pos).None?;
  }

  /** A decoded container holds every record it counts: its records end within the bytes. */
  lemma DecodedLength(b: seq<byte>)
    requires Decode(b).Some?
    ensures var f := Decode(b).value;
      f.dataCount > 0 ==> DataRecordOffset(f.typeCount, f.dataCount) <= |b|
    ensures var f := Decode(b).value;
      f.typeCount > 0 ==> TypeHeaderOffset(f.typeCount) - 8 <= |b|
  {
    var f := Decode(b).value;
    if f.dataCount > 0 {
      assert DecodeDataRecord(b, DataRecordOffset(f.typeCount, f.dataCount - 1)).Some?;
    }
    if f.typeCount > 0 {
      assert DecodeTypeHeader(b, TypeHeaderOffset(f.typeCount - 1)).Some?;
    }
  }

  // Encoding: the inverse of the decoder.

  function LittleEndian32(v: u32): (s: seq<byte>)
    ensures |s| == 4
  {
    Pow256Values();
    ToLittleEndian(v, 4)
  }

  function LittleEndian64(v: u64): (s: seq<byte>)
    ensures |s| == 8
  {
    Pow256Values();
    ToLittleEndian(v, 8)
  }

  lemma U32OfLittleEndian32(s: seq<byte>, pos: nat, v: u32)
    requires pos + 4 <= |s| && s[pos..pos + 4] == LittleEndian32(v)
    ensures U32At(s, pos) == v
  {
    Pow256Values();
    LittleEndianOfToLittleEndian(v, 4);
  }

  lemma U64OfLittleEndian64(s: seq<byte>, pos: nat, v: u64)
    requires pos + 8 <= |s| && s[pos..pos + 8] == LittleEndian64(v)
    ensures U64At(s, pos) == v
  {
    Pow256Values();
    LittleEndianOfToLittleEndian(v, 8);
  }

  /** The 32 bytes of a type header, its skipped tail zero. */
  function EncodeTypeHeader(h: TypeHeader): (s: seq<byte>)
    ensures |s| == 32
  {
    LittleEndian64(Tag(h.id)) + LittleEndian64(h.dataCount) + LittleEndian32(h.size)
    + LittleEndian32(h.dataHeaderSize) + Zeros(8)
  }

  /** The 80 bytes of a data record, its skipped bytes zero. */
  function EncodeDataRecord(r: DataRecord): (s: seq<byte>)
    ensures |s| == 80
  {
    LittleEndian64(r.id) + LittleEndian64(Tag(r.typeId)) + LittleEndian64(r.offset)
    + LittleEndian32(r.streamOffset) + Zeros(4) + LittleEndian64(r.gpuOffset) + Zeros(16)
    + LittleEndian32(r.dataSize) + LittleEndian32(r.streamSize) + LittleEndian32(r.gpuSize) + Zeros(8)
    + LittleEndian32(r.index)
  }

  function EncodeTypeHeaders(hs: seq<TypeHeader>): (s: seq<byte>)
    ensures |s| == 32 * |hs|
  {
    if |hs| == 0 then [] else EncodeTypeHeaders(hs[..|hs| - 1]) + EncodeTypeHeader(hs[|hs| - 1])
  }

  function EncodeDataRecords(rs: seq<DataRecord>): (s: seq<byte>)
    ensures |s| == 80 * |rs|
  {
    if |rs| == 0 then [] else EncodeDataRecords(rs[..|rs| - 1]) + EncodeDataRecord(rs[|rs| - 1])
  }

  /** A container whose counts are the lengths of its lists. */
  predicate WellFormed(f: Hd2DataFile)
  {
    |f.typeHeaders| == f.typeCount && |f.dataHeaders| == f.dataCount
  }

  /** The bytes of a container: magic, counts, padding, the type directory without the last
      8 skipped bytes (the records start there), then the records. */
  function Encode(f: Hd2DataFile): (b: seq<byte>)
    requires WellFormed(f)
    ensures |b| == DataRecordOffset(f.typeCount, f.dataCount)
  {
    var head := EncodeHeader(f) + EncodeTypeHeaders(f.typeHeaders);
    head[..72 + 32 * (f.typeCount as int)] + EncodeDataRecords(f.dataHeaders)
  }

  lemma ParseEncodedTypeHeader(h: TypeHeader)
    ensures ParseTypeHeader(EncodeTypeHeader(h)[..24]) == Some(h)
  {
    var s := EncodeTypeHeader(h)[..24];
    U64OfLittleEndian64(s, 0, Tag(h.id));
    U64OfLittleEndian64(s, 8, h.dataCount);
    U32OfLittleEndian32(s, 16, h.size);
    U32OfLittleEndian32(s, 20, h.dataHeaderSize);
    TagRoundTrip(h.id);
  }

  lemma ParseEncodedDataRecord(r: DataRecord)
    ensures ParseDataRecord(EncodeDataRecord(r)) == Some(r)
  {
    var s := EncodeDataRecord(r);
    EncodedDataRecordIds(r);
    EncodedDataRecordOffsets(r);
    EncodedDataRecordSizes(r);
    TagRoundTrip(r.typeId);
  }

  lemma EncodedDataRecordIds(r: DataRecord)
    ensures U64At(EncodeDataRecord(r), 0) == r.id && U64At(EncodeDataRecord(r), 8) == Tag(r.typeId)
    ensures U32At(EncodeDataRecord(r), 76) == r.index
  {
    var s := EncodeDataRecord(r);
    U64OfLittleEndian64(s, 0, r.id);
    U64OfLittleEndian64(s, 8, Tag(r.typeId));
    U32OfLittleEndian32(s, 76, r.index);
  }

  lemma EncodedDataRecordOffsets(r: DataRecord)
    ensures U64At(EncodeDataRecord(r), 16) == r.offset && U32At(EncodeDataRecord(r), 24) == r.streamOffset
    ensures U64At(EncodeDataRecord(r), 32) == r.gpuOffset
  {
    var s := EncodeDataRecord(r);
    assert s[16..24] == LittleEndian64(r.offset);
    U64OfLittleEndian64(s, 16, r.offset);
    U32OfLittleEndian32(s, 24, r.streamOffset);
    assert s[32..40] == LittleEndian64(r.gpuOffset);
    U64OfLittleEndian64(s, 32, r.gpuOffset);
  }

  lemma EncodedDataRecordSizes(r: DataRecord)
    ensures U32At(EncodeDataRecord(r), 56) == r.dataSize && U32At(EncodeDataRecord(r), 60) == r.streamSize
    ensures U32At(EncodeDataRecord(r), 64) == r.gpuSize
  {
    var s := EncodeDataRecord(r);
    U32OfLittleEndian32(s, 56, r.dataSize);
    U32OfLittleEndian32(s, 60, r.streamSize);
    U32OfLittleEndian32(s, 64, r.gpuSize);
  }

  /** Header `i` of an encoded directory sits at `32 * i`. */
  lemma {:induction false} EncodedTypeHeaderAt(hs: seq<TypeHeader>, i: nat)
    requires i < |hs|
    ensures EncodeTypeHeaders(hs)[32 * i..32 * i + 32] == EncodeTypeHeader(hs[i])
  {
    var init := hs[..|hs| - 1];
    if i < |hs| - 1 {
      EncodedTypeHeaderAt(init, i);
      assert EncodeTypeHeaders(hs)[32 * i..32 * i + 32] == EncodeTypeHeaders(init)[32 * i..32 * i + 32];
    }
  }

  /** Record `j` of an encoded record list sits at `80 * j`. */
  lemma {:induction false} EncodedDataRecordAt(rs: seq<DataRecord>, j: nat)
    requires j < |rs|
    ensures EncodeDataRecords(rs)[80 * j..80 * j + 80] == EncodeDataRecord(rs[j])
  {
    var init := rs[..|rs| - 1];
    if j < |rs| - 1 {
      EncodedDataRecordAt(init, j);
      assert EncodeDataRecords(rs)[80 * j..80 * j + 80] == EncodeDataRecords(init)[80 * j..80 * j + 80];
    }
  }

  /** The 80 bytes before the type directory in an encoding: magic, counts, padding. */
  function EncodeHeader(f: Hd2DataFile): (s: seq<byte>)
    ensures |s| == 80
  {
    MAGIC + LittleEndian32(f.typeCount) + LittleEndian32(f.dataCount) + Zeros(0x44)
  }

  lemma EncodedCounts(f: Hd2DataFile)
    requires WellFormed(f)
    ensures |Encode(f)| >= 12 && Encode(f)[..4] == MAGIC
    ensures U32At(Encode(f), 4) == f.typeCount && U32At(Encode(f), 8) == f.dataCount
  {
    var b, p, dir, recs := Encode(f), EncodeHeader(f), EncodeTypeHeaders(f.typeHeaders), EncodeDataRecords(f.dataHeaders);
    var len := 72 + 32 * (f.typeCount as int);
    assert b == (p + dir)[..len] + recs;
    SliceOfFirstPart(p, dir, recs, len, 0, 4);
    SliceOfFirstPart(p, dir, recs, len, 4, 8);
    SliceOfFirstPart(p, dir, recs, len, 8, 12);
    assert b[..4] == b[0..4];
    assert p[0..4] == MAGIC && p[4..8] == LittleEndian32(f.typeCount) && p[8..12] == LittleEndian32(f.dataCount);
    U32OfLittleEndian32(b, 4, f.typeCount);
    U32OfLittleEndian32(b, 8, f.dataCount);
  }

  lemma EncodedTypeHeaderSlice(f: Hd2DataFile, i: nat)
    requires WellFormed(f) && i < f.typeCount
    ensures var pos := TypeHeaderOffset(i);
      pos + 24 <= |Encode(f)| && Encode(f)[pos..pos + 24] == EncodeTypeHeader(f.typeHeaders[i])[..24]
  {
    var b, p, dir, recs := Encode(f), EncodeHeader(f), EncodeTypeHeaders(f.typeHeaders), EncodeDataRecords(f.dataHeaders);
    var len := 72 + 32 * (f.typeCount as int);
    assert b == (p + dir)[..len] + recs;
    SliceOfSecondPart(p, dir, recs, len, 32 * i, 32 * i + 24);
    EncodedTypeHeaderAt(f.typeHeaders, i);
    SliceOfSlice(dir, 32 * i, 32 * i + 32, 0, 24);
  }

  lemma EncodedTypeHeaderDecodes(f: Hd2DataFile, i: nat)
    requires WellFormed(f) && i < f.typeCount
    ensures DecodeTypeHeader(Encode(f), TypeHeaderOffset(i)) == Some(f.typeHeaders[i])
  {
    EncodedTypeHeaderSlice(f, i);
    ParseEncodedTypeHeader(f.typeHeaders[i]);
  }

  lemma EncodedDataRecordSlice(f: Hd2DataFile, j: nat)
    requires WellFormed(f) && j < f.dataCount
    ensures var pos := DataRecordOffset(f.typeCount, j);
      pos + 80 <= |Encode(f)| && Encode(f)[pos..pos + 80] == EncodeDataRecord(f.dataHeaders[j])
  {
    var b, recs := Encode(f), EncodeDataRecords(f.dataHeaders);
    var head := EncodeHeader(f) + EncodeTypeHeaders(f.typeHeaders);
    var len := 72 + 32 * (f.typeCount as int);
    assert b == head[..len] + recs;
    assert |head[..len]| == len;
    SliceOfConcatRight(head[..len], recs, 80 * j, 80 * j + 80);
    EncodedDataRecordAt(f.dataHeaders, j);
  }

  lemma EncodedDataRecordDecodes(f: Hd2DataFile, j: nat)
    requires WellFormed(f) && j < f.dataCount
    ensures DecodeDataRecord(Encode(f), DataRecordOffset(f.typeCount, j)) == Some(f.dataHeaders[j])
  {
    EncodedDataRecordSlice(f, j);
    ParseEncodedDataRecord(f.dataHeaders[j]);
  }

  /** A byte string with the file's magic and counts, and every header and record of the
      file at its place, decodes to that file. */
  lemma DecodesTo(b: seq<byte>, f: Hd2DataFile)
    requires WellFormed(f)
    requires |b| >= 12 && b[..4] == MAGIC && U32At(b, 4) == f.typeCount && U32At(b, 8) == f.dataCount
    requires forall i | 0 <= i < f.typeCount :: DecodeTypeHeader(b, TypeHeaderOffset(i)) == Some(f.typeHeaders[i])
    requires forall j | 0 <= j < f.dataCount ::
      DecodeDataRecord(b, DataRecordOffset(f.typeCount, j)) == Some(f.dataHeaders[j])
    ensures Decode(b) == Some(f)
  {
    var g := Decode(b).value;
    assert g.typeHeaders == f.typeHeaders;
    assert g.dataHeaders == f.dataHeaders;
  }

  /** Decoding an encoded container gives it back. */
  lemma DecodeEncode(f: Hd2DataFile)
    requires WellFormed(f)
    ensures Decode(Encode(f)) == Some(f)
  {
    var b := Encode(f);
    EncodedCounts(f);
    forall i | 0 <= i < f.typeCount
      ensures DecodeTypeHeader(b, TypeHeaderOffset(i)) == Some(f.typeHeaders[i])
    {
      EncodedTypeHeaderDecodes(f, i);
    }
    forall j | 0 <= j < f.dataCount
      ensures DecodeDataRecord(b, DataRecordOffset(f.typeCount, j)) == Some(f.dataHeaders[j])
    {
      EncodedDataRecordDecodes(f, j);
    }
    DecodesTo(b, f);
  }
}

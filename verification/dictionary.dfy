/** The dictionary of known names, keyed by their hash (`Dictionary` in src/hash.rs).
    The file is given as its list of lines, each line as its UTF-8 bytes. */
module NameDictionary {
  import opened Basics
  import opened Hash

  /** A line the loader ignores: empty, or a `//` comment. */
  predicate Skipped(line: seq<u8>)
  {
    |line| == 0 || (|line| >= 2 && line[0] == 0x2F && line[1] == 0x2F)
  }

  /** The key of a name: its hash as an unsigned 64-bit integer. */
  function NameHash(line: seq<u8>): u64
  {
    MurmurHash64A(line) as int
  }

  /** The map built from `lines`: each kept line inserted under its hash, in order,
      so that a later line replaces an earlier one with the same hash. The loader hashes
      with `NameHash`; the facts below hold for any hash function. */
  function DictionaryOf(lines: seq<seq<u8>>, hash: seq<u8> -> u64): map<u64, seq<u8>>
  {
    if |lines| == 0 then map[]
    else
      var m := DictionaryOf(lines[..|lines| - 1], hash);
      var line := lines[|lines| - 1];
      if Skipped(line) then m else m[hash(line) := line]
  }

  /** The hashes of the kept lines. */
  function KeptHashes(lines: seq<seq<u8>>, hash: seq<u8> -> u64): set<u64>
  {
    set j | 0 <= j < |lines| && !Skipped(lines[j]) :: hash(lines[j])
  }

  /** One step of the fold: the last line is inserted into the map of the lines before it. */
  lemma InsertLast(lines: seq<seq<u8>>, hash: seq<u8> -> u64)
    requires |lines| > 0
    ensures var init, line := lines[..|lines| - 1], lines[|lines| - 1];
      DictionaryOf(lines, hash) == if Skipped(line) then DictionaryOf(init, hash) else DictionaryOf(init, hash)[hash(line) := line]
  {
  }

  /** The keys of the dictionary are exactly the hashes of the kept lines. */
  lemma {:induction false} DictionaryKeys(lines: seq<seq<u8>>, hash: seq<u8> -> u64)
    ensures DictionaryOf(lines, hash).Keys == KeptHashes(lines, hash)
  {
    if |lines| > 0 {
      var init := lines[..|lines| - 1];
      DictionaryKeys(init, hash);
      forall k | k in KeptHashes(lines, hash)
        ensures k in DictionaryOf(lines, hash).Keys
      {
        var j :| 0 <= j < |lines| && !Skipped(lines[j]) && hash(lines[j]) == k;
        if j < |lines| - 1 {
          assert init[j] == lines[j];
          assert k in KeptHashes(init, hash);
        }
      }
      forall k | k in DictionaryOf(lines, hash).Keys
        ensures k in KeptHashes(lines, hash)
      {
        if k in DictionaryOf(init, hash).Keys {
          var j :| 0 <= j < |init| && !Skipped(init[j]) && hash(init[j]) == k;
          assert lines[j] == init[j];
        } else {
          assert hash(lines[|lines| - 1]) == k;
        }
      }
    }
  }

  /** Every stored line is a kept line of the file, stored under its own hash. */
  lemma {:induction false} DictionaryEntries(lines: seq<seq<u8>>, hash: seq<u8> -> u64, k: u64)
    requires k in DictionaryOf(lines, hash)
    ensures DictionaryOf(lines, hash)[k] in lines
    ensures !Skipped(DictionaryOf(lines, hash)[k]) && hash(DictionaryOf(lines, hash)[k]) == k
  {
    var init := lines[..|lines| - 1];
    var line := lines[|lines| - 1];
    InsertLast(lines, hash);
    if Skipped(line) || hash(line) != k {
      DictionaryEntries(init, hash, k);
      assert forall l | l in init :: l in lines;
    }
  }

  /** A kept line with no later kept line of the same hash is the one stored under its hash. */
  lemma {:induction false} LastLineWins(lines: seq<seq<u8>>, hash: seq<u8> -> u64, j: nat)
    requires j < |lines| && !Skipped(lines[j])
    requires forall j' | j < j' < |lines| :: Skipped(lines[j']) || hash(lines[j']) != hash(lines[j])
    ensures hash(lines[j]) in DictionaryOf(lines, hash)
    ensures DictionaryOf(lines, hash)[hash(lines[j])] == lines[j]
  {
    InsertLast(lines, hash);
    if j < |lines| - 1 {
      var init := lines[..|lines| - 1];
      assert init[j] == lines[j];
      LastLineWins(init, hash, j);
    }
  }

  /** The name dictionary: a map from name hash to name. */
  class Dictionary {
    var names: map<u64, seq<u8>>
    /** The lines the dictionary was loaded from. */
    ghost var lines: seq<seq<u8>>

    ghost predicate Valid()
      reads this
    {
      names == DictionaryOf(lines, NameHash)
    }

    /** `Dictionary::load`: skip empty and comment lines, insert every other line under its hash. */
    constructor Load(file: seq<seq<u8>>)
      ensures Valid() && lines == file
    {
      var m: map<u64, seq<u8>> := map[];
      var i := 0;
      while i < |file|
        invariant i <= |file|
        invariant m == DictionaryOf(file[..i], NameHash)
      {
        var line := file[i];
        assert file[..i + 1][..i] == file[..i];
        if !Skipped(line) {
          var hash := StingrayHash(line);
          m := m[hash as int := line];
        }
        i := i + 1;
      }
      assert file[..|file|] == file;
      names := m;
      lines := file;
    }

    /** `get`: the line stored under `hash`, which is a kept line hashing to `hash`, or nothing
        when no kept line hashes to `hash`. */
    function Get(hash: u64): (r: Option<seq<u8>>)
      requires Valid()
      reads this
      ensures r.None? <==> hash !in KeptHashes(lines, NameHash)
      ensures r.Some? ==> r.value in lines && !Skipped(r.value) && NameHash(r.value) == hash
    {
      DictionaryKeys(lines, NameHash);
      if hash in names then
        DictionaryEntries(lines, NameHash, hash);
        Some(names[hash])
      else
        None
    }

    /** `len`: the number of distinct hashes among the kept lines. */
    function Len(): (n: nat)
      requires Valid()
      reads this
      ensures n == |KeptHashes(lines, NameHash)|
    {
      DictionaryKeys(lines, NameHash);
      |names|
    }
  }
}

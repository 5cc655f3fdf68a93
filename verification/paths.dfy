/** File names and paths as the asset index uses them: the `{:016x}` name of a
    container, `u64::from_str_radix(_, 16)` that reads it back, and the parts of
    Rust's `Path` used to resolve files (`join`, `extension`, `with_extension`) on
    Unix paths, `/` being the only separator. */
module Paths {
  import opened Basics

  /** The ways `from_str_radix` can fail. */
  datatype IntErrorKind = Empty | InvalidDigit | PosOverflow

  /** 16 to the power n. */
  function Pow16(n: nat): (p: nat)
    ensures p > 0
  {
    if n == 0 then 1 else 16 * Pow16(n - 1)
  }

  lemma Pow16Sixteen()
    ensures Pow16(16) == U64_LIMIT
  {
    assert Pow16(4) == 0x1_0000;
    assert Pow16(8) == 0x1_0000_0000;
    assert Pow16(12) == 0x1_0000_0000_0000;
  }

  predicate IsLowerHexDigit(c: char)
  {
    '0' <= c <= '9' || 'a' <= c <= 'f'
  }

  /** The lower-case digit of `d`, as `{:x}` writes it. */
  function HexChar(d: nat): (c: char)
    requires d < 16
  {
    if d < 10 then ('0' as int + d) as char else ('a' as int + d - 10) as char
  }

  /** `char::to_digit(16)`: the value of a hexadecimal digit of either case. */
  function HexDigitValue(c: char): (r: Option<nat>)
    ensures r.Some? ==> r.value < 16
  {
    if '0' <= c <= '9' then Some(c as int - '0' as int)
    else if 'a' <= c <= 'f' then Some(c as int - 'a' as int + 10)
    else if 'A' <= c <= 'F' then Some(c as int - 'A' as int + 10)
    else None
  }

  lemma HexDigitValueOfHexChar(d: nat)
    requires d < 16
    ensures IsLowerHexDigit(HexChar(d)) && HexDigitValue(HexChar(d)) == Some(d)
  {
  }

  /** The last `n` hexadecimal digits of `v`, most significant first. */
  function HexDigits(v: nat, n: nat): (s: string)
    ensures |s| == n
  {
    if n == 0 then [] else HexDigits(v / 16, n - 1) + [HexChar(v % 16)]
  }

  /** `format!("{id:016x}")`: sixteen lower-case digits, zero-padded. */
  function Hex16(v: u64): (s: string)
    ensures |s| == 16 && forall t | 0 <= t < 16 :: IsLowerHexDigit(s[t])
  {
    HexDigitsAreLower(v, 16);
    HexDigits(v, 16)
  }

  lemma {:induction false} HexDigitsAreLower(v: nat, n: nat)
    ensures forall t | 0 <= t < n :: IsLowerHexDigit(HexDigits(v, n)[t])
  {
    if n > 0 {
      HexDigitsAreLower(v / 16, n - 1);
      HexDigitValueOfHexChar(v % 16);
    }
  }

  /** Every character is a hexadecimal digit, of either case. */
  predicate AllHexDigits(s: string)
  {
    forall t | 0 <= t < |s| :: HexDigitValue(s[t]).Some?
  }

  /** The number written by a string of hexadecimal digits, most significant first. */
  function HexValue(s: string): nat
    requires AllHexDigits(s)
  {
    if |s| == 0 then 0 else 16 * HexValue(s[..|s| - 1]) + HexDigitValue(s[|s| - 1]).value
  }

  /** One digit of the parsing loop: the digit is checked first, then the
      multiply-and-add is checked for overflow. */
  function ParseStep(acc: Result<u64, IntErrorKind>, c: char): Result<u64, IntErrorKind>
  {
    match acc
    case Failure(e) => Failure(e)
    case Success(a) =>
      match HexDigitValue(c)
      case None => Failure(InvalidDigit)
      case Some(x) => if a * 16 + x >= U64_LIMIT then Failure(PosOverflow) else Success(a * 16 + x)
  }

  /** The digit loop of `from_str_radix` from the accumulator `acc`, left to right. */
  function ParseDigits(acc: u64, s: string): Result<u64, IntErrorKind>
    decreases |s|
  {
    if |s| == 0 then Success(acc)
    else
      var next := ParseStep(Success(acc), s[0]);
      if next.Failure? then next else ParseDigits(next.value, s[1..])
  }

  /** `u64::from_str_radix(s, 16)`: an optional leading `+`, then at least one digit. */
  function ParseHexU64(s: string): Result<u64, IntErrorKind>
  {
    if |s| == 0 then Failure(Empty)
    else if s == "+" || s == "-" then Failure(InvalidDigit)
    else if s[0] == '+' then ParseDigits(0, s[1..])
    else ParseDigits(0, s)
  }

  /** The loop, read from the right: parsing `s + [c]` is one more step after parsing `s`. */
  lemma {:induction false} ParseDigitsSnoc(acc: u64, s: string, c: char)
    ensures ParseDigits(acc, s + [c]) == ParseStep(ParseDigits(acc, s), c)
    decreases |s|
  {
    if |s| > 0 {
      assert (s + [c])[1..] == s[1..] + [c];
      var next := ParseStep(Success(acc), s[0]);
      if next.Success? {
        ParseDigitsSnoc(next.value, s[1..], c);
      }
    }
  }

  /** The digit loop succeeds exactly on strings of digits whose value fits in 64 bits,
      and then yields that value. */
  lemma {:induction false} ParseDigitsValue(s: string)
    ensures ParseDigits(0, s).Success? <==> AllHexDigits(s) && HexValue(s) < U64_LIMIT
    ensures ParseDigits(0, s).Success? ==> ParseDigits(0, s).value == HexValue(s)
  {
    if |s| > 0 {
      var init, c := s[..|s| - 1], s[|s| - 1];
      assert s == init + [c];
      ParseDigitsSnoc(0, init, c);
      ParseDigitsValue(init);
      if AllHexDigits(s) {
        assert AllHexDigits(init) by {
          forall t | 0 <= t < |init|
            ensures HexDigitValue(init[t]).Some?
          {
            assert init[t] == s[t];
          }
        }
      }
    }
  }

  /** The digits of `v` read back give `v`. */
  lemma {:induction false} HexDigitsValue(v: nat, n: nat)
    requires v < Pow16(n)
    ensures AllHexDigits(HexDigits(v, n)) && HexValue(HexDigits(v, n)) == v
  {
    HexDigitsAreLower(v, n);
    if n > 0 {
      var s := HexDigits(v, n);
      HexDigitsValue(v / 16, n - 1);
      HexDigitValueOfHexChar(v % 16);
      assert s[..n - 1] == HexDigits(v / 16, n - 1);
    }
  }

  /** Parsing a formatted name with radix 16 gives back the number. */
  lemma HexRoundTrip(v: u64)
    ensures ParseHexU64(Hex16(v)) == Success(v)
  {
    Pow16Sixteen();
    HexDigitsValue(v, 16);
    ParseDigitsValue(Hex16(v));
  }

  /** Distinct numbers have distinct names. */
  lemma Hex16Injective(v: u64, w: u64)
    requires Hex16(v) == Hex16(w)
    ensures v == w
  {
    HexRoundTrip(v);
    HexRoundTrip(w);
  }

  /** A name that parses is one or more digits, possibly after a `+`. */
  lemma ParsedNameIsHex(s: string)
    requires ParseHexU64(s).Success?
    ensures var digits := if s[0] == '+' then s[1..] else s;
      |digits| > 0 && AllHexDigits(digits) && ParseHexU64(s).value == HexValue(digits)
  {
    var digits := if s[0] == '+' then s[1..] else s;
    ParseDigitsValue(digits);
  }

  /** The last position of `c` in `s`. */
  function LastIndexOf(s: string, c: char): (r: Option<nat>)
    ensures r.None? <==> c !in s
    ensures r.Some? ==> r.value < |s| && s[r.value] == c && forall t | r.value < t < |s| :: s[t] != c
  {
    if |s| == 0 then None
    else if s[|s| - 1] == c then Some(|s| - 1)
    else
      var r := LastIndexOf(s[..|s| - 1], c);
      assert s == s[..|s| - 1] + [s[|s| - 1]];
      r
  }

  /** The last component of a Unix path: what follows its last `/`. */
  function LastComponent(p: string): (name: string)
  {
    match LastIndexOf(p, '/')
    case None => p
    case Some(k) => p[k + 1..]
  }

  /** `Path::join`: an absolute `name` replaces the base; otherwise a `/` is added
      unless the base is empty or already ends with one. */
  function Join(base: string, name: string): (p: string)
  {
    if |name| > 0 && name[0] == '/' then name
    else if |base| == 0 || base[|base| - 1] == '/' then base + name
    else base + "/" + name
  }

  /** Joining a relative name without separators ends the path with that name. */
  lemma JoinLastComponent(base: string, name: string)
    requires |name| > 0 && '/' !in name
    ensures LastComponent(Join(base, name)) == name
    ensures Join(base, name)[..|Join(base, name)| - |name|] + name == Join(base, name)
  {
    var p := Join(base, name);
    var k := |p| - |name| - 1;
    assert p[k + 1..] == name;
    if k >= 0 {
      assert p[k] == '/';
      var r := LastIndexOf(p, '/');
      assert r.value == k;
    } else {
      assert p == name;
    }
  }

  /** `extension` of a file name: what follows its last dot, if that dot is not the
      first character; `..` has none. */
  function FileExtension(name: string): (r: Option<string>)
  {
    if name == ".." then None
    else
      match LastIndexOf(name, '.')
      case None => None
      case Some(d) => if d == 0 then None else Some(name[d + 1..])
  }

  /** `file_stem` of a file name: the name without its extension. */
  function FileStem(name: string): (r: string)
  {
    if name == ".." then name
    else
      match LastIndexOf(name, '.')
      case None => name
      case Some(d) => if d == 0 then name else name[..d]
  }

  /** `with_extension` on a file name: the stem, then a dot and `ext` unless `ext` is empty. */
  function WithExtension(name: string, ext: string): (r: string)
  {
    FileStem(name) + (if |ext| == 0 then "" else "." + ext)
  }

  /** The extension a file name gets from `WithExtension` is the one given. */
  lemma {:induction false} ExtensionOfWithExtension(name: string, ext: string)
    requires |ext| > 0 && '.' !in ext && FileStem(name) != "" && FileStem(name) != "."
    ensures FileExtension(WithExtension(name, ext)) == Some(ext)
    ensures FileStem(WithExtension(name, ext)) == FileStem(name)
  {
    var stem, r := FileStem(name), WithExtension(name, ext);
    assert r == stem + "." + ext;
    var d := |stem|;
    assert r[d] == '.';
    var i := LastIndexOf(r, '.');
    assert i.value == d;
    assert r[d + 1..] == ext && r[..d] == stem;
  }

  /** `Path::with_extension` on a whole path: the last component gets the extension.
      A path whose last component is empty, `.` or `..` is left as it is. */
  function PathWithExtension(p: string, ext: string): (r: string)
  {
    var name := LastComponent(p);
    if name == "" || name == "." || name == ".." then p
    else p[..|p| - |name|] + WithExtension(name, ext)
  }

  /** A name without dots has no extension and is its own stem. */
  lemma NoDotName(name: string)
    requires '.' !in name
    ensures FileExtension(name).None? && FileStem(name) == name
  {
  }

  /** A dotless name followed by `.` and a dotless extension has that extension. */
  lemma ExtensionOfDotted(name: string, ext: string)
    requires |name| > 0 && '.' !in name && '.' !in ext
    ensures FileExtension(name + ("." + ext)) == Some(ext)
  {
    var p := name + ("." + ext);
    assert p[0] == name[0] && p != "..";
    assert p[|name|] == '.';
    var d := LastIndexOf(p, '.');
    assert d.value == |name| by {
      forall t | |name| < t < |p|
        ensures p[t] != '.'
      {
        assert p[t] == ext[t - |name| - 1];
      }
    }
    assert p[|name| + 1..] == ext;
  }

  /** A container name has neither separators nor dots. */
  lemma HexNameIsPlain(v: u64)
    ensures '/' !in Hex16(v) && '.' !in Hex16(v)
  {
    var name := Hex16(v);
    forall t | 0 <= t < 16
      ensures name[t] != '/' && name[t] != '.'
    {
      assert IsLowerHexDigit(name[t]);
    }
  }

  /** A container name joined to a directory has no extension; with an extension
      added it is the same path followed by `.` and the extension. */
  lemma ContainerPathWithExtension(base: string, v: u64, ext: string)
    requires |ext| > 0
    ensures FileExtension(LastComponent(Join(base, Hex16(v)))).None?
    ensures PathWithExtension(Join(base, Hex16(v)), ext) == Join(base, Hex16(v)) + ("." + ext)
  {
    var name := Hex16(v);
    HexNameIsPlain(v);
    JoinLastComponent(base, name);
    NoDotName(name);
    var p := Join(base, name);
    assert name != "" && name != "." && name != "..";
    assert PathWithExtension(p, ext) == p[..|p| - |name|] + (name + ("." + ext));
  }

  /** The last component of a container path followed by `.` and an extension has that extension. */
  lemma DottedContainerPath(base: string, v: u64, ext: string)
    requires '.' !in ext && '/' !in ext
    ensures FileExtension(LastComponent(Join(base, Hex16(v)) + ("." + ext))) == Some(ext)
  {
    var name := Hex16(v);
    HexNameIsPlain(v);
    var dotted := name + ("." + ext);
    assert '/' !in dotted by {
      forall t | 0 <= t < |dotted|
        ensures dotted[t] != '/'
      {
        if t > 16 {
          assert dotted[t] == ext[t - 17];
        }
      }
    }
    assert Join(base, dotted) == Join(base, name) + ("." + ext);
    JoinLastComponent(base, dotted);
    ExtensionOfDotted(name, ext);
  }
}

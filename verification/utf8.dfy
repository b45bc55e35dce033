/** UTF-8 (section 3 of RFC 3629): the character encoder and the decoder of string literals. */
module Utf8 {
  import opened Wrappers

  type Byte = n: nat | n < 0x100

  datatype Utf8Error = InvalidByte | OutOfRange

  const LIMIT: nat := 0x110000

  /** The bytes of one code point; none for a number that is no code point. */
  function Encode(c: nat): seq<Byte> {
    if c < 0x80 then [c]
    else if c < 0x800 then [0xC0 + c / 0x40, 0x80 + c % 0x40]
    else if c < 0x10000 then [0xE0 + c / 0x1000, 0x80 + c / 0x40 % 0x40, 0x80 + c % 0x40]
    else if c < LIMIT then [0xF0 + c / 0x40000, 0x80 + c / 0x1000 % 0x40, 0x80 + c / 0x40 % 0x40, 0x80 + c % 0x40]
    else []
  }

  /** Writes the bytes into a buffer of the caller's, and says how many. */
  method EncodeChar(c: nat, buffer: array<Byte>) returns (n: nat)
    requires buffer.Length >= 4
    modifies buffer
    ensures n == |Encode(c)| && buffer[..n] == Encode(c)
    ensures buffer[n..] == old(buffer[n..])
  {
    if c < 0x80 {
      buffer[0] := c;
      return 1;
    }
    if c < 0x800 {
      buffer[0] := 0xC0 + c / 0x40;
      buffer[1] := 0x80 + c % 0x40;
      return 2;
    }
    if c < 0x10000 {
      buffer[0] := 0xE0 + c / 0x1000;
      buffer[1] := 0x80 + c / 0x40 % 0x40;
      buffer[2] := 0x80 + c % 0x40;
      return 3;
    }
    if c < LIMIT {
      buffer[0] := 0xF0 + c / 0x40000;
      buffer[1] := 0x80 + c / 0x1000 % 0x40;
      buffer[2] := 0x80 + c / 0x40 % 0x40;
      buffer[3] := 0x80 + c % 0x40;
      return 4;
    }
    return 0;
  }

  function EncodeAll(cs: seq<nat>): seq<Byte> {
    if cs == [] then [] else Encode(cs[0]) + EncodeAll(cs[1..])
  }

  /** How many bytes a character takes, by its first byte; 0 for a byte that starts none. */
  function Length(b: Byte): (n: nat)
    ensures n <= 4
  {
    if b <= 0x7F then 1
    else if b / 0x20 == 6 then 2
    else if b / 0x10 == 14 then 3
    else if b / 8 == 30 then 4
    else 0
  }

  /** The code point of the bytes of one character. */
  function Combine(s: seq<Byte>): nat
    requires s != [] && |s| == Length(s[0])
  {
    match |s|
    case 1 => Low(s[0], 0x80)
    case 2 => Low(s[0], 0x20) * 0x40 + Low(s[1], 0x40)
    case 3 => Low(s[0], 0x10) * 0x1000 + Low(s[1], 0x40) * 0x40 + Low(s[2], 0x40)
    case _ => Low(s[0], 8) * 0x40000 + Low(s[1], 0x40) * 0x1000 + Low(s[2], 0x40) * 0x40 + Low(s[3], 0x40)
  }

  /** The low bits of a byte. */
  function Low(b: Byte, unit: nat): nat
    requires unit > 0
  {
    b as nat % unit
  }

  /** Character by character; reading past the end is an error of its own. */
  function Decode(s: seq<Byte>): Result<seq<nat>, Utf8Error>
    decreases |s|
  {
    if s == [] then Ok([])
    else
      var n := Length(s[0]);
      if n == 0 then Err(InvalidByte)
      else if n > |s| then Err(OutOfRange)
      else
        match Decode(s[n..])
        case Err(e) => Err(e)
        case Ok(rest) => Ok([Combine(s[..n])] + rest)
  }

  method DecodeString(s: seq<Byte>) returns (r: Result<seq<nat>, Utf8Error>)
    ensures r == Decode(s)
  {
    hide Combine, Length;
    var cs: seq<nat> := [];
    var i := 0;
    assert s[0..] == s && (Decode(s).Ok? ==> cs + Decode(s).value == Decode(s).value);
    while i < |s|
      invariant 0 <= i <= |s|
      invariant
        match Decode(s[i..])
        case Err(e) => Decode(s) == Err(e)
        case Ok(rest) => Decode(s) == Ok(cs + rest)
    {
      var n := Length(s[i]);
      assert s[i..][0] == s[i];
      if n == 0 {
        return Err(InvalidByte);
      }
      if n > |s| - i {
        return Err(OutOfRange);
      }
      assert s[i..][n..] == s[i + n..] && s[i..][..n] == s[i..i + n];
      var c := Combine(s[i..i + n]);
      ghost var rest := Decode(s[i + n..]);
      assert rest.Ok? ==> cs + ([c] + rest.value) == cs + [c] + rest.value;
      cs := cs + [c];
      i := i + n;
    }
    assert s[i..] == [] && cs + [] == cs;
    return Ok(cs);
  }

  // ----- the round trip -----

  lemma TwoBytes(c: nat)
    requires 0x80 <= c < 0x800
    ensures Length(Encode(c)[0]) == 2 && Combine(Encode(c)) == c
  {
  }

  lemma ThreeBytes(c: nat)
    requires 0x800 <= c < 0x10000
    ensures Length(Encode(c)[0]) == 3 && Combine(Encode(c)) == c
  {
    var a, b, d := c / 0x1000, c / 0x40 % 0x40, c % 0x40;
    assert c == a * 0x1000 + b * 0x40 + d;
  }

  lemma FourBytes(c: nat)
    requires 0x10000 <= c < LIMIT
    ensures Length(Encode(c)[0]) == 4 && Combine(Encode(c)) == c
  {
    hide Combine, Length;
    var a, b, d, e := c / 0x40000, c / 0x1000 % 0x40, c / 0x40 % 0x40, c % 0x40;
    FourDigits(c);
    FourCombined(a, b, d, e);
  }

  lemma FourDigits(c: nat)
    requires c < LIMIT
    ensures c / 0x40000 < 8 && c == c / 0x40000 * 0x40000 + c / 0x1000 % 0x40 * 0x1000 + c / 0x40 % 0x40 * 0x40 + c % 0x40
  {
    assert c == c / 0x40 * 0x40 + c % 0x40;
    assert c / 0x40 == c / 0x1000 * 0x40 + c / 0x40 % 0x40;
    assert c / 0x1000 == c / 0x40000 * 0x40 + c / 0x1000 % 0x40;
  }

  lemma FourCombined(a: nat, b: nat, d: nat, e: nat)
    requires a < 8 && b < 0x40 && d < 0x40 && e < 0x40
    ensures
      var s := [0xF0 + a, 0x80 + b, 0x80 + d, 0x80 + e];
      Length(s[0]) == 4 && Combine(s) == a * 0x40000 + b * 0x1000 + d * 0x40 + e
  {
  }

  lemma OneCharacter(c: nat)
    requires c < LIMIT
    ensures Encode(c) != [] && Length(Encode(c)[0]) == |Encode(c)| && Combine(Encode(c)) == c
  {
    hide Combine, Length;
    if c < 0x80 {
      assert Length(c) == 1 by { OneByte(c); }
      OneByte(c);
    } else if c < 0x800 {
      TwoBytes(c);
    } else if c < 0x10000 {
      ThreeBytes(c);
    } else {
      FourBytes(c);
    }
  }

  lemma OneByte(c: nat)
    requires c < 0x80
    ensures Length(c) == 1 && Combine([c]) == c
  {
  }

  /** Decoding what was encoded gives back the code points, reads nothing out of range and consumes every byte. */
  lemma {:induction false} RoundTrip(cs: seq<nat>)
    requires forall i :: 0 <= i < |cs| ==> cs[i] < LIMIT
    ensures Decode(EncodeAll(cs)) == Ok(cs)
    decreases |cs|
  {
    hide Combine, Length, Encode;
    if cs != [] {
      OneCharacter(cs[0]);
      RoundTrip(cs[1..]);
      var s, n := EncodeAll(cs), |Encode(cs[0])|;
      assert s[..n] == Encode(cs[0]) && s[n..] == EncodeAll(cs[1..]);
      assert cs == [cs[0]] + cs[1..];
    }
  }

  /** Different texts have different encodings. */
  lemma EncodeInjective(a: seq<nat>, b: seq<nat>)
    requires (forall i :: 0 <= i < |a| ==> a[i] < LIMIT) && (forall i :: 0 <= i < |b| ==> b[i] < LIMIT)
    requires EncodeAll(a) == EncodeAll(b)
    ensures a == b
  {
    RoundTrip(a);
    RoundTrip(b);
  }

  lemma DecodeOne(s: seq<Byte>)
    requires s != [] && |s| == Length(s[0])
    ensures Decode(s) == Ok([Combine(s)])
  {
    hide Combine, Length;
    assert s[|s|..] == [] && s[..|s|] == s;
    assert [Combine(s)] + [] == [Combine(s)];
  }

  // ----- which accepted strings are encodings -----

  predicate Continues(b: Byte) {
    b / 0x40 == 2
  }

  /** The least code point that needs so many bytes. */
  function Least(length: nat): nat {
    if length <= 1 then 0 else if length == 2 then 0x80 else if length == 3 then 0x800 else 0x10000
  }

  /** Proper continuation bytes, no more bytes than needed, and a code point. */
  predicate Canonical(s: seq<Byte>)
    requires s != [] && |s| == Length(s[0])
  {
    (forall i :: 1 <= i < |s| ==> Continues(s[i])) && Least(|s|) <= Combine(s) < LIMIT
  }

  predicate AllCanonical(s: seq<Byte>)
    decreases |s|
  {
    s == [] || (0 < Length(s[0]) <= |s| && Canonical(s[..Length(s[0])]) && AllCanonical(s[Length(s[0])..]))
  }

  /** A number's digits to base 64. */
  lemma Digits(a: nat, b: nat, d: nat, e: nat)
    requires b < 0x40 && d < 0x40 && e < 0x40
    ensures
      var c := a * 0x40000 + b * 0x1000 + d * 0x40 + e;
      c / 0x40000 == a && c / 0x1000 % 0x40 == b && c / 0x40 % 0x40 == d && c % 0x40 == e
  {
    var c := a * 0x40000 + b * 0x1000 + d * 0x40 + e;
    assert c == (a * 0x1000 + b * 0x40 + d) * 0x40 + e;
    assert c / 0x40 == a * 0x1000 + b * 0x40 + d;
    assert c / 0x1000 == a * 0x40 + b;
  }

  lemma ContinuesLow(b: Byte)
    ensures Continues(b) <==> b == 0x80 + Low(b, 0x40)
  {
  }

  lemma TwoBytesCanonical(s: seq<Byte>)
    requires |s| == 2 && Length(s[0]) == 2
    ensures Encode(Combine(s)) == s <==> Canonical(s)
    ensures |Encode(Combine(s))| <= |s|
  {
    var (a, b) := (Low(s[0], 0x20), Low(s[1], 0x40));
    var c := Combine(s);
    Digits(0, 0, a, b);
    assert s == [s[0], s[1]] && s[0] == 0xC0 + a;
    ContinuesLow(s[1]);
    hide Low, Combine, Continues, Length;
    if 0x80 <= c {
      assert Encode(c) == [0xC0 + a, 0x80 + b];
    } else {
      assert |Encode(c)| < 2;
    }
  }

  lemma ThreeBytesCanonical(s: seq<Byte>)
    requires |s| == 3 && Length(s[0]) == 3
    ensures Encode(Combine(s)) == s <==> Canonical(s)
    ensures |Encode(Combine(s))| <= |s|
  {
    var (a, b, d) := (Low(s[0], 0x10), Low(s[1], 0x40), Low(s[2], 0x40));
    var c := Combine(s);
    Digits(0, a, b, d);
    assert s == [s[0], s[1], s[2]] && s[0] == 0xE0 + a;
    ContinuesLow(s[1]);
    ContinuesLow(s[2]);
    hide Low, Combine, Continues, Length;
    if 0x800 <= c {
      assert Encode(c) == [0xE0 + a, 0x80 + b, 0x80 + d];
    } else {
      assert |Encode(c)| < 3;
    }
  }

  lemma FourBytesCanonical(s: seq<Byte>)
    requires |s| == 4 && Length(s[0]) == 4
    ensures Encode(Combine(s)) == s <==> Canonical(s)
    ensures |Encode(Combine(s))| <= |s|
  {
    var (a, b, d, e) := (Low(s[0], 8), Low(s[1], 0x40), Low(s[2], 0x40), Low(s[3], 0x40));
    var c := Combine(s);
    Digits(a, b, d, e);
    assert s == [s[0], s[1], s[2], s[3]] && s[0] == 0xF0 + a;
    ContinuesLow(s[1]);
    ContinuesLow(s[2]);
    ContinuesLow(s[3]);
    hide Low, Combine, Continues, Length;
    if 0x10000 <= c < LIMIT {
      assert Encode(c) == [0xF0 + a, 0x80 + b, 0x80 + d, 0x80 + e];
    } else {
      assert |Encode(c)| < 4;
    }
  }

  /** The bytes of one character are the encoding of what they are read as exactly when they are canonical. */
  lemma CanonicalCharacter(s: seq<Byte>)
    requires s != [] && |s| == Length(s[0])
    ensures Encode(Combine(s)) == s <==> Canonical(s)
    ensures |Encode(Combine(s))| <= |s|
  {
    hide Encode, Combine, Canonical;
    match |s| {
      case 1 => OneByteCanonical(s);
      case 2 => TwoBytesCanonical(s);
      case 3 => ThreeBytesCanonical(s);
      case _ => FourBytesCanonical(s);
    }
  }

  lemma OneByteCanonical(s: seq<Byte>)
    requires |s| == 1 && Length(s[0]) == 1
    ensures Encode(Combine(s)) == s && Canonical(s)
  {
    assert s == [s[0]];
  }

  lemma {:induction false} EncodingsShorten(s: seq<Byte>)
    requires Decode(s).Ok?
    ensures |EncodeAll(Decode(s).value)| <= |s|
    decreases |s|
  {
    hide Combine, Encode;
    if s != [] {
      var n := Length(s[0]);
      CanonicalCharacter(s[..n]);
      EncodingsShorten(s[n..]);
    }
  }

  /** Of the strings that are decoded, exactly the canonical ones are what encoding gives back. */
  lemma {:induction false} CanonicalExactly(s: seq<Byte>)
    requires Decode(s).Ok?
    ensures EncodeAll(Decode(s).value) == s <==> AllCanonical(s)
    decreases |s|
  {
    hide Combine, Encode, Canonical;
    if s != [] {
      var n := Length(s[0]);
      var (c, rest) := (Combine(s[..n]), Decode(s[n..]).value);
      var cs := Decode(s).value;
      assert cs == [c] + rest && cs[1..] == rest;
      CanonicalCharacter(s[..n]);
      EncodingsShorten(s[n..]);
      CanonicalExactly(s[n..]);
      assert s == s[..n] + s[n..];
      if EncodeAll(cs) == s {
        assert |Encode(c)| == n;
        assert Encode(c) == EncodeAll(cs)[..n] && EncodeAll(rest) == EncodeAll(cs)[n..];
      }
    }
  }

  /** An overlong zero, and a continuation byte that is none, are decoded all the same. */
  lemma NotCanonical()
    ensures Decode([0xC0, 0x80]) == Ok([0]) && Encode(0) != [0xC0, 0x80]
    ensures Decode([0xC3, 0x29]) == Ok([0xE9]) && Encode(0xE9) == [0xC3, 0xA9]
  {
    DecodeOne([0xC0, 0x80]);
    DecodeOne([0xC3, 0x29]);
  }
}

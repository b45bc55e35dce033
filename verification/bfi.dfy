/**
  Bitfield insertion: the words the encoder builds, and what they do (section C6.2, BFM and BFI, of the Arm
  Architecture Reference Manual, DDI 0487).
 */
module BitfieldInsert {
  import opened Wrappers
  import opened Bitfields

  /** A register name: its first letter, which gives the size, and its number. */
  datatype Register = Register(prefix: char, number: nat)

  datatype EncodeError = MismatchedSizes | BadLsb | BadWidth | TooWide

  predicate Is64(r: Register) {
    r.prefix == 'x' || r.prefix == 'X'
  }

  function DataSize(is64: bool): nat {
    if is64 then 64 else 32
  }

  // ----- encoding -----

  /** 0x33000000 */
  function BaseWord(): (b: Bits)
    ensures |b| == WORD
  {
    seq(WORD, i => i in {24, 25, 28, 29})
  }

  function Checked(xd: Register, xn: Register, lsb: int, width: int): Option<EncodeError> {
    var size := DataSize(Is64(xd));
    if Is64(xd) != Is64(xn) then Some(MismatchedSizes)
    else if lsb < 0 || lsb >= size then Some(BadLsb)
    else if width < 1 || width > size then Some(BadWidth)
    else if lsb + width > size then Some(TooWide)
    else None
  }

  /** Accepted are fields of at least one bit all of whose bits lie in both registers, which are of one size. */
  lemma AcceptedExactly(xd: Register, xn: Register, lsb: int, width: int)
    ensures
      var (wide, other) := (xd.prefix == 'x' || xd.prefix == 'X', xn.prefix == 'x' || xn.prefix == 'X');
      Checked(xd, xn, lsb, width) == None <==>
        wide == other && 0 <= lsb && 1 <= width && lsb + width <= if wide then 64 else 32
  {
  }

  /** Which error is reported, of several the first. */
  lemma RefusedExactly(xd: Register, xn: Register, lsb: int, width: int)
    ensures
      var (wide, other) := (xd.prefix == 'x' || xd.prefix == 'X', xn.prefix == 'x' || xn.prefix == 'X');
      var size := if wide then 64 else 32;
      var bad := Checked(xd, xn, lsb, width);
      && (bad == Some(MismatchedSizes) <==> wide != other)
      && (bad == Some(BadLsb) <==> wide == other && !(0 <= lsb < size))
      && (bad == Some(BadWidth) <==> wide == other && 0 <= lsb < size && !(1 <= width <= size))
      && (bad == Some(TooWide) <==> wide == other && 0 <= lsb < size && 1 <= width <= size < lsb + width)
  {
  }

  /** sf, N, immr, imms, Rn, Rd, patched in this order into the base word. */
  function BfmWord(is64: bool, immr: nat, imms: nat, rn: nat, rd: nat): (r: Bits)
    ensures |r| == WORD
  {
    var w0 := BaseWord();
    var w1 := if is64 then Patch(w0, 1, 31, 1) else w0;
    var w2 := Patch(w1, if is64 then 1 else 0, 22, 1);
    var w3 := Patch(w2, immr, 16, 6);
    var w4 := Patch(w3, imms, 10, 6);
    var w5 := Patch(w4, rn, 5, 5);
    Patch(w5, rd, 0, 5)
  }

  method EncodeBfm(is64: bool, immr: nat, imms: nat, rn: nat, rd: nat) returns (word: Bits)
    ensures word == BfmWord(is64, immr, imms, rn, rd)
  {
    hide Patch, BaseWord;
    var patcher := new BitPatcher(BaseWord());
    if is64 {
      PatchNumber(patcher, 1, 31, 1);
    }
    PatchNumber(patcher, if is64 then 1 else 0, 22, 1);
    PatchNumber(patcher, immr, 16, 6);
    PatchNumber(patcher, imms, 10, 6);
    PatchNumber(patcher, rn, 5, 5);
    PatchNumber(patcher, rd, 0, 5);
    word := patcher.data;
  }

  /** BFI Xd, Xn, #lsb, #width */
  method CreateBfi(xd: Register, xn: Register, lsb: int, width: int) returns (r: Result<Bits, EncodeError>)
    ensures
      var size := DataSize(Is64(xd));
      if Checked(xd, xn, lsb, width).Some? then r == Err(Checked(xd, xn, lsb, width).value)
      else r == Ok(BfmWord(Is64(xd), (size - lsb) % size, width - 1, xn.number, xd.number))
  {
    hide BfmWord;
    var bad := Checked(xd, xn, lsb, width);
    if bad.Some? {
      return Err(bad.value);
    }
    var size := DataSize(Is64(xd));
    var word := EncodeBfm(Is64(xd), (size - lsb) % size, width - 1, xn.number, xd.number);
    return Ok(word);
  }

  /** BFXIL Xd, Xn, #lsb, #width, as the encoder has it: the position goes into immr, width - 1 into imms. */
  method CreateBfxil(xd: Register, xn: Register, lsb: int, width: int) returns (r: Result<Bits, EncodeError>)
    ensures
      if Checked(xd, xn, lsb, width).Some? then r == Err(Checked(xd, xn, lsb, width).value)
      else r == Ok(BfmWord(Is64(xd), lsb, width - 1, xn.number, xd.number))
  {
    hide BfmWord;
    var bad := Checked(xd, xn, lsb, width);
    if bad.Some? {
      return Err(bad.value);
    }
    var word := EncodeBfm(Is64(xd), lsb, width - 1, xn.number, xd.number);
    return Ok(word);
  }

  // ----- decoding -----

  /** The fields of a BFM word; None for any other word, or for one the manual leaves undefined. */
  datatype Bfm = Bfm(is64: bool, immr: nat, imms: nat, rn: nat, rd: nat)

  function DecodeBfm(word: Bits): Option<Bfm>
    requires |word| == WORD
  {
    var is64 := word[31];
    var m := Bfm(is64, FieldValue(word, 16, 6), FieldValue(word, 10, 6), FieldValue(word, 5, 5), FieldValue(word, 0, 5));
    if FieldValue(word, 23, 8) != 0x66 || word[22] != is64 then None
    else if !is64 && (m.immr >= 32 || m.imms >= 32) then None
    else Some(m)
  }

  /** Bit by bit, the words that are BFM: the opcode, N like sf, and no sixth bit in the fields of a 32-bit one. */
  lemma DecodesExactly(word: Bits)
    requires |word| == WORD
    ensures
      DecodeBfm(word).Some? <==>
        && !word[23] && word[24] && word[25] && !word[26] && !word[27] && word[28] && word[29] && !word[30]
        && word[22] == word[31] && (word[31] || (!word[21] && !word[15]))
  {
    hide Value;
    assert Field(word, 23, 8) == [word[23], word[24], word[25], word[26], word[27], word[28], word[29], word[30]];
    EightBits(word[23], word[24], word[25], word[26], word[27], word[28], word[29], word[30]);
    assert Field(word, 16, 6) == [word[16], word[17], word[18], word[19], word[20], word[21]];
    assert Field(word, 10, 6) == [word[10], word[11], word[12], word[13], word[14], word[15]];
    SixBits(word[16], word[17], word[18], word[19], word[20], word[21]);
    SixBits(word[10], word[11], word[12], word[13], word[14], word[15]);
  }

  lemma SixBits(a: bool, b: bool, c: bool, d: bool, e: bool, f: bool)
    ensures Value([a, b, c, d, e, f]) < 32 <==> !f
  {
    EightBits(a, b, c, d, e, f, false, false);
    assert [a, b, c, d, e, f, false, false] == [a, b, c, d, e, f] + [false, false];
    TrailingZeros([a, b, c, d, e, f]);
  }

  lemma {:induction false} TrailingZeros(b: Bits)
    ensures Value(b + [false, false]) == Value(b)
    decreases |b|
  {
    if b == [] {
      assert [] + [false, false] == [false, false] && [false, false][1..] == [false] && [false][1..] == [];
      assert Value([false]) == 0;
    } else {
      TrailingZeros(b[1..]);
      assert (b + [false, false])[1..] == b[1..] + [false, false];
    }
  }

  lemma Powers()
    ensures Power2(0) == 1 && Power2(1) == 2 && Power2(5) == 32 && Power2(6) == 64
  {
    assert Power2(2) == 4 && Power2(3) == 8 && Power2(4) == 16;
  }

  lemma OneBit(word: Bits, start: nat)
    requires start < |word|
    ensures FieldValue(word, start, 1) == if word[start] then 1 else 0
  {
    var f := Field(word, start, 1);
    assert f == [word[start]] && f[1..] == [];
    assert Value([]) == 0;
  }

  lemma BaseFields()
    ensures FieldValue(BaseWord(), 23, 8) == 0x66 && FieldValue(BaseWord(), 31, 1) == 0
  {
    var f := Field(BaseWord(), 23, 8);
    assert f == [false, true, true, false, false, true, true, false];
    OneBit(BaseWord(), 31);
    EightBits(false, true, true, false, false, true, true, false);
  }

  lemma EightBits(a: bool, b: bool, c: bool, d: bool, e: bool, f: bool, g: bool, h: bool)
    ensures Value([a, b, c, d, e, f, g, h]) ==
      (if a then 1 else 0) + (if b then 2 else 0) + (if c then 4 else 0) + (if d then 8 else 0)
      + (if e then 16 else 0) + (if f then 32 else 0) + (if g then 64 else 0) + (if h then 128 else 0)
  {
    assert [a, b, c, d, e, f, g, h][1..] == [b, c, d, e, f, g, h] && [b, c, d, e, f, g, h][1..] == [c, d, e, f, g, h];
    assert [c, d, e, f, g, h][1..] == [d, e, f, g, h] && [d, e, f, g, h][1..] == [e, f, g, h];
    assert [e, f, g, h][1..] == [f, g, h] && [f, g, h][1..] == [g, h] && [g, h][1..] == [h] && [h][1..] == [];
    assert Value([h]) == if h then 1 else 0;
    assert Value([g, h]) == (if g then 1 else 0) + 2 * Value([h]);
    assert Value([f, g, h]) == (if f then 1 else 0) + 2 * Value([g, h]);
    assert Value([e, f, g, h]) == (if e then 1 else 0) + 2 * Value([f, g, h]);
    assert Value([d, e, f, g, h]) == (if d then 1 else 0) + 2 * Value([e, f, g, h]);
    assert Value([c, d, e, f, g, h]) == (if c then 1 else 0) + 2 * Value([d, e, f, g, h]);
    assert Value([b, c, d, e, f, g, h]) == (if b then 1 else 0) + 2 * Value([c, d, e, f, g, h]);
  }

  /** A field that later patches leave alone keeps the value it was given. */
  lemma FieldsOfWord(is64: bool, immr: nat, imms: nat, rn: nat, rd: nat)
    requires immr < 64 && imms < 64 && rn < 32 && rd < 32
    ensures
      var w := BfmWord(is64, immr, imms, rn, rd);
      && FieldValue(w, 16, 6) == immr && FieldValue(w, 10, 6) == imms
      && FieldValue(w, 5, 5) == rn && FieldValue(w, 0, 5) == rd
  {
    hide Patch, FieldValue, Power2;
    Powers();
    var w0 := BaseWord();
    var w1 := if is64 then Patch(w0, 1, 31, 1) else w0;
    var w2 := Patch(w1, if is64 then 1 else 0, 22, 1);
    var w3 := Patch(w2, immr, 16, 6);
    var w4 := Patch(w3, imms, 10, 6);
    var w5 := Patch(w4, rn, 5, 5);
    PatchValue(w2, immr, 16, 6);
    PatchApart(w3, imms, 10, 6, 16, 6);
    PatchApart(w4, rn, 5, 5, 16, 6);
    PatchApart(w5, rd, 0, 5, 16, 6);
    PatchValue(w3, imms, 10, 6);
    PatchApart(w4, rn, 5, 5, 10, 6);
    PatchApart(w5, rd, 0, 5, 10, 6);
    PatchValue(w4, rn, 5, 5);
    PatchApart(w5, rd, 0, 5, 5, 5);
    PatchValue(w5, rd, 0, 5);
  }

  lemma HeaderOfWord(is64: bool, immr: nat, imms: nat, rn: nat, rd: nat)
    ensures
      var w := BfmWord(is64, immr, imms, rn, rd);
      && FieldValue(w, 23, 8) == 0x66
      && FieldValue(w, 31, 1) == (if is64 then 1 else 0) && FieldValue(w, 22, 1) == (if is64 then 1 else 0)
  {
    hide Patch, FieldValue, Power2;
    Powers();
    BaseFields();
    var w0 := BaseWord();
    var w1 := if is64 then Patch(w0, 1, 31, 1) else w0;
    var n := if is64 then 1 else 0;
    var w2 := Patch(w1, n, 22, 1);
    var w3 := Patch(w2, immr, 16, 6);
    var w4 := Patch(w3, imms, 10, 6);
    var w5 := Patch(w4, rn, 5, 5);
    if is64 {
      PatchApart(w0, 1, 31, 1, 23, 8);
      PatchValue(w0, 1, 31, 1);
    }
    PatchApart(w1, n, 22, 1, 23, 8);
    PatchApart(w1, n, 22, 1, 31, 1);
    PatchValue(w1, n, 22, 1);
    LaterPatches(w2, immr, imms, rn, rd, 23, 8);
    LaterPatches(w2, immr, imms, rn, rd, 31, 1);
    LaterPatches(w2, immr, imms, rn, rd, 22, 1);
  }

  lemma LaterPatches(w2: Bits, immr: nat, imms: nat, rn: nat, rd: nat, start: nat, count: nat)
    requires |w2| == WORD && 22 <= start && start + count <= WORD
    ensures
      var w3 := Patch(w2, immr, 16, 6);
      var w4 := Patch(w3, imms, 10, 6);
      var w5 := Patch(w4, rn, 5, 5);
      FieldValue(Patch(w5, rd, 0, 5), start, count) == FieldValue(w2, start, count)
  {
    hide Patch, FieldValue;
    var w3 := Patch(w2, immr, 16, 6);
    var w4 := Patch(w3, imms, 10, 6);
    var w5 := Patch(w4, rn, 5, 5);
    PatchApart(w2, immr, 16, 6, start, count);
    PatchApart(w3, imms, 10, 6, start, count);
    PatchApart(w4, rn, 5, 5, start, count);
    PatchApart(w5, rd, 0, 5, start, count);
  }

  /** Decoding an encoded word gives back every field. */
  lemma DecodeOfEncode(is64: bool, immr: nat, imms: nat, rn: nat, rd: nat)
    requires immr < DataSize(is64) && imms < DataSize(is64) && rn < 32 && rd < 32
    ensures DecodeBfm(BfmWord(is64, immr, imms, rn, rd)) == Some(Bfm(is64, immr, imms, rn, rd))
  {
    hide FieldValue, BfmWord;
    var w := BfmWord(is64, immr, imms, rn, rd);
    FieldsOfWord(is64, immr, imms, rn, rd);
    HeaderOfWord(is64, immr, imms, rn, rd);
    OneBit(w, 31);
    OneBit(w, 22);
  }

  // ----- what BFM does -----

  /** A run of ones that is as long as the field, rotated into place, and the mask of the bits that may change at all. */
  function WMask(size: nat, immr: nat, imms: nat): (m: Bits)
    requires size > 0
    ensures |m| == size
  {
    RotateRight(Ones(imms + 1, size), immr)
  }

  function TMask(size: nat, immr: nat, imms: nat): (m: Bits)
    requires size > 0
    ensures |m| == size
  {
    Ones((imms - immr) % size + 1, size)
  }

  /** The operation of BFM on registers of one size. */
  function Execute(m: Bfm, dst: Bits, src: Bits): (r: Bits)
    requires |dst| == |src| == DataSize(m.is64)
    ensures |r| == |dst|
  {
    var size := DataSize(m.is64);
    var (wmask, tmask) := (WMask(size, m.immr, m.imms), TMask(size, m.immr, m.imms));
    var bot := Or(And(dst, Not(wmask)), And(RotateRight(src, m.immr), wmask));
    Or(And(dst, Not(tmask)), And(bot, tmask))
  }

  /** One bit of the result. */
  lemma ExecuteBit(m: Bfm, dst: Bits, src: Bits, i: nat)
    requires |dst| == |src| == DataSize(m.is64) && i < |dst|
    ensures
      var size := DataSize(m.is64);
      Execute(m, dst, src)[i] ==
      if i <= (m.imms - m.immr) % size && (i + m.immr) % size <= m.imms then src[(i + m.immr) % size] else dst[i]
  {
  }

  /** Inserting the low bits of src at a position of dst. */
  function Inserted(dst: Bits, src: Bits, lsb: nat, width: nat): Bits
    requires |dst| == |src| && lsb + width <= |dst|
  {
    dst[..lsb] + src[..width] + dst[lsb + width..]
  }

  /** The remainder of a number less than one register size away. */
  lemma ModNear(a: int, size: nat)
    requires (size == 32 || size == 64) && 0 - size <= a < 2 * size
    ensures a % size == if a < 0 then a + size else if a < size then a else a - size
  {
    if size == 32 {
      assert a % 32 == if a < 0 then a + 32 else if a < 32 then a else a - 32;
    } else {
      assert a % 64 == if a < 0 then a + 64 else if a < 64 then a else a - 64;
    }
  }

  /** BFI does what its name says: the low `width` bits of src go to position lsb, and every other bit of dst stays. */
  lemma BfiInserts(is64: bool, rn: nat, rd: nat, lsb: nat, width: nat, dst: Bits, src: Bits)
    requires rn < 32 && rd < 32 && 1 <= width && lsb < DataSize(is64) && lsb + width <= DataSize(is64)
    requires |dst| == |src| == DataSize(is64)
    ensures
      var size := DataSize(is64);
      var m := Bfm(is64, (size - lsb) % size, width - 1, rn, rd);
      && DecodeBfm(BfmWord(is64, (size - lsb) % size, width - 1, rn, rd)) == Some(m)
      && Execute(m, dst, src) == Inserted(dst, src, lsb, width)
  {
    hide BfmWord, DecodeBfm, Execute;
    var size := DataSize(is64);
    var immr := (size - lsb) % size;
    ModNear(size - lsb, size);
    DecodeOfEncode(is64, immr, width - 1, rn, rd);
    var m := Bfm(is64, immr, width - 1, rn, rd);
    var r := Execute(m, dst, src);
    var p := Inserted(dst, src, lsb, width);
    forall i | 0 <= i < size ensures r[i] == p[i] {
      ExecuteBit(m, dst, src, i);
      ModNear(i + immr, size);
      ModNear(width - 1 - immr, size);
    }
  }

  /** Extracting bits of src from position lsb into the low bits of dst. */
  function Extracted(dst: Bits, src: Bits, lsb: nat, width: nat): Bits
    requires |dst| == |src| && lsb + width <= |dst|
  {
    src[lsb..lsb + width] + dst[width..]
  }

  ghost predicate Extracts(is64: bool, lsb: nat, width: nat)
    requires lsb + width <= DataSize(is64) && width > 0
  {
    forall dst: Bits, src: Bits :: |dst| == |src| == DataSize(is64) ==>
      Execute(Bfm(is64, lsb, width - 1, 0, 0), dst, src) == Extracted(dst, src, lsb, width)
  }

  function OneHot(size: nat, k: nat): (b: Bits)
    ensures |b| == size && forall i :: 0 <= i < size ==> b[i] == (i == k)
  {
    seq(size, i => i == k)
  }

  /** The fields that BFXIL is given extract what they should exactly when the position is 0. */
  lemma BfxilOnlyAtZero(is64: bool, lsb: nat, width: nat)
    requires 1 <= width && lsb < DataSize(is64) && lsb + width <= DataSize(is64)
    ensures Extracts(is64, lsb, width) <==> lsb == 0
  {
    hide Execute;
    var size := DataSize(is64);
    var m := Bfm(is64, lsb, width - 1, 0, 0);
    if lsb == 0 {
      forall dst: Bits, src: Bits | |dst| == |src| == size ensures Execute(m, dst, src) == Extracted(dst, src, 0, width) {
        var r := Execute(m, dst, src);
        forall i | 0 <= i < size ensures r[i] == Extracted(dst, src, 0, width)[i] {
          ExecuteBit(m, dst, src, i);
          ModNear(i, size);
          ModNear(width - 1, size);
        }
      }
    } else {
      var dst := Ones(0, size);
      ModNear(width - 1 - lsb, size);
      if width - 1 >= lsb {
        var src := OneHot(size, lsb + width - 1);
        ExecuteBit(m, dst, src, width - 1);
        assert Extracted(dst, src, lsb, width)[width - 1];
      } else {
        var src := OneHot(size, lsb);
        ExecuteBit(m, dst, src, 0);
        ModNear(lsb, size);
        assert Extracted(dst, src, lsb, width)[0];
      }
    }
  }
}

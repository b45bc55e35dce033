/**
  What the linker patches into words that name an address, and what the machine then makes of them (section C6.2,
  B, BL, B.cond, ADRP, ADR, MOVZ and MOVK, of the Arm Architecture Reference Manual, DDI 0487).
 */
module Relocations {
  import opened Wrappers
  import opened Bitfields
  import opened Linking

  // ----- words and their fields -----

  function Put(word: nat, value: nat, start: nat, count: nat): nat
    requires Patchable(start, count)
  {
    Value(Patch(ToBits(word, WORD), value, start, count))
  }

  function Get(word: nat, start: nat, count: nat): nat
    requires start + count <= WORD
  {
    FieldValue(ToBits(word, WORD), start, count)
  }

  lemma {:induction false} BitsOfValue(b: Bits)
    ensures Value(b) < Power2(|b|) && ToBits(Value(b), |b|) == b
    decreases |b|
  {
    if b != [] {
      BitsOfValue(b[1..]);
      assert Value(b) / 2 == Value(b[1..]);
    }
  }

  lemma {:induction false} ValueLow(v: nat, n: nat)
    ensures Value(ToBits(v, n)) == v % Power2(n)
    decreases n
  {
    if n > 0 {
      ValueLow(v / 2, n - 1);
      var p := Power2(n - 1);
      assert ToBits(v, n)[1..] == ToBits(v / 2, n - 1);
      Halves(v, p);
    }
  }

  lemma Halves(v: nat, p: nat)
    requires p > 0
    ensures v % (2 * p) == v % 2 + 2 * (v / 2 % p)
  {
    var (h, q) := (v / 2, v / 2 / p);
    assert h == q * p + h % p;
    assert v == q * (2 * p) + (v % 2 + 2 * (h % p));
    Remainder(v, q, 2 * p, v % 2 + 2 * (h % p));
  }

  lemma Remainder(v: int, q: int, p: nat, r: nat)
    requires v == q * p + r && r < p
    ensures v % p == r && v / p == q
  {
    assert v == v / p * p + v % p;
    Between(v / p, q, p);
    Between(q, v / p, p);
  }

  lemma Between(a: int, b: int, p: nat)
    ensures a > b ==> a * p >= b * p + p
  {
    if a > b {
      assert (a - b - 1) * p >= 0;
    }
  }

  lemma {:induction false} BitsAbove(v: nat, k: nat, n: nat)
    requires k <= n
    ensures ToBits(v, n)[k..] == ToBits(v / Power2(k), n - k)
    decreases k
  {
    if k > 0 {
      BitsAbove(v / 2, k - 1, n - 1);
      assert ToBits(v, n)[k..] == ToBits(v / 2, n - 1)[k - 1..];
      QuotientTwice(v, Power2(k - 1));
    }
  }

  lemma QuotientTwice(v: nat, p: nat)
    requires p > 0
    ensures v / 2 / p == v / (2 * p)
  {
    Halves(v, p);
    var q := v / 2 / p;
    assert v / 2 == q * p + v / 2 % p;
    Remainder(v, q, 2 * p, v % 2 + 2 * (v / 2 % p));
  }

  /** A field of a word is found by division. */
  lemma GetQuotient(word: nat, start: nat, count: nat)
    requires start + count <= WORD
    ensures Get(word, start, count) == word / Power2(start) % Power2(count)
  {
    hide ToBits, Value, Power2;
    var b := ToBits(word, WORD);
    BitsAbove(word, start, WORD);
    assert Field(b, start, count) == b[start..][..count];
    LowBits(word / Power2(start), count, WORD - start);
    ValueLow(word / Power2(start), count);
  }

  /** A field that has been put can be got, and the fields apart from it are as before. */
  lemma PutGet(word: nat, value: nat, start: nat, count: nat)
    requires Patchable(start, count) && value < Power2(count)
    ensures Put(word, value, start, count) < Power2(WORD)
    ensures Get(Put(word, value, start, count), start, count) == value
    ensures forall start', count' :: 0 <= start' && 0 <= count' && start' + count' <= WORD && Apart(start, count, start', count') ==>
      Get(Put(word, value, start, count), start', count') == Get(word, start', count')
  {
    hide ToBits, Value, Patch, Power2, FieldValue;
    var b := ToBits(word, WORD);
    BitsOfValue(Patch(b, value, start, count));
    PatchValue(b, value, start, count);
    forall start', count' | 0 <= start' && 0 <= count' && start' + count' <= WORD && Apart(start, count, start', count')
      ensures Get(Put(word, value, start, count), start', count') == Get(word, start', count')
    {
      PatchApart(b, value, start, count, start', count');
    }
  }

  // ----- what is patched -----

  /** A quarter of a signed number, cut off toward zero. */
  function Quarter(n: int): (q: int)
    ensures -3 <= n - 4 * q <= 3 && (n - 4 * q > 0 ==> n > 0) && (n - 4 * q < 0 ==> n < 0)
  {
    if n >= 0 then n / 4 else -(-n / 4)
  }

  function Apply(kind: Relocation, word: nat, from: nat, to: nat): nat {
    match kind
    case PcRelative26 => Put(word, Quarter(to - from) % 0x400_0000, 0, 26)
    case PcRelative19 => Put(word, Quarter(to - from) % 0x8_0000, 5, 19)
    case Page21 =>
      var pages := (PageDown(to) - PageDown(from)) / PAGE % 0x20_0000;
      Put(Put(word, pages % 4, 29, 2), pages / 4, 5, 19)
    case Add12 => Put(word, to % 0x1000, 10, 12)
    case Add12Plus8 => Put(word, (to + 8) % 0x1000, 10, 12)
    case MovImmediate(shift) => Put(word, to / Power2(shift) % 0x1_0000, 5, 16)
    case _ => word
  }

  predicate IsPcRelative(kind: Relocation) {
    kind in {PcRelative19, PcRelative26, Page21, Add12, Add12Plus8}
  }

  /** The linker's helper for words that are relative to their own address. */
  method ApplyPcRelative(word: nat, from: nat, to: nat, kind: Relocation) returns (r: Option<nat>)
    ensures r == if IsPcRelative(kind) then Some(Apply(kind, word, from, to)) else None
  {
    hide Patch, ToBits, Value, Power2;
    var patcher := new BitPatcher(ToBits(word, WORD));
    var offset := to - from;
    match kind {
      case PcRelative26 =>
        PatchNumber(patcher, Quarter(offset) % 0x400_0000, 0, 26);
      case PcRelative19 =>
        PatchNumber(patcher, Quarter(offset) % 0x8_0000, 5, 19);
      case Page21 =>
        var pages := (PageDown(to) - PageDown(from)) / PAGE % 0x20_0000;
        PatchNumber(patcher, pages % 4, 29, 2);
        BitsOfValue(patcher.data);
        PatchNumber(patcher, pages / 4, 5, 19);
      case Add12 =>
        PatchNumber(patcher, to % 0x1000, 10, 12);
      case Add12Plus8 =>
        PatchNumber(patcher, (to + 8) % 0x1000, 10, 12);
      case _ =>
        return None;
    }
    return Some(Value(patcher.data));
  }

  /** The linker's helper for one part of an address that four moves load. */
  method ApplyMovzMovk(word: nat, to: nat, shift: nat) returns (r: Option<nat>)
    ensures r == if shift in {0, 16, 32, 48} then Some(Apply(MovImmediate(shift), word, 0, to)) else None
  {
    hide Patch, ToBits, Value, Power2;
    if shift !in {0, 16, 32, 48} {
      return None;
    }
    var patcher := new BitPatcher(ToBits(word, WORD));
    PatchNumber(patcher, to / Power2(shift) % 0x1_0000, 5, 16);
    return Some(Value(patcher.data));
  }

  // ----- what the machine makes of it -----

  function Signed(v: nat, range: nat): int {
    if v < range / 2 then v else v - range
  }

  /** Where B and BL go. */
  function Branch(word: nat, from: nat): int {
    from + 4 * Signed(Get(word, 0, 26), 0x400_0000)
  }

  /** Where B.cond goes. */
  function ConditionalBranch(word: nat, from: nat): int {
    from + 4 * Signed(Get(word, 5, 19), 0x8_0000)
  }

  function Pages(word: nat): int {
    Signed(Get(word, 5, 19) * 4 + Get(word, 29, 2), 0x20_0000)
  }

  /** What ADRP loads. */
  function PageAddress(word: nat, from: nat): int {
    PageDown(from) + PAGE * Pages(word)
  }

  /** What ADR loads: the same immediate counts bytes. */
  function ByteAddress(word: nat, from: nat): int {
    from + Pages(word)
  }

  function Immediate12(word: nat): nat {
    Get(word, 10, 12)
  }

  // ----- branches -----

  lemma Wrapped(n: int, range: nat)
    requires range > 0 && range % 2 == 0
    ensures Signed(n % range, range) == n <==> -(range / 2) <= n < range / 2
    ensures Signed(n % range, range) != n ==> Signed(n % range, range) - n >= range || n - Signed(n % range, range) >= range
  {
    var q := n / range;
    assert n == q * range + n % range;
    assert n - Signed(n % range, range) == q * range + if n % range < range / 2 then 0 else range;
    Between(q, 0, range);
    Between(0, q, range);
    Between(-1, q, range);
    Between(q, -1, range);
    if 0 <= n < range {
      Remainder(n, 0, range, n);
    } else if n < 0 <= n + range {
      Remainder(n, -1, range, n + range);
    }
  }

  lemma {:induction false} PowerSum(a: nat, b: nat)
    ensures Power2(a + b) == Power2(a) * Power2(b)
    decreases a
  {
    if a > 0 { PowerSum(a - 1, b); }
  }

  lemma Powers()
    ensures Power2(2) == 4 && Power2(12) == 0x1000 && Power2(16) == 0x1_0000 && Power2(19) == 0x8_0000 && Power2(26) == 0x400_0000
  {
    assert Power2(1) == 2 && Power2(2) == 4 && Power2(3) == 8 && Power2(4) == 16;
    PowerSum(4, 4);
    PowerSum(8, 4);
    PowerSum(8, 8);
    PowerSum(16, 3);
    PowerSum(8, 2);
    PowerSum(16, 10);
  }

  ghost predicate Within(from: nat, to: nat, reach: nat) {
    (to - from) % 4 == 0 && from <= to + reach && to < from + reach
  }

  /** B and BL reach exactly the words less than 128 MiB ahead or at most 128 MiB back; the opcode stays. */
  lemma BranchReaches(word: nat, from: nat, to: nat)
    ensures var w := Apply(PcRelative26, word, from, to); Branch(w, from) == to <==> Within(from, to, 0x800_0000)
    ensures Get(Apply(PcRelative26, word, from, to), 26, 6) == Get(word, 26, 6)
  {
    hide Put, Get;
    var n := Quarter(to - from);
    Powers();
    PutGet(word, n % 0x400_0000, 0, 26);
    Wrapped(n, 0x400_0000);
  }

  /** B.cond reaches exactly the words less than 1 MiB ahead or at most 1 MiB back; condition and opcode stay. */
  lemma ConditionalBranchReaches(word: nat, from: nat, to: nat)
    ensures var w := Apply(PcRelative19, word, from, to); ConditionalBranch(w, from) == to <==> Within(from, to, 0x10_0000)
    ensures
      var w := Apply(PcRelative19, word, from, to);
      Get(w, 0, 5) == Get(word, 0, 5) && Get(w, 24, 8) == Get(word, 24, 8)
  {
    hide Put, Get;
    var n := Quarter(to - from);
    Powers();
    PutGet(word, n % 0x8_0000, 5, 19);
    Wrapped(n, 0x8_0000);
  }

  // ----- addresses of data -----

  lemma FieldPair(v: nat)
    requires v < 0x20_0000
    ensures v / 4 < 0x8_0000 && v % 4 < 4 && v / 4 * 4 + v % 4 == v
  {
  }

  lemma PagesPatched(word: nat, from: nat, to: nat)
    ensures
      var (w, n) := (Apply(Page21, word, from, to), (PageDown(to) - PageDown(from)) / PAGE);
      && Pages(w) == Signed(n % 0x20_0000, 0x20_0000)
      && Get(w, 0, 5) == Get(word, 0, 5) && Get(w, 24, 5) == Get(word, 24, 5) && Get(w, 31, 1) == Get(word, 31, 1)
  {
    hide Put, Get, PageDown;
    var n := (PageDown(to) - PageDown(from)) / PAGE % 0x20_0000;
    Powers();
    FieldPair(n);
    PutGet(word, n % 4, 29, 2);
    PutGet(Put(word, n % 4, 29, 2), n / 4, 5, 19);
  }

  /** ADRP and ADD together load the target exactly if its page is less than 4 GiB ahead or at most 4 GiB back. */
  lemma PageReaches(adrp: nat, add: nat, from: nat, to: nat)
    ensures
      var (w, v) := (Apply(Page21, adrp, from, to), Apply(Add12, add, from + 4, to));
      PageAddress(w, from) + Immediate12(v) == to <==> -0x1_0000_0000 <= PageDown(to) - PageDown(from) < 0x1_0000_0000
  {
    hide Put, Get, Apply, Pages;
    PagesPatched(adrp, from, to);
    LowPatched(add, from + 4, to);
    Wrapped((PageDown(to) - PageDown(from)) / PAGE, 0x20_0000);
    PageParts(from, to);
  }

  lemma LowPatched(word: nat, from: nat, to: nat)
    ensures Immediate12(Apply(Add12, word, from, to)) == to % 0x1000
    ensures Immediate12(Apply(Add12Plus8, word, from, to)) == (to + 8) % 0x1000
  {
    hide Put, Get;
    Powers();
    PutGet(word, to % 0x1000, 10, 12);
    PutGet(word, (to + 8) % 0x1000, 10, 12);
  }

  lemma PageParts(from: nat, to: nat)
    ensures (PageDown(to) - PageDown(from)) / PAGE * PAGE == PageDown(to) - PageDown(from)
    ensures to == PageDown(to) + to % 0x1000
  {
  }

  /** With the immediate for eight bytes behind the target, the pair loads that address unless the page ends before it. */
  lemma PagePlusEight(adrp: nat, add: nat, from: nat, to: nat)
    ensures
      var (w, v) := (Apply(Page21, adrp, from, to), Apply(Add12Plus8, add, from + 4, to));
      PageAddress(w, from) + Immediate12(v) == to + 8 <==>
        to % 0x1000 < 0xFF8 && -0x1_0000_0000 <= PageDown(to) - PageDown(from) < 0x1_0000_0000
  {
    hide Put, Get, Apply, Pages;
    PagesPatched(adrp, from, to);
    LowPatched(add, from + 4, to);
    Wrapped((PageDown(to) - PageDown(from)) / PAGE, 0x20_0000);
    PageParts(from, to);
  }

  /** ADR is patched like ADRP, with the distance in pages: of word-aligned targets it reaches its own address alone. */
  lemma ByteReaches(adr: nat, from: nat, to: nat)
    requires from % 4 == 0 && to % 4 == 0
    ensures ByteAddress(Apply(Page21, adr, from, to), from) == to <==> to == from
  {
    hide Put, Get, Apply, Pages;
    PagesPatched(adr, from, to);
    var n := (PageDown(to) - PageDown(from)) / PAGE;
    Wrapped(n, 0x20_0000);
    PageParts(from, to);
    PageParts(to, from);
    assert to - from == n * PAGE + (to % 0x1000 - from % 0x1000);
  }
}

/** Words as sequences of bits, lowest bit first, and the patcher that builds machine words field by field. */
module Bitfields {
  import opened Wrappers

  type Bits = seq<bool>

  // ----- numbers and bits -----

  function Power2(n: nat): (p: nat)
    ensures p > 0
  {
    if n == 0 then 1 else 2 * Power2(n - 1)
  }

  /** The low n bits of a number. */
  function ToBits(v: nat, n: nat): (b: Bits)
    ensures |b| == n
    decreases n
  {
    if n == 0 then [] else [v % 2 == 1] + ToBits(v / 2, n - 1)
  }

  function Value(b: Bits): nat {
    if b == [] then 0 else (if b[0] then 1 else 0) + 2 * Value(b[1..])
  }

  lemma {:induction false} ValueOfBits(v: nat, n: nat)
    requires v < Power2(n)
    ensures Value(ToBits(v, n)) == v
    decreases n
  {
    if n > 0 {
      ValueOfBits(v / 2, n - 1);
      assert ToBits(v, n)[1..] == ToBits(v / 2, n - 1);
    }
  }

  /** The low m of the low n bits are the low m bits. */
  lemma {:induction false} LowBits(v: nat, m: nat, n: nat)
    requires m <= n
    ensures ToBits(v, n)[..m] == ToBits(v, m)
    decreases m
  {
    if m > 0 {
      LowBits(v / 2, m - 1, n - 1);
      assert ToBits(v, n)[..m] == [v % 2 == 1] + ToBits(v / 2, n - 1)[..m - 1];
    }
  }

  // ----- operations of the machine -----

  function Ones(n: nat, size: nat): (b: Bits)
    ensures |b| == size && forall i :: 0 <= i < size ==> b[i] == (i < n)
  {
    seq(size, i => i < n)
  }

  function ShiftLeft(b: Bits, k: nat): (r: Bits)
    ensures |r| == |b| && forall i :: 0 <= i < |b| ==> r[i] == (i >= k && b[i - k])
  {
    seq(|b|, i requires 0 <= i < |b| => i >= k && b[i - k])
  }

  function RotateRight(b: Bits, k: nat): (r: Bits)
    requires b != []
    ensures |r| == |b| && forall i :: 0 <= i < |b| ==> r[i] == b[(i + k) % |b|]
  {
    seq(|b|, i requires 0 <= i < |b| => b[(i + k) % |b|])
  }

  function And(a: Bits, b: Bits): (r: Bits)
    requires |a| == |b|
    ensures |r| == |a| && forall i :: 0 <= i < |a| ==> r[i] == (a[i] && b[i])
  {
    seq(|a|, i requires 0 <= i < |a| => a[i] && b[i])
  }

  function Or(a: Bits, b: Bits): (r: Bits)
    requires |a| == |b|
    ensures |r| == |a| && forall i :: 0 <= i < |a| ==> r[i] == (a[i] || b[i])
  {
    seq(|a|, i requires 0 <= i < |a| => a[i] || b[i])
  }

  function Not(a: Bits): (r: Bits)
    ensures |r| == |a| && forall i :: 0 <= i < |a| ==> r[i] == !a[i]
  {
    seq(|a|, i requires 0 <= i < |a| => !a[i])
  }

  // ----- patching -----

  const WORD: nat := 32

  predicate Patchable(start: int, count: int) {
    0 < count <= WORD && 0 <= start < WORD && start + count <= WORD
  }

  /** What is accepted are the fields of at least one bit that lie within a word. */
  lemma PatchableExactly(start: int, count: int)
    ensures Patchable(start, count) <==> 1 <= count && 0 <= start && start + count <= 32
  {
  }

  /** A word with one field replaced by the low bits of a value. */
  function Patched(word: Bits, value: Bits, start: nat, count: nat): (r: Bits)
    requires |word| == |value| == WORD && Patchable(start, count)
    ensures |r| == WORD
  {
    word[..start] + value[..count] + word[start + count..]
  }

  function Field(word: Bits, start: nat, count: nat): Bits
    requires start + count <= |word|
  {
    word[start..start + count]
  }

  /** Patching writes its field and nothing else. */
  lemma PatchedField(word: Bits, value: Bits, start: nat, count: nat)
    requires |word| == |value| == WORD && Patchable(start, count)
    ensures Field(Patched(word, value, start, count), start, count) == value[..count]
    ensures forall i :: 0 <= i < WORD && !(start <= i < start + count) ==> Patched(word, value, start, count)[i] == word[i]
  {
  }

  predicate Apart(start: nat, count: nat, start': nat, count': nat) {
    start + count <= start' || start' + count' <= start
  }

  /** A field apart from the patch is not changed by it. */
  lemma PatchedElsewhere(word: Bits, value: Bits, start: nat, count: nat, start': nat, count': nat)
    requires |word| == |value| == WORD && Patchable(start, count) && start' + count' <= WORD && Apart(start, count, start', count')
    ensures Field(Patched(word, value, start, count), start', count') == Field(word, start', count')
  {
  }

  /** Patches of fields that lie apart can be made in either order. */
  lemma PatchesCommute(word: Bits, value: Bits, start: nat, count: nat, value': Bits, start': nat, count': nat)
    requires |word| == |value| == |value'| == WORD && Patchable(start, count) && Patchable(start', count')
    requires Apart(start, count, start', count')
    ensures Patched(Patched(word, value, start, count), value', start', count') == Patched(Patched(word, value', start', count'), value, start, count)
  {
    var a := Patched(Patched(word, value, start, count), value', start', count');
    var b := Patched(Patched(word, value', start', count'), value, start, count);
    forall i | 0 <= i < WORD ensures a[i] == b[i] {
    }
  }

  /** A field of a word set to the low bits of a number. */
  function Patch(word: Bits, value: nat, start: nat, count: nat): (r: Bits)
    requires |word| == WORD && Patchable(start, count)
    ensures |r| == WORD
  {
    Patched(word, ToBits(value, WORD), start, count)
  }

  /** A field of a word as a number. */
  function FieldValue(word: Bits, start: nat, count: nat): nat
    requires start + count <= |word|
  {
    Value(Field(word, start, count))
  }

  lemma PatchValue(word: Bits, value: nat, start: nat, count: nat)
    requires |word| == WORD && Patchable(start, count) && value < Power2(count)
    ensures FieldValue(Patch(word, value, start, count), start, count) == value
  {
    PatchedField(word, ToBits(value, WORD), start, count);
    LowBits(value, count, WORD);
    ValueOfBits(value, count);
  }

  lemma PatchApart(word: Bits, value: nat, start: nat, count: nat, start': nat, count': nat)
    requires |word| == WORD && Patchable(start, count) && start' + count' <= WORD && Apart(start, count, start', count')
    ensures FieldValue(Patch(word, value, start, count), start', count') == FieldValue(word, start', count')
  {
    PatchedElsewhere(word, ToBits(value, WORD), start, count, start', count');
  }

  datatype PatchError = BadCount | BadStart | BadEnd

  class BitPatcher {
    var data: Bits

    constructor (initial: Bits)
      ensures data == initial
    {
      data := initial;
    }

    /** A mask of ones, moved to the field; the field is cleared, and the moved and masked value put in. */
    method Patch(value: Bits, start: int, count: int) returns (error: Option<PatchError>)
      requires |data| == |value| == WORD
      modifies this
      ensures error.None? <==> Patchable(start, count)
      ensures error == Some(BadCount) <==> count < 1 || count > 32
      ensures error == Some(BadStart) <==> 1 <= count <= 32 && (start < 0 || start > 31)
      ensures data == if Patchable(start, count) then Patched(old(data), value, start, count) else old(data)
    {
      if count <= 0 || count > WORD {
        return Some(BadCount);
      }
      if start < 0 || start > 31 {
        return Some(BadStart);
      }
      if start + count > WORD {
        return Some(BadEnd);
      }
      var mask := ShiftLeft(Ones(count, WORD), start);
      data := And(data, Not(mask));
      var shifted := And(ShiftLeft(value, start), mask);
      data := Or(data, shifted);
      MaskedIsPatched(old(data), value, start, count, data);
      return None;
    }
  }

  method PatchNumber(patcher: BitPatcher, value: nat, start: nat, count: nat)
    requires |patcher.data| == WORD && Patchable(start, count)
    modifies patcher
    ensures patcher.data == Patch(old(patcher.data), value, start, count)
  {
    var error := patcher.Patch(ToBits(value, WORD), start, count);
  }

  lemma MaskedIsPatched(word: Bits, value: Bits, start: nat, count: nat, r: Bits)
    requires |word| == |value| == WORD && Patchable(start, count)
    requires var mask := ShiftLeft(Ones(count, WORD), start); r == Or(And(word, Not(mask)), And(ShiftLeft(value, start), mask))
    ensures r == Patched(word, value, start, count)
  {
    var p := Patched(word, value, start, count);
    forall i | 0 <= i < WORD ensures r[i] == p[i] {
    }
  }
}

/**
 LEB128 integers as both replay readers decode them (app/calculators/replay_cursor.py, _read_uleb, and
 tools/parse_osr.py, read_uleb128); DWARF 5, section 7.6.
 */
module Leb128 {
  import opened Common

  type byte = b: int | 0 <= b < 256

  /** A decoded value and the index of the byte after it. */
  datatype Decoded = Decoded(value: nat, next: nat)

  // ----- Bits.

  function Pow2(s: nat): (p: nat)
    ensures p > 0
  {
    if s == 0 then 1 else 2 * Pow2(s - 1)
  }

  /** Bitwise or. */
  function Or(a: nat, b: nat): nat {
    if a == 0 then b else if b == 0 then a
    else 2 * Or(a / 2, b / 2) + (if a % 2 + b % 2 > 0 then 1 else 0)
  }

  function ShiftLeft(x: nat, s: nat): nat {
    if s == 0 then x else 2 * ShiftLeft(x, s - 1)
  }

  /** Or-ing in bits above all those present adds them. */
  lemma {:induction false} OrAbove(a: nat, x: nat, s: nat)
    requires a < Pow2(s)
    ensures Or(a, ShiftLeft(x, s)) == a + ShiftLeft(x, s)
  {
    if s > 0 {
      OrAbove(a / 2, x, s - 1);
      assert ShiftLeft(x, s) / 2 == ShiftLeft(x, s - 1);
    }
  }

  lemma {:induction false} ShiftedSum(x: nat, y: nat, s: nat)
    ensures ShiftLeft(x + y, s) == ShiftLeft(x, s) + ShiftLeft(y, s)
  {
    if s > 0 {
      ShiftedSum(x, y, s - 1);
    }
  }

  lemma {:induction false} ShiftedBound(x: nat, s: nat)
    requires x < 128
    ensures ShiftLeft(x, s) + Pow2(s) <= 128 * Pow2(s)
  {
    if s > 0 {
      ShiftedBound(x, s - 1);
    }
  }

  lemma {:induction false} ShiftSeven(x: nat, s: nat)
    ensures ShiftLeft(128 * x, s) == ShiftLeft(x, s + 7)
    ensures Pow2(s + 7) == 128 * Pow2(s)
  {
    if s > 0 {
      ShiftSeven(x, s - 1);
    } else {
      assert ShiftLeft(x, 1) == 2 * x && ShiftLeft(x, 2) == 4 * x && ShiftLeft(x, 3) == 8 * x;
      assert ShiftLeft(x, 4) == 16 * x && ShiftLeft(x, 5) == 32 * x && ShiftLeft(x, 6) == 64 * x;
      assert Pow2(1) == 2 && Pow2(2) == 4 && Pow2(3) == 8 && Pow2(4) == 16 && Pow2(5) == 32 && Pow2(6) == 64;
    }
  }

  // ----- Decoding.

  /** The number at index i, seven bits a byte, least significant first; None when the bytes run out. */
  function Uleb(b: seq<byte>, i: nat): Option<Decoded>
    decreases |b| - i
  {
    if i >= |b| then None
    else if b[i] < 128 then Some(Decoded(b[i], i + 1))
    else
      match Uleb(b, i + 1)
      case None => None
      case Some(rest) => Some(Decoded(b[i] - 128 + 128 * rest.value, rest.next))
  }

  /** The number when its low bits have been read already. */
  function OnTop(result: nat, shift: nat, rest: Option<Decoded>): Option<Decoded> {
    match rest
    case None => None
    case Some(d) => Some(Decoded(result + ShiftLeft(d.value, shift), d.next))
  }

  lemma UlebStep(b: seq<byte>, i: nat, result: nat, shift: nat)
    requires i < |b| && result < Pow2(shift)
    ensures
      var more := Or(result, ShiftLeft(b[i] % 128, shift));
      && (b[i] < 128 ==> OnTop(result, shift, Uleb(b, i)) == Some(Decoded(more, i + 1)))
      && (b[i] >= 128 ==>
            more < Pow2(shift + 7) && OnTop(result, shift, Uleb(b, i)) == OnTop(more, shift + 7, Uleb(b, i + 1)))
  {
    var low := b[i] % 128;
    OrAbove(result, low, shift);
    ShiftedBound(low, shift);
    if b[i] >= 128 && Uleb(b, i + 1).Some? {
      var v := Uleb(b, i + 1).value.value;
      ShiftedSum(low, 128 * v, shift);
      ShiftSeven(v, shift);
    }
    ShiftSeven(0, shift);
  }

  /** The loop of the buffer reader; an index error is None. */
  method ReadUleb(b: seq<byte>, start: nat) returns (r: Option<Decoded>)
    ensures r == Uleb(b, start)
  {
    var i: nat, result: nat, shift: nat := start, 0, 0;
    NothingRead(Uleb(b, start));
    while true
      invariant result < Pow2(shift)
      invariant OnTop(result, shift, Uleb(b, i)) == Uleb(b, start)
      decreases |b| - i
    {
      if i >= |b| {
        return None;
      }
      var x := b[i];
      UlebStep(b, i, result, shift);
      i := i + 1;
      result := Or(result, ShiftLeft(x % 128, shift));
      if x < 128 {
        return Some(Decoded(result, i));
      }
      shift := shift + 7;
    }
  }

  lemma NothingRead(rest: Option<Decoded>)
    ensures OnTop(0, 0, rest) == rest
  {
  }

  // ----- Encoding.

  function Encode(n: nat): (e: seq<byte>)
    ensures e != []
  {
    if n < 128 then [n] else [n % 128 + 128] + Encode(n / 128)
  }

  /** Whatever stands before and behind it, an encoded number is read back and exactly its bytes are used. */
  lemma {:induction false} RoundTrip(before: seq<byte>, n: nat, behind: seq<byte>)
    ensures Uleb(before + Encode(n) + behind, |before|) == Some(Decoded(n, |before| + |Encode(n)|))
    decreases n
  {
    var b := before + Encode(n) + behind;
    assert b[|before|] == Encode(n)[0];
    if n >= 128 {
      var head := n % 128 + 128;
      RoundTrip(before + [head], n / 128, behind);
      assert b == (before + [head]) + Encode(n / 128) + behind;
    }
  }

  lemma {:induction false} UlebBounds(b: seq<byte>, i: nat)
    requires Uleb(b, i).Some?
    ensures i < Uleb(b, i).value.next <= |b|
    decreases |b| - i
  {
    if b[i] >= 128 {
      UlebBounds(b, i + 1);
    }
  }

  /** The bytes read are the encoding exactly if they do not end in a needless zero byte. */
  lemma {:induction false} CanonicalExactly(b: seq<byte>, i: nat)
    requires Uleb(b, i).Some?
    ensures
      var d := Uleb(b, i).value;
      i < d.next <= |b| && (b[i..d.next] == Encode(d.value) <==> d.next == i + 1 || b[d.next - 1] != 0)
    decreases |b| - i
  {
    UlebBounds(b, i);
    var d := Uleb(b, i).value;
    if b[i] >= 128 {
      CanonicalExactly(b, i + 1);
      UlebBounds(b, i + 1);
      var rest := Uleb(b, i + 1).value;
      assert b[i..d.next] == [b[i]] + b[i + 1..d.next];
      assert d.value % 128 + 128 == b[i] && d.value / 128 == rest.value;
      if rest.value == 0 {
        ZeroEncoding(b, i + 1);
      } else {
        assert d.value >= 128;
        assert Encode(d.value) == [b[i]] + Encode(rest.value);
        assert b[i..d.next][1..] == b[i + 1..d.next] && Encode(d.value)[1..] == Encode(rest.value);
        NonZeroEnd(b, i + 1);
      }
    }
  }

  /** Zero ends in a zero byte. */
  lemma {:induction false} ZeroEncoding(b: seq<byte>, i: nat)
    requires Uleb(b, i).Some? && Uleb(b, i).value.value == 0
    ensures i < Uleb(b, i).value.next <= |b| && b[Uleb(b, i).value.next - 1] == 0
    decreases |b| - i
  {
    UlebBounds(b, i);
    if b[i] >= 128 {
      ZeroEncoding(b, i + 1);
    }
  }

  /** A single byte that stands for more than zero is not a zero byte. */
  lemma NonZeroEnd(b: seq<byte>, i: nat)
    requires Uleb(b, i).Some? && Uleb(b, i).value.value > 0
    ensures Uleb(b, i).value.next == i + 1 ==> b[i] != 0
  {
  }

  /** No byte string that stands for a number is shorter than its encoding. */
  lemma {:induction false} EncodingIsShortest(b: seq<byte>, i: nat)
    requires Uleb(b, i).Some?
    ensures i + |Encode(Uleb(b, i).value.value)| <= Uleb(b, i).value.next
    decreases |b| - i
  {
    if b[i] >= 128 {
      EncodingIsShortest(b, i + 1);
      var v := Uleb(b, i).value.value;
      assert v / 128 == Uleb(b, i + 1).value.value;
    }
  }

  /** Seven bits a byte, the lowest first; the highest bit says that more follow. */
  lemma ThreeBytes(x: byte, y: byte, z: byte)
    requires x >= 128 && y >= 128 && z < 128
    ensures Uleb([x, y, z], 0) == Some(Decoded((x - 128) as int + 128 * (y - 128) as int + 16384 * z as int, 3))
    ensures Uleb([0xe5, 0x8e, 0x26], 0) == Some(Decoded(624485, 3))
  {
    var b := [x, y, z];
    assert Uleb(b, 2) == Some(Decoded(z, 3));
    assert Uleb(b, 1) == Some(Decoded((y - 128) as int + 128 * z as int, 3));
    var c: seq<byte> := [0xe5, 0x8e, 0x26];
    assert Uleb(c, 2) == Some(Decoded(0x26, 3));
    assert Uleb(c, 1) == Some(Decoded(0x0e + 128 * 0x26, 3));
  }
}

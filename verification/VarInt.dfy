/** The variable-length integers of common/varint.go: base 128, most significant group first, the
    top bit of a byte saying that more follow. */
module VarInt {
  import opened Basics
  import Arith

  const TWO_56: int := 0x100_0000_0000_0000

  function Pow128(k: nat): (p: nat)
    ensures p > 0
  {
    if k == 0 then 1 else 128 * Pow128(k - 1)
  }

  /** The continuation bytes for the groups of n; none for 0. */
  function Groups(n: nat): Bytes {
    if n == 0 then [] else Groups(n / 128) + [128 + n % 128]
  }

  /** What the encoder writes, as a mathematical definition. */
  function Encoded(v: nat): Bytes {
    Groups(v / 128) + [v % 128]
  }

  /** One step of the decoder: shift the accumulator and add the low seven bits. */
  function Push(acc: u64, b: byte): u64 {
    (acc * 128) % TWO_64 + b % 128
  }

  lemma PushSmall(n: nat, b: byte)
    requires n < 0x200_0000_0000_0000 && b % 128 == n % 128
    ensures n / 128 < TWO_64 && Push(n / 128, b) == n
  {
    assert (n / 128) * 128 == n - n % 128;
    assert (n - n % 128) % TWO_64 == n - n % 128;
  }

  /** The decoder's loop from accumulator acc: the value and the number of bytes read. */
  function DecodeFrom(acc: u64, data: Bytes): (r: (u64, nat))
    ensures r.1 <= |data|
    ensures data != [] ==> 0 < r.1
    decreases |data|
  {
    if data == [] then (acc, 0)
    else
      var acc' := Push(acc, data[0]);
      if data[0] < 128 then (acc', 1)
      else
        var (v, n) := DecodeFrom(acc', data[1..]);
        (v, n + 1)
  }

  /** An empty buffer makes the Go code slice past its end. */
  function Decoded(data: Bytes): Result<(u64, Bytes)> {
    if data == [] then Err(Panic)
    else
      var (v, n) := DecodeFrom(0, data);
      Ok((v, data[n..]))
  }

  // ---------------------------------------------------------------- the loops

  /** common/varint.go:13-29 */
  method DecodeVarInt(data: Bytes) returns (v: u64, rest: Bytes)
    requires data != []
    ensures Decoded(data) == Ok((v, rest))
  {
    v := 0;
    var cnt := 0;
    while true
      invariant cnt < |data|
      invariant DecodeFrom(0, data) == var (x, n) := DecodeFrom(v, data[cnt..]); (x, n + cnt)
      decreases |data| - cnt
    {
      var b := data[cnt];
      ghost var tail := data[cnt..];
      assert tail[1..] == data[cnt + 1..];
      v := Push(v, b);
      if b < 128 || cnt == |data| - 1 {
        break;
      }
      cnt := cnt + 1;
    }
    rest := data[cnt + 1..];
  }

  /** h >> 56 of the running shift register is the top byte that remains after i groups. */
  lemma TopByte(v: u64, a: nat, c: nat)
    requires 0 < c && a * c == TWO_56
    ensures ((v * a) % TWO_64) / TWO_56 == (v / c) % 256
  {
    var q, r := v / c, v % c;
    var k, q0 := q / 256, q % 256;
    assert v * a == TWO_56 * q + r * a by {
      assert v == c * q + r;
      Arith.Distribute(a, c * q, r);
      Arith.Reassociate(a, c, q);
      Arith.Reassociate(a, c * q + r, 1);
      Arith.Reassociate(a, r, 1);
    }
    assert 0 <= r * a < TWO_56 by {
      Arith.MulNonNegative(r, a);
      Arith.MulNonNegative(c - r - 1, a);
      Arith.Distribute(a, c - r, 1);
      Arith.Distribute(a, c, r);
      Arith.Reassociate(a, c - r - 1, 1);
      Arith.Reassociate(a, r, 1);
      Arith.Reassociate(a, c, 1);
      assert a > 0;
    }
    var low := TWO_56 * q0 + r * a;
    assert v * a == TWO_64 * k + low;
    Arith.DivModUnique(v * a, TWO_64, k, low);
    Arith.DivModUnique(low, TWO_56, q0, r * a);
  }

  lemma {:induction false} Pow128Product(i: nat, j: nat)
    ensures Pow128(i) * Pow128(j) == Pow128(i + j)
  {
    if i > 0 {
      Pow128Product(i - 1, j);
      assert Pow128(i) * Pow128(j) == 128 * (Pow128(i - 1) * Pow128(j));
    }
  }

  lemma Pow128Values()
    ensures Pow128(1) == 128
    ensures Pow128(8) == 0x100_0000_0000_0000
    ensures Pow128(9) == 0x8000_0000_0000_0000
    ensures Pow128(10) == 128 * 0x8000_0000_0000_0000
  {
    assert Pow128(2) == 128 * Pow128(1);
    assert Pow128(3) == 128 * Pow128(2);
    assert Pow128(4) == 128 * Pow128(3);
    assert Pow128(5) == 128 * Pow128(4);
    assert Pow128(6) == 128 * Pow128(5);
    assert Pow128(7) == 128 * Pow128(6);
    assert Pow128(8) == 128 * Pow128(7);
    assert Pow128(9) == 128 * Pow128(8);
  }

  /** The shift register after i rounds. */
  function Shifted(v: u64, i: nat): u64 {
    if i == 0 then v else (Shifted(v, i - 1) * 128) % TWO_64
  }

  /** v without its k lowest groups. */
  function Above(v: nat, k: nat): nat {
    if k == 0 then v else Above(v, k - 1) / 128
  }

  lemma {:induction false} ShiftedValue(v: u64, i: nat)
    ensures Shifted(v, i) == (v * Pow128(i)) % TWO_64
  {
    if i > 0 {
      ShiftedValue(v, i - 1);
      Arith.ModMul(v * Pow128(i - 1), 128, TWO_64);
      Arith.Reassociate(v, Pow128(i - 1), 128);
    }
  }

  lemma {:induction false} AboveValue(v: nat, k: nat)
    ensures Above(v, k) == v / Pow128(k)
  {
    if k > 0 {
      AboveValue(v, k - 1);
      Arith.DivDiv(v, Pow128(k - 1), 128);
    }
  }

  /** The byte the encoder takes in round i. */
  lemma GroupAt(v: u64, i: nat)
    requires i < 9
    ensures Shifted(v, i) / TWO_56 == Above(v, 8 - i) % 256
  {
    Pow128Values();
    Pow128Product(i, 8 - i);
    TopByte(v, Pow128(i), Pow128(8 - i));
    ShiftedValue(v, i);
    AboveValue(v, 8 - i);
  }

  lemma TopBit(v: u64)
    ensures Above(v, 9) == if v >= 0x8000_0000_0000_0000 then 1 else 0
    ensures Groups(Above(v, 9)) == if v >= 0x8000_0000_0000_0000 then [0x81] else []
  {
    Pow128Values();
    AboveValue(v, 9);
    assert Groups(1) == Groups(0) + [0x81];
  }

  /** What has been written before round i. */
  function Written(v: u64, i: nat): Bytes
    requires i <= 9
  {
    if i == 9 then Encoded(v)
    else if v == 0 then [0]
    else Groups(Above(v, 9 - i))
  }

  /** The one byte of round i, given the top byte b of the shift register. */
  function GroupByte(b: byte, i: nat): byte {
    if i != 8 then 128 + b % 128 else b % 128
  }

  lemma Round(v: u64, i: nat)
    requires i < 9
    ensures Above(v, 9 - i) == Above(v, 8 - i) / 128
    ensures Shifted(v, i) / TWO_56 != 0 || Above(v, 9 - i) != 0 <==> Above(v, 8 - i) != 0
    ensures Written(v, i + 1) == Written(v, i)
      + if Above(v, 8 - i) != 0 then [GroupByte(Shifted(v, i) / TWO_56, i)] else []
  {
    GroupAt(v, i);
    RoundBytes(v, i, Above(v, 8 - i), Shifted(v, i) / TWO_56);
  }

  lemma RoundBytes(v: u64, i: nat, n: nat, b: byte)
    requires i < 9 && n == Above(v, 8 - i) && b == n % 256
    ensures Written(v, i + 1) == Written(v, i) + if n != 0 then [GroupByte(b, i)] else []
  {
    assert Above(v, 9 - i) == n / 128;
    assert b % 128 == n % 128;
    if v == 0 {
      AboveValue(v, 8 - i);
      assert n == 0 && Written(v, i) == [0] && Written(v, i + 1) == [0];
    } else if i == 8 {
      assert n == v;
      assert Written(v, 8) == Groups(v / 128);
      assert Written(v, 9) == Groups(v / 128) + [v % 128];
    } else {
      assert Written(v, i) == Groups(n / 128);
      assert Written(v, i + 1) == Groups(n);
      if n == 0 {
        assert Groups(n / 128) == Groups(n);
      } else {
        assert Groups(n) == Groups(n / 128) + [128 + n % 128];
      }
    }
  }

  /** common/varint.go:32-59. The register h keeps one bit of the group just written above the
      seven it is about to write; setting or clearing the top bit hides it. */
  method EncodeVarInt(v: u64) returns (out: Bytes)
    ensures out == Encoded(v)
  {
    out := [];
    if v == 0 {
      out := out + [0];
    }
    var h: u64 := v;
    var start := false;
    if h >= 0x8000_0000_0000_0000 {
      out := out + [0x81];
      start := true;
    }
    TopBit(v);
    var i := 0;
    while i < 9
      invariant 0 <= i <= 9
      invariant h == Shifted(v, i)
      invariant i < 9 ==> (start <==> Above(v, 9 - i) != 0)
      invariant out == Written(v, i)
    {
      var b: byte := h / TWO_56;
      Round(v, i);
      if b != 0 || start {
        start := true;
        if i != 8 {
          b := 128 + b % 128;
        } else {
          b := b % 128;
        }
        out := out + [b];
      }
      h := (h * 128) % TWO_64;
      i := i + 1;
    }
  }

  /** common/varint.go:61-67 */
  method VarIntLength(v: u64) returns (n: nat)
    ensures 1 <= n && v < Pow128(n)
    ensures n == 1 || Pow128(n - 1) <= v
    ensures n <= 10
  {
    var buf := EncodeVarInt(v);
    n := |buf|;
    EncodedLength(v);
    if n > 10 {
      Pow128Values();
      Pow128Monotone(10, n - 1);
    }
  }

  // ---------------------------------------------------------------- what the pair promises

  lemma DecodeStep(n: nat, tail: Bytes)
    requires n < 0x200_0000_0000_0000
    ensures DecodeFrom(n / 128, [128 + n % 128] + tail)
         == (DecodeFrom(n, tail).0, DecodeFrom(n, tail).1 + 1)
  {
    var b: byte := 128 + n % 128;
    assert b % 128 == n % 128;
    PushSmall(n, b);
    var data := [b] + tail;
    assert data[0] == b && data[1..] == tail;
  }

  lemma {:induction false} DecodeGroups(n: nat, tail: Bytes)
    requires n < 0x200_0000_0000_0000
    ensures DecodeFrom(0, Groups(n) + tail)
         == (DecodeFrom(n, tail).0, DecodeFrom(n, tail).1 + |Groups(n)|)
    decreases n
  {
    if n == 0 {
      assert Groups(n) + tail == tail;
    } else {
      var tail' := [128 + n % 128] + tail;
      assert Groups(n) + tail == Groups(n / 128) + tail';
      DecodeGroups(n / 128, tail');
      DecodeStep(n, tail);
    }
  }

  lemma DecodeEncoded(v: u64, rest: Bytes)
    ensures DecodeFrom(0, Encoded(v) + rest) == (v, |Encoded(v)|)
  {
    var tail := [v % 128] + rest;
    assert Encoded(v) + rest == Groups(v / 128) + tail;
    DecodeGroups(v / 128, tail);
    PushLast(v);
    assert DecodeFrom(v / 128, tail) == (Push(v / 128, v % 128), 1);
  }

  lemma PushLast(v: u64)
    ensures Push(v / 128, v % 128) == v
  {
    assert (v / 128) * 128 == v - v % 128;
    assert (v - v % 128) % TWO_64 == v - v % 128;
  }

  /** Round trip, whatever follows the integer in the buffer. */
  lemma RoundTrip(v: u64, rest: Bytes)
    ensures Decoded(Encoded(v) + rest) == Ok((v, rest))
  {
    DecodeEncoded(v, rest);
    assert (Encoded(v) + rest)[|Encoded(v)|..] == rest;
  }

  lemma {:induction false} Pow128Monotone(i: nat, j: nat)
    requires i <= j
    ensures Pow128(i) <= Pow128(j)
    decreases j - i
  {
    if i < j {
      Pow128Monotone(i, j - 1);
    }
  }

  lemma {:induction false} GroupsLength(n: nat)
    ensures n < Pow128(|Groups(n)|)
    ensures n > 0 ==> |Groups(n)| > 0 && Pow128(|Groups(n)| - 1) <= n
  {
    if n > 0 {
      GroupsLength(n / 128);
      var k := |Groups(n / 128)|;
      assert Pow128(k + 1) == 128 * Pow128(k);
      if n / 128 > 0 {
        assert Pow128(k) == 128 * Pow128(k - 1);
      }
    }
  }

  /** The length is the least k >= 1 with v < 128^k, that is max(1, ceil(bits / 7)). */
  lemma EncodedLength(v: nat)
    ensures 1 <= |Encoded(v)| && v < Pow128(|Encoded(v)|)
    ensures |Encoded(v)| == 1 || Pow128(|Encoded(v)| - 1) <= v
  {
    GroupsLength(v / 128);
    var k := |Groups(v / 128)|;
    assert Pow128(k + 1) == 128 * Pow128(k);
    if k > 0 {
      assert Pow128(k) == 128 * Pow128(k - 1);
    }
  }

  lemma PushBound(acc: u64, b: byte, p: nat)
    requires acc < p
    ensures Push(acc, b) < 128 * p
  {
    var x := acc * 128;
    assert x % TWO_64 == x - TWO_64 * (x / TWO_64);
    assert x / TWO_64 >= 0;
  }

  lemma {:induction false} DecodedBound(acc: u64, data: Bytes, p: nat)
    requires acc < p
    ensures var (v, n) := DecodeFrom(acc, data); v < p * Pow128(n)
    decreases |data|
  {
    if data != [] {
      var acc' := Push(acc, data[0]);
      PushBound(acc, data[0], p);
      if data[0] < 128 {
        assert Pow128(1) == 128 * Pow128(0);
      } else {
        DecodedBound(acc', data[1..], 128 * p);
        var (v, n) := DecodeFrom(acc', data[1..]);
        assert (128 * p) * Pow128(n) == p * (128 * Pow128(n));
      }
    }
  }

  /** No byte string that decodes to v is shorter than the one the encoder writes. */
  lemma Shortest(v: u64, data: Bytes)
    requires data != [] && Decoded(data).Ok? && Decoded(data).value.0 == v
    ensures |Encoded(v)| <= |data|
  {
    var (x, n) := DecodeFrom(0, data);
    DecodedBound(0, data, 1);
    EncodedLength(v);
    if n < |Encoded(v)| {
      Pow128Monotone(n, |Encoded(v)| - 1);
    }
  }

  /** A buffer can be cut into integers in one way only. */
  lemma PrefixFree(v: u64, w: u64, rest: Bytes)
    requires Encoded(v) + rest == Encoded(w)
    ensures v == w && rest == []
  {
    RoundTrip(v, rest);
    RoundTrip(w, []);
    assert Encoded(w) + [] == Encoded(w);
  }
}

/** Shared vocabulary: fixed-width integers, byte strings, 32-byte digests, the foreign hash
    functions, big-endian numbers and the byte order that leveldb keys are sorted by. */
module Basics {

  type byte = x: int | 0 <= x < 0x100
  type u32 = x: int | 0 <= x < 0x1_0000_0000
  type u64 = x: int | 0 <= x < 0x1_0000_0000_0000_0000

  const TWO_31: int := 0x8000_0000
  const TWO_32: int := 0x1_0000_0000
  const TWO_64: int := 0x1_0000_0000_0000_0000

  type Bytes = seq<byte>

  function Zeros(n: nat): (z: Bytes)
    ensures |z| == n && forall i :: 0 <= i < n ==> z[i] == 0
  {
    seq(n, _ => 0)
  }

  type Digest = d: Bytes | |d| == 32 witness Zeros(32)

  type WideDigest = d: Bytes | |d| == 64 witness Zeros(64)

  const ZERO_HASH: Digest := Zeros(32)

  // The chains that the server keeps for itself (common/constants.go:71-86).
  const EC_CHAINID: Digest := Zeros(31) + [0x0c]
  const D_CHAINID: Digest := Zeros(31) + [0x0d]
  const ADMIN_CHAINID: Digest := Zeros(31) + [0x0a]
  const FACTOID_CHAINID: Digest := Zeros(31) + [0x0f]

  /** The chains that have one block in every directory block. */
  predicate OwnChain(cid: Digest) {
    cid == EC_CHAINID || cid == ADMIN_CHAINID || cid == FACTOID_CHAINID
  }

  lemma ChainIDsDiffer()
    ensures ADMIN_CHAINID != EC_CHAINID && EC_CHAINID != FACTOID_CHAINID && ADMIN_CHAINID != FACTOID_CHAINID
    ensures ZERO_HASH != ADMIN_CHAINID && ZERO_HASH != EC_CHAINID && ZERO_HASH != FACTOID_CHAINID
  {
    assert ADMIN_CHAINID[31] == 0x0a && EC_CHAINID[31] == 0x0c && FACTOID_CHAINID[31] == 0x0f && ZERO_HASH[31] == 0;
  }

  /** common/constants.go:26 */
  const MAX_PLIST_SIZE: int := 150000

  /** The hash functions are foreign code: every result below holds for all of them. */
  datatype Hashing = Hashing(sha256: Bytes -> Digest, sha512: Bytes -> WideDigest)

  /** Two different inputs with one SHA-256 image. */
  ghost predicate Collides(h: Hashing, x: Bytes, y: Bytes) {
    x != y && h.sha256(x) == h.sha256(y)
  }

  /** A collision between something in `xs` and something in `ys`: a concrete pair, because both
      sets hold only strings that were really hashed. */
  ghost predicate CollisionBetween(h: Hashing, xs: set<Bytes>, ys: set<Bytes>) {
    exists x, y :: x in xs && y in ys && Collides(h, x, y)
  }

  lemma CollisionGrows(h: Hashing, xs: set<Bytes>, ys: set<Bytes>, xs': set<Bytes>, ys': set<Bytes>)
    requires xs <= xs' && ys <= ys'
    requires CollisionBetween(h, xs, ys)
    ensures CollisionBetween(h, xs', ys')
  {
    var x, y :| x in xs && y in ys && Collides(h, x, y);
    assert x in xs' && y in ys';
  }

  datatype Option<+T> = None | Some(value: T)

  datatype Result<+T> = Ok(value: T) | Err(error: Error)

  /** `Panic` is a run-time panic that the Go code does not recover from. */
  datatype Error = EOF | BadData | Panic

  /** What a loop that has read `done` so far returns once the rest is read. */
  function Resume<T>(done: seq<T>, r: Result<(seq<T>, Bytes)>): Result<(seq<T>, Bytes)> {
    match r
    case Err(e) => Err(e)
    case Ok((xs, end)) => Ok((done + xs, end))
  }

  lemma ResumeNothing<T>(r: Result<(seq<T>, Bytes)>)
    ensures Resume([], r) == r
  {
    if r.Ok? {
      assert [] + r.value.0 == r.value.0;
    }
  }

  lemma ResumeOneMore<T>(done: seq<T>, x: T, r: Result<(seq<T>, Bytes)>)
    ensures Resume(done, Resume([x], r)) == Resume(done + [x], r)
  {
    if r.Ok? {
      assert done + ([x] + r.value.0) == done + [x] + r.value.0;
    }
  }

  // ---------------------------------------------------------------- big-endian numbers

  function Pow256(k: nat): (p: nat)
    ensures p > 0
  {
    if k == 0 then 1 else 256 * Pow256(k - 1)
  }

  /** The k low-order bytes of n, most significant first. */
  function BE(n: nat, k: nat): (b: Bytes)
    ensures |b| == k
    decreases k
  {
    if k == 0 then [] else BE(n / 256, k - 1) + [n % 256]
  }

  function BEValue(b: Bytes): nat {
    if b == [] then 0 else 256 * BEValue(b[..|b| - 1]) + b[|b| - 1]
  }

  lemma {:induction false} BERoundTrip(n: nat, k: nat)
    requires n < Pow256(k)
    ensures BEValue(BE(n, k)) == n
    decreases k
  {
    if k > 0 {
      var b := BE(n, k);
      assert b[..|b| - 1] == BE(n / 256, k - 1);
      BERoundTrip(n / 256, k - 1);
    }
  }

  lemma Pow256Values()
    ensures Pow256(1) == 0x100 && Pow256(2) == 0x1_0000
    ensures Pow256(4) == TWO_32 && Pow256(8) == TWO_64
  {
    assert Pow256(2) == 256 * Pow256(1);
    assert Pow256(3) == 256 * Pow256(2);
    assert Pow256(4) == 256 * Pow256(3);
    assert Pow256(5) == 256 * Pow256(4);
    assert Pow256(6) == 256 * Pow256(5);
    assert Pow256(7) == 256 * Pow256(6);
    assert Pow256(8) == 256 * Pow256(7);
  }

  function U16(n: nat): (b: Bytes) ensures |b| == 2 { BE(n, 2) }
  function U32(n: nat): (b: Bytes) ensures |b| == 4 { BE(n, 4) }
  function U64(n: nat): (b: Bytes) ensures |b| == 8 { BE(n, 8) }

  lemma U32RoundTrip(n: u32)
    ensures BEValue(U32(n)) == n
  {
    Pow256Values();
    BERoundTrip(n, 4);
  }

  lemma U64RoundTrip(n: u64)
    ensures BEValue(U64(n)) == n
  {
    Pow256Values();
    BERoundTrip(n, 8);
  }

  lemma {:induction false} BEValueBound(b: Bytes)
    ensures BEValue(b) < Pow256(|b|)
  {
    if b != [] {
      BEValueBound(b[..|b| - 1]);
    }
  }

  // ---------------------------------------------------------------- wrap-around

  /** Go's conversion to int32. */
  function ToInt32(x: int): (r: int)
    ensures -TWO_31 <= r < TWO_31
    ensures (x - r) % TWO_32 == 0
    ensures -TWO_31 <= x < TWO_31 ==> r == x
  {
    var m := x % TWO_32;
    if m < TWO_31 then m else m - TWO_32
  }

  /** Go's `/` on signed integers truncates toward zero. */
  function TruncDiv(a: int, b: int): (q: int)
    requires b > 0
    ensures a >= 0 ==> q == a / b
    ensures a < 0 ==> q == -(-a / b)
  {
    if a >= 0 then a / b else -(-a / b)
  }
}

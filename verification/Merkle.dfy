/** The Merkle tree of common/merkle.go: a tree stored level by level in one flat array, and what
    its root commits to. */
module Merkle {
  import opened Basics
  import Arith

  // ---------------------------------------------------------------- the next power of two

  /** Bitwise and of two naturals. */
  function BitAnd(a: nat, b: nat): nat
    decreases a
  {
    if a == 0 then 0 else 2 * BitAnd(a / 2, b / 2) + (if a % 2 == 1 && b % 2 == 1 then 1 else 0)
  }

  predicate IsPowerOfTwo(n: nat)
    decreases n
  {
    n == 1 || (n > 1 && n % 2 == 0 && IsPowerOfTwo(n / 2))
  }

  function Pow2(k: nat): (p: nat)
    ensures p > 0 && IsPowerOfTwo(p)
  {
    if k == 0 then 1 else 2 * Pow2(k - 1)
  }

  /** The integer part of log2(n). */
  function FloorLog2(n: nat): nat
    requires n > 0
    decreases n
  {
    if n == 1 then 0 else FloorLog2(n / 2) + 1
  }

  lemma {:induction false} FloorLog2Bounds(n: nat)
    requires n > 0
    ensures Pow2(FloorLog2(n)) <= n < 2 * Pow2(FloorLog2(n))
    decreases n
  {
    if n > 1 {
      FloorLog2Bounds(n / 2);
    }
  }

  lemma {:induction false} BitAndSelf(n: nat)
    ensures BitAnd(n, n) == n
    decreases n
  {
    if n > 0 {
      BitAndSelf(n / 2);
    }
  }

  /** The test `n & (n-1) == 0` means "power of two". */
  lemma {:induction false} PowerOfTwoTest(n: nat)
    requires n > 0
    ensures BitAnd(n, n - 1) == 0 <==> IsPowerOfTwo(n)
    decreases n
  {
    if n % 2 == 0 {
      PowerOfTwoTest(n / 2);
      assert (n - 1) / 2 == n / 2 - 1;
    } else if n > 1 {
      BitAndSelf(n / 2);
      assert (n - 1) / 2 == n / 2;
    }
  }

  /** common/merkle.go:14-23. math.Log2 is exact enough below 2^32 to be the integer logarithm once
      powers of two are out of the way. */
  function NextPowerOfTwo(n: nat): nat
    requires n > 0
  {
    if BitAnd(n, n - 1) == 0 then n else Pow2(FloorLog2(n) + 1)
  }

  lemma NextPowerOfTwoCorrect(n: nat)
    requires n > 0
    ensures var p := NextPowerOfTwo(n); IsPowerOfTwo(p) && n <= p < 2 * n
  {
    PowerOfTwoTest(n);
    FloorLog2Bounds(n);
    if BitAnd(n, n - 1) != 0 {
      PowerOfTwoIsPow2(FloorLog2(n), n);
    }
  }

  lemma PowerOfTwoIsPow2(k: nat, n: nat)
    requires !IsPowerOfTwo(n)
    ensures Pow2(k) != n
  {
  }

  // ---------------------------------------------------------------- the recursive tree

  function Branch(h: Hashing, left: Digest, right: Digest): Digest {
    h.sha256(left + right)
  }

  /** The right partner of node 2 * k; an odd last node is its own partner. */
  function Right(s: seq<Digest>, k: nat): Digest
    requires 2 * k < |s|
  {
    if 2 * k + 1 < |s| then s[2 * k + 1] else s[2 * k]
  }

  /** One level up: neighbours paired, an odd last node paired with itself. */
  function Up(h: Hashing, s: seq<Digest>): (t: seq<Digest>)
    ensures |t| == (|s| + 1) / 2
  {
    seq((|s| + 1) / 2, k requires 0 <= k < (|s| + 1) / 2 =>
      Branch(h, s[2 * k], Right(s, k)))
  }

  function Root(h: Hashing, s: seq<Digest>): Digest
    requires s != []
    decreases |s|
  {
    if |s| == 1 then s[0] else Root(h, Up(h, s))
  }

  // ---------------------------------------------------------------- the flat array

  type Cell = Option<Digest>

  /** The three cases of the switch in BuildMerkleTreeStore. */
  function Parent(h: Hashing, left: Cell, right: Cell): Cell {
    match left
    case None => None
    case Some(l) => Some(Branch(h, l, if right.Some? then right.value else l))
  }

  function Parents(h: Hashing, row: seq<Cell>): (up: seq<Cell>)
    ensures |up| == |row| / 2
  {
    seq(|row| / 2, k requires 0 <= k < |row| / 2 => Parent(h, row[2 * k], row[2 * k + 1]))
  }

  /** All rows above and including `row`, concatenated bottom up. */
  function Rows(h: Hashing, row: seq<Cell>): (t: seq<Cell>)
    requires IsPowerOfTwo(|row|)
    ensures |t| == 2 * |row| - 1
    decreases |row|
  {
    if |row| == 1 then row else row + Rows(h, Parents(h, row))
  }

  /** The leaves, padded with empty cells to width p. */
  function Padded(hashes: seq<Digest>, p: nat): (row: seq<Cell>)
    requires |hashes| <= p
    ensures |row| == p
  {
    seq(p, i requires 0 <= i < p => if i < |hashes| then Some(hashes[i]) else None)
  }

  /** What stands behind a row of 2q cells is related in the same way. */
  lemma RowsAbove(h: Hashing, row: seq<Cell>, t: seq<Cell>, q: nat)
    requires |row| == 2 * q && q > 0 && |t| == 4 * q - 1 && t[..2 * q] == row
    requires forall k :: 0 <= k < 2 * q - 1 ==> t[2 * q + k] == Parent(h, t[2 * k], t[2 * k + 1])
    ensures t[2 * q..][..q] == Parents(h, row)
    ensures forall k :: 0 <= k < q - 1 ==> t[2 * q..][q + k] == Parent(h, t[2 * q..][2 * k], t[2 * q..][2 * k + 1])
  {
    hide Parent;
    var t' := t[2 * q..];
    forall k | 0 <= k < q
      ensures t'[k] == Parents(h, row)[k]
    {
      assert t[2 * q + k] == Parent(h, t[2 * k], t[2 * k + 1]);
      assert t[2 * k] == row[2 * k] && t[2 * k + 1] == row[2 * k + 1];
    }
    forall k | 0 <= k < q - 1
      ensures t'[q + k] == Parent(h, t'[2 * k], t'[2 * k + 1])
    {
      assert t[2 * q + (q + k)] == Parent(h, t[2 * (q + k)], t[2 * (q + k) + 1]);
    }
  }

  /** A row built only from the parent relation is the tree. */
  lemma {:induction false} ParentsDetermineRows(h: Hashing, row: seq<Cell>, t: seq<Cell>)
    requires IsPowerOfTwo(|row|)
    requires |t| == 2 * |row| - 1 && t[..|row|] == row
    requires forall k :: 0 <= k < |row| - 1 ==> t[|row| + k] == Parent(h, t[2 * k], t[2 * k + 1])
    ensures t == Rows(h, row)
    decreases |row|
  {
    hide Parent, Parents;
    var p := |row|;
    if p > 1 {
      RowsAbove(h, row, t, p / 2);
      ParentsDetermineRows(h, Parents(h, row), t[p..]);
    }
  }

  /** common/merkle.go:38-76 */
  method BuildMerkleTreeStore(h: Hashing, hashes: seq<Digest>) returns (merkles: array<Cell>)
    requires hashes != []
    ensures fresh(merkles)
    ensures IsPowerOfTwo(NextPowerOfTwo(|hashes|)) && |hashes| <= NextPowerOfTwo(|hashes|)
    ensures merkles[..] == Rows(h, Padded(hashes, NextPowerOfTwo(|hashes|)))
    ensures merkles[merkles.Length - 1] == Some(Root(h, hashes))
  {
    hide Rows, Root, NextPowerOfTwo, IsPowerOfTwo;
    NextPowerOfTwoCorrect(|hashes|);
    var nextPoT := NextPowerOfTwo(|hashes|);
    var arraySize := nextPoT * 2 - 1;
    merkles := new Cell[arraySize];
    forall k | 0 <= k < arraySize {
      merkles[k] := if k < |hashes| then Some(hashes[k]) else None;
    }
    ghost var leaves := Padded(hashes, nextPoT);

    var offset := nextPoT;
    var i := 0;
    while i < arraySize - 1
      invariant i % 2 == 0 && 0 <= i <= arraySize - 1
      invariant offset == nextPoT + i / 2
      invariant forall j :: 0 <= j < nextPoT ==> merkles[j] == leaves[j]
      invariant forall k :: 0 <= k < i / 2 ==>
        merkles[nextPoT + k] == Parent(h, merkles[2 * k], merkles[2 * k + 1])
    {
      assert i + 1 < offset < arraySize;
      var parent: Cell;
      if merkles[i] == None {
        parent := None;
      } else if merkles[i + 1] == None {
        parent := Some(Branch(h, merkles[i].value, merkles[i].value));
      } else {
        parent := Some(Branch(h, merkles[i].value, merkles[i + 1].value));
      }
      merkles[offset] := parent;
      offset := offset + 1;
      i := i + 2;
    }
    assert merkles[..][..nextPoT] == leaves;
    ParentsDetermineRows(h, leaves, merkles[..]);
    LastCellIsRoot(h, hashes, nextPoT);
  }

  /** Padding commutes with going one level up. */
  lemma ParentsOfPadded(h: Hashing, s: seq<Digest>, p: nat)
    requires |s| <= p && p % 2 == 0
    ensures Parents(h, Padded(s, p)) == Padded(Up(h, s), p / 2)
  {
  }

  lemma RowsStep(h: Hashing, row: seq<Cell>)
    requires IsPowerOfTwo(|row|) && |row| > 1
    ensures IsPowerOfTwo(|Parents(h, row)|) && Rows(h, row) == row + Rows(h, Parents(h, row))
  {
    hide Parents;
  }

  lemma LastOfBoth(a: seq<Cell>, b: seq<Cell>)
    requires b != []
    ensures (a + b)[|a + b| - 1] == b[|b| - 1]
  {
  }

  lemma {:induction false} LastIsRoot(h: Hashing, s: seq<Digest>, p: nat)
    requires s != [] && |s| <= p < 2 * |s| && IsPowerOfTwo(p)
    ensures var t := Rows(h, Padded(s, p)); t[|t| - 1] == Some(Root(h, s))
    decreases p
  {
    if p > 1 {
      hide Padded, Parents, Up, Rows;
      ParentsOfPadded(h, s, p);
      RowsStep(h, Padded(s, p));
      LastOfBoth(Padded(s, p), Rows(h, Padded(Up(h, s), p / 2)));
      LastIsRoot(h, Up(h, s), p / 2);
    }
  }

  /** The last cell of the flat array is the root of the recursive pairing. */
  lemma LastCellIsRoot(h: Hashing, s: seq<Digest>, p: nat)
    requires s != [] && |s| <= p < 2 * |s| && IsPowerOfTwo(p)
    ensures Rows(h, Padded(s, p))[2 * p - 2] == Some(Root(h, s))
  {
    LastIsRoot(h, s, p);
  }

  /** Row k of the tree. */
  function Level(h: Hashing, s: seq<Digest>, k: nat): seq<Digest> {
    if k == 0 then s else Up(h, Level(h, s, k - 1))
  }

  /** Where level k starts in the array, and how wide its stretch is. */
  function RowStart(p: nat, k: nat): nat
    decreases k
  {
    if k == 0 then 0 else p + RowStart(p / 2, k - 1)
  }

  function RowWidth(p: nat, k: nat): nat
    decreases k
  {
    if k == 0 then p else RowWidth(p / 2, k - 1)
  }

  lemma {:induction false} LevelShift(h: Hashing, s: seq<Digest>, k: nat)
    ensures Level(h, s, k + 1) == Level(h, Up(h, s), k)
  {
    if k > 0 {
      LevelShift(h, s, k - 1);
      assert Level(h, s, k + 1) == Up(h, Level(h, s, k));
    }
  }

  lemma CeilHalf(n: nat, q: nat, qq: nat)
    requires q > 0 && qq == 2 * q
    ensures ((n + q - 1) / q + 1) / 2 == (n + qq - 1) / qq
  {
    var m := n + q - 1;
    Arith.DivDiv(m + q, q, 2);
    Arith.Distribute(q, m / q, 1);
    Arith.DivModUnique(m + q, q, m / q + 1, m % q);
  }

  lemma LevelAbove(h: Hashing, s: seq<Digest>, k: nat)
    requires k > 0
    ensures |Level(h, s, k)| == (|Level(h, s, k - 1)| + 1) / 2 && Pow2(k) == 2 * Pow2(k - 1)
  {
  }

  lemma LevelZero(h: Hashing, s: seq<Digest>)
    ensures Level(h, s, 0) == s && Pow2(0) == 1
  {
  }

  /** Level k over n leaves has ceil(n / 2^k) nodes. */
  lemma {:induction false} LevelSize(h: Hashing, s: seq<Digest>, k: nat)
    ensures |Level(h, s, k)| == (|s| + Pow2(k) - 1) / Pow2(k)
  {
    hide *;
    if k == 0 {
      LevelZero(h, s);
    } else {
      LevelSize(h, s, k - 1);
      LevelAbove(h, s, k);
      CeilHalf(|s|, Pow2(k - 1), Pow2(k));
    }
  }

  lemma {:induction false} RowFits(p: nat, k: nat)
    requires IsPowerOfTwo(p) && Pow2(k) <= p
    ensures RowWidth(p, k) > 0 && RowStart(p, k) + RowWidth(p, k) <= 2 * p - 1
    decreases k
  {
    if k > 0 {
      assert p > 1;
      RowFits(p / 2, k - 1);
    }
  }

  /** Level k fills its stretch of the array: first its nodes, then only empty cells. */
  lemma {:induction false} LevelsOfRows(h: Hashing, s: seq<Digest>, p: nat, k: nat)
    requires s != [] && |s| <= p < 2 * |s| && IsPowerOfTwo(p) && Pow2(k) <= p
    ensures RowStart(p, k) + RowWidth(p, k) <= 2 * p - 1
    ensures |Level(h, s, k)| <= RowWidth(p, k)
    ensures Rows(h, Padded(s, p))[RowStart(p, k)..RowStart(p, k) + RowWidth(p, k)]
         == Padded(Level(h, s, k), RowWidth(p, k))
    decreases k
  {
    RowFits(p, k);
    RowsStart(h, Padded(s, p));
    if k > 0 {
      assert p > 1;
      LevelsOfRowsAbove(h, s, p, k);
    }
  }

  lemma LevelsOfRowsAbove(h: Hashing, s: seq<Digest>, p: nat, k: nat)
    requires s != [] && |s| <= p < 2 * |s| && IsPowerOfTwo(p) && Pow2(k) <= p && p > 1 && k > 0
    ensures RowStart(p, k) + RowWidth(p, k) <= 2 * p - 1
    ensures |Level(h, s, k)| <= RowWidth(p, k)
    ensures Rows(h, Padded(s, p))[RowStart(p, k)..RowStart(p, k) + RowWidth(p, k)]
         == Padded(Level(h, s, k), RowWidth(p, k))
    decreases k, 0
  {
    hide *;
    RowStep(p, k);
    LevelsOfRows(h, Up(h, s), p / 2, k - 1);
    LevelShift(h, s, k - 1);
    StretchAbove(h, s, p, RowStart(p / 2, k - 1), RowWidth(p / 2, k - 1));
  }

  lemma RowStep(p: nat, k: nat)
    requires IsPowerOfTwo(p) && Pow2(k) <= p && p > 1 && k > 0
    ensures RowStart(p, k) == p + RowStart(p / 2, k - 1)
    ensures RowWidth(p, k) == RowWidth(p / 2, k - 1)
    ensures IsPowerOfTwo(p / 2) && p % 2 == 0 && Pow2(k - 1) <= p / 2
  {
  }

  /** A stretch of the tree over `Up(s)` is the same stretch, p cells later, of the tree over s. */
  lemma StretchAbove(h: Hashing, s: seq<Digest>, p: nat, at: nat, w: nat)
    requires s != [] && |s| <= p && IsPowerOfTwo(p) && p > 1 && at + w <= p - 1
    ensures Rows(h, Padded(s, p))[p + at..p + at + w] == Rows(h, Padded(Up(h, s), p / 2))[at..at + w]
  {
    ParentsOfPadded(h, s, p);
    RowsStart(h, Padded(s, p));
    Window(Rows(h, Padded(s, p)), p, at, w);
  }

  lemma RowsStart(h: Hashing, row: seq<Cell>)
    requires IsPowerOfTwo(|row|)
    ensures Rows(h, row)[..|row|] == row
    ensures |row| > 1 ==> Rows(h, row)[|row|..] == Rows(h, Parents(h, row))
  {
  }

  lemma Window<T>(t: seq<T>, p: nat, at: nat, w: nat)
    requires p + at + w <= |t|
    ensures t[p + at..p + at + w] == t[p..][at..at + w]
  {
  }

  // ---------------------------------------------------------------- what the root commits to

  /** The string hashed for the k-th pair. */
  function PairInput(s: seq<Digest>, k: nat): (x: Bytes)
    requires 2 * k < |s|
    ensures |x| == 64 && x[..32] == s[2 * k] && x[32..] == Right(s, k)
  {
    var left: Bytes, right: Bytes := s[2 * k], Right(s, k);
    left + right
  }

  /** Everything that is hashed between the leaves and the root. */
  function BranchInputs(h: Hashing, s: seq<Digest>): set<Bytes>
    decreases |s|
  {
    if |s| <= 1 then {}
    else (set k | 0 <= k < (|s| + 1) / 2 :: PairInput(s, k)) + BranchInputs(h, Up(h, s))
  }

  lemma DifferentPairs(a: seq<Digest>, b: seq<Digest>, i: nat)
    requires |a| == |b| && i < |a| && a[i] != b[i]
    ensures PairInput(a, i / 2) != PairInput(b, i / 2)
  {
    var k := i / 2;
    if i % 2 == 0 {
      assert PairInput(a, k)[..32] != PairInput(b, k)[..32];
    } else {
      assert Right(a, k) == a[i] && Right(b, k) == b[i];
      assert PairInput(a, k)[32..] != PairInput(b, k)[32..];
    }
  }

  lemma EqualUp(h: Hashing, a: seq<Digest>, b: seq<Digest>)
    requires |a| == |b| > 1 && Up(h, a) == Up(h, b)
    ensures a == b || CollisionBetween(h, BranchInputs(h, a), BranchInputs(h, b))
  {
    if i: int :| 0 <= i < |a| && a[i] != b[i] {
      var k := i / 2;
      var x, y := PairInput(a, k), PairInput(b, k);
      assert Up(h, a)[k] == h.sha256(x);
      assert Up(h, b)[k] == h.sha256(y);
      assert x in BranchInputs(h, a);
      assert y in BranchInputs(h, b);
      DifferentPairs(a, b, i);
      assert Collides(h, x, y);
    } else {
      assert a == b;
    }
  }

  /** Two lists of the same length with the same root are equal, or two of the strings hashed on the
      way collide. */
  lemma {:induction false} RootCommits(h: Hashing, a: seq<Digest>, b: seq<Digest>)
    requires |a| == |b| > 0 && Root(h, a) == Root(h, b)
    ensures a == b || CollisionBetween(h, BranchInputs(h, a), BranchInputs(h, b))
    decreases |a|
  {
    if |a| > 1 {
      var a', b' := Up(h, a), Up(h, b);
      RootCommits(h, a', b');
      if a' == b' {
        EqualUp(h, a, b);
      } else {
        CollisionGrows(h, BranchInputs(h, a'), BranchInputs(h, b'), BranchInputs(h, a), BranchInputs(h, b));
      }
    }
  }

  /** Without the length the root does not commit: repeating an odd last leaf never shows. */
  lemma LastLeafAmbiguity(h: Hashing, s: seq<Digest>)
    requires |s| > 1 && |s| % 2 == 1
    ensures s + [s[|s| - 1]] != s && Root(h, s + [s[|s| - 1]]) == Root(h, s)
  {
    var t := s + [s[|s| - 1]];
    assert |t| != |s|;
    assert Up(h, t) == Up(h, s);
  }
}

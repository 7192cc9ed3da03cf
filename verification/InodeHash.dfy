/** Inode numbers: FNV-1a over a kind prefix and the path (crates/unifuse/src/inode.rs:73-105). */
module InodeHash {

  import opened Common

  const TWO_TO_THE_64: int := 0x1_0000_0000_0000_0000

  /** Rust's u64. */
  type U64 = x: int | 0 <= x < TWO_TO_THE_64

  const ROOT_INODE: U64 := 1
  const FNV_OFFSET: U64 := 14_695_981_039_346_656_037
  const FNV_PRIME: U64 := 1_099_511_628_211
  const U64_MAX: U64 := TWO_TO_THE_64 - 1

  /** The inverse of the prime modulo 2^64, and the quotient that shows it. */
  const FNV_INVERSE: U64 := 0xCE96_5057_AFF6_957B
  const INVERSE_QUOTIENT: int := FNV_PRIME * FNV_INVERSE / TWO_TO_THE_64

  datatype NodeKind = File | Dir

  function Prefix(kind: NodeKind): Bytes {
    match kind
    case File => [0x66, 0x3A]
    case Dir => [0x64, 0x3A]
  }

  /** Exclusive or, bit by bit. */
  function Xor(a: nat, b: nat): nat
    decreases a + b
  {
    if a == 0 && b == 0 then 0
    else 2 * Xor(a / 2, b / 2) + (if a % 2 == b % 2 then 0 else 1)
  }

  function PowerOfTwo(k: nat): nat {
    if k == 0 then 1 else 2 * PowerOfTwo(k - 1)
  }

  function XorByte(h: U64, b: byte): (r: U64)
  {
    XorByteFits(h, b);
    Xor(h, b as nat)
  }

  /** Multiplication by the prime, wrapping modulo 2^64. */
  function TimesPrime(x: U64): U64 {
    x * FNV_PRIME % TWO_TO_THE_64
  }

  function Mix(h: U64, b: byte): U64 {
    TimesPrime(XorByte(h, b))
  }

  function Fold(h: U64, bytes: Bytes): U64 {
    if bytes == [] then h else Mix(Fold(h, bytes[..|bytes| - 1]), bytes[|bytes| - 1])
  }

  function RawHash(path: Bytes, kind: NodeKind): U64 {
    Fold(FNV_OFFSET, Prefix(kind) + path)
  }

  predicate IsRoot(path: Bytes) {
    path == [] || path == [0x2F] || path == [0x2E]
  }

  /** The two reserved numbers are moved away. */
  function Fixed(h: U64): U64 {
    var h1 := if h == ROOT_INODE then 2 else h;
    if h1 == 0 then U64_MAX else h1
  }

  function Inode(path: Bytes, kind: NodeKind): U64 {
    if IsRoot(path) then ROOT_INODE else Fixed(RawHash(path, kind))
  }

  method ComputeInode(path: Bytes, kind: NodeKind) returns (h: U64)
    ensures h == Inode(path, kind)
  {
    if IsRoot(path) {
      return ROOT_INODE;
    }
    h := FNV_OFFSET;
    var bytes := Prefix(kind) + path;
    for i := 0 to |bytes|
      invariant h == Fold(FNV_OFFSET, bytes[..i])
    {
      assert bytes[..i + 1][..i] == bytes[..i];
      h := XorByte(h, bytes[i]);
      h := TimesPrime(h);
    }
    assert bytes[..|bytes|] == bytes;
    if h == ROOT_INODE {
      h := 2;
    }
    if h == 0 {
      h := U64_MAX;
    }
  }

  lemma {:induction false} XorFits(a: nat, b: nat, k: nat)
    requires a < PowerOfTwo(k) && b < PowerOfTwo(k)
    ensures Xor(a, b) < PowerOfTwo(k)
    decreases k
  {
    if k > 0 && (a > 0 || b > 0) {
      XorFits(a / 2, b / 2, k - 1);
    }
  }

  lemma {:induction false} PowersMultiply(j: nat, k: nat)
    ensures PowerOfTwo(j + k) == PowerOfTwo(j) * PowerOfTwo(k)
  {
    if j > 0 {
      PowersMultiply(j - 1, k);
    }
  }

  lemma Doubled(k: nat, p: nat)
    requires PowerOfTwo(k) == p
    ensures PowerOfTwo(2 * k) == p * p
  {
    PowersMultiply(k, k);
  }

  lemma XorByteFits(h: U64, b: byte)
    ensures Xor(h, b as nat) < TWO_TO_THE_64
  {
    Doubled(1, 2);
    Doubled(2, 4);
    Doubled(4, 16);
    Doubled(8, 0x100);
    Doubled(16, 0x1_0000);
    Doubled(32, 0x1_0000_0000);
    XorFits(h, b as nat, 64);
  }

  lemma {:induction false} XorIsSymmetric(a: nat, b: nat)
    ensures Xor(a, b) == Xor(b, a)
    decreases a + b
  {
    if a > 0 || b > 0 {
      XorIsSymmetric(a / 2, b / 2);
    }
  }

  lemma {:induction false} XorIsInjective(a: nat, b: nat, c: nat)
    requires Xor(a, c) == Xor(b, c)
    ensures a == b
    decreases a + b + c
  {
    if (a > 0 || c > 0) && (b > 0 || c > 0) {
      XorIsInjective(a / 2, b / 2, c / 2);
    } else if a > 0 || b > 0 {
      XorIsPositive(a + b);
    }
  }

  lemma {:induction false} XorIsPositive(a: nat)
    ensures Xor(a, 0) == a
  {
    if a > 0 {
      XorIsPositive(a / 2);
    }
  }

  /** The prime is odd, so it has an inverse: the multiplication loses nothing. */
  lemma TimesPrimeIsInvertible(x: U64)
    ensures TimesPrime(x) * FNV_INVERSE % TWO_TO_THE_64 == x
  {
    var q := x * FNV_PRIME / TWO_TO_THE_64;
    assert FNV_PRIME * FNV_INVERSE == 1 + INVERSE_QUOTIENT * TWO_TO_THE_64;
    RemainderIs(TimesPrime(x) * FNV_INVERSE, INVERSE_QUOTIENT * x - q * FNV_INVERSE, x);
  }

  lemma RemainderIs(n: int, q: int, r: U64)
    requires n == q * TWO_TO_THE_64 + r
    ensures n % TWO_TO_THE_64 == r
  {
  }

  /** One step forgets neither the state nor the byte. */
  lemma {:induction false} MixIsInjective(g: U64, h: U64, b: byte, c: byte)
    requires Mix(g, b) == Mix(h, c)
    ensures Xor(g, b as nat) == Xor(h, c as nat)
  {
    TimesPrimeIsInvertible(XorByte(g, b));
    TimesPrimeIsInvertible(XorByte(h, c));
  }

  /** Different states stay different through any common suffix. */
  lemma {:induction false} FoldIsInjective(g: U64, h: U64, bytes: Bytes)
    requires g != h
    ensures Fold(g, bytes) != Fold(h, bytes)
  {
    if bytes != [] {
      var front, last := bytes[..|bytes| - 1], bytes[|bytes| - 1];
      FoldIsInjective(g, h, front);
      if Fold(g, bytes) == Fold(h, bytes) {
        MixIsInjective(Fold(g, front), Fold(h, front), last, last);
        XorIsInjective(Fold(g, front), Fold(h, front), last as nat);
      }
    }
  }

  lemma {:induction false} FoldConcat(h: U64, a: Bytes, b: Bytes)
    ensures Fold(h, a + b) == Fold(Fold(h, a), b)
  {
    if b == [] {
      assert a + b == a;
    } else {
      var front, last := b[..|b| - 1], b[|b| - 1];
      FoldConcat(h, a, front);
      assert (a + b)[..|a + b| - 1] == a + front && (a + b)[|a + b| - 1] == last;
    }
  }

  /** Inputs that differ in exactly one byte never collide, whatever surrounds it. */
  lemma {:induction false} OneByteSeparates(before: Bytes, b: byte, c: byte, after: Bytes)
    requires b != c
    ensures Fold(FNV_OFFSET, before + [b] + after) != Fold(FNV_OFFSET, before + [c] + after)
  {
    var h := Fold(FNV_OFFSET, before);
    FoldConcat(FNV_OFFSET, before, [b]);
    FoldConcat(FNV_OFFSET, before, [c]);
    FoldConcat(FNV_OFFSET, before + [b], after);
    FoldConcat(FNV_OFFSET, before + [c], after);
    SingleStep(h, b);
    SingleStep(h, c);
    if Mix(h, b) == Mix(h, c) {
      MixIsInjective(h, h, b, c);
      XorIsSymmetric(h, b as nat);
      XorIsSymmetric(h, c as nat);
      XorIsInjective(b as nat, c as nat, h);
    }
    FoldIsInjective(Mix(h, b), Mix(h, c), after);
  }

  lemma SingleStep(h: U64, b: byte)
    ensures Fold(h, [b]) == Mix(h, b)
  {
    assert [b][..0] == [];
  }

  /** A file and a directory of the same name never share a raw hash. */
  lemma KindsHaveDifferentHashes(path: Bytes)
    ensures RawHash(path, File) != RawHash(path, Dir)
  {
    assert Prefix(File) + path == [] + [0x66] + ([0x3A] + path);
    assert Prefix(Dir) + path == [] + [0x64] + ([0x3A] + path);
    OneByteSeparates([], 0x66, 0x64, [0x3A] + path);
  }

  /** Paths of the same kind that differ in one byte never share a raw hash either. */
  lemma {:induction false} NeighboursHaveDifferentHashes(before: Bytes, b: byte, c: byte, after: Bytes, kind: NodeKind)
    requires b != c
    ensures RawHash(before + [b] + after, kind) != RawHash(before + [c] + after, kind)
  {
    assert Prefix(kind) + (before + [b] + after) == (Prefix(kind) + before) + [b] + after;
    assert Prefix(kind) + (before + [c] + after) == (Prefix(kind) + before) + [c] + after;
    OneByteSeparates(Prefix(kind) + before, b, c, after);
  }

  /** No path but the root gets a reserved number, and the two kinds of one name get the
      same number exactly when one raw hash is a reserved number and the other is its
      replacement. */
  lemma KindsCollideExactlyThroughFixups(path: Bytes)
    requires !IsRoot(path)
    ensures forall kind :: Inode(path, kind) != 0 && Inode(path, kind) != ROOT_INODE
    ensures Inode(path, File) == Inode(path, Dir)
            <==> {RawHash(path, File), RawHash(path, Dir)} == {ROOT_INODE, 2}
                 || {RawHash(path, File), RawHash(path, Dir)} == {0, U64_MAX}
  {
    KindsHaveDifferentHashes(path);
    FixupsCollideExactly(RawHash(path, File), RawHash(path, Dir));
  }

  lemma FixupsCollideExactly(f: U64, d: U64)
    requires f != d
    ensures Fixed(f) == Fixed(d) <==> {f, d} == {ROOT_INODE, 2} || {f, d} == {0, U64_MAX}
    ensures Fixed(f) != 0 && Fixed(f) != ROOT_INODE
  {
    assert {f, d} == {ROOT_INODE, 2} <==> (f == 1 && d == 2) || (f == 2 && d == 1) by { PairIs(f, d, ROOT_INODE, 2); }
    assert {f, d} == {0, U64_MAX} <==> (f == 0 && d == U64_MAX) || (f == U64_MAX && d == 0) by { PairIs(f, d, 0, U64_MAX); }
  }

  lemma PairIs(a: U64, b: U64, x: U64, y: U64)
    requires a != b && x != y
    ensures {a, b} == {x, y} <==> (a == x && b == y) || (a == y && b == x)
  {
    if {a, b} == {x, y} {
      assert a in {x, y} && b in {x, y};
    }
  }

  /** Only the empty path, "/" and "." get the root's number. */
  lemma RootNumberExactly(path: Bytes, kind: NodeKind)
    ensures Inode(path, kind) == 1 <==> path == [] || path == [0x2F] || path == [0x2E]
  {
    hide RawHash;
  }

  /** The fold is 64-bit FNV-1a with its published parameters, over "f:" or "d:" and the path. */
  lemma RawHashIsFnv1a(path: Bytes, kind: NodeKind, h: U64, b: byte)
    ensures RawHash(path, kind) == Fold(0xCBF2_9CE4_8422_2325, [if kind.File? then 0x66 else 0x64, 0x3A] + path)
    ensures Fold(h, [b]) == Xor(h, b as nat) * 0x100_0000_01B3 % 0x1_0000_0000_0000_0000
  {
    hide Xor;
    SingleStep(h, b);
  }
}

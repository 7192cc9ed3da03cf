/** The two-way table of paths and inode numbers (crates/unifuse/src/inode.rs:107-196). */
module InodeMap {
  import opened Common
  import opened InodeHash

  /** `paths` holds the number registered for each path, `inodes` the path last stored
      under each number. */
  datatype Table<N> = Table(paths: map<Path, N>, inodes: map<N, Path>)

  /** The number registered for a path leads back to it. */
  ghost predicate Consistent<N(!new)>(t: Table<N>) {
    forall p | p in t.paths :: t.paths[p] in t.inodes && t.inodes[t.paths[p]] == p
  }

  /** The number belongs to a registered path other than `p`. */
  predicate TakenByAnother<N(==)>(t: Table<N>, p: Path, h: N) {
    h in t.inodes && t.inodes[h] != p && Lookup(t.paths, t.inodes[h]) == Some(h)
  }

  /** A new table knows the root of the mount and nothing else. */
  function RootOnly(root: Path): Table<U64> {
    Table(map[root := ROOT_INODE], map[ROOT_INODE := root])
  }

  function Registered<N(==)>(t: Table<N>, p: Path, h: N): Table<N> {
    if p in t.paths then t else Table(t.paths[p := h], t.inodes[h := p])
  }

  function Forgotten<N(==)>(t: Table<N>, p: Path): Table<N> {
    if p in t.paths then Table(t.paths - {p}, t.inodes - {t.paths[p]}) else t
  }

  function Renamed<N(==)>(t: Table<N>, from: Path, to: Path): Table<N> {
    if from in t.paths then
      Table((t.paths - {from})[to := t.paths[from]], t.inodes[t.paths[from] := to])
    else t
  }

  /** Where a path below `from` goes when `from` becomes `to`. */
  function Target(from: Path, to: Path, p: Path): Path
    requires from <= p
  {
    to + p[|from|..]
  }

  /** The registered paths at or below `from`. */
  function Subtree<N(==)>(t: Table<N>, from: Path): set<Path> {
    set p | p in t.paths && from <= p
  }

  /** One update of the loop; the number was read before the loop began. */
  function Step<N(==)>(t: Table<N>, from: Path, to: Path, p: Path, number: N): Table<N>
    requires from <= p
  {
    Table((t.paths - {p})[Target(from, to, p) := number], t.inodes[number := Target(from, to, p)])
  }

  /** The updates of `order` carried out one after the other, starting from `t`. */
  function Applied<N(==)>(t: Table<N>, from: Path, to: Path, order: seq<Path>): Table<N>
    requires forall p | p in order :: p in Subtree(t, from)
  {
    if order == [] then t else
      var n := |order| - 1;
      assert order[n] in Subtree(t, from);
      Step(Applied(t, from, to, order[..n]), from, to, order[n], t.paths[order[n]])
  }

  /** A visiting order of a set: each member once. */
  ghost predicate Enumerates(order: seq<Path>, s: set<Path>) {
    && NoDuplicates(order)
    && forall p :: p in order <==> p in s
  }

  /** The subtree's new places. */
  function Landing<N(==)>(t: Table<N>, from: Path, to: Path): set<Path> {
    set p | p in Subtree(t, from) :: Target(from, to, p)
  }

  /** All of the subtree moved at once; what it lands on is replaced. */
  function Substituted<N(==)>(t: Table<N>, from: Path, to: Path): Table<N> {
    Table(
      (map p | p in t.paths && !(from <= p) :: t.paths[p])
      + (map p | p in Landing(t, from, to) && to <= p && Target(to, from, p) in t.paths ::
           t.paths[Target(to, from, p)]),
      map i | i in t.inodes ::
        if from <= t.inodes[i] && Lookup(t.paths, t.inodes[i]) == Some(i) then Target(from, to, t.inodes[i])
        else t.inodes[i])
  }

  /** No moved path lands on another moved path. */
  predicate LandsOutside<N(==)>(t: Table<N>, from: Path, to: Path) {
    forall p | p in Subtree(t, from) :: Target(from, to, p) == p || Target(from, to, p) !in Subtree(t, from)
  }

  class InodeTable {
    var pathToInode: map<Path, U64>
    var inodeToPath: map<U64, Path>
    /** The text of a path, as bytes. */
    const render: Path -> Bytes

    constructor (root: Path, render: Path -> Bytes)
      ensures T() == RootOnly(root) && this.render == render
    {
      this.render := render;
      inodeToPath := map[ROOT_INODE := root];
      pathToInode := map[root := ROOT_INODE];
    }

    ghost function T(): Table<U64>
      reads this
    {
      Table(pathToInode, inodeToPath)
    }

    method GetOrInsert(path: Path, kind: NodeKind) returns (inode: U64)
      modifies this
      ensures T() == Registered(old(T()), path, Inode(render(path), kind))
      ensures path in pathToInode && inode == pathToInode[path]
    {
      if path in pathToInode {
        return pathToInode[path];
      }
      inode := ComputeInode(render(path), kind);
      inodeToPath := inodeToPath[inode := path];
      pathToInode := pathToInode[path := inode];
    }

    method Remove(path: Path)
      modifies this
      ensures T() == Forgotten(old(T()), path)
    {
      if path in pathToInode {
        var inode := pathToInode[path];
        pathToInode := pathToInode - {path};
        inodeToPath := inodeToPath - {inode};
      }
    }

    method Rename(from: Path, to: Path)
      modifies this
      ensures T() == Renamed(old(T()), from, to)
    {
      if from in pathToInode {
        var inode := pathToInode[from];
        pathToInode := pathToInode - {from};
        inodeToPath := inodeToPath[inode := to];
        pathToInode := pathToInode[to := inode];
      }
    }

    /** Collects the updates in whatever order the hash map is visited, then carries them
        out one by one. */
    method RenameSubtree(from: Path, to: Path) returns (ghost order: seq<Path>)
      modifies this
      ensures Enumerates(order, Subtree(old(T()), from))
      ensures T() == Applied(old(T()), from, to, order)
    {
      ghost var t := T();
      var updates := CollectUpdates(from, to);
      order := seq(|updates|, i requires 0 <= i < |updates| => updates[i].1);
      for i := 0 to |updates|
        invariant forall p | p in order[..i] :: p in Subtree(t, from)
        invariant T() == Applied(t, from, to, order[..i])
      {
        var (inode, source, target) := updates[i];
        assert order[..i + 1][..i] == order[..i] && order[..i + 1][i] == source;
        pathToInode := pathToInode - {source};
        pathToInode := pathToInode[target := inode];
        inodeToPath := inodeToPath[inode := target];
      }
      assert order[..|updates|] == order;
    }

    method CollectUpdates(from: Path, to: Path) returns (updates: seq<(U64, Path, Path)>)
      ensures forall i | 0 <= i < |updates| ::
                && updates[i].1 in Subtree(T(), from)
                && updates[i].0 == pathToInode[updates[i].1]
                && updates[i].2 == Target(from, to, updates[i].1)
      ensures Enumerates(seq(|updates|, i requires 0 <= i < |updates| => updates[i].1), Subtree(T(), from))
    {
      updates := [];
      var rest := pathToInode.Keys;
      while rest != {}
        invariant rest <= pathToInode.Keys
        invariant forall i | 0 <= i < |updates| ::
            && updates[i].1 in Subtree(T(), from) && updates[i].1 !in rest
            && updates[i].0 == pathToInode[updates[i].1]
            && updates[i].2 == Target(from, to, updates[i].1)
        invariant forall i, j | 0 <= i < j < |updates| :: updates[i].1 != updates[j].1
        invariant forall p | p in Subtree(T(), from) && p !in rest ::
            exists i | 0 <= i < |updates| :: updates[i].1 == p
      {
        var p :| p in rest;
        ghost var before := updates;
        if from <= p {
          updates := updates + [(pathToInode[p], p, Target(from, to, p))];
          assert updates[|before|].1 == p;
        }
        rest := rest - {p};
        assert forall i | 0 <= i < |before| :: updates[i] == before[i];
      }
      ghost var order := seq(|updates|, i requires 0 <= i < |updates| => updates[i].1);
      forall p | p in Subtree(T(), from)
        ensures p in order
      {
        var i :| 0 <= i < |updates| && updates[i].1 == p;
        assert order[i] == p;
      }
    }
  }

  // ----- registering -----

  /** Registration keeps the table two-way exactly when the number is not in use. */
  lemma RegisterKeepsConsistencyExactly<N(!new)>(t: Table<N>, p: Path, h: N)
    requires Consistent(t)
    ensures Consistent(Registered(t, p, h)) <==> p in t.paths || !TakenByAnother(t, p, h)
    ensures Lookup(Registered(t, p, h).paths, p) == Some(if p in t.paths then t.paths[p] else h)
    ensures forall q | q != p :: Lookup(Registered(t, p, h).paths, q) == Lookup(t.paths, q)
  {
    var t' := Registered(t, p, h);
    if p !in t.paths && TakenByAnother(t, p, h) {
      var q := t.inodes[h];
      assert q in t'.paths && t'.paths[q] == h && t'.inodes[h] == p;
    }
  }

  /** The root keeps its number: no other path is ever registered under it, since a path that
      is not written as a root never hashes to it. */
  lemma RootKeepsItsNumber(t: Table<U64>, root: Path, p: Path, bytes: Bytes, kind: NodeKind)
    requires Consistent(t) && Lookup(t.paths, root) == Some(ROOT_INODE) && !IsRoot(bytes)
    ensures Consistent(RootOnly(root))
    ensures var after := Registered(t, p, Inode(bytes, kind));
            Lookup(after.paths, root) == Some(ROOT_INODE) && after.inodes[ROOT_INODE] == root
  {
    KindsCollideExactlyThroughFixups(bytes);
    hide RawHash, Fixed;
  }

  /** Creating a file again under a name it was renamed away from recomputes the same
      number: the renamed file loses its way back. */
  lemma RecreatingARenamedPathCollides<N(!new)>(t: Table<N>, p: Path, q: Path, h: N)
    requires Consistent(t) && p !in t.paths && p != q
    ensures !Consistent(Registered(Renamed(Registered(t, p, h), p, q), p, h))
  {
    var t' := Registered(Renamed(Registered(t, p, h), p, q), p, h);
    assert q in t'.paths && t'.paths[q] == h && t'.inodes[h] == p;
  }

  /** Two registered paths never share a number. */
  lemma NumbersAreUnique<N(!new)>(t: Table<N>, p: Path, q: Path)
    requires Consistent(t) && p in t.paths && q in t.paths && t.paths[p] == t.paths[q]
    ensures p == q
  {
    assert t.inodes[t.paths[p]] == p;
  }

  lemma ForgetKeepsConsistency<N(!new)>(t: Table<N>, p: Path)
    requires Consistent(t)
    ensures Consistent(Forgotten(t, p))
    ensures p !in Forgotten(t, p).paths && (p in t.paths ==> t.paths[p] !in Forgotten(t, p).inodes)
    ensures forall q | q != p :: Lookup(Forgotten(t, p).paths, q) == Lookup(t.paths, q)
  {
    if p in t.paths {
      forall q | q in t.paths && q != p
        ensures t.paths[q] != t.paths[p]
      {
        if t.paths[q] == t.paths[p] {
          NumbersAreUnique(t, p, q);
        }
      }
    }
  }

  lemma RenameKeepsConsistency<N(!new)>(t: Table<N>, from: Path, to: Path)
    requires Consistent(t)
    ensures Consistent(Renamed(t, from, to))
    ensures Lookup(Renamed(t, from, to).paths, to) == if from in t.paths then Some(t.paths[from]) else Lookup(t.paths, to)
    ensures from != to ==> from !in Renamed(t, from, to).paths
    ensures forall q | q != from && q != to :: Lookup(Renamed(t, from, to).paths, q) == Lookup(t.paths, q)
  {
    if from in t.paths {
      forall q | q in t.paths && q != from
        ensures t.paths[q] != t.paths[from]
      {
        if t.paths[q] == t.paths[from] {
          NumbersAreUnique(t, from, q);
        }
      }
    }
  }

  // ----- renaming a subtree -----

  /** The move can be undone, so no two paths land in one place. */
  lemma TargetReturns(from: Path, to: Path, p: Path)
    requires from <= p
    ensures to <= Target(from, to, p) && Target(to, from, Target(from, to, p)) == p
  {
    var q := Target(from, to, p);
    assert q[|to|..] == p[|from|..];
    assert from + p[|from|..] == p;
  }

  /** What the updates of a part of the subtree make of one path, and of one number. */
  predicate PathAt<N(==)>(t: Table<N>, from: Path, to: Path, done: set<Path>, t': Table<N>, p: Path) {
    Lookup(t'.paths, p)
    == if to <= p && Target(to, from, p) in done && Target(to, from, p) in t.paths
       then Some(t.paths[Target(to, from, p)])
       else if p in done then None
       else Lookup(t.paths, p)
  }

  predicate NumberAt<N(==)>(t: Table<N>, from: Path, to: Path, done: set<Path>, t': Table<N>, i: N) {
    Lookup(t'.inodes, i)
    == if i in t.inodes && t.inodes[i] in done && from <= t.inodes[i] && Lookup(t.paths, t.inodes[i]) == Some(i)
       then Some(Target(from, to, t.inodes[i]))
       else Lookup(t.inodes, i)
  }

  ghost predicate Halfway<N(!new)>(t: Table<N>, from: Path, to: Path, done: set<Path>, t': Table<N>) {
    && (forall p :: PathAt(t, from, to, done, t', p))
    && (forall i :: NumberAt(t, from, to, done, t', i))
  }

  lemma StepAdvancesPath<N(!new)>(t: Table<N>, from: Path, to: Path, done: set<Path>, t': Table<N>, p: Path, q: Path)
    requires LandsOutside(t, from, to) && PathAt(t, from, to, done, t', q) && done <= Subtree(t, from)
    requires p in Subtree(t, from) && p !in done
    ensures PathAt(t, from, to, done + {p}, Step(t', from, to, p, t.paths[p]), q)
  {
    TargetReturns(from, to, p);
    if to <= q {
      TargetReturns(to, from, q);
    }
  }

  lemma StepAdvancesNumber<N(!new)>(t: Table<N>, from: Path, to: Path, done: set<Path>, t': Table<N>, p: Path, i: N)
    requires Consistent(t) && NumberAt(t, from, to, done, t', i) && p in Subtree(t, from)
    ensures NumberAt(t, from, to, done + {p}, Step(t', from, to, p, t.paths[p]), i)
  {
    assert t.inodes[t.paths[p]] == p;
    hide Consistent;
  }

  lemma StepAdvances<N(!new)>(t: Table<N>, from: Path, to: Path, done: set<Path>, t': Table<N>, p: Path)
    requires Consistent(t) && LandsOutside(t, from, to)
    requires Halfway(t, from, to, done, t') && done <= Subtree(t, from)
    requires p in Subtree(t, from) && p !in done
    ensures Halfway(t, from, to, done + {p}, Step(t', from, to, p, t.paths[p]))
  {
    hide PathAt, NumberAt, Consistent, LandsOutside, Target;
    forall q
      ensures PathAt(t, from, to, done + {p}, Step(t', from, to, p, t.paths[p]), q)
    {
      StepAdvancesPath(t, from, to, done, t', p, q);
    }
    forall i
      ensures NumberAt(t, from, to, done + {p}, Step(t', from, to, p, t.paths[p]), i)
    {
      StepAdvancesNumber(t, from, to, done, t', p, i);
    }
  }

  lemma {:induction false} AppliedIsHalfway<N(!new)>(t: Table<N>, from: Path, to: Path, order: seq<Path>)
    requires Consistent(t) && LandsOutside(t, from, to)
    requires NoDuplicates(order) && forall p | p in order :: p in Subtree(t, from)
    ensures Halfway(t, from, to, (set p | p in order), Applied(t, from, to, order))
  {
    if order != [] {
      var n := |order| - 1;
      var front, last := order[..n], order[n];
      AppliedIsHalfway(t, from, to, front);
      assert order == front + [last];
      assert (set p | p in order) == (set p | p in front) + {last};
      assert last !in front;
      hide Halfway, Consistent, LandsOutside, Step;
      StepAdvances(t, from, to, (set p | p in front), Applied(t, from, to, front), last);
    }
  }

  lemma SubstitutedPath<N(!new)>(t: Table<N>, from: Path, to: Path, p: Path)
    ensures PathAt(t, from, to, Subtree(t, from), Substituted(t, from, to), p)
  {
    LandingIs(t, from, to, p);
    hide Landing;
  }

  lemma SubstitutedNumber<N(!new)>(t: Table<N>, from: Path, to: Path, i: N)
    ensures NumberAt(t, from, to, Subtree(t, from), Substituted(t, from, to), i)
  {
    hide Landing, Target;
  }

  lemma SubstitutedIsComplete<N(!new)>(t: Table<N>, from: Path, to: Path)
    ensures Halfway(t, from, to, Subtree(t, from), Substituted(t, from, to))
  {
    hide PathAt, NumberAt, Substituted, Subtree;
    forall p
      ensures PathAt(t, from, to, Subtree(t, from), Substituted(t, from, to), p)
    {
      SubstitutedPath(t, from, to, p);
    }
    forall i
      ensures NumberAt(t, from, to, Subtree(t, from), Substituted(t, from, to), i)
    {
      SubstitutedNumber(t, from, to, i);
    }
  }

  lemma LandingIs<N(!new)>(t: Table<N>, from: Path, to: Path, p: Path)
    ensures p in Landing(t, from, to) <==> to <= p && Target(to, from, p) in Subtree(t, from)
  {
    if to <= p {
      TargetReturns(to, from, p);
    }
    forall q | q in Subtree(t, from)
      ensures to <= Target(from, to, q) && Target(to, from, Target(from, to, q)) == q
    {
      TargetReturns(from, to, q);
    }
  }

  lemma HalfwayIsUnique<N(!new)>(t: Table<N>, from: Path, to: Path, done: set<Path>, a: Table<N>, b: Table<N>)
    requires Halfway(t, from, to, done, a) && Halfway(t, from, to, done, b)
    ensures a == b
  {
    forall p
      ensures Lookup(a.paths, p) == Lookup(b.paths, p)
    {
      assert PathAt(t, from, to, done, a, p) && PathAt(t, from, to, done, b, p);
    }
    forall i
      ensures Lookup(a.inodes, i) == Lookup(b.inodes, i)
    {
      assert NumberAt(t, from, to, done, a, i) && NumberAt(t, from, to, done, b, i);
    }
    hide *;
    SameLookups(a.paths, b.paths);
    SameLookups(a.inodes, b.inodes);
  }

  lemma SameLookups<K(!new), V>(a: map<K, V>, b: map<K, V>)
    requires forall k :: Lookup(a, k) == Lookup(b, k)
    ensures a == b
  {
    assert forall k :: k in a <==> Lookup(a, k).Some?;
    assert forall k :: k in b <==> Lookup(b, k).Some?;
    assert forall k | k in a :: Lookup(a, k) == Some(a[k]) && Lookup(b, k) == Some(b[k]);
  }

  /** When nothing lands on a moved path, the loop is one simultaneous prefix
      substitution, whatever the visiting order. */
  lemma {:induction false} RenameIsSubstitution<N(!new)>(t: Table<N>, from: Path, to: Path, order: seq<Path>)
    requires Consistent(t) && LandsOutside(t, from, to)
    requires Enumerates(order, Subtree(t, from))
    ensures Applied(t, from, to, order) == Substituted(t, from, to)
  {
    AppliedIsHalfway(t, from, to, order);
    SubstitutedIsComplete(t, from, to);
    assert (set p | p in order) == Subtree(t, from);
    HalfwayIsUnique(t, from, to, Subtree(t, from), Applied(t, from, to, order), Substituted(t, from, to));
  }

  /** Unrelated paths, and renaming a path to itself, satisfy the condition in every table. */
  lemma UnrelatedLandsOutside<N(!new)>(t: Table<N>, from: Path, to: Path)
    requires Unrelated(from, to) || from == to
    ensures LandsOutside(t, from, to)
  {
    forall p | p in Subtree(t, from)
      ensures Target(from, to, p) == p || Target(from, to, p) !in Subtree(t, from)
    {
      var q := Target(from, to, p);
      TargetReturns(from, to, p);
      if from <= q {
        PrefixesAreRelated(from, to, q);
      }
    }
  }

  lemma PrefixesAreRelated(a: Path, b: Path, p: Path)
    requires a <= p && b <= p
    ensures a <= b || b <= a
  {
    if |a| <= |b| {
      assert a == b[..|a|];
    } else {
      assert b == a[..|b|];
    }
  }

  /** The substitution keeps the table two-way and every moved number, in all cases. */
  lemma SubstitutionKeepsNumbers<N(!new)>(t: Table<N>, from: Path, to: Path)
    requires Consistent(t)
    ensures Consistent(Substituted(t, from, to))
    ensures forall p | p in Subtree(t, from) ::
              Lookup(Substituted(t, from, to).paths, Target(from, to, p)) == Some(t.paths[p])
    ensures forall p | p !in Landing(t, from, to) ::
              Lookup(Substituted(t, from, to).paths, p) == if from <= p then None else Lookup(t.paths, p)
  {
    var t' := Substituted(t, from, to);
    forall p | p in Subtree(t, from)
      ensures Lookup(t'.paths, Target(from, to, p)) == Some(t.paths[p])
    {
      TargetReturns(from, to, p);
      hide Landing, Substituted, Target, Consistent;
      SubstitutedPath(t, from, to, Target(from, to, p));
    }
    forall p | p in t'.paths
      ensures t'.paths[p] in t'.inodes && t'.inodes[t'.paths[p]] == p
    {
      SubstitutedLeadsBack(t, from, to, p);
    }
    forall p | p !in Landing(t, from, to)
      ensures Lookup(t'.paths, p) == if from <= p then None else Lookup(t.paths, p)
    {
    }
    hide Landing, Subtree, Substituted, Target;
  }

  lemma SubstitutedLeadsBack<N(!new)>(t: Table<N>, from: Path, to: Path, p: Path)
    requires Consistent(t) && p in Substituted(t, from, to).paths
    ensures var t' := Substituted(t, from, to); t'.paths[p] in t'.inodes && t'.inodes[t'.paths[p]] == p
  {
    SubstitutedPath(t, from, to, p);
    if to <= p {
      TargetReturns(to, from, p);
    }
    hide Landing;
  }

  /** A move that shifts one path shifts them all. */
  lemma MovesAllOrNone(from: Path, to: Path, p: Path, r: Path)
    requires from <= p && from <= r && Target(from, to, p) != p
    ensures Target(from, to, r) != r
  {
    assert p == from + p[|from|..] && r == from + r[|from|..];
    assert |to| == |from| ==> Target(from, to, r)[..|from|] == to && r[..|from|] == from;
  }

  /** When some moved path does land on another, the visiting order shows: an order that
      ends with those two loses the place where the first one landed. */
  lemma NestedOrderShows<N(!new)>(t: Table<N>, from: Path, to: Path, order: seq<Path>, p: Path)
    requires Consistent(t) && p in Subtree(t, from)
    requires Target(from, to, p) != p && Target(from, to, p) in Subtree(t, from)
    requires forall q | q in order :: q in Subtree(t, from)
    ensures Applied(t, from, to, order + [p, Target(from, to, p)]) != Substituted(t, from, to)
  {
    var r := Target(from, to, p);
    var full := order + [p, r];
    assert full[..|full| - 1] == order + [p] && full[|full| - 1] == r;
    TargetReturns(from, to, p);
    assert Target(from, to, r) != r by {
      MovesAllOrNone(from, to, p, r);
    }
    assert r !in Applied(t, from, to, full).paths;
    SubstitutionKeepsNumbers(t, from, to);
    assert Lookup(Substituted(t, from, to).paths, r) == Some(t.paths[p]);
  }

  lemma {:induction false} SomeOrder(s: set<Path>) returns (order: seq<Path>)
    ensures Enumerates(order, s)
    decreases |s|
  {
    if s == {} {
      order := [];
    } else {
      var p :| p in s;
      var rest := SomeOrder(s - {p});
      order := rest + [p];
    }
  }

  /** The loop is the substitution in every visiting order exactly when no moved path
      lands on another moved path. */
  lemma {:induction false} OrderIsIrrelevantExactly<N(!new)>(t: Table<N>, from: Path, to: Path)
    requires Consistent(t)
    ensures LandsOutside(t, from, to)
            <==> forall order | Enumerates(order, Subtree(t, from)) ::
                   Applied(t, from, to, order) == Substituted(t, from, to)
  {
    if LandsOutside(t, from, to) {
      forall order | Enumerates(order, Subtree(t, from))
        ensures Applied(t, from, to, order) == Substituted(t, from, to)
      {
        RenameIsSubstitution(t, from, to, order);
      }
    } else {
      var p :| p in Subtree(t, from) && Target(from, to, p) != p && Target(from, to, p) in Subtree(t, from);
      var r := Target(from, to, p);
      var order := SomeOrder(Subtree(t, from) - {p, r});
      NestedOrderShows(t, from, to, order, p);
      var full := order + [p, r];
      assert Enumerates(full, Subtree(t, from));
    }
  }
}

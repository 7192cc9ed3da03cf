/** Vocabulary shared by every part of the model. */
module Common {

  datatype Option<+T> = None | Some(value: T)

  newtype byte = b: int | 0 <= b < 0x100

  type Bytes = seq<byte>

  /** A relative path, component by component. `p <= q` (prefix of sequences) is the
      component-wise "q starts with p" of the file system. */
  type Path = seq<string>

  function Lookup<K, V>(m: map<K, V>, k: K): Option<V> {
    if k in m then Some(m[k]) else None
  }

  /** Neither path is an ancestor of the other. */
  predicate Unrelated(a: Path, b: Path) {
    !(a <= b) && !(b <= a)
  }

  /** A path at or below some member of `roots`. */
  predicate Covered(roots: set<Path>, p: Path) {
    exists d | d in roots :: d <= p
  }

  ghost predicate NoDuplicates<T>(s: seq<T>) {
    forall i, j | 0 <= i < j < |s| :: s[i] != s[j]
  }
}

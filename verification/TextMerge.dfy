/** The three-way text merge policy (crates/omnifuse-core/src/text_merge.rs).
    Texts are UTF-8 byte strings. The diff3 library is an arbitrary function. */
module TextMerge {
  import opened Common

  /** What the merge library answers: a clean merge, or a text it calls conflicting. */
  datatype DiffyResult = Clean(merged: Bytes) | Marked(text: Bytes)

  type Diffy = (Bytes, Bytes, Bytes) -> DiffyResult

  datatype MergeResult = NoConflict | Merged(text: Bytes) | Failed(local: Bytes, remote: Bytes)

  datatype Decision =
    | UploadLocal
    | UploadMerged(merged: Bytes)
    | AcceptRemote(remote: Bytes)
    | AlreadySynced
    | Conflict

  const OPENING: Bytes := [60, 60, 60, 60, 60, 60, 60]
  const CLOSING: Bytes := [62, 62, 62, 62, 62, 62, 62]

  predicate Contains(s: Bytes, part: Bytes) {
    part <= s || (s != [] && Contains(s[1..], part))
  }

  predicate HasMarkers(s: Bytes) {
    Contains(s, OPENING) || Contains(s, CLOSING)
  }

  /** Seven of the byte in a row, from position `i` on. */
  predicate SevenAt(s: Bytes, b: byte, i: nat) {
    i + 7 <= |s| && s[i] == s[i + 1] == s[i + 2] == s[i + 3] == s[i + 4] == s[i + 5] == s[i + 6] == b
  }

  lemma {:induction false} ContainsByPosition(s: Bytes, part: Bytes, b: byte)
    requires part == [b, b, b, b, b, b, b]
    ensures Contains(s, part) <==> exists i: nat :: SevenAt(s, b, i)
  {
    assert part <= s <==> SevenAt(s, b, 0);
    if s != [] {
      ContainsByPosition(s[1..], part, b);
      assert forall i: nat :: SevenAt(s[1..], b, i) <==> SevenAt(s, b, i + 1);
      if i: nat :| SevenAt(s, b, i) && i > 0 {
        assert SevenAt(s[1..], b, i - 1);
      }
    }
  }

  /** A text counts as marked exactly when seven less-than signs, or seven greater-than
      signs, stand in a row somewhere in it. */
  lemma {:induction false} MarkersByPosition(s: Bytes)
    ensures HasMarkers(s) <==> (exists i: nat :: SevenAt(s, 0x3C, i)) || exists i: nat :: SevenAt(s, 0x3E, i)
  {
    ContainsByPosition(s, OPENING, 0x3C);
    ContainsByPosition(s, CLOSING, 0x3E);
    hide Contains, SevenAt;
  }

  function ThreeWay(diffy: Diffy, base: Bytes, local: Bytes, remote: Bytes): MergeResult {
    if base == remote then NoConflict
    else if base == local then Merged(remote)
    else if local == remote then NoConflict
    else match diffy(base, local, remote)
      case Clean(m) => Merged(m)
      case Marked(t) => if HasMarkers(t) then Failed(local, remote) else Merged(t)
  }

  function Decide(diffy: Diffy, base: Bytes, local: Bytes, remote: Bytes): Decision {
    if base == remote then
      if local == remote then AlreadySynced else UploadLocal
    else if base == local then AcceptRemote(remote)
    else if local == remote then AlreadySynced
    else match ThreeWay(diffy, base, local, remote)
      case NoConflict => AlreadySynced
      case Merged(m) => UploadMerged(m)
      case Failed(_, _) => Conflict
  }

  /** The text that ends up on both sides, when the decision settles on one. */
  function Settled(d: Decision, local: Bytes): Option<Bytes> {
    match d
    case UploadLocal => Some(local)
    case UploadMerged(m) => Some(m)
    case AcceptRemote(r) => Some(r)
    case AlreadySynced => Some(local)
    case Conflict => None
  }

  /** An edit on one side only is never merged, dropped or called a conflict. */
  lemma OneSidedEditsWin(diffy: Diffy, base: Bytes, local: Bytes, remote: Bytes)
    ensures base == remote ==> Settled(Decide(diffy, base, local, remote), local) == Some(local)
    ensures base == local ==> Settled(Decide(diffy, base, local, remote), local) == Some(remote)
  {
  }

  /** Swapping local and remote swaps "upload mine" with "take theirs" and settles on the
      same text, wherever the library itself does not care about the order. */
  lemma BothSidesAgree(diffy: Diffy, base: Bytes, local: Bytes, remote: Bytes)
    requires diffy(base, local, remote) == diffy(base, remote, local)
    ensures Decide(diffy, base, local, remote) == UploadLocal
            <==> Decide(diffy, base, remote, local) == AcceptRemote(local) && local != remote
    ensures Settled(Decide(diffy, base, local, remote), local)
            == Settled(Decide(diffy, base, remote, local), remote)
  {
  }

  /** Refusal happens exactly on two-sided, different edits that the library marks. */
  lemma RefusedExactlyWhenMarked(diffy: Diffy, base: Bytes, local: Bytes, remote: Bytes)
    ensures Decide(diffy, base, local, remote).Conflict?
            <==> base != local && base != remote && local != remote
                 && diffy(base, local, remote).Marked?
                 && HasMarkers(diffy(base, local, remote).text)
    ensures Decide(diffy, base, local, remote).AlreadySynced? <==> local == remote
    ensures Decide(diffy, base, local, remote).UploadMerged?
            <==> base != local && base != remote && local != remote
                 && (diffy(base, local, remote).Clean? || !HasMarkers(diffy(base, local, remote).text))
    ensures forall m :: Decide(diffy, base, local, remote) == UploadMerged(m) ==>
              m == match diffy(base, local, remote) case Clean(c) => c case Marked(text) => text
    ensures Decide(diffy, base, local, remote).AcceptRemote? <==> base == local && local != remote
    ensures Decide(diffy, base, local, remote).UploadLocal? <==> base == remote && local != remote
  {
  }
}

/** Refresh from remote: diff, protect, classify, apply (session.rs:595-814). */
module S3Refresh {
  import opened Common
  import opened S3World
  import opened TextMerge

  datatype Mode = ApplySafe | DetectOnly

  datatype DeferReason = ProtectedLocalChange | DetectOnlyMode | MergeConflict

  datatype RefreshResult =
    | Unchanged
    | Applied(changed: seq<Path>, deleted: seq<Path>)
    | Deferred(affected: seq<Path>, reason: DeferReason)
    | ReadFailed

  /** What one remote change means locally (`ChangeDecision`). */
  datatype Plan =
    | WriteRemote(bytes: Bytes, state: ObjectState)
    | WriteMerged(merged: Bytes, remote: Bytes, state: ObjectState)
    | RefreshState(state: ObjectState, remote: Bytes)
    | DeleteLocal
    | Refuse

  /** Keys whose listed generation is not the manifest's, and keys gone from the listing. */
  function Changes(s: Setting, w: World, listing: map<Path, nat>): set<Path> {
    (set k | k in listing && !(k in w.manifest && SameGeneration(w.manifest[k], s.listMeta(k, listing[k]))))
    + (set k | k in w.manifest && k !in listing)
  }

  /** `order` visits every change once. The code goes through sorted maps; nothing below
      depends on which order it is. */
  ghost predicate Visits(order: seq<Path>, changes: set<Path>) {
    NoDuplicates(order) && (forall k :: k in order <==> k in changes)
  }

  /** The bytes a cached read returns, or nothing when the object is gone. */
  function ReadBytes(s: Setting, w: World, k: Path, etag: Option<string>): Option<Bytes>
    requires LogOk(w)
  {
    match CacheHit(s, w, k, etag)
    case Some(bytes) => Some(bytes)
    case None => if k in w.live then Some(LiveBytes(w, k)) else None
  }

  /** `classify_remote_change`; nothing when the remote read fails. */
  function Classify(s: Setting, w: World, listing: map<Path, nat>, k: Path): Option<Plan>
    requires LogOk(w)
  {
    if k in listing then
      var state := s.listMeta(k, listing[k]);
      match ReadBytes(s, w, k, state.etag)
      case None => None
      case Some(remote) =>
        if k !in w.local || !LocalChanged(w, k) then Some(WriteRemote(remote, state))
        else
          var base := BaseOrEmpty(w, k);
          if !(s.utf8(base) && s.utf8(w.local[k]) && s.utf8(remote)) then Some(Refuse)
          else match Decide(s.diffy, base, w.local[k], remote)
            case UploadLocal => Some(RefreshState(state, remote))
            case UploadMerged(m) => Some(WriteMerged(m, remote, state))
            case AcceptRemote(r) => Some(WriteRemote(r, state))
            case AlreadySynced => Some(RefreshState(state, remote))
            case Conflict => Some(Refuse)
    else if k in w.local && LocalChanged(w, k) then Some(Refuse)
    else Some(DeleteLocal)
  }

  /** One step of the apply loop. */
  function ApplyPlan(w: World, k: Path, plan: Plan): (r: World)
    ensures r == w.(local := r.local, base := r.base, manifest := r.manifest, held := r.held)
  {
    match plan
    case WriteRemote(bytes, state) => Record(w.(local := w.local[k := bytes]), k, state, bytes, bytes)
    case WriteMerged(merged, remote, state) => Record(w.(local := w.local[k := merged]), k, state, remote, remote)
    case RefreshState(state, remote) =>
      w.(manifest := w.manifest[k := state], held := w.held[k := remote])
    case DeleteLocal => Forget(w.(local := w.local - {k}), k)
    case Refuse => w
  }

  /** Cache effect of classifying one change. */
  function Fetched(s: Setting, w: World, listing: map<Path, nat>, k: Path): World
    requires LogOk(w)
  {
    if k !in listing then w
    else
      var etag := s.listMeta(k, listing[k]).etag;
      match ReadBytes(s, w, k, etag)
      case None => w
      case Some(bytes) => FileRead(s, w, k, etag, bytes)
  }

  /** Cache effect of classifying the changes in order. */
  function FetchAll(s: Setting, w: World, listing: map<Path, nat>, order: seq<Path>): (r: World)
    requires LogOk(w)
    ensures r == w.(cache := r.cache)
  {
    if order == [] then w
    else Fetched(s, FetchAll(s, w, listing, order[..|order| - 1]), listing, order[|order| - 1])
  }

  /** How many leading changes could be classified. */
  function ReadableCount(s: Setting, w: World, listing: map<Path, nat>, order: seq<Path>): (n: nat)
    requires LogOk(w)
    ensures n <= |order|
    ensures forall i | 0 <= i < n :: Classify(s, w, listing, order[i]).Some?
    ensures n < |order| ==> Classify(s, w, listing, order[n]).None?
  {
    if order == [] then 0
    else
      var n := ReadableCount(s, w, listing, order[..|order| - 1]);
      if n == |order| - 1 && Classify(s, w, listing, order[n]).Some? then |order| else n
  }

  function Refused(s: Setting, w: World, listing: map<Path, nat>, order: seq<Path>): (r: seq<Path>)
    requires LogOk(w)
    ensures forall k :: k in r <==> k in order && Classify(s, w, listing, k) == Some(Refuse)
  {
    if order == [] then []
    else
      var k := order[|order| - 1];
      Refused(s, w, listing, order[..|order| - 1]) + if Classify(s, w, listing, k) == Some(Refuse) then [k] else []
  }

  /** The apply loop: plans made from `w`, carried out on `acc`. */
  function ApplyAll(s: Setting, w: World, listing: map<Path, nat>, order: seq<Path>, acc: World): (r: World)
    requires LogOk(w)
    ensures r == acc.(local := r.local, base := r.base, manifest := r.manifest, held := r.held)
  {
    if order == [] then acc
    else
      var k := order[|order| - 1];
      var before := ApplyAll(s, w, listing, order[..|order| - 1], acc);
      hide Classify, ApplyPlan;
      match Classify(s, w, listing, k)
      case Some(plan) => ApplyPlan(before, k, plan)
      case None => before
  }

  /** The changes the index protects. */
  function Guarded(order: seq<Path>, index: set<Path>): (r: seq<Path>)
    ensures forall k :: k in r <==> k in order && Covered(index, k)
  {
    if order == [] then []
    else
      var k := order[|order| - 1];
      Guarded(order[..|order| - 1], index) + if Covered(index, k) then [k] else []
  }

  /** The changes still listed, or those gone from the listing. */
  function Listed(order: seq<Path>, listing: map<Path, nat>, present: bool): (r: seq<Path>)
    ensures forall k :: k in r <==> k in order && (k in listing <==> present)
  {
    if order == [] then []
    else
      var k := order[|order| - 1];
      Listed(order[..|order| - 1], listing, present) + if (k in listing) == present then [k] else []
  }

  /** `refresh_remote` after the listing answered. */
  function Refresh(s: Setting, w: World, listing: map<Path, nat>, order: seq<Path>, index: set<Path>, mode: Mode)
    : (World, RefreshResult)
    requires LogOk(w)
  {
    var guarded := Guarded(order, index);
    if order == [] then (w, Unchanged)
    else if guarded != [] then (w, Deferred(guarded, ProtectedLocalChange))
    else if mode == DetectOnly then (w, Deferred(order, DetectOnlyMode))
    else
      var n := ReadableCount(s, w, listing, order);
      var fetched := FetchAll(s, w, listing, order[..n]);
      var refused := Refused(s, w, listing, order);
      if n < |order| then (fetched, ReadFailed)
      else if refused != [] then (fetched, Deferred(refused, MergeConflict))
      else (ApplyAll(s, w, listing, order, fetched),
            Applied(Listed(order, listing, true), Listed(order, listing, false)))
  }

  // ---------------------------------------------------------------- effects key by key

  /** What a plan does to its own key. */
  function Planned(view: FileView, plan: Plan): FileView {
    match plan
    case WriteRemote(bytes, state) => FileView(Some(bytes), Some(bytes), Some(state), Some(bytes))
    case WriteMerged(merged, remote, state) => FileView(Some(merged), Some(remote), Some(state), Some(remote))
    case RefreshState(state, remote) => view.(entry := Some(state), held := Some(remote))
    case DeleteLocal => FileView(None, None, None, None)
    case Refuse => view
  }

  lemma ApplyPlanAt(w: World, k: Path, plan: Plan, q: Path)
    ensures ViewOf(ApplyPlan(w, k, plan), q) == if q == k then Planned(ViewOf(w, k), plan) else ViewOf(w, q)
  {
  }

  /** The view of one key after the apply loop: its own plan carried out, or nothing. */
  function ViewAfter(s: Setting, w: World, listing: map<Path, nat>, order: seq<Path>, view: FileView, k: Path): FileView
    requires LogOk(w)
  {
    var plan := Classify(s, w, listing, k);
    if k in order && plan.Some? then Planned(view, plan.value) else view
  }

  /** The apply loop does to each change exactly what its own plan says, and nothing to
      any other key, whatever the order. */
  lemma {:induction false} ApplyAllKeywise(s: Setting, w: World, listing: map<Path, nat>, order: seq<Path>, acc: World, k: Path)
    requires LogOk(w) && NoDuplicates(order)
    ensures ViewOf(ApplyAll(s, w, listing, order, acc), k) == ViewAfter(s, w, listing, order, ViewOf(acc, k), k)
  {
    if order != [] {
      var last, front := order[|order| - 1], order[..|order| - 1];
      ApplyAllKeywise(s, w, listing, front, acc, k);
      var plan := Classify(s, w, listing, last);
      if plan.Some? {
        ApplyPlanAt(ApplyAll(s, w, listing, front, acc), last, plan.value, k);
      }
      assert order == front + [last];
    }
  }

  /** A refresh is applied only when every change was readable, mergeable and unguarded. */
  lemma AppliedChange(s: Setting, w: World, listing: map<Path, nat>, order: seq<Path>, index: set<Path>, mode: Mode, k: Path)
    requires LogOk(w) && k in order
    requires Refresh(s, w, listing, order, index, mode).1.Applied?
    ensures Classify(s, w, listing, k).Some? && Classify(s, w, listing, k) != Some(Refuse) && !Covered(index, k)
  {
    var i :| 0 <= i < |order| && order[i] == k;
    assert i < ReadableCount(s, w, listing, order);
    assert k !in Refused(s, w, listing, order);
    assert k !in Guarded(order, index);
  }

  lemma AppliedWorld(s: Setting, w: World, listing: map<Path, nat>, order: seq<Path>, index: set<Path>, mode: Mode)
    requires LogOk(w)
    ensures var (after, result) := Refresh(s, w, listing, order, index, mode);
            if result.Applied? then after == ApplyAll(s, w, listing, order, FetchAll(s, w, listing, order))
            else after == w.(cache := after.cache)
  {
    hide FetchAll, ApplyAll, ReadableCount, Refused, Guarded, Listed, Classify;
    assert order[..|order|] == order;
  }

  /** A refresh stays within the session's own files and the cache. */
  lemma RefreshFrame(s: Setting, w: World, listing: map<Path, nat>, order: seq<Path>, index: set<Path>, mode: Mode)
    requires LogOk(w)
    ensures var after := Refresh(s, w, listing, order, index, mode).0;
            after == w.(local := after.local, base := after.base, manifest := after.manifest, held := after.held,
                        cache := after.cache)
  {
    hide Refresh;
    AppliedWorld(s, w, listing, order, index, mode);
  }

  /** What a refresh adds to the cache is what it read, change by change, up to where it stopped. */
  lemma RefreshReads(s: Setting, w: World, listing: map<Path, nat>, order: seq<Path>, index: set<Path>, mode: Mode)
    returns (n: nat)
    requires LogOk(w)
    ensures n <= |order|
    ensures Refresh(s, w, listing, order, index, mode).0.cache == FetchAll(s, w, listing, order[..n]).cache
  {
    hide ApplyAll, ReadableCount, Refused, Guarded, Listed, Classify;
    n := if Refresh(s, w, listing, order, index, mode).0 == w then 0 else ReadableCount(s, w, listing, order);
    assert order[..0] == [];
  }

  /** The whole refresh, seen from one key. */
  lemma RefreshKeywise(s: Setting, w: World, listing: map<Path, nat>, order: seq<Path>, index: set<Path>, mode: Mode, k: Path)
    requires LogOk(w) && Visits(order, Changes(s, w, listing))
    ensures var (after, result) := Refresh(s, w, listing, order, index, mode);
            ViewOf(after, k) == if result.Applied? then ViewAfter(s, w, listing, order, ViewOf(w, k), k) else ViewOf(w, k)
  {
    AppliedWorld(s, w, listing, order, index, mode);
    var fetched := FetchAll(s, w, listing, order);
    assert ViewOf(fetched, k) == ViewOf(w, k);
    ApplyAllKeywise(s, w, listing, order, fetched, k);
  }

  /** A path covered by the index is left alone by any refresh: a guarded change defers the
      whole refresh, and without a change of its own the path is never touched. */
  lemma RefreshSparesCovered(s: Setting, w: World, listing: map<Path, nat>, order: seq<Path>, index: set<Path>, mode: Mode, k: Path)
    requires LogOk(w) && Visits(order, Changes(s, w, listing)) && Covered(index, k)
    ensures ViewOf(Refresh(s, w, listing, order, index, mode).0, k) == ViewOf(w, k)
  {
    RefreshKeywise(s, w, listing, order, index, mode, k);
    if Refresh(s, w, listing, order, index, mode).1.Applied? && k in order {
      AppliedChange(s, w, listing, order, index, mode, k);
    }
  }

  /** The file differs from the text a merge starts from: its base, or nothing. */
  predicate EditedLocally(w: World, k: Path) {
    k in w.local && w.local[k] != BaseOrEmpty(w, k)
  }

  /** The merge of base, file and remote bytes that a refresh computes. */
  predicate IsRefreshMerge(s: Setting, w: World, listing: map<Path, nat>, k: Path, merged: Bytes)
    requires LogOk(w) && k in w.local
  {
    k in listing
    && var remote := ReadBytes(s, w, k, s.listMeta(k, listing[k]).etag);
       remote.Some? && Decide(s.diffy, BaseOrEmpty(w, k), w.local[k], remote.value) == UploadMerged(merged)
  }

  lemma PlanKeepsEdits(s: Setting, w: World, listing: map<Path, nat>, k: Path)
    requires LogOk(w) && EditedLocally(w, k) && Classify(s, w, listing, k).Some?
    ensures var local := Planned(ViewOf(w, k), Classify(s, w, listing, k).value).local;
            local.Some? && (local.value == w.local[k] || IsRefreshMerge(s, w, listing, k, local.value))
  {
  }

  /** A refresh never discards a local edit: the file stays, or becomes the three-way
      merge of its base, itself and the remote bytes. */
  lemma RefreshKeepsEdits(s: Setting, w: World, listing: map<Path, nat>, order: seq<Path>, index: set<Path>, mode: Mode, k: Path)
    requires LogOk(w) && Visits(order, Changes(s, w, listing)) && EditedLocally(w, k)
    ensures var after := Refresh(s, w, listing, order, index, mode).0;
            k in after.local
            && (after.local[k] == w.local[k] || IsRefreshMerge(s, w, listing, k, after.local[k]))
  {
    RefreshKeywise(s, w, listing, order, index, mode, k);
    if Classify(s, w, listing, k).Some? {
      PlanKeepsEdits(s, w, listing, k);
    }
    var after := Refresh(s, w, listing, order, index, mode).0;
    assert ViewOf(after, k).local == Lookup(after.local, k);
  }

  /** The other half: when a refresh is applied, a changed key whose file carries no edit
      takes the remote bytes, or disappears with the remote object. */
  lemma RefreshUpdatesUnedited(s: Setting, w: World, listing: map<Path, nat>, order: seq<Path>, index: set<Path>, mode: Mode, k: Path)
    requires LogOk(w) && Visits(order, Changes(s, w, listing)) && k in order
    requires k in w.local ==> k in w.base && w.local[k] == w.base[k]
    requires Refresh(s, w, listing, order, index, mode).1.Applied?
    ensures var view := ViewOf(Refresh(s, w, listing, order, index, mode).0, k);
            if k in listing then
              var remote := ReadBytes(s, w, k, s.listMeta(k, listing[k]).etag);
              remote.Some? && view.local == remote && view.base == remote
              && view.entry == Some(s.listMeta(k, listing[k]))
            else view.local.None? && view.base.None? && view.entry.None?
  {
    hide Refresh, Classify, ReadBytes, Changes, Visits, LogOk, Planned;
    RefreshKeywise(s, w, listing, order, index, mode, k);
    AppliedChange(s, w, listing, order, index, mode, k);
    PlanUpdatesUnedited(s, w, listing, k);
  }

  lemma PlanUpdatesUnedited(s: Setting, w: World, listing: map<Path, nat>, k: Path)
    requires LogOk(w) && (k in w.local ==> k in w.base && w.local[k] == w.base[k])
    requires Classify(s, w, listing, k).Some? && Classify(s, w, listing, k) != Some(Refuse)
    ensures var view := Planned(ViewOf(w, k), Classify(s, w, listing, k).value);
            if k in listing then
              var remote := ReadBytes(s, w, k, s.listMeta(k, listing[k]).etag);
              remote.Some? && view.local == remote && view.base == remote
              && view.entry == Some(s.listMeta(k, listing[k]))
            else view.local.None? && view.base.None? && view.entry.None?
  {
    hide ReadBytes, Decide;
  }

  lemma PlanRecordsRemote(s: Setting, w: World, listing: map<Path, nat>, k: Path)
    requires LogOk(w) && k in listing
    requires Classify(s, w, listing, k).Some? && Classify(s, w, listing, k) != Some(Refuse)
    ensures var state := s.listMeta(k, listing[k]);
            var remote := ReadBytes(s, w, k, state.etag);
            var view := Planned(ViewOf(w, k), Classify(s, w, listing, k).value);
            remote.Some? && view.entry == Some(state) && view.held == remote
            && (view.base == remote
                || (view.base == Lookup(w.base, k) && view.local == Lookup(w.local, k)
                    && (view.local == remote || BaseOrEmpty(w, k) == remote.value)))
  {
    hide ReadBytes;
  }

  /** What an applied refresh records about a listed change: its generation, with the remote
      bytes as the new base; only where the file or the base already equals the remote bytes
      do file and base stay as they were. */
  lemma {:induction false} RefreshRecordsRemote(
    s: Setting, w: World, listing: map<Path, nat>, order: seq<Path>, index: set<Path>, mode: Mode, k: Path)
    requires LogOk(w) && Visits(order, Changes(s, w, listing)) && k in order && k in listing
    requires Refresh(s, w, listing, order, index, mode).1.Applied?
    ensures var state := s.listMeta(k, listing[k]);
            var remote := ReadBytes(s, w, k, state.etag);
            var view := ViewOf(Refresh(s, w, listing, order, index, mode).0, k);
            remote.Some? && view.entry == Some(state) && view.held == remote
            && (view.base == remote
                || (view.base == Lookup(w.base, k) && view.local == Lookup(w.local, k)
                    && (view.local == remote || BaseOrEmpty(w, k) == remote.value)))
  {
    hide Refresh, Classify, ReadBytes, Changes, Visits, LogOk, Planned;
    RefreshKeywise(s, w, listing, order, index, mode, k);
    AppliedChange(s, w, listing, order, index, mode, k);
    PlanRecordsRemote(s, w, listing, k);
  }

  /** Two sides that cannot be brought together: a text that is not UTF-8, or three
      different texts that the library marks. */
  predicate TextsClash(s: Setting, base: Bytes, local: Bytes, remote: Bytes) {
    !s.utf8(base) || !s.utf8(local) || !s.utf8(remote)
    || (base != local && base != remote && local != remote
        && s.diffy(base, local, remote).Marked? && HasMarkers(s.diffy(base, local, remote).text))
  }

  /** The text on which three sides that do not clash agree: the side that changed, and the
      library's text when both did. */
  function AgreedText(s: Setting, base: Bytes, local: Bytes, remote: Bytes): Bytes {
    if base == remote || local == remote then local
    else if base == local then remote
    else match s.diffy(base, local, remote)
      case Clean(merged) => merged
      case Marked(text) => text
  }

  /** The file was edited, or never had a base, and its remote object is gone from the
      listing or clashes with it. */
  predicate ChangeConflicts(s: Setting, w: World, listing: map<Path, nat>, k: Path, remote: Option<Bytes>) {
    k in w.local && (k !in w.base || w.local[k] != w.base[k])
    && (k !in listing || (remote.Some? && TextsClash(s, BaseOrEmpty(w, k), w.local[k], remote.value)))
  }

  /** The change cannot be read, or conflicts. */
  predicate Stops(s: Setting, w: World, listing: map<Path, nat>, k: Path)
    requires LogOk(w)
  {
    var remote := if k in listing then ReadBytes(s, w, k, s.listMeta(k, listing[k]).etag) else None;
    (k in listing && remote.None?)
    || ChangeConflicts(s, w, listing, k, remote)
  }

  lemma StopsAreUnclassified(s: Setting, w: World, listing: map<Path, nat>, k: Path)
    requires LogOk(w)
    ensures Stops(s, w, listing, k) <==> Classify(s, w, listing, k).None? || Classify(s, w, listing, k) == Some(Refuse)
  {
    hide HasMarkers;
  }

  predicate Unreadable(s: Setting, w: World, listing: map<Path, nat>, k: Path)
    requires LogOk(w)
  {
    k in listing && ReadBytes(s, w, k, s.listMeta(k, listing[k]).etag).None?
  }

  /** What a refresh has to answer: the first of these that is the case. */
  ghost predicate AnswersWith(
    s: Setting, w: World, listing: map<Path, nat>, order: seq<Path>, index: set<Path>, mode: Mode, result: RefreshResult)
    requires LogOk(w)
  {
    if order == [] then result == Unchanged
    else if exists k :: k in order && Covered(index, k) then
      result.Deferred? && result.reason == ProtectedLocalChange
      && forall k :: k in result.affected <==> k in order && Covered(index, k)
    else if mode == DetectOnly then result == Deferred(order, DetectOnlyMode)
    else if exists k :: k in order && Unreadable(s, w, listing, k) then result == ReadFailed
    else if exists k :: k in order && Stops(s, w, listing, k) then
      result.Deferred? && result.reason == MergeConflict
      && forall k :: k in result.affected <==> k in order && Stops(s, w, listing, k)
    else
      result.Applied?
      && (forall k :: k in result.changed <==> k in order && k in listing)
      && (forall k :: k in result.deleted <==> k in order && k !in listing)
  }

  lemma UnreadableIsUnclassified(s: Setting, w: World, listing: map<Path, nat>, k: Path)
    requires LogOk(w)
    ensures Unreadable(s, w, listing, k) <==> Classify(s, w, listing, k).None?
  {
    hide Decide;
  }

  /** With nothing protected, the answer depends on how far the reads came and on what they
      brought. */
  lemma UnguardedAnswer(s: Setting, w: World, listing: map<Path, nat>, order: seq<Path>, index: set<Path>)
    requires LogOk(w) && order != [] && Guarded(order, index) == []
    ensures var n, refused := ReadableCount(s, w, listing, order), Refused(s, w, listing, order);
            Refresh(s, w, listing, order, index, ApplySafe).1
            == if n < |order| then ReadFailed
               else if refused != [] then Deferred(refused, MergeConflict)
               else Applied(Listed(order, listing, true), Listed(order, listing, false))
  {
    hide ApplyAll, FetchAll, ReadableCount, Refused, Guarded, Listed;
  }

  lemma GuardedAnswer(s: Setting, w: World, listing: map<Path, nat>, order: seq<Path>, index: set<Path>, mode: Mode)
    requires LogOk(w) && order != [] && (Guarded(order, index) != [] || mode == DetectOnly)
    ensures Refresh(s, w, listing, order, index, mode).1
            == if Guarded(order, index) != [] then Deferred(Guarded(order, index), ProtectedLocalChange)
               else Deferred(order, DetectOnlyMode)
  {
    hide ApplyAll, FetchAll, ReadableCount, Refused, Guarded, Listed;
  }

  /** A read fails exactly when some change cannot be read. */
  lemma ReadsFail(s: Setting, w: World, listing: map<Path, nat>, order: seq<Path>)
    requires LogOk(w)
    ensures ReadableCount(s, w, listing, order) < |order| <==> exists k :: k in order && Unreadable(s, w, listing, k)
  {
    var n := ReadableCount(s, w, listing, order);
    hide Classify, Unreadable, ReadableCount;
    if n < |order| {
      assert order[n] in order;
      UnreadableIsUnclassified(s, w, listing, order[n]);
    } else if k :| k in order && Unreadable(s, w, listing, k) {
      UnreadableIsUnclassified(s, w, listing, k);
    }
  }

  lemma ConflictsAreRefused(s: Setting, w: World, listing: map<Path, nat>, order: seq<Path>)
    requires LogOk(w) && forall k | k in order :: !Unreadable(s, w, listing, k)
    ensures forall k :: k in Refused(s, w, listing, order) <==> k in order && Stops(s, w, listing, k)
  {
    hide Classify, Unreadable, Stops;
    forall k | k in order
      ensures Stops(s, w, listing, k) <==> Classify(s, w, listing, k) == Some(Refuse)
    {
      UnreadableIsUnclassified(s, w, listing, k);
      StopsAreUnclassified(s, w, listing, k);
    }
  }

  lemma AnswersWhenGuarded(
    s: Setting, w: World, listing: map<Path, nat>, order: seq<Path>, index: set<Path>, mode: Mode)
    requires LogOk(w) && order != [] && (Guarded(order, index) != [] || mode == DetectOnly)
    ensures AnswersWith(s, w, listing, order, index, mode, Refresh(s, w, listing, order, index, mode).1)
  {
    hide Refresh, Stops, Covered, Unreadable, Guarded;
    SomeGuarded(order, index);
    GuardedAnswer(s, w, listing, order, index, mode);
  }

  lemma AnswersWhenUnguarded(s: Setting, w: World, listing: map<Path, nat>, order: seq<Path>, index: set<Path>)
    requires LogOk(w) && order != [] && Guarded(order, index) == []
    ensures AnswersWith(s, w, listing, order, index, ApplySafe, Refresh(s, w, listing, order, index, ApplySafe).1)
  {
    hide Refresh, Classify, Stops, Covered, Unreadable, ReadableCount, Refused, Guarded, Listed;
    SomeGuarded(order, index);
    UnguardedAnswer(s, w, listing, order, index);
    ReadsFail(s, w, listing, order);
    if ReadableCount(s, w, listing, order) == |order| {
      ConflictsAreRefused(s, w, listing, order);
      var refused := Refused(s, w, listing, order);
      assert refused != [] ==> refused[0] in refused;
    }
  }

  /** Every answer of a refresh, and when it is given: nothing changed, something is
      protected, the mode only detects, a read failed, some changes conflict, or all of them
      were applied. A new remote file, an unedited file and an edit that merges never stop it. */
  lemma {:induction false} RefreshAnswersExactly(
    s: Setting, w: World, listing: map<Path, nat>, order: seq<Path>, index: set<Path>, mode: Mode)
    requires LogOk(w)
    ensures AnswersWith(s, w, listing, order, index, mode, Refresh(s, w, listing, order, index, mode).1)
  {
    if order != [] {
      if Guarded(order, index) != [] || mode == DetectOnly {
        AnswersWhenGuarded(s, w, listing, order, index, mode);
      } else {
        AnswersWhenUnguarded(s, w, listing, order, index);
      }
    }
    hide Classify, Stops, Covered, Unreadable, ReadableCount, Refused, Guarded, Listed, ApplyAll, FetchAll, LogOk;
  }

  lemma SomeGuarded(order: seq<Path>, index: set<Path>)
    ensures Guarded(order, index) != [] <==> exists k :: k in order && Covered(index, k)
  {
    var guarded := Guarded(order, index);
    assert guarded != [] ==> guarded[0] in guarded;
    hide Guarded, Covered;
  }

  /** All or nothing: unless it is applied, a refresh leaves every file, base and manifest
      entry as it was; and it is applied exactly when there is a change, the mode allows it,
      and no change is protected, unreadable or in conflict. */
  lemma {:induction false} RefreshIsAllOrNothing(
    s: Setting, w: World, listing: map<Path, nat>, order: seq<Path>, index: set<Path>, mode: Mode)
    requires LogOk(w)
    ensures var (after, result) := Refresh(s, w, listing, order, index, mode);
            (!result.Applied? ==> after == w.(cache := after.cache))
            && (result.Applied? <==>
                order != [] && mode == ApplySafe
                && forall k | k in order :: !Covered(index, k) && !Stops(s, w, listing, k))
  {
    AppliedWorld(s, w, listing, order, index, mode);
    RefreshAnswersExactly(s, w, listing, order, index, mode);
    AppliedAnswer(s, w, listing, order, index, mode, Refresh(s, w, listing, order, index, mode).1);
    hide *;
  }

  lemma AppliedAnswer(
    s: Setting, w: World, listing: map<Path, nat>, order: seq<Path>, index: set<Path>, mode: Mode, result: RefreshResult)
    requires LogOk(w) && AnswersWith(s, w, listing, order, index, mode, result)
    ensures result.Applied? <==>
            order != [] && mode == ApplySafe && forall k | k in order :: !Covered(index, k) && !Stops(s, w, listing, k)
  {
    UnreadableStops(s, w, listing);
    hide Stops, Unreadable, Covered, LogOk;
  }

  lemma UnreadableStops(s: Setting, w: World, listing: map<Path, nat>)
    requires LogOk(w)
    ensures forall k | Unreadable(s, w, listing, k) :: Stops(s, w, listing, k)
  {
    hide ReadBytes, ChangeConflicts;
  }

  lemma PlanSettlesText(s: Setting, w: World, listing: map<Path, nat>, k: Path)
    requires LogOk(w) && k in listing && !Stops(s, w, listing, k)
    ensures Classify(s, w, listing, k).Some?
    ensures var remote := ReadBytes(s, w, k, s.listMeta(k, listing[k]).etag);
            var view := Planned(ViewOf(w, k), Classify(s, w, listing, k).value);
            remote.Some?
            && view.local == Some(if k in w.local && LocalChanged(w, k)
                                  then AgreedText(s, BaseOrEmpty(w, k), w.local[k], remote.value) else remote.value)
            && view.base == if k in w.local && LocalChanged(w, k) && remote.value in {BaseOrEmpty(w, k), w.local[k]}
                            then Lookup(w.base, k) else remote
  {
    hide HasMarkers;
  }

  /** What an applied refresh leaves in the file of a listed change: the remote bytes where
      there was no edit, else the text both sides agree on. The base becomes the remote bytes
      too, unless the edit met a remote that equals it or its base. */
  lemma {:induction false} RefreshSettlesText(
    s: Setting, w: World, listing: map<Path, nat>, order: seq<Path>, index: set<Path>, mode: Mode, k: Path)
    requires LogOk(w) && Visits(order, Changes(s, w, listing)) && k in order && k in listing
    requires Refresh(s, w, listing, order, index, mode).1.Applied?
    ensures var remote := ReadBytes(s, w, k, s.listMeta(k, listing[k]).etag);
            var after := Refresh(s, w, listing, order, index, mode).0;
            remote.Some?
            && Lookup(after.local, k)
               == Some(if k in w.local && w.local[k] != BaseOrEmpty(w, k)
                       then AgreedText(s, BaseOrEmpty(w, k), w.local[k], remote.value) else remote.value)
            && Lookup(after.base, k)
               == if k in w.local && (k !in w.base || w.local[k] != w.base[k])
                     && remote.value in {BaseOrEmpty(w, k), w.local[k]}
                  then Lookup(w.base, k) else remote
  {
    hide Refresh, Classify, Stops, Changes, Visits, LogOk, Planned, ReadBytes, AgreedText;
    RefreshKeywise(s, w, listing, order, index, mode, k);
    RefreshIsAllOrNothing(s, w, listing, order, index, mode);
    PlanSettlesText(s, w, listing, k);
    var after := Refresh(s, w, listing, order, index, mode).0;
    assert ViewOf(after, k).local == Lookup(after.local, k) && ViewOf(after, k).base == Lookup(after.base, k);
    if k in w.local && k !in w.base && w.local[k] == [] {
      EmptyAgrees(s, ReadBytes(s, w, k, s.listMeta(k, listing[k]).etag).value);
    }
  }

  /** A file with neither text nor base carries no edit. */
  lemma EmptyAgrees(s: Setting, remote: Bytes)
    ensures AgreedText(s, [], [], remote) == remote
  {
  }

  lemma FixpointAt(s: Setting, w: World, listing: map<Path, nat>, order: seq<Path>, k: Path)
    requires Honest(s) && LogOk(w) && Visits(order, Changes(s, w, listing))
    requires k in listing ==> s.etagOf(k, listing[k]).Some?
    requires k in order ==> Classify(s, w, listing, k).Some? && Classify(s, w, listing, k) != Some(Refuse)
    ensures var entry := ViewAfter(s, w, listing, order, ViewOf(w, k), k).entry;
            if k in listing then entry.Some? && SameGeneration(entry.value, s.listMeta(k, listing[k])) else entry.None?
  {
    if k in listing {
      assert Describes(s, s.listMeta(k, listing[k]), k, listing[k]);
    }
    assert k in order <==> k in Changes(s, w, listing);
  }

  /** After an applied refresh the manifest lists exactly the remote keys, each at its
      listed generation, so with ETags present an immediate second refresh has nothing to do. */
  lemma RefreshReachesFixpoint(s: Setting, w: World, listing: map<Path, nat>, order: seq<Path>, index: set<Path>, mode: Mode)
    requires Honest(s) && LogOk(w) && Visits(order, Changes(s, w, listing))
    requires forall k | k in listing :: s.etagOf(k, listing[k]).Some?
    requires Refresh(s, w, listing, order, index, mode).1.Applied?
    ensures var after := Refresh(s, w, listing, order, index, mode).0;
            after.manifest.Keys == listing.Keys
            && (forall k | k in listing :: SameGeneration(after.manifest[k], s.listMeta(k, listing[k])))
            && Changes(s, after, listing) == {}
            && forall again | Visits(again, Changes(s, after, listing)) && LogOk(after) ::
                 Refresh(s, after, listing, again, index, mode) == (after, Unchanged)
  {
    hide Refresh, SameGeneration, Honest, Classify;
    var after := Refresh(s, w, listing, order, index, mode).0;
    forall k
      ensures k in after.manifest <==> k in listing
      ensures k in listing && k in after.manifest ==> SameGeneration(after.manifest[k], s.listMeta(k, listing[k]))
    {
      FixpointAfter(s, w, listing, order, index, mode, k);
    }
    assert Changes(s, after, listing) == {};
    forall again | Visits(again, Changes(s, after, listing)) && LogOk(after)
      ensures Refresh(s, after, listing, again, index, mode) == (after, Unchanged)
    {
      NothingToRefresh(s, after, listing, again, index, mode);
    }
  }

  lemma FixpointAfter(s: Setting, w: World, listing: map<Path, nat>, order: seq<Path>, index: set<Path>, mode: Mode, k: Path)
    requires Honest(s) && LogOk(w) && Visits(order, Changes(s, w, listing))
    requires forall k | k in listing :: s.etagOf(k, listing[k]).Some?
    requires Refresh(s, w, listing, order, index, mode).1.Applied?
    ensures var after := Refresh(s, w, listing, order, index, mode).0;
            && (k in after.manifest <==> k in listing)
            && (k in listing && k in after.manifest ==> SameGeneration(after.manifest[k], s.listMeta(k, listing[k])))
  {
    hide Refresh, SameGeneration, Honest, Classify, Changes, Visits, ViewAfter;
    RefreshKeywise(s, w, listing, order, index, mode, k);
    if k in order {
      AppliedChange(s, w, listing, order, index, mode, k);
    }
    FixpointAt(s, w, listing, order, k);
    assert ViewOf(Refresh(s, w, listing, order, index, mode).0, k).entry
        == Lookup(Refresh(s, w, listing, order, index, mode).0.manifest, k);
  }

  lemma NothingToRefresh(s: Setting, w: World, listing: map<Path, nat>, order: seq<Path>, index: set<Path>, mode: Mode)
    requires LogOk(w) && Changes(s, w, listing) == {} && Visits(order, {})
    ensures Refresh(s, w, listing, order, index, mode) == (w, Unchanged)
  {
    assert forall i | 0 <= i < |order| :: order[i] in order;
  }
}

/**
 * ensureFiducialInListForVolume and landmarksFromFiducials: make every
 * volume's list carry every label that any of the volumes' lists carries,
 * re-associating fiducials with their volume on the way.
 */
module LandmarkSync {
  import opened Wrappers
  import opened Markups
  import opened LandmarkGroups
  import opened LandmarkLogic

  /**
   * The scene and the result of ensureFiducialInListForVolume(v, name, pos):
   * no list, nothing; the label present, its first fiducial is re-associated
   * with v; otherwise an unselected, unlocked fiducial `name` is appended at
   * `pos` and the label is returned.
   */
  function EnsureSpec(lists: seq<FiducialList>, v: Volume, name: string, pos: Point)
    : (r: (seq<FiducialList>, Option<string>))
  {
    var ls := Associate(lists, v);
    match ListOf(lists, v)
    case None => (ls, None)
    case Some(l) =>
      var fids := ls[l].fiducials;
      match FirstLabelIndex(fids, name)
      case Some(k) => (ls[l := ls[l].(fiducials := fids[k := fids[k].(associatedNodeId := Some(v.id))])], None)
      case None => (ls[l := ls[l].(fiducials := fids + [Fiducial(name, pos, None, false, false)])], Some(name))
  }

  /** Without a list for v, only the association lookup happens and nothing is returned. */
  lemma EnsureNoList(lists: seq<FiducialList>, v: Volume, name: string, pos: Point)
    requires ListOf(lists, v).None?
    ensures EnsureSpec(lists, v, name, pos) == (lists, None)
  {
  }

  /** A label already present: the count stays, only its first fiducial is re-associated with v. */
  lemma EnsureFound(lists: seq<FiducialList>, v: Volume, name: string, pos: Point, l: nat)
    requires ListOf(lists, v) == Some(l) && name in Labels(lists[l].fiducials)
    ensures var r := EnsureSpec(lists, v, name, pos);
            var fids := lists[l].fiducials;
            var k := FirstLabelIndex(fids, name).value;
            && r.1 == None
            && |r.0[l].fiducials| == |fids|
            && r.0[l].fiducials[k] == fids[k].(associatedNodeId := Some(v.id))
            && forall j :: 0 <= j < |fids| && j != k ==> r.0[l].fiducials[j] == fids[j]
  {
    LabelIndexFound(lists[l].fiducials, name);
  }

  /** A missing label: one unselected, unlocked fiducial `name` at `pos` is appended and the label returned. */
  lemma EnsureAdded(lists: seq<FiducialList>, v: Volume, name: string, pos: Point, l: nat)
    requires ListOf(lists, v) == Some(l) && name !in Labels(lists[l].fiducials)
    ensures var r := EnsureSpec(lists, v, name, pos);
            && r.1 == Some(name)
            && r.0[l].fiducials == lists[l].fiducials + [Fiducial(name, pos, None, false, false)]
  {
    LabelIndexFound(lists[l].fiducials, name);
  }

  /**
   * ensureFiducialInListForVolume changes no list but v's, keeps every
   * fiducial's label and position and only ever appends; a list that grows
   * grows by the label, and only when the label is returned.
   */
  lemma EnsureFrame(lists: seq<FiducialList>, v: Volume, name: string, pos: Point)
    ensures var r := EnsureSpec(lists, v, name, pos);
            && Grows(lists, r.0)
            && (forall j :: 0 <= j < |lists| && ListOf(lists, v) != Some(j) ==> r.0[j].fiducials == lists[j].fiducials)
            && (forall j, k :: 0 <= j < |lists| && |lists[j].fiducials| <= k < |r.0[j].fiducials| ==> r.0[j].fiducials[k].name == name)
            && (r.1.None? ==> forall j :: 0 <= j < |lists| ==> |r.0[j].fiducials| == |lists[j].fiducials|)
  {
    EnsureGrows(lists, v, name, pos);
    EnsureAppends(lists, v, name, pos);
  }

  lemma EnsureGrows(lists: seq<FiducialList>, v: Volume, name: string, pos: Point)
    ensures var r := EnsureSpec(lists, v, name, pos);
            && Grows(lists, r.0)
            && (forall j :: 0 <= j < |lists| && ListOf(lists, v) != Some(j) ==> r.0[j].fiducials == lists[j].fiducials)
  {
    match ListOf(lists, v)
    case None =>
    case Some(l) =>
      if name in Labels(lists[l].fiducials) {
        EnsureFound(lists, v, name, pos, l);
      } else {
        EnsureAdded(lists, v, name, pos, l);
      }
  }

  lemma EnsureAppends(lists: seq<FiducialList>, v: Volume, name: string, pos: Point)
    ensures var r := EnsureSpec(lists, v, name, pos);
            && |r.0| == |lists|
            && (forall j, k :: 0 <= j < |lists| && |lists[j].fiducials| <= k < |r.0[j].fiducials| ==> r.0[j].fiducials[k].name == name)
            && (r.1.None? ==> forall j :: 0 <= j < |lists| ==> |r.0[j].fiducials| == |lists[j].fiducials|)
  {
    match ListOf(lists, v)
    case None =>
    case Some(l) =>
      if name in Labels(lists[l].fiducials) {
        EnsureFound(lists, v, name, pos, l);
      } else {
        EnsureAdded(lists, v, name, pos, l);
      }
  }

  /** Afterwards v's list (if any) holds the label, and each volume's labels grow by at most that label. */
  lemma EnsureLabels(lists: seq<FiducialList>, v: Volume, name: string, pos: Point, w: Volume)
    ensures var r := EnsureSpec(lists, v, name, pos);
            && ListOf(r.0, w) == ListOf(lists, w)
            && VolumeLabels(lists, w) <= VolumeLabels(r.0, w) <= VolumeLabels(lists, w) + {name}
            && (ListOf(lists, v).Some? ==> name in VolumeLabels(r.0, v))
  {
    var r := EnsureSpec(lists, v, name, pos);
    EnsureFrame(lists, v, name, pos);
    ListOfAgrees(lists, r.0, w);
    ListOfAgrees(lists, r.0, v);
    match ListOf(lists, v)
    case None =>
    case Some(l) =>
      var fids := lists[l].fiducials;
      if name in Labels(fids) {
        EnsureFound(lists, v, name, pos, l);
        LabelsOfSameNames(fids, r.0[l].fiducials);
      } else {
        EnsureAdded(lists, v, name, pos, l);
        assert r.0[l].fiducials[|fids|] in r.0[l].fiducials;
        LabelsAfterAppend(fids, Fiducial(name, pos, None, false, false));
      }
  }

  lemma LabelsAfterAppend(fids: seq<Fiducial>, f: Fiducial)
    ensures Labels(fids + [f]) == Labels(fids) + {f.name}
  {
    assert (fids + [f])[|fids|] == f;
    forall y | y in Labels(fids) ensures y in Labels(fids + [f]) {
      var g :| g in fids && g.name == y;
      assert g in fids + [f];
    }
  }

  /**
   * ensureFiducialInListForVolume: look up v's list (re-associating it),
   * re-associate the first fiducial labelled `name`, or append one.
   */
  method EnsureFiducialInListForVolume(scene: Scene, volume: Volume, name: string, pos: Point)
    returns (added: Option<string>)
    modifies scene
    ensures (scene.lists, added) == EnsureSpec(old(scene.lists), volume, name, pos)
  {
    var list := VolumeFiducialList(scene, Some(volume));
    if list.None? {
      return None;
    }
    var l := list.value;
    var fids := scene.lists[l].fiducials;
    var k := 0;
    while k < |fids|
      invariant k <= |fids|
      invariant forall j :: 0 <= j < k ==> fids[j].name != name
    {
      if fids[k].name == name {
        assert FirstLabelIndex(fids, name) == Some(k);
        fids := fids[k := fids[k].(associatedNodeId := Some(volume.id))];
        scene.lists := scene.lists[l := scene.lists[l].(fiducials := fids)];
        return None;
      }
      k := k + 1;
    }
    assert FirstLabelIndex(fids, name) == None;
    ghost var before := fids;
    // the host adds a selected, unlabelled markup; the label and flags are set next
    fids := fids + [Fiducial("", pos, None, true, false)];
    k := |fids| - 1;
    fids := fids[k := fids[k].(name := name, selected := false, locked := false)];
    assert fids == before + [Fiducial(name, pos, None, false, false)];
    scene.lists := scene.lists[l := scene.lists[l].(fiducials := fids)];
    added := Some(name);
  }

  /** Label x is in the list of every volume that has a list. */
  ghost predicate Spread(lists: seq<FiducialList>, vols: seq<Volume>, x: string) {
    forall i :: 0 <= i < |vols| && ListOf(lists, vols[i]).Some? ==> x in VolumeLabels(lists, vols[i])
  }

  /** What landmarksFromFiducials establishes: a label of any volume's list is in every volume's list. */
  ghost predicate AllSynced(lists: seq<FiducialList>, vols: seq<Volume>) {
    forall i, j, x :: 0 <= i < |vols| && 0 <= j < |vols| && x in VolumeLabels(lists, vols[i]) && ListOf(lists, vols[j]).Some? ==>
      x in VolumeLabels(lists, vols[j])
  }

  /** Every label in the lists of vols[..done] is Spread, or pending. */
  ghost predicate Synced(lists: seq<FiducialList>, vols: seq<Volume>, done: nat, pending: set<string>) {
    forall j, x :: 0 <= j < done && j < |vols| && x in VolumeLabels(lists, vols[j]) ==> x in pending || Spread(lists, vols, x)
  }

  /** Every fiducial appended since `orig` has the empty label. */
  ghost predicate UnnamedAppends(orig: seq<FiducialList>, cur: seq<FiducialList>) {
    |orig| <= |cur|
    && forall j, k :: 0 <= j < |orig| && |orig[j].fiducials| <= k < |cur[j].fiducials| ==> cur[j].fiducials[k].name == ""
  }

  /** The returned label so far: non-empty and Spread (or pending); none only if nothing named was appended. */
  ghost predicate AddedOk(orig: seq<FiducialList>, cur: seq<FiducialList>, vols: seq<Volume>, added: Option<string>, pending: set<string>) {
    && (added.Some? ==> added.value != "" && (added.value in pending || Spread(cur, vols, added.value)))
    && (added.None? ==> UnnamedAppends(orig, cur))
  }

  /** Between `a` and `b` every volume's labels only grew, by labels in `extra`. */
  ghost predicate GainsOnly(a: seq<FiducialList>, b: seq<FiducialList>, vols: seq<Volume>, extra: set<string>) {
    forall i :: 0 <= i < |vols| ==>
      && ListOf(b, vols[i]) == ListOf(a, vols[i])
      && VolumeLabels(a, vols[i]) <= VolumeLabels(b, vols[i]) <= VolumeLabels(a, vols[i]) + extra
  }

  /** The labels of list l are still, one by one, `names`. */
  ghost predicate NamesKept(cur: seq<FiducialList>, l: nat, names: seq<string>) {
    l < |cur| && |cur[l].fiducials| == |names| && forall k :: 0 <= k < |names| ==> cur[l].fiducials[k].name == names[k]
  }

  lemma EnsureGains(lists: seq<FiducialList>, v: Volume, name: string, pos: Point, vols: seq<Volume>)
    ensures GainsOnly(lists, EnsureSpec(lists, v, name, pos).0, vols, {name})
  {
    forall i | 0 <= i < |vols| {
      EnsureLabels(lists, v, name, pos, vols[i]);
    }
  }

  lemma SpreadGains(a: seq<FiducialList>, b: seq<FiducialList>, vols: seq<Volume>, extra: set<string>, x: string)
    requires GainsOnly(a, b, vols, extra) && Spread(a, vols, x)
    ensures Spread(b, vols, x)
  {
  }

  lemma SyncedGains(a: seq<FiducialList>, b: seq<FiducialList>, vols: seq<Volume>, done: nat, pending: set<string>, extra: set<string>)
    requires GainsOnly(a, b, vols, extra) && Synced(a, vols, done, pending) && extra <= pending
    ensures Synced(b, vols, done, pending)
  {
    forall j, x | 0 <= j < done && j < |vols| && x in VolumeLabels(b, vols[j]) && x !in pending
      ensures Spread(b, vols, x)
    {
      SpreadGains(a, b, vols, extra, x);
    }
  }

  lemma AddedGains(orig: seq<FiducialList>, a: seq<FiducialList>, b: seq<FiducialList>, vols: seq<Volume>,
                   added: Option<string>, pending: set<string>, extra: set<string>)
    requires GainsOnly(a, b, vols, extra) && AddedOk(orig, a, vols, added, pending) && added.Some?
    ensures AddedOk(orig, b, vols, added, pending)
  {
    if added.value !in pending {
      SpreadGains(a, b, vols, extra, added.value);
    }
  }

  lemma GrowsUnnamed(orig: seq<FiducialList>, a: seq<FiducialList>, b: seq<FiducialList>)
    requires Grows(orig, a) && Grows(a, b) && UnnamedAppends(orig, a)
    requires forall j, k :: 0 <= j < |a| && |a[j].fiducials| <= k < |b[j].fiducials| ==> b[j].fiducials[k].name == ""
    ensures UnnamedAppends(orig, b)
  {
  }

  /** The invariant of landmarksFromFiducials' outer loop, after the first i volumes. */
  ghost predicate OuterInv(orig: seq<FiducialList>, cur: seq<FiducialList>, vols: seq<Volume>, i: nat, added: Option<string>) {
    && i <= |vols|
    && Grows(orig, cur)
    && Synced(cur, vols, i, {})
    && AddedOk(orig, cur, vols, added, {})
  }

  /** The invariant of the middle loop: the first k fiducials of volume i's list l are spread. */
  ghost predicate MiddleInv(orig: seq<FiducialList>, cur: seq<FiducialList>, vols: seq<Volume>, i: nat, l: nat,
                            names: seq<string>, k: nat, added: Option<string>) {
    && i < |vols| && k <= |names|
    && Grows(orig, cur)
    && ListOf(cur, vols[i]) == Some(l)
    && NamesKept(cur, l, names)
    && Synced(cur, vols, i, {})
    && (forall k' :: 0 <= k' < k ==> Spread(cur, vols, names[k']))
    && AddedOk(orig, cur, vols, added, {})
  }

  /** The invariant of the inner loop: label x = names[k] is in the lists of the first m volumes. */
  ghost predicate InnerInv(orig: seq<FiducialList>, cur: seq<FiducialList>, vols: seq<Volume>, i: nat, l: nat,
                           names: seq<string>, k: nat, m: nat, added: Option<string>) {
    && i < |vols| && k < |names| && m <= |vols|
    && Grows(orig, cur)
    && ListOf(cur, vols[i]) == Some(l)
    && NamesKept(cur, l, names)
    && Synced(cur, vols, i, {names[k]})
    && (forall k' :: 0 <= k' < k ==> Spread(cur, vols, names[k']))
    && (forall m' :: 0 <= m' < m && ListOf(cur, vols[m']).Some? ==> names[k] in VolumeLabels(cur, vols[m']))
    && AddedOk(orig, cur, vols, added, {names[k]})
  }

  lemma OuterStart(lists: seq<FiducialList>, vols: seq<Volume>)
    ensures OuterInv(lists, lists, vols, 0, None)
  {
  }

  /** Looking up volume i's list changes no labels; without a list the volume is done. */
  lemma OuterLookup(orig: seq<FiducialList>, cur: seq<FiducialList>, vols: seq<Volume>, i: nat, added: Option<string>)
    requires OuterInv(orig, cur, vols, i, added) && i < |vols|
    ensures var next := Associate(cur, vols[i]);
            && OuterInv(orig, next, vols, i, added)
            && (ListOf(cur, vols[i]).None? ==> OuterInv(orig, next, vols, i + 1, added))
            && ListOf(next, vols[i]) == ListOf(cur, vols[i])
  {
    var next := Associate(cur, vols[i]);
    assert SameLabels(cur, next);
    SameLabelsGains(cur, next, vols);
    SyncedGains(cur, next, vols, i, {}, {});
    if ListOf(cur, vols[i]).None? {
      assert Synced(cur, vols, i + 1, {});
      SyncedGains(cur, next, vols, i + 1, {}, {});
    }
    if added.Some? {
      AddedGains(orig, cur, next, vols, added, {}, {});
    }
    GrowsTransitive(orig, cur, next);
  }

  lemma SameLabelsGains(a: seq<FiducialList>, b: seq<FiducialList>, vols: seq<Volume>)
    requires SameLabels(a, b)
    ensures GainsOnly(a, b, vols, {})
  {
    forall i | 0 <= i < |vols|
      ensures ListOf(b, vols[i]) == ListOf(a, vols[i]) && VolumeLabels(a, vols[i]) == VolumeLabels(b, vols[i])
    {
      ListOfAgrees(a, b, vols[i]);
      match ListOf(a, vols[i])
      case None =>
      case Some(l) => LabelsOfSameNames(a[l].fiducials, b[l].fiducials);
    }
  }

  lemma MiddleStart(orig: seq<FiducialList>, cur: seq<FiducialList>, vols: seq<Volume>, i: nat, l: nat, added: Option<string>)
    requires OuterInv(orig, cur, vols, i, added) && i < |vols| && ListOf(cur, vols[i]) == Some(l)
    ensures MiddleInv(orig, cur, vols, i, l, NamesOf(cur[l].fiducials), 0, added)
  {
  }

  /** The labels of a list, one by one. */
  function NamesOf(fids: seq<Fiducial>): (names: seq<string>)
    ensures |names| == |fids| && forall k :: 0 <= k < |fids| ==> names[k] == fids[k].name
  {
    seq(|fids|, k requires 0 <= k < |fids| => fids[k].name)
  }

  /** Once every fiducial of volume i's list is spread, volume i is done. */
  lemma MiddleEnd(orig: seq<FiducialList>, cur: seq<FiducialList>, vols: seq<Volume>, i: nat, l: nat,
                  names: seq<string>, added: Option<string>)
    requires MiddleInv(orig, cur, vols, i, l, names, |names|, added)
    ensures OuterInv(orig, cur, vols, i + 1, added)
  {
    forall x | x in VolumeLabels(cur, vols[i]) ensures Spread(cur, vols, x) {
      var k :| 0 <= k < |cur[l].fiducials| && cur[l].fiducials[k].name == x by {
        var f :| f in cur[l].fiducials && f.name == x;
      }
      assert names[k] == x;
    }
  }

  /** Re-associating fiducial k of list l with its volume keeps the middle invariant. */
  lemma Reassociate(orig: seq<FiducialList>, cur: seq<FiducialList>, vols: seq<Volume>, i: nat, l: nat,
                    names: seq<string>, k: nat, added: Option<string>, id: string)
    requires MiddleInv(orig, cur, vols, i, l, names, k, added) && k < |names|
    ensures var fids := cur[l].fiducials;
            MiddleInv(orig, cur[l := cur[l].(fiducials := fids[k := fids[k].(associatedNodeId := Some(id))])], vols, i, l, names, k, added)
  {
    var fids := cur[l].fiducials;
    var next := cur[l := cur[l].(fiducials := fids[k := fids[k].(associatedNodeId := Some(id))])];
    assert SameLabels(cur, next);
    SameLabelsGains(cur, next, vols);
    SyncedGains(cur, next, vols, i, {}, {});
    if added.Some? {
      AddedGains(orig, cur, next, vols, added, {}, {});
    }
    GrowsTransitive(orig, cur, next);
    ListOfAgrees(cur, next, vols[i]);
    forall k' | 0 <= k' < k ensures Spread(next, vols, names[k']) {
      SpreadGains(cur, next, vols, {}, names[k']);
    }
  }

  lemma InnerStart(orig: seq<FiducialList>, cur: seq<FiducialList>, vols: seq<Volume>, i: nat, l: nat,
                   names: seq<string>, k: nat, added: Option<string>)
    requires MiddleInv(orig, cur, vols, i, l, names, k, added) && k < |names|
    ensures InnerInv(orig, cur, vols, i, l, names, k, 0, added)
  {
  }

  /** Once the label is in every list, fiducial k is spread. */
  lemma InnerEnd(orig: seq<FiducialList>, cur: seq<FiducialList>, vols: seq<Volume>, i: nat, l: nat,
                 names: seq<string>, k: nat, added: Option<string>)
    requires InnerInv(orig, cur, vols, i, l, names, k, |vols|, added)
    ensures MiddleInv(orig, cur, vols, i, l, names, k + 1, added)
  {
    assert Spread(cur, vols, names[k]);
  }

  /** Volume m is volume i itself: its list already holds the label. */
  lemma InnerSkip(orig: seq<FiducialList>, cur: seq<FiducialList>, vols: seq<Volume>, i: nat, l: nat,
                  names: seq<string>, k: nat, m: nat, added: Option<string>)
    requires InnerInv(orig, cur, vols, i, l, names, k, m, added) && m < |vols| && vols[m] == vols[i]
    ensures InnerInv(orig, cur, vols, i, l, names, k, m + 1, added)
  {
    assert cur[l].fiducials[k] in cur[l].fiducials;
  }

  /** ensureFiducialInListForVolume for volume m keeps the inner invariant and puts the label in m's list. */
  lemma InnerEnsure(orig: seq<FiducialList>, cur: seq<FiducialList>, vols: seq<Volume>, i: nat, l: nat,
                    names: seq<string>, k: nat, m: nat, added: Option<string>, pos: Point)
    requires InnerInv(orig, cur, vols, i, l, names, k, m, added) && m < |vols|
    ensures var r := EnsureSpec(cur, vols[m], names[k], pos);
            InnerInv(orig, r.0, vols, i, l, names, k, m + 1, if Truthy(r.1) then r.1 else added)
  {
    var x := names[k];
    var r := EnsureSpec(cur, vols[m], x, pos);
    EnsureKeepsSpread(orig, cur, vols, i, l, names, k, m, pos);
    EnsureKeepsNames(cur, vols, l, names, k, m, pos);
    EnsureReaches(cur, vols, names, k, m, pos);
    EnsureKeepsAdded(orig, cur, vols, x, m, added, pos);
  }

  lemma EnsureKeepsSpread(orig: seq<FiducialList>, cur: seq<FiducialList>, vols: seq<Volume>, i: nat, l: nat,
                          names: seq<string>, k: nat, m: nat, pos: Point)
    requires i < |vols| && k < |names| && m < |vols|
    requires Grows(orig, cur) && ListOf(cur, vols[i]) == Some(l)
    requires Synced(cur, vols, i, {names[k]})
    requires forall k' :: 0 <= k' < k ==> Spread(cur, vols, names[k'])
    ensures var next := EnsureSpec(cur, vols[m], names[k], pos).0;
            && Grows(orig, next)
            && ListOf(next, vols[i]) == Some(l)
            && Synced(next, vols, i, {names[k]})
            && forall k' :: 0 <= k' < k ==> Spread(next, vols, names[k'])
  {
    var x := names[k];
    var next := EnsureSpec(cur, vols[m], x, pos).0;
    EnsureGains(cur, vols[m], x, pos, vols);
    EnsureFrame(cur, vols[m], x, pos);
    GrowsTransitive(orig, cur, next);
    SyncedGains(cur, next, vols, i, {x}, {x});
    forall k' | 0 <= k' < k ensures Spread(next, vols, names[k']) {
      SpreadGains(cur, next, vols, {x}, names[k']);
    }
  }

  /** List l already holds the label, so it is at most re-associated: its labels stay. */
  lemma EnsureKeepsNames(cur: seq<FiducialList>, vols: seq<Volume>, l: nat, names: seq<string>, k: nat, m: nat, pos: Point)
    requires k < |names| && m < |vols| && NamesKept(cur, l, names)
    ensures NamesKept(EnsureSpec(cur, vols[m], names[k], pos).0, l, names)
  {
    var x := names[k];
    EnsureFrame(cur, vols[m], x, pos);
    assert cur[l].fiducials[k] in cur[l].fiducials;
    if ListOf(cur, vols[m]) == Some(l) {
      EnsureFound(cur, vols[m], x, pos, l);
    }
  }

  lemma EnsureReaches(cur: seq<FiducialList>, vols: seq<Volume>, names: seq<string>, k: nat, m: nat, pos: Point)
    requires k < |names| && m < |vols|
    requires forall m' :: 0 <= m' < m && ListOf(cur, vols[m']).Some? ==> names[k] in VolumeLabels(cur, vols[m'])
    ensures var next := EnsureSpec(cur, vols[m], names[k], pos).0;
            forall m' :: 0 <= m' < m + 1 && ListOf(next, vols[m']).Some? ==> names[k] in VolumeLabels(next, vols[m'])
  {
    var x := names[k];
    var next := EnsureSpec(cur, vols[m], x, pos).0;
    EnsureGains(cur, vols[m], x, pos, vols);
    EnsureLabels(cur, vols[m], x, pos, vols[m]);
  }

  lemma EnsureKeepsAdded(orig: seq<FiducialList>, cur: seq<FiducialList>, vols: seq<Volume>, x: string, m: nat,
                         added: Option<string>, pos: Point)
    requires m < |vols| && Grows(orig, cur) && AddedOk(orig, cur, vols, added, {x})
    ensures var r := EnsureSpec(cur, vols[m], x, pos);
            AddedOk(orig, r.0, vols, if Truthy(r.1) then r.1 else added, {x})
  {
    var r := EnsureSpec(cur, vols[m], x, pos);
    var next := r.0;
    EnsureGains(cur, vols[m], x, pos, vols);
    EnsureFrame(cur, vols[m], x, pos);
    EnsureNamed(cur, vols[m], x, pos);
    if !Truthy(r.1) {
      if added.Some? {
        AddedGains(orig, cur, next, vols, added, {x}, {x});
      } else {
        GrowsUnnamed(orig, cur, next);
      }
    }
  }

  /** What ensureFiducialInListForVolume returns is the label, and it appends only when it returns it. */
  lemma EnsureNamed(lists: seq<FiducialList>, v: Volume, name: string, pos: Point)
    ensures var r := EnsureSpec(lists, v, name, pos);
            && (r.1.Some? ==> r.1.value == name)
            && (!Truthy(r.1) ==> forall j, k :: 0 <= j < |lists| && |lists[j].fiducials| <= k < |r.0[j].fiducials| ==> r.0[j].fiducials[k].name == "")
  {
    EnsureFrame(lists, v, name, pos);
  }

  /** The association names a volume whose landmarks list is l. */
  ghost predicate OwnedBy(cur: seq<FiducialList>, vols: seq<Volume>, l: nat, id: Option<string>) {
    exists j :: 0 <= j < |vols| && ListOf(cur, vols[j]) == Some(l) && id == Some(vols[j].id)
  }

  /** Each of the first n fiducials of list l is associated with a volume whose list is l. */
  ghost predicate OwnedUpTo(cur: seq<FiducialList>, vols: seq<Volume>, l: nat, n: nat) {
    && l < |cur| && n <= |cur[l].fiducials|
    && forall k :: 0 <= k < n ==> OwnedBy(cur, vols, l, cur[l].fiducials[k].associatedNodeId)
  }

  /**
   * Every fiducial that the list of one of the first i volumes held in
   * `orig` is now associated with a volume whose list it is in.
   */
  ghost predicate Reassociated(orig: seq<FiducialList>, cur: seq<FiducialList>, vols: seq<Volume>, i: nat) {
    forall i' :: 0 <= i' < i && i' < |vols| ==>
      match ListOf(orig, vols[i'])
      case None => true
      case Some(l) => l < |orig| && OwnedUpTo(cur, vols, l, |orig[l].fiducials|)
  }

  /** From a to b lookups agree, no fiducial is lost, and a changed association names a volume of its list. */
  ghost predicate KeepsOwners(a: seq<FiducialList>, b: seq<FiducialList>, vols: seq<Volume>) {
    && |a| == |b|
    && (forall j :: 0 <= j < |vols| ==> ListOf(b, vols[j]) == ListOf(a, vols[j]))
    && (forall l :: 0 <= l < |a| ==> |a[l].fiducials| <= |b[l].fiducials|)
    && forall l, k :: 0 <= l < |a| && 0 <= k < |a[l].fiducials| ==>
         (b[l].fiducials[k].associatedNodeId == a[l].fiducials[k].associatedNodeId
          || OwnedBy(b, vols, l, b[l].fiducials[k].associatedNodeId))
  }

  lemma OwnedUpToKept(a: seq<FiducialList>, b: seq<FiducialList>, vols: seq<Volume>, l: nat, n: nat)
    requires KeepsOwners(a, b, vols) && OwnedUpTo(a, vols, l, n)
    ensures OwnedUpTo(b, vols, l, n)
  {
    forall k | 0 <= k < n ensures OwnedBy(b, vols, l, b[l].fiducials[k].associatedNodeId) {
      var id := a[l].fiducials[k].associatedNodeId;
      var j :| 0 <= j < |vols| && ListOf(a, vols[j]) == Some(l) && id == Some(vols[j].id);
      assert ListOf(b, vols[j]) == Some(l);
    }
  }

  lemma ReassociatedKept(orig: seq<FiducialList>, a: seq<FiducialList>, b: seq<FiducialList>, vols: seq<Volume>, i: nat)
    requires KeepsOwners(a, b, vols) && Reassociated(orig, a, vols, i)
    ensures Reassociated(orig, b, vols, i)
  {
    forall i' | 0 <= i' < i && i' < |vols| && ListOf(orig, vols[i']).Some?
      ensures OwnedUpTo(b, vols, ListOf(orig, vols[i']).value, |orig[ListOf(orig, vols[i']).value].fiducials|)
    {
      var l := ListOf(orig, vols[i']).value;
      OwnedUpToKept(a, b, vols, l, |orig[l].fiducials|);
    }
  }

  /** Looking up a volume's list touches no fiducial. */
  lemma LookupReassociated(orig: seq<FiducialList>, cur: seq<FiducialList>, vols: seq<Volume>, i: nat)
    requires i < |vols| && Grows(orig, cur) && Reassociated(orig, cur, vols, i)
    ensures var next := Associate(cur, vols[i]);
            && Reassociated(orig, next, vols, i)
            && (ListOf(cur, vols[i]).None? ==> Reassociated(orig, next, vols, i + 1))
  {
    var next := Associate(cur, vols[i]);
    assert SameNames(cur, next);
    forall j | 0 <= j < |vols| ensures ListOf(next, vols[j]) == ListOf(cur, vols[j]) {
      ListOfAgrees(cur, next, vols[j]);
    }
    ReassociatedKept(orig, cur, next, vols, i);
    ListOfAgrees(orig, cur, vols[i]);
  }

  /** Re-associating fiducial k of volume i's list l with volume i extends the owned prefix. */
  lemma SetOwner(orig: seq<FiducialList>, cur: seq<FiducialList>, vols: seq<Volume>, i: nat, l: nat, k: nat)
    requires i < |vols| && ListOf(cur, vols[i]) == Some(l)
    requires Reassociated(orig, cur, vols, i) && OwnedUpTo(cur, vols, l, k) && k < |cur[l].fiducials|
    ensures var fids := cur[l].fiducials;
            var next := cur[l := cur[l].(fiducials := fids[k := fids[k].(associatedNodeId := Some(vols[i].id))])];
            Reassociated(orig, next, vols, i) && OwnedUpTo(next, vols, l, k + 1)
  {
    var fids := cur[l].fiducials;
    var next := cur[l := cur[l].(fiducials := fids[k := fids[k].(associatedNodeId := Some(vols[i].id))])];
    assert SameNames(cur, next);
    forall j | 0 <= j < |vols| ensures ListOf(next, vols[j]) == ListOf(cur, vols[j]) {
      ListOfAgrees(cur, next, vols[j]);
    }
    assert OwnedBy(next, vols, l, Some(vols[i].id));
    assert KeepsOwners(cur, next, vols);
    ReassociatedKept(orig, cur, next, vols, i);
    OwnedUpToKept(cur, next, vols, l, k);
  }

  /** A fiducial already associated with volume i extends the owned prefix as it is. */
  lemma AlreadyOwned(cur: seq<FiducialList>, vols: seq<Volume>, i: nat, l: nat, k: nat)
    requires i < |vols| && ListOf(cur, vols[i]) == Some(l) && OwnedUpTo(cur, vols, l, k)
    requires k < |cur[l].fiducials| && cur[l].fiducials[k].associatedNodeId == Some(vols[i].id)
    ensures OwnedUpTo(cur, vols, l, k + 1)
  {
  }

  /** ensureFiducialInListForVolume only re-associates a fiducial with the volume whose list holds it. */
  lemma EnsureKeepsOwners(a: seq<FiducialList>, vols: seq<Volume>, m: nat, name: string, pos: Point)
    requires m < |vols|
    ensures KeepsOwners(a, EnsureSpec(a, vols[m], name, pos).0, vols)
  {
    var b := EnsureSpec(a, vols[m], name, pos).0;
    EnsureFrame(a, vols[m], name, pos);
    forall j | 0 <= j < |vols| ensures ListOf(b, vols[j]) == ListOf(a, vols[j]) {
      ListOfAgrees(a, b, vols[j]);
    }
    match ListOf(a, vols[m])
    case None =>
    case Some(l) =>
      if name in Labels(a[l].fiducials) {
        EnsureFound(a, vols[m], name, pos, l);
        assert OwnedBy(b, vols, l, Some(vols[m].id));
      } else {
        EnsureAdded(a, vols[m], name, pos, l);
      }
  }

  lemma EnsureReassociated(orig: seq<FiducialList>, cur: seq<FiducialList>, vols: seq<Volume>, i: nat, l: nat, n: nat,
                           m: nat, name: string, pos: Point)
    requires m < |vols| && Reassociated(orig, cur, vols, i) && OwnedUpTo(cur, vols, l, n)
    ensures var next := EnsureSpec(cur, vols[m], name, pos).0;
            Reassociated(orig, next, vols, i) && OwnedUpTo(next, vols, l, n)
  {
    var next := EnsureSpec(cur, vols[m], name, pos).0;
    EnsureKeepsOwners(cur, vols, m, name, pos);
    ReassociatedKept(orig, cur, next, vols, i);
    OwnedUpToKept(cur, next, vols, l, n);
  }

  /** Once every fiducial volume i's list held at the start is owned, volume i is done. */
  lemma MiddleReassociated(orig: seq<FiducialList>, cur: seq<FiducialList>, vols: seq<Volume>, i: nat, l: nat, n: nat)
    requires i < |vols| && Grows(orig, cur) && ListOf(cur, vols[i]) == Some(l)
    requires Reassociated(orig, cur, vols, i) && OwnedUpTo(cur, vols, l, n) && |orig[l].fiducials| <= n
    ensures Reassociated(orig, cur, vols, i + 1)
  {
    ListOfAgrees(orig, cur, vols[i]);
  }

  /** Some list holds a fiducial labelled x at an index it did not have in `orig`: x was appended. */
  ghost predicate AppendedLabel(orig: seq<FiducialList>, cur: seq<FiducialList>, x: string) {
    exists j, k :: 0 <= j < |orig| && j < |cur| && |orig[j].fiducials| <= k < |cur[j].fiducials| && cur[j].fiducials[k].name == x
  }

  /** Growing keeps what was appended. */
  lemma AppendedKept(orig: seq<FiducialList>, a: seq<FiducialList>, b: seq<FiducialList>, added: Option<string>)
    requires Grows(a, b) && (added.Some? ==> AppendedLabel(orig, a, added.value))
    ensures added.Some? ==> AppendedLabel(orig, b, added.value)
  {
    if added.Some? {
      var j, k :| 0 <= j < |orig| && j < |a| && |orig[j].fiducials| <= k < |a[j].fiducials| && a[j].fiducials[k].name == added.value;
      assert b[j].fiducials[k].name == added.value;
    }
  }

  /** Looking up a list only sets its attribute. */
  lemma AssociateGrows(lists: seq<FiducialList>, v: Volume)
    ensures Grows(lists, Associate(lists, v))
  {
  }

  /** Re-associating a fiducial keeps every label and position. */
  lemma SetAssociationGrows(lists: seq<FiducialList>, l: nat, k: nat, id: string)
    requires l < |lists| && k < |lists[l].fiducials|
    ensures var fids := lists[l].fiducials;
            Grows(lists, lists[l := lists[l].(fiducials := fids[k := fids[k].(associatedNodeId := Some(id))])])
  {
  }

  /** A label ensureFiducialInListForVolume returns was appended by it. */
  lemma EnsureAppended(orig: seq<FiducialList>, cur: seq<FiducialList>, v: Volume, name: string, pos: Point, added: Option<string>)
    requires Grows(orig, cur) && (added.Some? ==> AppendedLabel(orig, cur, added.value))
    ensures var r := EnsureSpec(cur, v, name, pos);
            var next := if Truthy(r.1) then r.1 else added;
            next.Some? ==> AppendedLabel(orig, r.0, next.value)
  {
    var r := EnsureSpec(cur, v, name, pos);
    EnsureFrame(cur, v, name, pos);
    AppendedKept(orig, cur, r.0, added);
    if Truthy(r.1) {
      var l := ListOf(cur, v).value;
      LabelIndexFound(cur[l].fiducials, name);
      EnsureAdded(cur, v, name, pos, l);
      assert r.0[l].fiducials[|cur[l].fiducials|].name == name;
    }
  }

  /** Some volume's list in `orig` holds a fiducial labelled `name` at `pos`. */
  ghost predicate FromVolumeList(orig: seq<FiducialList>, vols: seq<Volume>, name: string, pos: Point) {
    exists j, k :: 0 <= j < |orig| && 0 <= k < |orig[j].fiducials| && IsVolumeList(orig, vols, j)
                   && orig[j].fiducials[k].name == name && orig[j].fiducials[k].position == pos
  }

  /**
   * Fiducial k of list j, appended since `orig`, is a duplicate: unselected,
   * unlocked, the first with its label in its list, and at the label and
   * position of a fiducial that some volume's list held in `orig`.
   */
  ghost predicate DuplicateAt(orig: seq<FiducialList>, cur: seq<FiducialList>, vols: seq<Volume>, j: nat, k: nat)
    requires j < |cur| && k < |cur[j].fiducials|
  {
    var f := cur[j].fiducials[k];
    && !f.selected && !f.locked
    && f.name !in Labels(cur[j].fiducials[..k])
    && FromVolumeList(orig, vols, f.name, f.position)
  }

  /** Every fiducial appended since `orig` is a duplicate. */
  ghost predicate DuplicatesOnly(orig: seq<FiducialList>, cur: seq<FiducialList>, vols: seq<Volume>) {
    forall j, k :: 0 <= j < |orig| && j < |cur| && |orig[j].fiducials| <= k < |cur[j].fiducials| ==>
      DuplicateAt(orig, cur, vols, j, k)
  }

  /** What the loops of landmarksFromFiducials keep about appended fiducials and the returned label. */
  ghost predicate Tracked(orig: seq<FiducialList>, cur: seq<FiducialList>, vols: seq<Volume>, added: Option<string>) {
    && DuplicatesOnly(orig, cur, vols)
    && (added.Some? ==> AppendedLabel(orig, cur, added.value))
  }

  /** A step that appends nothing and keeps labels, positions and flags keeps what is tracked. */
  lemma TrackedKept(orig: seq<FiducialList>, a: seq<FiducialList>, b: seq<FiducialList>, vols: seq<Volume>, added: Option<string>)
    requires Tracked(orig, a, vols, added) && Grows(a, b)
    requires forall j :: 0 <= j < |a| ==> |b[j].fiducials| == |a[j].fiducials|
    ensures Tracked(orig, b, vols, added)
  {
    AppendedKept(orig, a, b, added);
    forall j, k | 0 <= j < |orig| && j < |b| && |orig[j].fiducials| <= k < |b[j].fiducials|
      ensures DuplicateAt(orig, b, vols, j, k)
    {
      assert DuplicateAt(orig, a, vols, j, k);
      LabelsOfSameNames(a[j].fiducials[..k], b[j].fiducials[..k]);
    }
  }

  /** The fiducial being synced comes from a volume's list: it is one of the old ones or a duplicate of one. */
  lemma SyncedFromVolumeList(orig: seq<FiducialList>, cur: seq<FiducialList>, vols: seq<Volume>, i: nat, l: nat, k: nat)
    requires Grows(orig, cur) && DuplicatesOnly(orig, cur, vols)
    requires i < |vols| && ListOf(cur, vols[i]) == Some(l) && k < |cur[l].fiducials|
    ensures FromVolumeList(orig, vols, cur[l].fiducials[k].name, cur[l].fiducials[k].position)
  {
    ListOfAgrees(orig, cur, vols[i]);
    assert IsVolumeList(orig, vols, l);
    if k >= |orig[l].fiducials| {
      assert DuplicateAt(orig, cur, vols, l, k);
    }
  }

  /** Appending one duplicate to list l keeps every appended fiducial a duplicate. */
  lemma AppendDuplicate(orig: seq<FiducialList>, cur: seq<FiducialList>, next: seq<FiducialList>, vols: seq<Volume>, l: nat)
    requires DuplicatesOnly(orig, cur, vols) && l < |cur| == |next|
    requires forall j :: 0 <= j < |cur| && j != l ==> next[j].fiducials == cur[j].fiducials
    requires |next[l].fiducials| == |cur[l].fiducials| + 1 && next[l].fiducials[..|cur[l].fiducials|] == cur[l].fiducials
    requires DuplicateAt(orig, next, vols, l, |cur[l].fiducials|)
    ensures DuplicatesOnly(orig, next, vols)
  {
    forall j, k | 0 <= j < |orig| && j < |next| && |orig[j].fiducials| <= k < |next[j].fiducials|
      ensures DuplicateAt(orig, next, vols, j, k)
    {
      if j != l || k < |cur[l].fiducials| {
        assert DuplicateAt(orig, cur, vols, j, k);
        assert next[j].fiducials[..k] == cur[j].fiducials[..k];
      }
    }
  }

  /** ensureFiducialInListForVolume appends only a missing label, as a duplicate of the fiducial being synced. */
  lemma EnsureTracked(orig: seq<FiducialList>, cur: seq<FiducialList>, vols: seq<Volume>, v: Volume, name: string, pos: Point,
                      added: Option<string>)
    requires Grows(orig, cur) && Tracked(orig, cur, vols, added) && FromVolumeList(orig, vols, name, pos)
    ensures var r := EnsureSpec(cur, v, name, pos);
            Tracked(orig, r.0, vols, if Truthy(r.1) then r.1 else added)
  {
    var r := EnsureSpec(cur, v, name, pos);
    EnsureAppended(orig, cur, v, name, pos, added);
    EnsureFrame(cur, v, name, pos);
    if r.1.None? {
      TrackedKept(orig, cur, r.0, vols, added);
    } else {
      var l := ListOf(cur, v).value;
      EnsureAdded(cur, v, name, pos, l);
      var n := |cur[l].fiducials|;
      assert r.0[l].fiducials[..n] == cur[l].fiducials;
      AppendDuplicate(orig, cur, r.0, vols, l);
    }
  }

  lemma OuterEnd(orig: seq<FiducialList>, cur: seq<FiducialList>, vols: seq<Volume>, added: Option<string>)
    requires OuterInv(orig, cur, vols, |vols|, added)
    ensures AllSynced(cur, vols)
  {
    forall i, j, x | 0 <= i < |vols| && 0 <= j < |vols| && x in VolumeLabels(cur, vols[i]) && ListOf(cur, vols[j]).Some?
      ensures x in VolumeLabels(cur, vols[j])
    {
      assert Spread(cur, vols, x);
    }
  }

  /**
   * landmarksFromFiducials: for each volume with a list, re-associate each
   * of its fiducials with the volume and ensure its label in every other
   * volume's list.  Fiducials are only appended; afterwards every volume's
   * list holds every label any of them holds; the returned label, if any, is
   * non-empty and in every list, and none is returned only if nothing with a
   * label was appended.
   */
  method LandmarksFromFiducials(scene: Scene, volumes: seq<Volume>) returns (addedLandmark: Option<string>)
    modifies scene
    ensures Grows(old(scene.lists), scene.lists)
    ensures AllSynced(scene.lists, volumes)
    ensures addedLandmark.Some? ==> addedLandmark.value != "" && Spread(scene.lists, volumes, addedLandmark.value)
    ensures addedLandmark.None? ==> UnnamedAppends(old(scene.lists), scene.lists)
    ensures Reassociated(old(scene.lists), scene.lists, volumes, |volumes|)
    ensures addedLandmark.Some? ==> AppendedLabel(old(scene.lists), scene.lists, addedLandmark.value)
    ensures DuplicatesOnly(old(scene.lists), scene.lists, volumes)
  {
    ghost var orig := scene.lists;
    addedLandmark := None;
    OuterStart(orig, volumes);
    for i := 0 to |volumes|
      invariant OuterInv(orig, scene.lists, volumes, i, addedLandmark)
      invariant Reassociated(orig, scene.lists, volumes, i)
      invariant Tracked(orig, scene.lists, volumes, addedLandmark)
    {
      var volume := volumes[i];
      OuterLookup(orig, scene.lists, volumes, i, addedLandmark);
      LookupReassociated(orig, scene.lists, volumes, i);
      AssociateGrows(scene.lists, volume);
      TrackedKept(orig, scene.lists, Associate(scene.lists, volume), volumes, addedLandmark);
      var list := VolumeFiducialList(scene, Some(volume));
      if list.None? {
        // the source prints that the volume has no list and moves on
        continue;
      }
      addedLandmark := SyncVolumeList(scene, volumes, i, list.value, orig, addedLandmark);
    }
    OuterEnd(orig, scene.lists, volumes, addedLandmark);
  }

  /**
   * The middle loop of landmarksFromFiducials: re-associate each fiducial of
   * volume i's list l with the volume and ensure its label in every other
   * volume's list.
   */
  method SyncVolumeList(scene: Scene, volumes: seq<Volume>, i: nat, l: nat, ghost orig: seq<FiducialList>, added: Option<string>)
    returns (addedLandmark: Option<string>)
    requires OuterInv(orig, scene.lists, volumes, i, added) && i < |volumes| && ListOf(scene.lists, volumes[i]) == Some(l)
    requires Reassociated(orig, scene.lists, volumes, i) && Tracked(orig, scene.lists, volumes, added)
    modifies scene
    ensures OuterInv(orig, scene.lists, volumes, i + 1, addedLandmark)
    ensures Reassociated(orig, scene.lists, volumes, i + 1) && Tracked(orig, scene.lists, volumes, addedLandmark)
  {
    addedLandmark := added;
    var volume := volumes[i];
    ghost var names := NamesOf(scene.lists[l].fiducials);
    MiddleStart(orig, scene.lists, volumes, i, l, addedLandmark);
    var fiducialSize := |scene.lists[l].fiducials|;
    for k := 0 to fiducialSize
      invariant MiddleInv(orig, scene.lists, volumes, i, l, names, k, addedLandmark)
      invariant Reassociated(orig, scene.lists, volumes, i) && OwnedUpTo(scene.lists, volumes, l, k)
      invariant Tracked(orig, scene.lists, volumes, addedLandmark)
    {
      addedLandmark := SyncFiducial(scene, volumes, i, l, k, orig, names, addedLandmark);
    }
    MiddleEnd(orig, scene.lists, volumes, i, l, names, addedLandmark);
    MiddleReassociated(orig, scene.lists, volumes, i, l, fiducialSize);
  }

  /**
   * One pass of the middle loop of landmarksFromFiducials: re-associate
   * fiducial k of volume i's list l with the volume, then ensure its label
   * in every other volume's list.
   */
  method SyncFiducial(scene: Scene, volumes: seq<Volume>, i: nat, l: nat, k: nat, ghost orig: seq<FiducialList>,
                      ghost names: seq<string>, added: Option<string>)
    returns (addedLandmark: Option<string>)
    requires MiddleInv(orig, scene.lists, volumes, i, l, names, k, added) && k < |names|
    requires Reassociated(orig, scene.lists, volumes, i) && OwnedUpTo(scene.lists, volumes, l, k)
    requires Tracked(orig, scene.lists, volumes, added)
    modifies scene
    ensures MiddleInv(orig, scene.lists, volumes, i, l, names, k + 1, addedLandmark)
    ensures Reassociated(orig, scene.lists, volumes, i) && OwnedUpTo(scene.lists, volumes, l, k + 1)
    ensures Tracked(orig, scene.lists, volumes, addedLandmark)
  {
    var fiducial := scene.lists[l].fiducials[k];
    var landmarkName := fiducial.name;
    var landmarkPosition := fiducial.position;
    SyncedFromVolumeList(orig, scene.lists, volumes, i, l, k);
    ReassociateFiducial(scene, volumes, i, l, k, orig, names, added);
    InnerStart(orig, scene.lists, volumes, i, l, names, k, added);
    addedLandmark := EnsureInOtherVolumes(scene, volumes, i, l, landmarkName, landmarkPosition, orig, names, k, added);
    InnerEnd(orig, scene.lists, volumes, i, l, names, k, addedLandmark);
  }

  /** Fiducial k of volume i's list l gets the volume's id as its associated node, if it had another. */
  method ReassociateFiducial(scene: Scene, volumes: seq<Volume>, i: nat, l: nat, k: nat, ghost orig: seq<FiducialList>,
                             ghost names: seq<string>, ghost added: Option<string>)
    requires MiddleInv(orig, scene.lists, volumes, i, l, names, k, added) && k < |names|
    requires Reassociated(orig, scene.lists, volumes, i) && OwnedUpTo(scene.lists, volumes, l, k)
    requires Tracked(orig, scene.lists, volumes, added)
    modifies scene
    ensures MiddleInv(orig, scene.lists, volumes, i, l, names, k, added)
    ensures Reassociated(orig, scene.lists, volumes, i) && OwnedUpTo(scene.lists, volumes, l, k + 1)
    ensures Tracked(orig, scene.lists, volumes, added)
  {
    var volume := volumes[i];
    var fids := scene.lists[l].fiducials;
    if fids[k].associatedNodeId != Some(volume.id) {
      Reassociate(orig, scene.lists, volumes, i, l, names, k, added, volume.id);
      SetOwner(orig, scene.lists, volumes, i, l, k);
      SetAssociationGrows(scene.lists, l, k, volume.id);
      TrackedKept(orig, scene.lists, scene.lists[l := scene.lists[l].(fiducials := fids[k := fids[k].(associatedNodeId := Some(volume.id))])],
                  volumes, added);
      scene.lists := scene.lists[l := scene.lists[l].(fiducials := fids[k := fids[k].(associatedNodeId := Some(volume.id))])];
    } else {
      AlreadyOwned(scene.lists, volumes, i, l, k);
    }
  }

  /**
   * The inner loop of landmarksFromFiducials: ensure the label of fiducial k
   * of volume i's list l in the list of every other volume, keeping the last
   * label an ensure call returned.
   */
  method EnsureInOtherVolumes(scene: Scene, volumes: seq<Volume>, i: nat, l: nat, landmarkName: string, landmarkPosition: Point,
                              ghost orig: seq<FiducialList>, ghost names: seq<string>, ghost k: nat, added: Option<string>)
    returns (addedLandmark: Option<string>)
    requires InnerInv(orig, scene.lists, volumes, i, l, names, k, 0, added) && landmarkName == names[k]
    requires Reassociated(orig, scene.lists, volumes, i) && OwnedUpTo(scene.lists, volumes, l, k + 1)
    requires Tracked(orig, scene.lists, volumes, added) && FromVolumeList(orig, volumes, landmarkName, landmarkPosition)
    modifies scene
    ensures InnerInv(orig, scene.lists, volumes, i, l, names, k, |volumes|, addedLandmark)
    ensures Reassociated(orig, scene.lists, volumes, i) && OwnedUpTo(scene.lists, volumes, l, k + 1)
    ensures Tracked(orig, scene.lists, volumes, addedLandmark)
  {
    addedLandmark := added;
    for m := 0 to |volumes|
      invariant InnerInv(orig, scene.lists, volumes, i, l, names, k, m, addedLandmark)
      invariant Reassociated(orig, scene.lists, volumes, i) && OwnedUpTo(scene.lists, volumes, l, k + 1)
      invariant Tracked(orig, scene.lists, volumes, addedLandmark)
    {
      var otherVolume := volumes[m];
      if otherVolume != volumes[i] {
        InnerEnsure(orig, scene.lists, volumes, i, l, names, k, m, addedLandmark, landmarkPosition);
        EnsureReassociated(orig, scene.lists, volumes, i, l, k + 1, m, landmarkName, landmarkPosition);
        EnsureTracked(orig, scene.lists, volumes, otherVolume, landmarkName, landmarkPosition, addedLandmark);
        var addedFiducial := EnsureFiducialInListForVolume(scene, otherVolume, landmarkName, landmarkPosition);
        if Truthy(addedFiducial) {
          addedLandmark := addedFiducial;
        }
      } else {
        InnerSkip(orig, scene.lists, volumes, i, l, names, k, m, addedLandmark);
      }
    }
  }
}

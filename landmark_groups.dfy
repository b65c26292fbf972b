/**
 * What landmarksForVolumes computes: fiducials of the volumes' lists grouped
 * by label, keeping the labels seen exactly once per volume in total; and the
 * side effect of volumeFiducialList, which re-associates a volume's list.
 */
module LandmarkGroups {
  import opened Wrappers
  import opened Markups

  /** Number of fiducials labelled `name`. */
  function Occurrences(fids: seq<Fiducial>, name: string): nat {
    if fids == [] then 0
    else Occurrences(fids[..|fids| - 1], name) + (if fids[|fids| - 1].name == name then 1 else 0)
  }

  /** References (l, k) to the fiducials of `fids` (list l) labelled `name`, in index order. */
  function ListEntries(fids: seq<Fiducial>, l: nat, name: string): seq<FiducialRef> {
    if fids == [] then []
    else
      var n := |fids| - 1;
      ListEntries(fids[..n], l, name) + (if fids[n].name == name then [(l, n)] else [])
  }

  /**
   * ListEntries holds one reference per fiducial labelled `name`, each in
   * range and carrying the label, all of them, in increasing index order.
   */
  lemma {:induction false} ListEntriesSpec(fids: seq<Fiducial>, l: nat, name: string)
    ensures |ListEntries(fids, l, name)| == Occurrences(fids, name)
    ensures forall e :: e in ListEntries(fids, l, name) ==> e.0 == l && e.1 < |fids| && fids[e.1].name == name
    ensures forall k :: 0 <= k < |fids| && fids[k].name == name ==> (l, k) in ListEntries(fids, l, name)
    ensures forall i, j :: 0 <= i < j < |ListEntries(fids, l, name)| ==>
              ListEntries(fids, l, name)[i].1 < ListEntries(fids, l, name)[j].1
  {
    if fids != [] {
      var n := |fids| - 1;
      ListEntriesSpec(fids[..n], l, name);
    }
  }

  /** Every label of the volumes' lists. */
  function AllLabels(lists: seq<FiducialList>, vols: seq<Volume>): set<string> {
    if vols == [] then {}
    else
      var n := |vols| - 1;
      AllLabels(lists, vols[..n]) + VolumeLabels(lists, vols[n])
  }

  /** A label is in AllLabels exactly when some volume's list holds it. */
  lemma {:induction false} AllLabelsSpec(lists: seq<FiducialList>, vols: seq<Volume>, x: string)
    ensures x in AllLabels(lists, vols) <==> exists i :: 0 <= i < |vols| && x in VolumeLabels(lists, vols[i])
  {
    if vols != [] {
      var n := |vols| - 1;
      assert forall i :: 0 <= i < n ==> vols[..n][i] == vols[i];
      AllLabelsSpec(lists, vols[..n], x);
    }
  }

  /** How often `name` occurs in the volumes' lists, a list counted once per volume naming it. */
  function TotalOccurrences(lists: seq<FiducialList>, vols: seq<Volume>, name: string): nat {
    if vols == [] then 0
    else
      var n := |vols| - 1;
      TotalOccurrences(lists, vols[..n], name)
        + match ListOf(lists, vols[n]) case None => 0 case Some(l) => Occurrences(lists[l].fiducials, name)
  }

  /**
   * The (list, index) pairs that landmarksForVolumes collects for `name`:
   * volume by volume, each volume's list in index order.
   */
  function Entries(lists: seq<FiducialList>, vols: seq<Volume>, name: string): seq<FiducialRef> {
    if vols == [] then []
    else
      var n := |vols| - 1;
      Entries(lists, vols[..n], name) + VolumeEntries(lists, vols[n], name)
  }

  /**
   * Entries holds one reference per occurrence of `name` in the volumes'
   * lists, each in range and carrying the label, and is empty exactly when
   * no volume's list holds the label.
   */
  lemma {:induction false} EntriesSpec(lists: seq<FiducialList>, vols: seq<Volume>, name: string)
    ensures |Entries(lists, vols, name)| == TotalOccurrences(lists, vols, name)
    ensures forall e :: e in Entries(lists, vols, name) ==>
              e.0 < |lists| && e.1 < |lists[e.0].fiducials| && lists[e.0].fiducials[e.1].name == name
    ensures Entries(lists, vols, name) != [] <==> name in AllLabels(lists, vols)
  {
    if vols != [] {
      var n := |vols| - 1;
      EntriesSpec(lists, vols[..n], name);
      VolumeEntriesNonEmpty(lists, vols[n], name);
      match ListOf(lists, vols[n])
      case None =>
      case Some(l) => ListEntriesSpec(lists[l].fiducials, l, name);
    }
  }

  /** The references one volume contributes to Entries. */
  function VolumeEntries(lists: seq<FiducialList>, v: Volume, name: string): seq<FiducialRef> {
    match ListOf(lists, v)
    case None => []
    case Some(l) => ListEntries(lists[l].fiducials, l, name)
  }

  /** A list contributes references for a label exactly when it holds that label. */
  lemma ListEntriesNonEmpty(fids: seq<Fiducial>, l: nat, name: string)
    ensures ListEntries(fids, l, name) != [] <==> name in Labels(fids)
  {
    ListEntriesSpec(fids, l, name);
    if name in Labels(fids) {
      var f :| f in fids && f.name == name;
      var k :| 0 <= k < |fids| && fids[k] == f;
      assert (l, k) in ListEntries(fids, l, name);
    }
    if ListEntries(fids, l, name) != [] {
      var e := ListEntries(fids, l, name)[0];
      assert fids[e.1] in fids;
    }
  }

  lemma VolumeEntriesNonEmpty(lists: seq<FiducialList>, v: Volume, name: string)
    ensures VolumeEntries(lists, v, name) != [] <==> name in VolumeLabels(lists, v)
  {
    match ListOf(lists, v)
    case None =>
    case Some(l) => ListEntriesNonEmpty(lists[l].fiducials, l, name);
  }

  /** The dictionary landmarksForVolumes returns. */
  function Landmarks(lists: seq<FiducialList>, vols: seq<Volume>): (m: map<string, seq<FiducialRef>>)
    ensures forall x :: x in m ==> m[x] == Entries(lists, vols, x)
  {
    map x | x in AllLabels(lists, vols) && |Entries(lists, vols, x)| == |vols| :: Entries(lists, vols, x)
  }

  /**
   * A label is a landmark exactly when it occurs |vols| times in total in the
   * volumes' lists; no volumes, no landmarks.  Each of its references is in
   * range and carries the label.
   */
  lemma LandmarksAreFullCounts(lists: seq<FiducialList>, vols: seq<Volume>, x: string)
    ensures x in Landmarks(lists, vols) <==> 0 < |vols| && TotalOccurrences(lists, vols, x) == |vols|
    ensures x in Landmarks(lists, vols) ==>
              && |Landmarks(lists, vols)[x]| == |vols|
              && forall e :: e in Landmarks(lists, vols)[x] ==>
                   e.0 < |lists| && e.1 < |lists[e.0].fiducials| && lists[e.0].fiducials[e.1].name == x
  {
    EntriesSpec(lists, vols, x);
    var r := Entries(lists, vols, x);
    if 0 < |vols| && TotalOccurrences(lists, vols, x) == |vols| {
      assert r != [];
      assert x in AllLabels(lists, vols);
    }
    if x in Landmarks(lists, vols) {
      assert x in AllLabels(lists, vols) && |r| == |vols|;
      assert r != [];
    }
  }

  /** Appending to fids adds one occurrence for its label. */
  lemma OccurrencesAppend(fids: seq<Fiducial>, f: Fiducial, name: string)
    ensures Occurrences(fids + [f], name) == Occurrences(fids, name) + (if f.name == name then 1 else 0)
  {
    assert (fids + [f])[..|fids|] == fids;
  }

  /** A label that is in no volume's list occurs nowhere. */
  lemma {:induction false} OccurrencesZero(fids: seq<Fiducial>, name: string)
    requires name !in Labels(fids)
    ensures Occurrences(fids, name) == 0
  {
    if fids != [] {
      var n := |fids| - 1;
      assert Labels(fids[..n]) <= Labels(fids);
      OccurrencesZero(fids[..n], name);
      assert fids[n] in fids;
    }
  }

  /** A label present once in the list of each volume is a landmark. */
  lemma {:induction false} OncePerVolumeIsLandmark(lists: seq<FiducialList>, vols: seq<Volume>, x: string)
    requires 0 < |vols|
    requires forall i :: 0 <= i < |vols| ==>
               ListOf(lists, vols[i]).Some? && Occurrences(lists[ListOf(lists, vols[i]).value].fiducials, x) == 1
    ensures x in Landmarks(lists, vols)
  {
    OncePerVolumeCount(lists, vols, x);
    LandmarksAreFullCounts(lists, vols, x);
  }

  lemma {:induction false} OncePerVolumeCount(lists: seq<FiducialList>, vols: seq<Volume>, x: string)
    requires forall i :: 0 <= i < |vols| ==>
               ListOf(lists, vols[i]).Some? && Occurrences(lists[ListOf(lists, vols[i]).value].fiducials, x) == 1
    ensures TotalOccurrences(lists, vols, x) == |vols|
  {
    if vols != [] {
      var n := |vols| - 1;
      assert forall i :: 0 <= i < n ==> vols[..n][i] == vols[i];
      OncePerVolumeCount(lists, vols[..n], x);
    }
  }

  /**
   * The count is a total over all lists, not one per volume: a label twice in
   * the fixed volume's list and absent from the moving volume's list is a
   * landmark of the pair.
   */
  lemma TotalCountNotPresence()
    ensures var b := Bounds(Point(0.0, 0.0, 0.0), Point(1.0, 1.0, 1.0));
            var fixed, moving := Volume("v1", "fixed", b), Volume("v2", "moving", b);
            var f := Fiducial("L-0", Point(0.0, 0.0, 0.0), None, false, false);
            var lists := [FiducialList("fixed-landmarks", map[], [f, f]), FiducialList("moving-landmarks", map[], [])];
            && "L-0" !in VolumeLabels(lists, moving)
            && "L-0" in Landmarks(lists, [fixed, moving])
  {
    var b := Bounds(Point(0.0, 0.0, 0.0), Point(1.0, 1.0, 1.0));
    var fixed, moving := Volume("v1", "fixed", b), Volume("v2", "moving", b);
    var f := Fiducial("L-0", Point(0.0, 0.0, 0.0), None, false, false);
    var lists := [FiducialList("fixed-landmarks", map[], [f, f]), FiducialList("moving-landmarks", map[], [])];
    assert ListName(fixed) == "fixed-landmarks";
    assert ListName(moving) == "moving-landmarks";
    assert ListOf(lists, fixed) == Some(0);
    assert lists[1..] == [lists[1]];
    assert ListOf(lists, moving) == Some(1);
    assert [f, f][..1] == [f];
    assert [f][..0] == [];
    assert Occurrences([f], "L-0") == 1;
    assert Occurrences([f, f], "L-0") == 2;
    assert [fixed, moving][..1] == [fixed];
    assert [fixed][..0] == [];
    assert TotalOccurrences(lists, [fixed], "L-0") == 2;
    assert TotalOccurrences(lists, [fixed, moving], "L-0") == 2;
    LandmarksAreFullCounts(lists, [fixed, moving], "L-0");
  }

  /** Lists agreeing in names and labels yield the same grouping. */
  ghost predicate SameLabels(a: seq<FiducialList>, b: seq<FiducialList>) {
    && SameNames(a, b)
    && forall j :: 0 <= j < |a| ==>
         && |a[j].fiducials| == |b[j].fiducials|
         && forall k :: 0 <= k < |a[j].fiducials| ==> a[j].fiducials[k].name == b[j].fiducials[k].name
  }

  lemma {:induction false} ListEntriesAgree(a: seq<Fiducial>, b: seq<Fiducial>, l: nat, name: string)
    requires |a| == |b| && forall k :: 0 <= k < |a| ==> a[k].name == b[k].name
    ensures ListEntries(a, l, name) == ListEntries(b, l, name)
  {
    if a != [] {
      var n := |a| - 1;
      ListEntriesAgree(a[..n], b[..n], l, name);
    }
  }

  lemma {:induction false} EntriesAgree(a: seq<FiducialList>, b: seq<FiducialList>, vols: seq<Volume>, name: string)
    requires SameLabels(a, b)
    ensures Entries(a, vols, name) == Entries(b, vols, name)
  {
    if vols != [] {
      var n := |vols| - 1;
      EntriesAgree(a, b, vols[..n], name);
      ListOfAgrees(a, b, vols[n]);
      match ListOf(a, vols[n])
      case None =>
      case Some(l) => ListEntriesAgree(a[l].fiducials, b[l].fiducials, l, name);
    }
  }

  /** Re-associating lists (volumeFiducialList's side effect) does not change the landmarks. */
  lemma LandmarksIgnoreAssociation(a: seq<FiducialList>, b: seq<FiducialList>, vols: seq<Volume>)
    requires SameLabels(a, b)
    ensures Landmarks(a, vols) == Landmarks(b, vols)
  {
    forall x ensures Entries(a, vols, x) == Entries(b, vols, x) {
      EntriesAgree(a, b, vols, x);
    }
    forall x ensures x in AllLabels(a, vols) <==> x in AllLabels(b, vols) {
      EntriesAgree(a, b, vols, x);
      EntriesSpec(a, vols, x);
      EntriesSpec(b, vols, x);
    }
  }

  /** volumeFiducialList's effect: the volume's list gets AssociatedNodeID = the volume's id. */
  function Associate(lists: seq<FiducialList>, v: Volume): (r: seq<FiducialList>)
    ensures |r| == |lists|
    ensures forall j :: 0 <= j < |r| ==> r[j].name == lists[j].name && r[j].fiducials == lists[j].fiducials
    ensures ListOf(lists, v).Some? ==> AttributeOf(r[ListOf(lists, v).value], AssociatedNodeId) == Some(v.id)
    ensures forall j :: 0 <= j < |r| && ListOf(lists, v) != Some(j) ==> r[j] == lists[j]
  {
    match ListOf(lists, v)
    case None => lists
    case Some(l) => lists[l := lists[l].(attributes := lists[l].attributes[AssociatedNodeId := v.id])]
  }

  /** volumeFiducialList applied to each volume in turn. */
  function AssociateAll(lists: seq<FiducialList>, vols: seq<Volume>): (r: seq<FiducialList>)
    ensures |r| == |lists|
    ensures forall j :: 0 <= j < |r| ==> r[j].name == lists[j].name && r[j].fiducials == lists[j].fiducials
  {
    if vols == [] then lists
    else Associate(AssociateAll(lists, vols[..|vols| - 1]), vols[|vols| - 1])
  }
}

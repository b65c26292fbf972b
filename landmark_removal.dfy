/**
 * removeLandmarkForVolumes: look the landmark up with landmarksForVolumes and
 * remove each of its (list, index) references with the host's RemoveMarkup.
 * The source removes them front to back by index, so an earlier removal in a
 * list shifts the fiducials a later reference points at.  RemoveInOrder is
 * that behaviour; RemoveReferenced removes the referenced fiducials all at
 * once, which is what the method means to do.
 */
module LandmarkRemoval {
  import opened Wrappers
  import opened Markups
  import opened LandmarkGroups
  import opened LandmarkLogic

  /** The host's RemoveMarkup(k): fiducial k goes and the later ones move down; an index out of range changes nothing. */
  function RemoveMarkup(fids: seq<Fiducial>, k: nat): (r: seq<Fiducial>)
    ensures k < |fids| ==> |r| == |fids| - 1
    ensures k < |fids| ==> forall j :: 0 <= j < k ==> r[j] == fids[j]
    ensures k < |fids| ==> forall j :: k <= j < |r| ==> r[j] == fids[j + 1]
    ensures |fids| <= k ==> r == fids
  {
    if k < |fids| then fids[..k] + fids[k + 1..] else fids
  }

  /** The references of `landmark` in a landmark dictionary; none when it is not a landmark. */
  function Refs(m: map<string, seq<FiducialRef>>, landmark: string): seq<FiducialRef> {
    if landmark in m then m[landmark] else []
  }

  /**
   * RemoveMarkup applied for each reference in turn, front to back (the
   * source as written).  References come from the scene, so their list
   * always exists.
   */
  function RemoveInOrder(lists: seq<FiducialList>, refs: seq<FiducialRef>): (r: seq<FiducialList>)
    ensures |r| == |lists|
  {
    if refs == [] then lists
    else
      var n := |refs| - 1;
      var prev := RemoveInOrder(lists, refs[..n]);
      var l := refs[n].0;
      if l < |prev| then prev[l := prev[l].(fiducials := RemoveMarkup(prev[l].fiducials, refs[n].1))] else prev
  }

  /** The fiducials of list j whose references are not in `refs`, in order. */
  function Unreferenced(fids: seq<Fiducial>, j: nat, refs: seq<FiducialRef>): seq<Fiducial> {
    if fids == [] then []
    else
      var n := |fids| - 1;
      Unreferenced(fids[..n], j, refs) + (if (j, n) in refs then [] else [fids[n]])
  }

  /** Every referenced fiducial removed at once: the intended effect of removeLandmarkForVolumes. */
  function RemoveReferenced(lists: seq<FiducialList>, refs: seq<FiducialRef>): seq<FiducialList> {
    seq(|lists|, j requires 0 <= j < |lists| => lists[j].(fiducials := Unreferenced(lists[j].fiducials, j, refs)))
  }

  /** The fiducials not labelled `x`, in order. */
  function WithoutLabel(fids: seq<Fiducial>, x: string): seq<Fiducial> {
    if fids == [] then []
    else
      var n := |fids| - 1;
      WithoutLabel(fids[..n], x) + (if fids[n].name == x then [] else [fids[n]])
  }

  lemma LabelsAppend(fids: seq<Fiducial>, tail: seq<Fiducial>)
    ensures Labels(fids + tail) == Labels(fids) + Labels(tail)
  {
    forall y | y in Labels(fids + tail) ensures y in Labels(fids) + Labels(tail) {
      var f :| f in fids + tail && f.name == y;
      assert f in fids || f in tail;
    }
    forall y | y in Labels(fids) + Labels(tail) ensures y in Labels(fids + tail) {
      if y in Labels(fids) {
        var f :| f in fids && f.name == y;
        assert f in fids + tail;
      } else {
        var f :| f in tail && f.name == y;
        assert f in fids + tail;
      }
    }
  }

  /** Removing a label's fiducials takes exactly that label away and drops one fiducial per occurrence. */
  lemma {:induction false} WithoutLabelSpec(fids: seq<Fiducial>, x: string)
    ensures Labels(WithoutLabel(fids, x)) == Labels(fids) - {x}
    ensures |WithoutLabel(fids, x)| == |fids| - Occurrences(fids, x)
  {
    if fids != [] {
      var n := |fids| - 1;
      WithoutLabelSpec(fids[..n], x);
      assert fids == fids[..n] + [fids[n]];
      LabelsAppend(fids[..n], [fids[n]]);
      LabelsAppend(WithoutLabel(fids[..n], x), if fids[n].name == x then [] else [fids[n]]);
      assert Labels([fids[n]]) == {fids[n].name};
    }
  }

  /** When the references into list j are exactly the fiducials labelled x, Unreferenced drops exactly those. */
  lemma {:induction false} UnreferencedIsWithoutLabel(fids: seq<Fiducial>, j: nat, refs: seq<FiducialRef>, x: string)
    requires forall k :: 0 <= k < |fids| ==> ((j, k) in refs <==> fids[k].name == x)
    ensures Unreferenced(fids, j, refs) == WithoutLabel(fids, x)
  {
    if fids != [] {
      var n := |fids| - 1;
      UnreferencedIsWithoutLabel(fids[..n], j, refs, x);
    }
  }

  /** A reference is collected for `x` exactly when it points into a volume's list at a fiducial labelled `x`. */
  lemma {:induction false} EntriesMembership(lists: seq<FiducialList>, vols: seq<Volume>, x: string, e: FiducialRef)
    ensures e in Entries(lists, vols, x) <==>
              && IsVolumeList(lists, vols, e.0)
              && e.0 < |lists| && e.1 < |lists[e.0].fiducials| && lists[e.0].fiducials[e.1].name == x
  {
    if vols != [] {
      var n := |vols| - 1;
      EntriesMembership(lists, vols[..n], x, e);
      VolumeEntriesMembership(lists, vols[n], x, e);
      IsVolumeListStep(lists, vols, e.0);
      assert Entries(lists, vols, x) == Entries(lists, vols[..n], x) + VolumeEntries(lists, vols[n], x);
    }
  }

  lemma IsVolumeListStep(lists: seq<FiducialList>, vols: seq<Volume>, j: nat)
    requires vols != []
    ensures IsVolumeList(lists, vols, j) <==>
              IsVolumeList(lists, vols[..|vols| - 1], j) || ListOf(lists, vols[|vols| - 1]) == Some(j)
  {
    var n := |vols| - 1;
    if IsVolumeList(lists, vols, j) && ListOf(lists, vols[n]) != Some(j) {
      var i :| 0 <= i < |vols| && ListOf(lists, vols[i]) == Some(j);
      assert vols[..n][i] == vols[i];
    }
    if IsVolumeList(lists, vols[..n], j) {
      var i :| 0 <= i < n && ListOf(lists, vols[..n][i]) == Some(j);
      assert vols[..n][i] == vols[i];
    }
  }

  lemma VolumeEntriesMembership(lists: seq<FiducialList>, v: Volume, x: string, e: FiducialRef)
    ensures e in VolumeEntries(lists, v, x) <==>
              && ListOf(lists, v) == Some(e.0)
              && e.0 < |lists| && e.1 < |lists[e.0].fiducials| && lists[e.0].fiducials[e.1].name == x
  {
    match ListOf(lists, v)
    case None =>
    case Some(l) => ListEntriesSpec(lists[l].fiducials, l, x);
  }

  /** Lists that agree in names and fiducials (attributes may differ). */
  ghost predicate SameContents(a: seq<FiducialList>, b: seq<FiducialList>) {
    |a| == |b| && forall j :: 0 <= j < |a| ==> a[j].name == b[j].name && a[j].fiducials == b[j].fiducials
  }

  /**
   * Removing the references of landmark x at once takes out of every
   * volume's list exactly its fiducials labelled x, and leaves every other
   * list, every list name and every attribute as it was.
   */
  lemma RemoveReferencedSpec(a: seq<FiducialList>, b: seq<FiducialList>, vols: seq<Volume>, x: string)
    requires SameContents(a, b) && x in Landmarks(a, vols)
    ensures var r := RemoveReferenced(b, Landmarks(a, vols)[x]);
            && |r| == |b|
            && forall j :: 0 <= j < |b| ==>
                 && r[j].name == b[j].name && r[j].attributes == b[j].attributes
                 && r[j].fiducials == if IsVolumeList(a, vols, j) then WithoutLabel(b[j].fiducials, x) else b[j].fiducials
  {
    var refs := Landmarks(a, vols)[x];
    var r := RemoveReferenced(b, refs);
    forall j | 0 <= j < |b|
      ensures r[j].fiducials == if IsVolumeList(a, vols, j) then WithoutLabel(b[j].fiducials, x) else b[j].fiducials
    {
      var fids := b[j].fiducials;
      forall k | 0 <= k < |fids|
        ensures (j, k) in refs <==> IsVolumeList(a, vols, j) && fids[k].name == x
      {
        EntriesMembership(a, vols, x, (j, k));
      }
      if IsVolumeList(a, vols, j) {
        UnreferencedIsWithoutLabel(fids, j, refs, x);
      } else {
        NoneReferenced(fids, j, refs);
      }
    }
  }

  lemma {:induction false} NoneReferenced(fids: seq<Fiducial>, j: nat, refs: seq<FiducialRef>)
    requires forall k :: 0 <= k < |fids| ==> (j, k) !in refs
    ensures Unreferenced(fids, j, refs) == fids
  {
    if fids != [] {
      var n := |fids| - 1;
      NoneReferenced(fids[..n], j, refs);
      assert fids == fids[..n] + [fids[n]];
    }
  }

  /** After the intended removal no volume's list holds the landmark, and every other label stays. */
  lemma RemovedFromEveryVolume(a: seq<FiducialList>, b: seq<FiducialList>, vols: seq<Volume>, x: string, i: nat)
    requires SameContents(a, b) && x in Landmarks(a, vols) && i < |vols|
    ensures VolumeLabels(RemoveReferenced(b, Landmarks(a, vols)[x]), vols[i]) == VolumeLabels(a, vols[i]) - {x}
  {
    var r := RemoveReferenced(b, Landmarks(a, vols)[x]);
    RemoveReferencedSpec(a, b, vols, x);
    assert SameNames(a, r);
    ListOfAgrees(a, r, vols[i]);
    match ListOf(a, vols[i])
    case None =>
    case Some(l) =>
      assert IsVolumeList(a, vols, l);
      WithoutLabelSpec(b[l].fiducials, x);
  }

  /*
   * The stale index, concretely: the fixed volume's list holds L-0 twice
   * and then L-1, the moving volume has no list.
   */
  const ExampleBounds := Bounds(Point(0.0, 0.0, 0.0), Point(1.0, 1.0, 1.0))
  const ExampleFixed := Volume("v1", "fixed", ExampleBounds)
  const ExampleMoving := Volume("v2", "moving", ExampleBounds)
  const ExampleL0 := Fiducial("L-0", Point(0.0, 0.0, 0.0), None, false, false)
  const ExampleL1 := Fiducial("L-1", Point(0.0, 0.0, 0.0), None, false, false)
  const ExampleLists := [FiducialList("fixed-landmarks", map[], [ExampleL0, ExampleL0, ExampleL1])]

  /** In the example, L-0 is a landmark of the pair, referenced at (0, 0) and (0, 1). */
  lemma ExampleLandmarks()
    ensures Landmarks(ExampleLists, [ExampleFixed, ExampleMoving]) == map["L-0" := [(0, 0), (0, 1)]]
  {
    var vols := [ExampleFixed, ExampleMoving];
    ExampleVolumeEntries();
    var m := Landmarks(ExampleLists, vols);
    assert "L-0" in m && "L-1" !in m;
    assert m.Keys == {"L-0"};
  }

  lemma ExampleVolumeEntries()
    ensures AllLabels(ExampleLists, [ExampleFixed, ExampleMoving]) == {"L-0", "L-1"}
    ensures Entries(ExampleLists, [ExampleFixed, ExampleMoving], "L-0") == [(0, 0), (0, 1)]
    ensures Entries(ExampleLists, [ExampleFixed, ExampleMoving], "L-1") == [(0, 2)]
  {
    var lists, fixed, moving := ExampleLists, ExampleFixed, ExampleMoving;
    var vols := [fixed, moving];
    ExampleLookups();
    assert vols[..1] == [fixed] && [fixed][..0] == [];
    ExampleEntries();
    assert AllLabels(lists, [fixed]) == {"L-0", "L-1"};
    assert Entries(lists, [fixed], "L-0") == [(0, 0), (0, 1)];
    assert Entries(lists, [fixed], "L-1") == [(0, 2)];
  }

  lemma ExampleLookups()
    ensures ListOf(ExampleLists, ExampleFixed) == Some(0)
    ensures ListOf(ExampleLists, ExampleMoving) == None
    ensures VolumeLabels(ExampleLists, ExampleFixed) == {"L-0", "L-1"}
  {
    var fids := [ExampleL0, ExampleL0, ExampleL1];
    assert ListName(ExampleFixed) == "fixed-landmarks";
    assert ListName(ExampleMoving) == "moving-landmarks";
    assert Labels(fids) == {"L-0", "L-1"} by {
      assert fids[0] in fids && fids[2] in fids;
    }
  }

  lemma ExampleEntries()
    ensures ListEntries([ExampleL0, ExampleL0, ExampleL1], 0, "L-0") == [(0, 0), (0, 1)]
    ensures ListEntries([ExampleL0, ExampleL0, ExampleL1], 0, "L-1") == [(0, 2)]
  {
    var f0, f1 := ExampleL0, ExampleL1;
    var fids := [f0, f0, f1];
    assert fids[..2] == [f0, f0] && [f0, f0][..1] == [f0] && [f0][..0] == [];
    assert ListEntries([f0], 0, "L-0") == [(0, 0)];
    assert ListEntries([f0, f0], 0, "L-0") == [(0, 0), (0, 1)];
    assert ListEntries([f0], 0, "L-1") == [];
    assert ListEntries([f0, f0], 0, "L-1") == [];
  }

  /**
   * Removing the example's references front to back removes L-0 and then
   * L-1, which has moved to index 1, and leaves an L-0; removing them at
   * once leaves exactly L-1.
   */
  lemma StaleIndexRemovesOtherLabel()
    ensures RemoveInOrder(ExampleLists, [(0, 0), (0, 1)])[0].fiducials == [ExampleL0]
    ensures RemoveReferenced(ExampleLists, [(0, 0), (0, 1)])[0].fiducials == [ExampleL1]
  {
    var f0, f1 := ExampleL0, ExampleL1;
    var fids := [f0, f0, f1];
    var refs := [(0, 0), (0, 1)];
    assert refs[..1] == [(0, 0)] && [(0, 0)][..0] == [];
    assert RemoveInOrder(ExampleLists, [(0, 0)])[0].fiducials == [f0, f1];
    assert RemoveMarkup([f0, f1], 1) == [f0];
    ExampleUnreferenced();
  }

  lemma ExampleUnreferenced()
    ensures Unreferenced([ExampleL0, ExampleL0, ExampleL1], 0, [(0, 0), (0, 1)]) == [ExampleL1]
  {
    var f0, f1 := ExampleL0, ExampleL1;
    var fids := [f0, f0, f1];
    var refs := [(0, 0), (0, 1)];
    assert fids[..2] == [f0, f0] && [f0, f0][..1] == [f0] && [f0][..0] == [];
    assert Unreferenced([f0], 0, refs) == [];
    assert Unreferenced([f0, f0], 0, refs) == [];
  }

  /** The host's RemoveMarkup on list l of the scene. */
  method RemoveFiducial(scene: Scene, l: nat, k: nat)
    requires l < |scene.lists|
    modifies scene
    ensures scene.lists == old(scene.lists)[l := old(scene.lists)[l].(fiducials := RemoveMarkup(old(scene.lists)[l].fiducials, k))]
  {
    var fids := scene.lists[l].fiducials;
    if k < |fids| {
      fids := fids[..k] + fids[k + 1..];
    }
    scene.lists := scene.lists[l := scene.lists[l].(fiducials := fids)];
  }

  /** The references of a landmark point into the scene's lists. */
  lemma RefsInRange(lists: seq<FiducialList>, vols: seq<Volume>, landmark: string)
    ensures forall e :: e in Refs(Landmarks(lists, vols), landmark) ==> e.0 < |lists|
  {
    LandmarksAreFullCounts(lists, vols, landmark);
  }

  lemma RemoveInOrderStep(lists: seq<FiducialList>, refs: seq<FiducialRef>, i: nat)
    requires i < |refs| && refs[i].0 < |lists|
    ensures var prev := RemoveInOrder(lists, refs[..i]);
            RemoveInOrder(lists, refs[..i + 1])
            == prev[refs[i].0 := prev[refs[i].0].(fiducials := RemoveMarkup(prev[refs[i].0].fiducials, refs[i].1))]
  {
    assert refs[..i + 1][..i] == refs[..i];
  }

  /** Unreferenced depends only on which of the list's own indices are referenced. */
  lemma {:induction false} UnreferencedAgree(fids: seq<Fiducial>, j: nat, a: seq<FiducialRef>, b: seq<FiducialRef>)
    requires forall k :: 0 <= k < |fids| ==> ((j, k) in a <==> (j, k) in b)
    ensures Unreferenced(fids, j, a) == Unreferenced(fids, j, b)
  {
    if fids != [] {
      UnreferencedAgree(fids[..|fids| - 1], j, a, b);
    }
  }

  /** With index k the only one of list j referenced, the intended removal is the host's RemoveMarkup(k). */
  lemma {:induction false} UnreferencedOne(fids: seq<Fiducial>, j: nat, refs: seq<FiducialRef>, k: nat)
    requires forall k' :: 0 <= k' < |fids| ==> ((j, k') in refs <==> k' == k)
    ensures Unreferenced(fids, j, refs) == RemoveMarkup(fids, k)
  {
    if k >= |fids| {
      NoneReferenced(fids, j, refs);
    } else {
      var n := |fids| - 1;
      if k == n {
        NoneReferenced(fids[..n], j, refs);
      } else {
        UnreferencedOne(fids[..n], j, refs, k);
        assert fids[..n][k + 1..] + [fids[n]] == fids[k + 1..];
      }
    }
  }

  /**
   * When no two references point into the same list, no removal shifts the
   * index of a later one, so removing front to back is the intended removal.
   */
  lemma {:induction false} InOrderDistinctLists(lists: seq<FiducialList>, refs: seq<FiducialRef>)
    requires forall i, i' :: 0 <= i < i' < |refs| ==> refs[i].0 != refs[i'].0
    ensures RemoveInOrder(lists, refs) == RemoveReferenced(lists, refs)
  {
    if refs == [] {
      forall j | 0 <= j < |lists| ensures RemoveReferenced(lists, refs)[j] == lists[j] {
        NoneReferenced(lists[j].fiducials, j, refs);
      }
    } else {
      var n := |refs| - 1;
      var init := refs[..n];
      var l := refs[n].0;
      assert refs == init + [refs[n]];
      InOrderDistinctLists(lists, init);
      forall j | 0 <= j < |lists| && j != l
        ensures Unreferenced(lists[j].fiducials, j, refs) == Unreferenced(lists[j].fiducials, j, init)
      {
        UnreferencedAgree(lists[j].fiducials, j, refs, init);
      }
      if l < |lists| {
        var fids := lists[l].fiducials;
        NoneReferenced(fids, l, init);
        UnreferencedOne(fids, l, refs, refs[n].1);
      }
    }
  }

  /** removeLandmarkForVolumes as written: RemoveMarkup for each reference, front to back. */
  method RemoveLandmarkInOrder(scene: Scene, landmark: string, volumes: seq<Volume>)
    modifies scene
    ensures scene.lists == RemoveInOrder(AssociateAll(old(scene.lists), volumes), Refs(Landmarks(old(scene.lists), volumes), landmark))
  {
    var landmarks := LandmarksForVolumes(scene, volumes);
    if landmark in landmarks {
      var refs := landmarks[landmark];
      RefsInRange(old(scene.lists), volumes, landmark);
      ghost var associated := scene.lists;
      for i := 0 to |refs|
        invariant scene.lists == RemoveInOrder(associated, refs[..i])
      {
        RemoveInOrderStep(associated, refs, i);
        RemoveFiducial(scene, refs[i].0, refs[i].1);
      }
      assert refs[..|refs|] == refs;
    }
  }

  /** The fiducials of list j that `refs` does not reference (the corrected removal, one list). */
  method KeepUnreferenced(fids: seq<Fiducial>, j: nat, refs: seq<FiducialRef>) returns (kept: seq<Fiducial>)
    ensures kept == Unreferenced(fids, j, refs)
  {
    kept := [];
    for k := 0 to |fids|
      invariant kept == Unreferenced(fids[..k], j, refs)
    {
      assert fids[..k + 1][..k] == fids[..k];
      if (j, k) !in refs {
        kept := kept + [fids[k]];
      }
    }
    assert fids[..|fids|] == fids;
  }

  /**
   * removeLandmarkForVolumes as intended: every fiducial the landmark
   * references is removed, none other (RemoveReferencedSpec, RemovedFromEveryVolume).
   */
  method RemoveLandmarkForVolumes(scene: Scene, landmark: string, volumes: seq<Volume>)
    modifies scene
    ensures scene.lists == RemoveReferenced(AssociateAll(old(scene.lists), volumes), Refs(Landmarks(old(scene.lists), volumes), landmark))
  {
    var landmarks := LandmarksForVolumes(scene, volumes);
    var refs := Refs(landmarks, landmark);
    ghost var associated := scene.lists;
    for j := 0 to |scene.lists|
      invariant |scene.lists| == |associated|
      invariant forall j' :: 0 <= j' < j ==>
                  scene.lists[j'] == associated[j'].(fiducials := Unreferenced(associated[j'].fiducials, j', refs))
      invariant forall j' :: j <= j' < |associated| ==> scene.lists[j'] == associated[j']
    {
      var kept := KeepUnreferenced(scene.lists[j].fiducials, j, refs);
      scene.lists := scene.lists[j := scene.lists[j].(fiducials := kept)];
    }
  }
}

/**
 * addFiducial and addLandmark: put a fiducial with a given label into the
 * list of a volume (creating the list when the scene has none), moving an
 * existing one or appending a new one clipped to the volume's RAS bounds;
 * and place a fresh landmark `L-k` in every volume's list.
 */
module FiducialPlacement {
  import opened Wrappers
  import opened Markups
  import opened LandmarkGroups
  import opened LandmarkNames
  import opened LandmarkLogic

  /** One coordinate of addFiducial's clipping: raised to `lo`, then lowered to `hi`. */
  function Clip(x: real, lo: real, hi: real): (y: real)
    ensures y <= hi
    ensures lo <= hi ==> lo <= y
    ensures lo <= x <= hi ==> y == x
    ensures x < lo && lo <= hi ==> y == lo
    ensures hi < x ==> y == hi
    ensures hi < lo ==> y == hi
  {
    var raised := if x < lo then lo else x;
    if raised > hi then hi else raised
  }

  /** Every lower bound is at most the matching upper bound. */
  predicate Ordered(b: Bounds) {
    forall i :: 0 <= i < 3 ==> b.lower.Coord(i) <= b.upper.Coord(i)
  }

  predicate Inside(p: seq<real>, b: Bounds)
    requires |p| == 3
  {
    forall i :: 0 <= i < 3 ==> b.lower.Coord(i) <= p[i] <= b.upper.Coord(i)
  }

  /** The position clipped coordinate by coordinate into the bounds. */
  function Clipped(p: seq<real>, b: Bounds): (q: seq<real>)
    requires |p| == 3
    ensures |q| == 3
    ensures Ordered(b) ==> Inside(q, b)
    ensures Inside(p, b) ==> q == p
  {
    [Clip(p[0], b.lower.r, b.upper.r), Clip(p[1], b.lower.a, b.upper.a), Clip(p[2], b.lower.s, b.upper.s)]
  }

  /** Clipping twice into the same bounds changes nothing more. */
  lemma ClippedIdempotent(p: seq<real>, b: Bounds)
    requires |p| == 3
    ensures Clipped(Clipped(p, b), b) == Clipped(p, b)
  {
  }

  /**
   * Clipping into one volume's bounds and then another's is not clipping into
   * the second alone: what addLandmark does to the shared position.
   */
  lemma ClipCarriesOver()
    ensures var first := Bounds(Point(0.0, 0.0, 0.0), Point(1.0, 1.0, 1.0));
            var second := Bounds(Point(0.0, 0.0, 0.0), Point(5.0, 5.0, 5.0));
            var p := [3.0, 0.0, 0.0];
            && Clipped(p, second) == p
            && Clipped(Clipped(p, first), second) == [1.0, 0.0, 0.0]
  {
  }

  /** addFiducial's clipping loop, in place on the caller's position. */
  method ClipToBounds(position: array<real>, bounds: Bounds)
    requires position.Length == 3
    modifies position
    ensures position[..] == Clipped(old(position[..]), bounds)
  {
    for i := 0 to 3
      invariant forall j :: 0 <= j < i ==>
                  position[j] == Clip(old(position[j]), bounds.lower.Coord(j), bounds.upper.Coord(j))
      invariant forall j :: i <= j < 3 ==> position[j] == old(position[j])
    {
      if position[i] < bounds.lower.Coord(i) {
        position[i] := bounds.lower.Coord(i);
      }
      if position[i] > bounds.upper.Coord(i) {
        position[i] := bounds.upper.Coord(i);
      }
    }
  }

  /** The list created for a volume that has none: named after it and associated with it. */
  function NewList(v: Volume): FiducialList {
    FiducialList(ListName(v), map[AssociatedNodeId := v.id], [])
  }

  /** The scene once addFiducial made sure the volume has a list. */
  function WithList(lists: seq<FiducialList>, v: Volume): (r: seq<FiducialList>)
    ensures ListOf(r, v).Some?
    ensures ListOf(lists, v).Some? ==> r == lists
    ensures ListOf(lists, v).None? ==> r == lists + [NewList(v)] && ListOf(r, v) == Some(|lists|)
  {
    if ListOf(lists, v).Some? then lists
    else
      var r := lists + [NewList(v)];
      FirstListNamedIs(r, ListName(v), |lists|);
      r
  }

  /**
   * addFiducial on one list: the first fiducial labelled `name` is moved to
   * `pos` as given; without one, a fiducial is appended at `pos` clipped into
   * `b`, and the clipped position is what the caller's position becomes.
   */
  function Upsert(fids: seq<Fiducial>, name: string, pos: seq<real>, b: Bounds): (r: (seq<Fiducial>, seq<real>))
    requires |pos| == 3
    ensures |r.1| == 3
  {
    match FirstLabelIndex(fids, name)
    case Some(k) => (fids[k := Fiducial(name, PointOf(pos), fids[k].associatedNodeId, false, false)], pos)
    case None =>
      var c := Clipped(pos, b);
      (fids + [Fiducial(name, PointOf(c), None, false, false)], c)
  }

  /**
   * Upsert adds `name` to the labels.  An existing label keeps the count: only
   * its first fiducial changes, to `pos` unclipped, unselected and unlocked.  A
   * new label appends one unselected, unlocked fiducial at `pos` clipped into
   * the bounds, leaving the earlier ones as they were.
   */
  lemma UpsertSpec(fids: seq<Fiducial>, name: string, pos: seq<real>, b: Bounds)
    requires |pos| == 3
    ensures var r := Upsert(fids, name, pos, b);
            Labels(r.0) == Labels(fids) + {name}
    ensures var r := Upsert(fids, name, pos, b);
            name in Labels(fids) ==>
              var k := FirstLabelIndex(fids, name).value;
              && r.1 == pos
              && |r.0| == |fids|
              && r.0[k] == Fiducial(name, PointOf(pos), fids[k].associatedNodeId, false, false)
              && forall j :: 0 <= j < |fids| && j != k ==> r.0[j] == fids[j]
    ensures var r := Upsert(fids, name, pos, b);
            name !in Labels(fids) ==>
              && r.1 == Clipped(pos, b)
              && (Ordered(b) ==> Inside(r.1, b))
              && |r.0| == |fids| + 1
              && r.0[..|fids|] == fids
              && r.0[|fids|] == Fiducial(name, PointOf(r.1), None, false, false)
  {
    LabelIndexFound(fids, name);
    var r := Upsert(fids, name, pos, b);
    match FirstLabelIndex(fids, name)
    case Some(k) =>
      LabelsOfSameNames(fids, r.0);
    case None =>
      assert r.0 == fids + [r.0[|fids|]];
  }

  /** The scene and the caller's position after addFiducial(name, pos, v). */
  function AddFiducialSpec(lists: seq<FiducialList>, name: string, pos: seq<real>, v: Volume)
    : (r: (seq<FiducialList>, seq<real>))
    requires |pos| == 3
    ensures |r.1| == 3
  {
    var ls := WithList(lists, v);
    var l := ListOf(ls, v).value;
    var u := Upsert(ls[l].fiducials, name, pos, v.bounds);
    (ls[l := ls[l].(fiducials := u.0)], u.1)
  }

  /** addFiducial adds at most one list, the volume's, and changes no list but the volume's. */
  lemma AddFiducialFrame(lists: seq<FiducialList>, name: string, pos: seq<real>, v: Volume)
    requires |pos| == 3
    ensures var r := AddFiducialSpec(lists, name, pos, v).0;
            && |r| == |lists| + (if ListOf(lists, v).None? then 1 else 0)
            && (forall j :: 0 <= j < |lists| && ListOf(lists, v) != Some(j) ==> r[j] == lists[j])
            && (forall j :: 0 <= j < |lists| ==> r[j].name == lists[j].name)
  {
    var ls := WithList(lists, v);
    var l := ListOf(ls, v).value;
    var r := AddFiducialSpec(lists, name, pos, v).0;
    assert r == ls[l := ls[l].(fiducials := r[l].fiducials)];
    assert forall j :: 0 <= j < |lists| ==> ls[j] == lists[j];
  }

  /** After addFiducial the volume has a list, and it holds `name`. */
  lemma AddFiducialAdds(lists: seq<FiducialList>, name: string, pos: seq<real>, v: Volume)
    requires |pos| == 3
    ensures var r := AddFiducialSpec(lists, name, pos, v).0;
            && ListOf(r, v) == ListOf(WithList(lists, v), v)
            && name in VolumeLabels(r, v)
  {
    var ls := WithList(lists, v);
    var l := ListOf(ls, v).value;
    var u := Upsert(ls[l].fiducials, name, pos, v.bounds);
    UpsertSpec(ls[l].fiducials, name, pos, v.bounds);
    var r := AddFiducialSpec(lists, name, pos, v).0;
    assert r == ls[l := ls[l].(fiducials := u.0)];
    ListOfAgrees(ls, r, v);
    assert r[l].fiducials == u.0;
  }

  /** addFiducial never removes a label from any volume's list. */
  lemma AddFiducialKeepsLabels(lists: seq<FiducialList>, name: string, pos: seq<real>, v: Volume, w: Volume)
    requires |pos| == 3
    ensures VolumeLabels(lists, w) <= VolumeLabels(AddFiducialSpec(lists, name, pos, v).0, w)
  {
    var r := AddFiducialSpec(lists, name, pos, v).0;
    var ls := WithList(lists, v);
    var l := ListOf(ls, v).value;
    match ListOf(lists, w)
    case None =>
    case Some(j) =>
      AddFiducialFrame(lists, name, pos, v);
      FirstListNamedIs(r, ListName(w), j);
      if j == l {
        assert ls == lists;
        UpsertSpec(ls[l].fiducials, name, pos, v.bounds);
        assert r[j].fiducials == Upsert(ls[l].fiducials, name, pos, v.bounds).0;
      }
  }

  /**
   * addFiducial: find or create the volume's list, then move the first
   * fiducial labelled `name` to `position`, or clip `position` in place and
   * append a fiducial there; the fiducial is then labelled, unselected and
   * unlocked.
   */
  method AddFiducial(scene: Scene, name: string, position: array<real>, volume: Volume)
    requires position.Length == 3
    modifies scene, position
    ensures (scene.lists, position[..]) == AddFiducialSpec(old(scene.lists), name, old(position[..]), volume)
  {
    var existing := FirstListNamed(scene.lists, ListName(volume));
    var l: nat;
    if existing.None? {
      scene.lists := scene.lists + [NewList(volume)];
      l := |scene.lists| - 1;
    } else {
      l := existing.value;
    }
    ghost var lists1 := scene.lists;
    assert lists1 == WithList(old(scene.lists), volume) && ListOf(lists1, volume) == Some(l);
    var fids := scene.lists[l].fiducials;
    ghost var u := Upsert(fids, name, old(position[..]), volume.bounds);
    var found := false;
    var index := 0;
    while index < |fids|
      invariant index <= |fids|
      invariant forall j :: 0 <= j < index ==> fids[j].name != name
      invariant !found
      decreases |fids| - index
    {
      if fids[index].name == name {
        found := true;
        break;
      }
      index := index + 1;
    }
    if found {
      assert FirstLabelIndex(fids, name) == Some(index);
      assert Point(position[0], position[1], position[2]) == PointOf(old(position[..]));
      fids := fids[index := fids[index].(position := Point(position[0], position[1], position[2]))];
    } else {
      assert FirstLabelIndex(fids, name).None?;
      ClipToBounds(position, volume.bounds);
      // the host labels and selects a new markup; both are overwritten below
      fids := fids + [Fiducial("", PointOf(position[..]), None, true, false)];
      index := |fids| - 1;
    }
    fids := fids[index := fids[index].(name := name, selected := false, locked := false)];
    assert fids == u.0 && position[..] == u.1;
    scene.lists := scene.lists[l := scene.lists[l].(fiducials := fids)];
  }
}

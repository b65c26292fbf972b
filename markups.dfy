/**
 * The part of the host scene that the landmark bookkeeping reads and writes:
 * volumes (id, name, RAS bounds) and markups fiducial lists (name, string
 * attributes, fiducials).  A list is found by its name; the list of a volume
 * is the first list named `<volume name>-landmarks`.
 */
module Markups {
  import opened Wrappers

  /** A point in RAS (right, anterior, superior) world coordinates. */
  datatype Point = Point(r: real, a: real, s: real) {
    function Coord(i: nat): real
      requires i < 3
    {
      if i == 0 then r else if i == 1 then a else s
    }
  }

  /** The point held by a three-element position list. */
  function PointOf(c: seq<real>): (p: Point)
    requires |c| == 3
    ensures forall i :: 0 <= i < 3 ==> p.Coord(i) == c[i]
  {
    Point(c[0], c[1], c[2])
  }

  /**
   * The host's RAS bounds [rMin, rMax, aMin, aMax, sMin, sMax]:
   * entry 2i is lower.Coord(i) and entry 2i+1 is upper.Coord(i).
   */
  datatype Bounds = Bounds(lower: Point, upper: Point)

  datatype Volume = Volume(id: string, name: string, bounds: Bounds)

  datatype Fiducial = Fiducial(
    name: string,  // the markup label (GetNthFiducialLabel)
    position: Point,
    associatedNodeId: Option<string>,
    selected: bool,
    locked: bool)

  datatype FiducialList = FiducialList(
    name: string,
    attributes: map<string, string>,
    fiducials: seq<Fiducial>)

  const AssociatedNodeId := "AssociatedNodeID"

  /** The scene's fiducial list nodes, in scene order; a list is referred to by its index. */
  class Scene {
    var lists: seq<FiducialList>

    constructor (lists: seq<FiducialList>)
      ensures this.lists == lists
    {
      this.lists := lists;
    }
  }

  /** A fiducial of the scene: (list index, fiducial index). */
  type FiducialRef = (nat, nat)

  function ListName(v: Volume): string {
    v.name + "-landmarks"
  }

  /** GetFirstNodeByName restricted to fiducial lists. */
  function FirstListNamed(lists: seq<FiducialList>, name: string): (r: Option<nat>)
    ensures r.Some? ==> r.value < |lists| && lists[r.value].name == name
    ensures r.Some? ==> forall j :: 0 <= j < r.value ==> lists[j].name != name
    ensures r.None? ==> forall j :: 0 <= j < |lists| ==> lists[j].name != name
  {
    if |lists| == 0 then None
    else if lists[0].name == name then Some(0)
    else match FirstListNamed(lists[1..], name)
      case None => None
      case Some(j) => Some(j + 1)
  }

  /** FirstListNamed is the first index carrying the name. */
  lemma FirstListNamedIs(lists: seq<FiducialList>, name: string, l: nat)
    requires l < |lists| && lists[l].name == name
    requires forall j :: 0 <= j < l ==> lists[j].name != name
    ensures FirstListNamed(lists, name) == Some(l)
  {
  }

  /** The list the volume's landmarks live in, if the scene has one. */
  function ListOf(lists: seq<FiducialList>, v: Volume): Option<nat> {
    FirstListNamed(lists, ListName(v))
  }

  /** List j is the list of one of the volumes. */
  ghost predicate IsVolumeList(lists: seq<FiducialList>, vols: seq<Volume>, j: nat) {
    exists i :: 0 <= i < |vols| && ListOf(lists, vols[i]) == Some(j)
  }

  /** Index of the first fiducial labelled `name`. */
  function FirstLabelIndex(fids: seq<Fiducial>, name: string): (r: Option<nat>)
    ensures r.Some? ==> r.value < |fids| && fids[r.value].name == name
    ensures r.Some? ==> forall k :: 0 <= k < r.value ==> fids[k].name != name
    ensures r.None? ==> forall k :: 0 <= k < |fids| ==> fids[k].name != name
  {
    if |fids| == 0 then None
    else if fids[0].name == name then Some(0)
    else match FirstLabelIndex(fids[1..], name)
      case None => None
      case Some(k) => Some(k + 1)
  }

  function Labels(fids: seq<Fiducial>): set<string> {
    set f | f in fids :: f.name
  }

  /** A label is in the list exactly when FirstLabelIndex finds it. */
  lemma LabelIndexFound(fids: seq<Fiducial>, name: string)
    ensures FirstLabelIndex(fids, name).Some? <==> name in Labels(fids)
  {
    if name in Labels(fids) {
      var f :| f in fids && f.name == name;
      var k :| 0 <= k < |fids| && fids[k] == f;
      assert fids[k].name == name;
    }
  }

  /** Changing anything but the labels keeps the set of labels. */
  lemma LabelsOfSameNames(a: seq<Fiducial>, b: seq<Fiducial>)
    requires |a| == |b| && forall j :: 0 <= j < |a| ==> a[j].name == b[j].name
    ensures Labels(a) == Labels(b)
  {
    forall x | x in Labels(a) ensures x in Labels(b) {
      var f :| f in a && f.name == x;
      var k :| 0 <= k < |a| && a[k] == f;
      assert b[k] in b;
    }
    forall x | x in Labels(b) ensures x in Labels(a) {
      var f :| f in b && f.name == x;
      var k :| 0 <= k < |b| && b[k] == f;
      assert a[k] in a;
    }
  }

  /** The labels in the list of volume `v`; empty when the volume has no list. */
  function VolumeLabels(lists: seq<FiducialList>, v: Volume): set<string> {
    match ListOf(lists, v)
    case None => {}
    case Some(l) => Labels(lists[l].fiducials)
  }

  function AttributeOf(list: FiducialList, key: string): Option<string> {
    if key in list.attributes then Some(list.attributes[key]) else None
  }

  /** Same lists with the same names, so every lookup by name agrees. */
  ghost predicate SameNames(a: seq<FiducialList>, b: seq<FiducialList>) {
    |a| == |b| && forall j :: 0 <= j < |a| ==> a[j].name == b[j].name
  }

  lemma ListOfAgrees(a: seq<FiducialList>, b: seq<FiducialList>, v: Volume)
    requires SameNames(a, b)
    ensures ListOf(a, v) == ListOf(b, v)
  {
  }

  /**
   * `b` is `a` after fiducials were only re-associated or appended: every
   * earlier fiducial keeps its label, position and selected/locked flags.
   */
  ghost predicate Grows(a: seq<FiducialList>, b: seq<FiducialList>) {
    && SameNames(a, b)
    && forall j :: 0 <= j < |a| ==>
         && |a[j].fiducials| <= |b[j].fiducials|
         && forall k :: 0 <= k < |a[j].fiducials| ==>
              && b[j].fiducials[k].name == a[j].fiducials[k].name
              && b[j].fiducials[k].position == a[j].fiducials[k].position
              && b[j].fiducials[k].selected == a[j].fiducials[k].selected
              && b[j].fiducials[k].locked == a[j].fiducials[k].locked
  }

  lemma GrowsTransitive(a: seq<FiducialList>, b: seq<FiducialList>, c: seq<FiducialList>)
    requires Grows(a, b) && Grows(b, c)
    ensures Grows(a, c)
  {
  }

  lemma GrowsKeepsLabels(a: seq<FiducialList>, b: seq<FiducialList>, v: Volume)
    requires Grows(a, b)
    ensures VolumeLabels(a, v) <= VolumeLabels(b, v)
  {
    ListOfAgrees(a, b, v);
    match ListOf(a, v)
    case None =>
    case Some(l) =>
      forall x | x in Labels(a[l].fiducials)
        ensures x in Labels(b[l].fiducials)
      {
        var k :| 0 <= k < |a[l].fiducials| && a[l].fiducials[k].name == x;
        assert b[l].fiducials[k].name == x;
      }
  }
}

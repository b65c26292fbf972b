/**
 * vtkPointsForVolumes: a point set per volume holding the positions of the
 * fiducials of the list paired with it, index by index; the lists must have
 * equal counts.  Point sets are sequences of points; a volume key may be
 * None, as in the source's dictionary.
 */
module LandmarkPoints {
  import opened Wrappers
  import opened Markups

  /** Why vtkPointsForVolumes raises: no lists at all (fiducialNodes[0]), or counts that differ from the first list's. */
  datatype PointsError = IndexError | CountMismatch(count: nat)

  type PointSets = map<Option<Volume>, seq<Point>>

  /** A fresh, empty point set for every volume. */
  function EmptyPoints(vols: seq<Option<Volume>>): PointSets {
    map v | v in vols :: []
  }

  /** The positions of the fiducials, in index order. */
  function Positions(fids: seq<Fiducial>): (ps: seq<Point>)
    ensures |ps| == |fids| && forall k :: 0 <= k < |fids| ==> ps[k] == fids[k].position
  {
    seq(|fids|, k requires 0 <= k < |fids| => fids[k].position)
  }

  predicate AllSet<T>(s: seq<Option<T>>) {
    forall i :: 0 <= i < |s| ==> s[i].Some?
  }

  /** The point sets after the zip loop has handled the first n (list, volume) pairs. */
  function Gathered(vols: seq<Option<Volume>>, lists: seq<Option<FiducialList>>, n: nat): PointSets
    requires |vols| == |lists| && n <= |vols| && AllSet(lists)
  {
    if n == 0 then EmptyPoints(vols)
    else
      var m := Gathered(vols, lists, n - 1);
      var v := vols[n - 1];
      m[v := (if v in m then m[v] else []) + Positions(lists[n - 1].value.fiducials)]
  }

  /** What vtkPointsForVolumes returns or raises. */
  function PointsSpec(vols: seq<Option<Volume>>, lists: seq<Option<FiducialList>>): Result<PointSets, PointsError> {
    if |vols| == |lists| && AllSet(vols) && AllSet(lists) then
      if |lists| == 0 then Failure(IndexError)
      else
        var count := |lists[0].value.fiducials|;
        if exists i :: 0 <= i < |lists| && |lists[i].value.fiducials| != count then Failure(CountMismatch(count))
        else Success(Gathered(vols, lists, |vols|))
    else Success(EmptyPoints(vols))
  }

  /**
   * It raises exactly when the lists pair up with the volumes, none is
   * None, and either there are none or their counts differ; the error
   * names the first list's count.
   */
  lemma PointsErrors(vols: seq<Option<Volume>>, lists: seq<Option<FiducialList>>)
    ensures PointsSpec(vols, lists).Failure? <==>
              && |vols| == |lists| && AllSet(vols) && AllSet(lists)
              && (|lists| == 0 || exists i :: 0 <= i < |lists| && |lists[i].value.fiducials| != |lists[0].value.fiducials|)
    ensures PointsSpec(vols, lists) == Failure(IndexError) <==> |vols| == |lists| == 0
    ensures PointsSpec(vols, lists).Failure? && |lists| > 0 ==> PointsSpec(vols, lists).error == CountMismatch(|lists[0].value.fiducials|)
  {
  }

  /** Unpaired lists or a None anywhere: every volume gets an empty point set. */
  lemma PointsUnpaired(vols: seq<Option<Volume>>, lists: seq<Option<FiducialList>>)
    requires |vols| != |lists| || !AllSet(vols) || !AllSet(lists)
    ensures PointsSpec(vols, lists).Success?
    ensures var m := PointsSpec(vols, lists).value;
            && (forall v :: v in m <==> v in vols)
            && (forall v :: v in m ==> m[v] == [])
  {
  }

  /** The point sets have a key per volume, and a volume not yet reached has an empty set. */
  lemma {:induction false} GatheredKeys(vols: seq<Option<Volume>>, lists: seq<Option<FiducialList>>, n: nat)
    requires |vols| == |lists| && n <= |vols| && AllSet(lists)
    ensures forall v :: v in Gathered(vols, lists, n) <==> v in vols
  {
    if n > 0 {
      GatheredKeys(vols, lists, n - 1);
    }
  }

  /**
   * With distinct volumes, volume i's point set holds the positions of list
   * i's fiducials in index order once pair i has been handled, and is empty
   * before.
   */
  lemma {:induction false} GatheredDistinct(vols: seq<Option<Volume>>, lists: seq<Option<FiducialList>>, n: nat, i: nat)
    requires |vols| == |lists| && n <= |vols| && AllSet(lists) && i < |vols|
    requires forall a, b :: 0 <= a < b < |vols| ==> vols[a] != vols[b]
    ensures vols[i] in Gathered(vols, lists, n)
    ensures Gathered(vols, lists, n)[vols[i]] == if i < n then Positions(lists[i].value.fiducials) else []
  {
    GatheredKeys(vols, lists, n);
    if n > 0 {
      GatheredDistinct(vols, lists, n - 1, i);
      if i != n - 1 {
        assert vols[i] != vols[n - 1];
      } else {
        GatheredDistinct(vols, lists, n - 1, n - 1);
      }
    }
  }

  /**
   * Distinct volumes and matching counts: volume i gets exactly list i's
   * positions, in index order.
   */
  lemma PointsPaired(vols: seq<Option<Volume>>, lists: seq<Option<FiducialList>>, i: nat)
    requires |vols| == |lists| && AllSet(vols) && AllSet(lists) && i < |vols|
    requires forall a, b :: 0 <= a < b < |vols| ==> vols[a] != vols[b]
    requires forall j :: 0 <= j < |lists| ==> |lists[j].value.fiducials| == |lists[0].value.fiducials|
    ensures PointsSpec(vols, lists).Success?
    ensures vols[i] in PointsSpec(vols, lists).value
    ensures PointsSpec(vols, lists).value[vols[i]] == Positions(lists[i].value.fiducials)
  {
    GatheredDistinct(vols, lists, |vols|, i);
  }

  lemma GatheredStep(vols: seq<Option<Volume>>, lists: seq<Option<FiducialList>>, i: nat)
    requires |vols| == |lists| && i < |vols| && AllSet(lists)
    ensures vols[i] in Gathered(vols, lists, i)
    ensures Gathered(vols, lists, i + 1)
            == Gathered(vols, lists, i)[vols[i] := Gathered(vols, lists, i)[vols[i]] + Positions(lists[i].value.fiducials)]
  {
    GatheredKeys(vols, lists, i);
  }

  /** The first loop: a fresh point set for every volume. */
  method NewPointSets(volumes: seq<Option<Volume>>) returns (points: PointSets)
    ensures points == EmptyPoints(volumes)
  {
    points := map[];
    for i := 0 to |volumes|
      invariant forall v :: v in points <==> v in volumes[..i]
      invariant forall v :: v in points ==> points[v] == []
    {
      assert volumes[..i + 1] == volumes[..i] + [volumes[i]];
      points := points[volumes[i] := []];
    }
    assert volumes[..|volumes|] == volumes;
    assert points.Keys == EmptyPoints(volumes).Keys;
  }

  /** The inner loop: InsertNextPoint for each of the list's positions in turn (after the count check every list has fiducialCount of them). */
  method InsertPositions(points0: PointSets, volume: Option<Volume>, fiducials: seq<Fiducial>)
    returns (points: PointSets)
    requires volume in points0
    ensures points == points0[volume := points0[volume] + Positions(fiducials)]
  {
    points := points0;
    for index := 0 to |fiducials|
      invariant points.Keys == points0.Keys
      invariant points[volume] == points0[volume] + Positions(fiducials)[..index]
      invariant forall v :: v in points && v != volume ==> points[v] == points0[v]
    {
      assert Positions(fiducials)[..index + 1] == Positions(fiducials)[..index] + [fiducials[index].position];
      points := points[volume := points[volume] + [fiducials[index].position]];
    }
    assert Positions(fiducials)[..|fiducials|] == Positions(fiducials);
  }

  /** vtkPointsForVolumes: empty sets for all volumes, the count check, then the zip loop. */
  method VtkPointsForVolumes(volumes: seq<Option<Volume>>, fiducialNodes: seq<Option<FiducialList>>)
    returns (r: Result<PointSets, PointsError>)
    ensures r == PointsSpec(volumes, fiducialNodes)
  {
    var points := NewPointSets(volumes);
    var sameNumberOfNodes := |volumes| == |fiducialNodes|;
    var noNoneNodes := None !in volumes && None !in fiducialNodes;
    assert noNoneNodes <==> AllSet(volumes) && AllSet(fiducialNodes);
    if sameNumberOfNodes && noNoneNodes {
      if |fiducialNodes| == 0 {
        return Failure(IndexError);
      }
      var fiducialCount := |fiducialNodes[0].value.fiducials|;
      for i := 0 to |fiducialNodes|
        invariant forall j :: 0 <= j < i ==> |fiducialNodes[j].value.fiducials| == fiducialCount
      {
        if fiducialCount != |fiducialNodes[i].value.fiducials| {
          return Failure(CountMismatch(fiducialCount));
        }
      }
      for i := 0 to |fiducialNodes|
        invariant points == Gathered(volumes, fiducialNodes, i)
      {
        GatheredStep(volumes, fiducialNodes, i);
        points := InsertPositions(points, volumes[i], fiducialNodes[i].value.fiducials);
      }
    }
    return Success(points);
  }
}

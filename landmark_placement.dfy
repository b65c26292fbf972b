/**
 * addLandmark: after looking up the registration state, pick the first
 * `L-k` that is not a landmark of the volumes and addFiducial it to every
 * volume's list, the moving volume at `movingPosition`, the others at `position`.
 */
module LandmarkPlacement {
  import opened Wrappers
  import opened Markups
  import opened LandmarkGroups
  import opened LandmarkNames
  import opened LandmarkLogic
  import opened FiducialPlacement

  /** The volumes the registration state names; any may be unset. */
  datatype RegistrationState = RegistrationState(fixed: Option<Volume>, moving: Option<Volume>, transformed: Option<Volume>)

  function AssociateIfSet(lists: seq<FiducialList>, volume: Option<Volume>): seq<FiducialList> {
    match volume
    case None => lists
    case Some(v) => Associate(lists, v)
  }

  /** The scene after registrationState looked up the fixed, moving and transformed lists. */
  function Registered(lists: seq<FiducialList>, state: RegistrationState): (r: seq<FiducialList>)
    ensures SameLabels(lists, r)
  {
    AssociateIfSet(AssociateIfSet(AssociateIfSet(lists, state.fixed), state.moving), state.transformed)
  }

  /** `name` is `L-k` for the least k whose name is not in `taken`. */
  ghost predicate FirstFree(name: string, taken: set<string>) {
    exists k: nat :: name == LandmarkName(k) && name !in taken && forall j :: 0 <= j < k ==> LandmarkName(j) in taken
  }

  /** One pass of addLandmark's loop: addFiducial for `v` at the position the state picks. */
  function PlaceOne(prev: (seq<FiducialList>, seq<real>, seq<real>), name: string, v: Volume,
                    moving: Option<Volume>, shared: bool): (r: (seq<FiducialList>, seq<real>, seq<real>))
    requires |prev.1| == 3 && |prev.2| == 3
    requires shared ==> prev.1 == prev.2
    ensures |r.1| == 3 && |r.2| == 3
    ensures shared ==> r.1 == r.2
  {
    if Some(v) == moving then
      var u := AddFiducialSpec(prev.0, name, prev.2, v);
      (u.0, if shared then u.1 else prev.1, u.1)
    else
      var u := AddFiducialSpec(prev.0, name, prev.1, v);
      (u.0, u.1, if shared then u.1 else prev.2)
  }

  /**
   * The scene, `position` and `movingPosition` after addLandmark's loop has
   * added `name` for each volume in turn.  `shared` says the two positions
   * are one list, so clipping one clips the other.
   */
  function PlaceAll(lists: seq<FiducialList>, name: string, vols: seq<Volume>, moving: Option<Volume>,
                    pos: seq<real>, mpos: seq<real>, shared: bool): (r: (seq<FiducialList>, seq<real>, seq<real>))
    requires |pos| == 3 && |mpos| == 3
    requires shared ==> pos == mpos
    ensures |r.1| == 3 && |r.2| == 3
    ensures shared ==> r.1 == r.2
  {
    if vols == [] then (lists, pos, mpos)
    else
      var n := |vols| - 1;
      PlaceOne(PlaceAll(lists, name, vols[..n], moving, pos, mpos, shared), name, vols[n], moving, shared)
  }

  lemma PlaceAllStep(lists: seq<FiducialList>, name: string, vols: seq<Volume>, i: nat, moving: Option<Volume>,
                     pos: seq<real>, mpos: seq<real>, shared: bool)
    requires i < |vols| && |pos| == 3 && |mpos| == 3
    requires shared ==> pos == mpos
    ensures PlaceAll(lists, name, vols[..i + 1], moving, pos, mpos, shared)
            == PlaceOne(PlaceAll(lists, name, vols[..i], moving, pos, mpos, shared), name, vols[i], moving, shared)
  {
    assert vols[..i + 1][..i] == vols[..i];
  }

  /** One pass adds `name` to v's list and keeps it in any volume's list that had it. */
  lemma PlaceOneLabels(prev: (seq<FiducialList>, seq<real>, seq<real>), name: string, v: Volume,
                       moving: Option<Volume>, shared: bool, w: Volume)
    requires |prev.1| == 3 && |prev.2| == 3
    requires shared ==> prev.1 == prev.2
    ensures name in VolumeLabels(PlaceOne(prev, name, v, moving, shared).0, v)
    ensures name in VolumeLabels(prev.0, w) ==> name in VolumeLabels(PlaceOne(prev, name, v, moving, shared).0, w)
  {
    var p := if Some(v) == moving then prev.2 else prev.1;
    assert PlaceOne(prev, name, v, moving, shared).0 == AddFiducialSpec(prev.0, name, p, v).0;
    AddFiducialAdds(prev.0, name, p, v);
    AddFiducialKeepsLabels(prev.0, name, p, v, w);
  }

  /** After addLandmark the list of each volume, vols[i], holds the new label. */
  lemma {:induction false} PlaceAllLabels(lists: seq<FiducialList>, name: string, vols: seq<Volume>, moving: Option<Volume>,
                                          pos: seq<real>, mpos: seq<real>, shared: bool, i: nat)
    requires |pos| == 3 && |mpos| == 3
    requires shared ==> pos == mpos
    requires i < |vols|
    ensures name in VolumeLabels(PlaceAll(lists, name, vols, moving, pos, mpos, shared).0, vols[i])
  {
    var n := |vols| - 1;
    var prev := PlaceAll(lists, name, vols[..n], moving, pos, mpos, shared);
    if i < n {
      PlaceAllLabels(lists, name, vols[..n], moving, pos, mpos, shared, i);
      assert vols[..n][i] == vols[i];
      assert name in VolumeLabels(prev.0, vols[i]);
    }
    assert i == n ==> vols[i] == vols[n];
    PlaceAllLast(lists, name, vols, moving, pos, mpos, shared);
    PlaceOneLabels(prev, name, vols[n], moving, shared, vols[i]);
  }

  lemma PlaceAllLast(lists: seq<FiducialList>, name: string, vols: seq<Volume>, moving: Option<Volume>,
                     pos: seq<real>, mpos: seq<real>, shared: bool)
    requires |pos| == 3 && |mpos| == 3
    requires shared ==> pos == mpos
    requires vols != []
    ensures PlaceAll(lists, name, vols, moving, pos, mpos, shared)
            == PlaceOne(PlaceAll(lists, name, vols[..|vols| - 1], moving, pos, mpos, shared), name, vols[|vols| - 1], moving, shared)
  {
  }

  method AddLandmark(scene: Scene, state: RegistrationState, volumes: seq<Volume>,
                     position: array<real>, movingPosition: array<real>) returns (landmarkName: string)
    requires position.Length == 3 && movingPosition.Length == 3
    modifies scene, position, movingPosition
    ensures FirstFree(landmarkName, Landmarks(old(scene.lists), volumes).Keys)
    ensures (scene.lists, position[..], movingPosition[..])
            == PlaceAll(AssociateAll(Registered(old(scene.lists), state), volumes), landmarkName, volumes,
                        state.moving, old(position[..]), old(movingPosition[..]), position == movingPosition)
  {
    var fixedList := VolumeFiducialList(scene, state.fixed);
    var movingList := VolumeFiducialList(scene, state.moving);
    var transformedList := VolumeFiducialList(scene, state.transformed);
    ghost var registered := scene.lists;
    assert registered == Registered(old(scene.lists), state);
    var landmarks := LandmarksForVolumes(scene, volumes);
    LandmarksIgnoreAssociation(old(scene.lists), registered, volumes);
    var index := FreshLandmarkIndex(landmarks.Keys);
    landmarkName := LandmarkName(index);
    ghost var placed := scene.lists;
    ghost var shared := position == movingPosition;
    for i := 0 to |volumes|
      invariant (scene.lists, position[..], movingPosition[..])
                == PlaceAll(placed, landmarkName, volumes[..i], state.moving,
                            old(position[..]), old(movingPosition[..]), shared)
    {
      ghost var before := (scene.lists, position[..], movingPosition[..]);
      PlaceAllStep(placed, landmarkName, volumes, i, state.moving, old(position[..]), old(movingPosition[..]), shared);
      if Some(volumes[i]) == state.moving {
        AddFiducial(scene, landmarkName, movingPosition, volumes[i]);
        assert position[..] == if shared then movingPosition[..] else before.1;
      } else {
        AddFiducial(scene, landmarkName, position, volumes[i]);
        assert movingPosition[..] == if shared then position[..] else before.2;
      }
      assert (scene.lists, position[..], movingPosition[..]) == PlaceOne(before, landmarkName, volumes[i], state.moving, shared);
    }
    assert volumes[..|volumes|] == volumes;
  }
}

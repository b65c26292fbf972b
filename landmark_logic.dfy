/**
 * LandmarkRegistrationLogic's lookups over the scene: the fiducial list of a
 * volume (volumeFiducialList) and the landmark dictionary of a set of volumes
 * (landmarksForVolumes).
 */
module LandmarkLogic {
  import opened Wrappers
  import opened Markups
  import opened LandmarkGroups

  /**
   * volumeFiducialList: no volume, no list; otherwise the first list named
   * `<volume name>-landmarks`, whose AssociatedNodeID is (re)set to the volume's id.
   */
  method VolumeFiducialList(scene: Scene, volume: Option<Volume>) returns (list: Option<nat>)
    modifies scene
    ensures volume.None? ==> list.None? && scene.lists == old(scene.lists)
    ensures volume.Some? ==> list == ListOf(old(scene.lists), volume.value)
    ensures volume.Some? ==> scene.lists == Associate(old(scene.lists), volume.value)
  {
    if volume.None? {
      return None;
    }
    var v := volume.value;
    list := FirstListNamed(scene.lists, ListName(v));
    if list.Some? {
      var l := list.value;
      var node := scene.lists[l];
      if AttributeOf(node, AssociatedNodeId) != Some(v.id) {
        scene.lists := scene.lists[l := node.(attributes := node.attributes[AssociatedNodeId := v.id])];
      } else {
        assert node.attributes[AssociatedNodeId := v.id] == node.attributes;
      }
    }
  }

  /** `m` is `byName` after the first `n` fiducials of list l were grouped by label. */
  ghost predicate GroupedSoFar(m: map<string, seq<FiducialRef>>, byName: map<string, seq<FiducialRef>>,
                               fids: seq<Fiducial>, n: nat, l: nat)
    requires n <= |fids|
  {
    && m.Keys == byName.Keys + Labels(fids[..n])
    && forall x :: x in m ==> m[x] == Prior(byName, x) + ListEntries(fids[..n], l, x)
  }

  /** What the dictionary held for `x` before: its group, or nothing. */
  function Prior(byName: map<string, seq<FiducialRef>>, x: string): seq<FiducialRef> {
    if x in byName then byName[x] else []
  }

  /**
   * The inner loop of landmarksForVolumes: append (l, k) under the label of
   * every fiducial k of list l, creating the entry on first sight.
   */
  method GroupList(byName: map<string, seq<FiducialRef>>, fids: seq<Fiducial>, l: nat)
    returns (grouped: map<string, seq<FiducialRef>>)
    ensures grouped.Keys == byName.Keys + Labels(fids)
    ensures forall x :: x in grouped ==>
              grouped[x] == Prior(byName, x) + ListEntries(fids, l, x)
  {
    grouped := byName;
    assert fids[..0] == [];
    for k := 0 to |fids|
      invariant GroupedSoFar(grouped, byName, fids, k, l)
    {
      grouped := GroupFiducial(grouped, byName, fids, k, l);
    }
    GroupedAll(grouped, byName, fids, l);
  }

  /** One pass of GroupList's loop: fiducial k's reference goes under its label. */
  method GroupFiducial(m: map<string, seq<FiducialRef>>, byName: map<string, seq<FiducialRef>>,
                       fids: seq<Fiducial>, k: nat, l: nat)
    returns (grouped: map<string, seq<FiducialRef>>)
    requires k < |fids| && GroupedSoFar(m, byName, fids, k, l)
    ensures GroupedSoFar(grouped, byName, fids, k + 1, l)
  {
    var name := fids[k].name;
    if name in m {
      GroupStepSeen(m, byName, fids, k, l);
      grouped := m[name := m[name] + [(l, k)]];
    } else {
      GroupStepNew(m, byName, fids, k, l);
      grouped := m[name := [(l, k)]];
    }
  }

  lemma GroupedAll(m: map<string, seq<FiducialRef>>, byName: map<string, seq<FiducialRef>>, fids: seq<Fiducial>, l: nat)
    requires GroupedSoFar(m, byName, fids, |fids|, l)
    ensures m.Keys == byName.Keys + Labels(fids)
    ensures forall x :: x in m ==> m[x] == Prior(byName, x) + ListEntries(fids, l, x)
  {
    assert fids[..|fids|] == fids;
  }

  /** One step of GroupList keeps GroupedSoFar: a label seen before gets (l, k) appended. */
  lemma GroupStepSeen(m: map<string, seq<FiducialRef>>, byName: map<string, seq<FiducialRef>>,
                      fids: seq<Fiducial>, k: nat, l: nat)
    requires k < |fids| && GroupedSoFar(m, byName, fids, k, l) && fids[k].name in m
    ensures GroupedSoFar(m[fids[k].name := m[fids[k].name] + [(l, k)]], byName, fids, k + 1, l)
  {
    var name := fids[k].name;
    var g := m[name := m[name] + [(l, k)]];
    LabelsStep(fids, k);
    KeysStep(m, byName.Keys, Labels(fids[..k]), name, m[name] + [(l, k)]);
    forall x | x in g
      ensures g[x] == Prior(byName, x) + ListEntries(fids[..k + 1], l, x)
    {
      ListEntriesStep(fids, k, l, x);
      if x == name {
        ConcatAssoc(Prior(byName, x), ListEntries(fids[..k], l, x), [(l, k)]);
      }
    }
  }

  /** One step of GroupList keeps GroupedSoFar: a new label gets [(l, k)]. */
  lemma GroupStepNew(m: map<string, seq<FiducialRef>>, byName: map<string, seq<FiducialRef>>,
                     fids: seq<Fiducial>, k: nat, l: nat)
    requires k < |fids| && GroupedSoFar(m, byName, fids, k, l) && fids[k].name !in m
    ensures GroupedSoFar(m[fids[k].name := [(l, k)]], byName, fids, k + 1, l)
  {
    var name := fids[k].name;
    var g := m[name := [(l, k)]];
    LabelsStep(fids, k);
    KeysStep(m, byName.Keys, Labels(fids[..k]), name, [(l, k)]);
    forall x | x in g
      ensures g[x] == Prior(byName, x) + ListEntries(fids[..k + 1], l, x)
    {
      ListEntriesStep(fids, k, l, x);
      if x == name {
        ListEntriesNonEmpty(fids[..k], l, name);
      }
    }
  }

  lemma KeysStep(m: map<string, seq<FiducialRef>>, a: set<string>, b: set<string>, name: string, v: seq<FiducialRef>)
    requires m.Keys == a + b
    ensures m[name := v].Keys == a + (b + {name})
  {
  }

  lemma ConcatAssoc<T>(a: seq<T>, b: seq<T>, c: seq<T>)
    ensures (a + b) + c == a + (b + c)
  {
  }

  lemma LabelsStep(fids: seq<Fiducial>, k: nat)
    requires k < |fids|
    ensures Labels(fids[..k + 1]) == Labels(fids[..k]) + {fids[k].name}
  {
    assert fids[..k + 1] == fids[..k] + [fids[k]];
  }

  lemma ListEntriesStep(fids: seq<Fiducial>, k: nat, l: nat, x: string)
    requires k < |fids|
    ensures ListEntries(fids[..k + 1], l, x) == ListEntries(fids[..k], l, x) + (if fids[k].name == x then [(l, k)] else [])
  {
    assert fids[..k + 1][..k] == fids[..k];
  }

  /** The filtering loop of landmarksForVolumes: delete every label whose group is not `count` long. */
  method DropIncomplete(grouped: map<string, seq<FiducialRef>>, count: nat)
    returns (kept: map<string, seq<FiducialRef>>)
    ensures kept.Keys <= grouped.Keys
    ensures forall x :: x in grouped ==> (x in kept <==> |grouped[x]| == count)
    ensures forall x :: x in kept ==> kept[x] == grouped[x]
  {
    kept := grouped;
    var keys := grouped.Keys;
    while keys != {}
      invariant keys <= kept.Keys <= grouped.Keys
      invariant forall x :: x in kept ==> kept[x] == grouped[x]
      invariant forall x :: x in grouped && x !in keys ==> (x in kept <==> |grouped[x]| == count)
      decreases |keys|
    {
      var name :| name in keys;
      if |kept[name]| != count {
        kept := map x | x in kept && x != name :: kept[x];
      }
      keys := keys - {name};
    }
  }

  /** `m` groups the labels of the lists of volumes[..i]. */
  ghost predicate GroupedVolumes(m: map<string, seq<FiducialRef>>, lists: seq<FiducialList>, volumes: seq<Volume>, i: nat)
    requires i <= |volumes|
  {
    && m.Keys == AllLabels(lists, volumes[..i])
    && forall x :: x in m ==> m[x] == Entries(lists, volumes[..i], x)
  }

  /** Grouping the list of volumes[i] into a grouping of volumes[..i] groups volumes[..i + 1]. */
  lemma GroupedVolumesStep(m: map<string, seq<FiducialRef>>, m': map<string, seq<FiducialRef>>,
                           lists: seq<FiducialList>, volumes: seq<Volume>, i: nat)
    requires i < |volumes| && GroupedVolumes(m, lists, volumes, i)
    requires m'.Keys == m.Keys + VolumeLabels(lists, volumes[i])
    requires forall x :: x in m' ==> m'[x] == Prior(m, x) + VolumeEntries(lists, volumes[i], x)
    ensures GroupedVolumes(m', lists, volumes, i + 1)
  {
    assert volumes[..i + 1][..i] == volumes[..i];
    assert AllLabels(lists, volumes[..i + 1]) == AllLabels(lists, volumes[..i]) + VolumeLabels(lists, volumes[i]);
    forall x | x in m'
      ensures m'[x] == Entries(lists, volumes[..i + 1], x)
    {
      assert Entries(lists, volumes[..i + 1], x) == Entries(lists, volumes[..i], x) + VolumeEntries(lists, volumes[i], x);
      EntriesSpec(lists, volumes[..i], x);
    }
  }

  /** One pass of landmarksForVolumes' outer loop: look up the volume's list and group its fiducials. */
  method GroupVolume(scene: Scene, byName: map<string, seq<FiducialRef>>, volume: Volume)
    returns (grouped: map<string, seq<FiducialRef>>)
    modifies scene
    ensures scene.lists == Associate(old(scene.lists), volume)
    ensures grouped.Keys == byName.Keys + VolumeLabels(old(scene.lists), volume)
    ensures forall x :: x in grouped ==> grouped[x] == Prior(byName, x) + VolumeEntries(old(scene.lists), volume, x)
  {
    var listForVolume := VolumeFiducialList(scene, Some(volume));
    grouped := byName;
    if listForVolume.Some? {
      var l := listForVolume.value;
      grouped := GroupList(byName, scene.lists[l].fiducials, l);
    }
  }

  /** Filtering a complete grouping by count yields Landmarks. */
  lemma KeptAreLandmarks(grouped: map<string, seq<FiducialRef>>, kept: map<string, seq<FiducialRef>>,
                         lists: seq<FiducialList>, volumes: seq<Volume>)
    requires GroupedVolumes(grouped, lists, volumes, |volumes|)
    requires kept.Keys <= grouped.Keys
    requires forall x :: x in grouped ==> (x in kept <==> |grouped[x]| == |volumes|)
    requires forall x :: x in kept ==> kept[x] == grouped[x]
    ensures kept == Landmarks(lists, volumes)
  {
    assert volumes[..|volumes|] == volumes;
  }

  /**
   * landmarksForVolumes: group the fiducials of the volumes' lists by label,
   * then drop every label whose group is not exactly |volumes| long.
   */
  method LandmarksForVolumes(scene: Scene, volumes: seq<Volume>) returns (landmarks: map<string, seq<FiducialRef>>)
    modifies scene
    ensures landmarks == Landmarks(old(scene.lists), volumes)
    ensures scene.lists == AssociateAll(old(scene.lists), volumes)
  {
    ghost var lists0 := scene.lists;
    var byName: map<string, seq<FiducialRef>> := map[];
    for i := 0 to |volumes|
      invariant scene.lists == AssociateAll(lists0, volumes[..i])
      invariant GroupedVolumes(byName, lists0, volumes, i)
    {
      assert volumes[..i + 1][..i] == volumes[..i];
      ghost var before := byName;
      ghost var current := scene.lists;
      byName := GroupVolume(scene, byName, volumes[i]);
      SameLabelsGroupings(lists0, current, volumes[i]);
      GroupedVolumesStep(before, byName, lists0, volumes, i);
    }
    landmarks := DropIncomplete(byName, |volumes|);
    KeptAreLandmarks(byName, landmarks, lists0, volumes);
    assert volumes[..|volumes|] == volumes;
  }

  /** Lists with the same names and fiducials group a volume alike. */
  lemma SameLabelsGroupings(a: seq<FiducialList>, b: seq<FiducialList>, v: Volume)
    requires |a| == |b| && forall j :: 0 <= j < |a| ==> a[j].name == b[j].name && a[j].fiducials == b[j].fiducials
    ensures VolumeLabels(a, v) == VolumeLabels(b, v)
    ensures forall x :: VolumeEntries(a, v, x) == VolumeEntries(b, v, x)
  {
    ListOfAgrees(a, b, v);
  }
}

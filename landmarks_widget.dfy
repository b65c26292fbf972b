/**
 * LandmarksWidget: the panel of landmark buttons.  It keeps the selected
 * landmark, one button per landmark (its text is the name, starred when
 * picked), the flags that keep scene-change updates from piling up, and the
 * signals it emits.  Qt widgets are reduced to the fields they show.
 */
module LandmarksWidgets {
  import opened Wrappers
  import opened Markups
  import opened LandmarkGroups
  import opened LandmarkLogic
  import opened LandmarkRemoval
  import opened LandmarkSync
  import opened StringOrder
  import opened PqWidget
  import LandmarkNames

  const LandmarkPicked := "landmarkPicked(landmarkName)"
  const LandmarkMoved := "landmarkMoved(landmarkName)"
  const MovingInSliceView := "Markups.MovingInSliceView"
  const MovingMarkupIndex := "Markups.MovingMarkupIndex"

  function DigitValue(c: char): nat
    requires '0' <= c <= '9'
  {
    c as int - '0' as int
  }

  /** int(s) for a string of decimal digits; anything else is None, where int raises ValueError. */
  function ParseIndex(s: string): Option<nat> {
    if s == [] || !('0' <= s[|s| - 1] <= '9') then None
    else if |s| == 1 then Some(DigitValue(s[0]))
    else match ParseIndex(s[..|s| - 1])
      case None => None
      case Some(n) => Some(10 * n + DigitValue(s[|s| - 1]))
  }

  /** int succeeds exactly on a non-empty string of decimal digits. */
  lemma {:induction false} ParseIndexDefined(s: string)
    ensures ParseIndex(s).Some? <==> s != [] && forall i :: 0 <= i < |s| ==> '0' <= s[i] <= '9'
  {
    if |s| > 1 && '0' <= s[|s| - 1] <= '9' {
      var p := s[..|s| - 1];
      ParseIndexDefined(p);
      assert forall i :: 0 <= i < |p| ==> p[i] == s[i];
    }
  }

  /** Appending a digit to the digits of n / 10 gives the digits of n. */
  lemma ParseIndexAppend(s: string, p: string, c: char, n: nat)
    requires s == p + [c] && '0' <= c <= '9' && DigitValue(c) == n % 10
    requires ParseIndex(p) == Some(n / 10)
    ensures ParseIndex(s) == Some(n)
  {
    assert s[..|p|] == p;
  }

  /** An index written in decimal, as the markups node writes it, reads back as itself. */
  lemma {:induction false} ParseDecimal(n: nat)
    ensures ParseIndex(LandmarkNames.Decimal(n)) == Some(n)
  {
    if n >= 10 {
      ParseDecimal(n / 10);
      ParseIndexAppend(LandmarkNames.Decimal(n), LandmarkNames.Decimal(n / 10), LandmarkNames.Digit(n % 10), n);
    } else {
      ParseDigit(LandmarkNames.Digit(n));
    }
  }

  lemma ParseDigit(c: char)
    requires '0' <= c <= '9'
    ensures ParseIndex([c]) == Some(DigitValue(c))
  {
  }

  /** GetNthMarkupLabel: the label of markup n, or "" for an index out of range. */
  function NthLabel(list: FiducialList, n: nat): string {
    if n < |list.fiducials| then list.fiducials[n].name else ""
  }

  /** The button texts after pickLandmark: every key as its text, the picked one starred. */
  function Highlighted(buttons: map<string, string>, name: string): map<string, string> {
    map k | k in buttons :: if k == name then "*" + k else k
  }

  /** Exactly the picked landmark's button is marked, if it has one; the others show their names. */
  lemma HighlightMarksOne(buttons: map<string, string>, name: string)
    ensures Highlighted(buttons, name).Keys == buttons.Keys
    ensures (set k | k in Highlighted(buttons, name) && Highlighted(buttons, name)[k] != k)
            == if name in buttons then {name} else {}
    ensures name in buttons ==> Highlighted(buttons, name)[name] == "*" + name
  {
    var h := Highlighted(buttons, name);
    assert "*" + name != name by {
      assert |"*" + name| != |name|;
    }
    if name in buttons {
      assert name in h && h[name] != name;
    }
  }

  /** requestNodeAddedUpdate on (pendingUpdate, timers scheduled). */
  function RequestSpec(s: (bool, nat)): (r: (bool, nat))
    ensures r.0
  {
    if !s.0 then (true, s.1 + 1) else s
  }

  /** Requests before the update runs schedule one update between them. */
  lemma RequestOnce(s: (bool, nat))
    ensures RequestSpec(RequestSpec(s)) == RequestSpec(s)
    ensures RequestSpec(s).1 == s.1 + (if s.0 then 0 else 1)
  {
  }

  /**
   * What landmarksFromFiducials promises about the scene `synced` it leaves
   * behind `orig` and the landmark `added` it returns.
   */
  ghost predicate SyncResult(orig: seq<FiducialList>, synced: seq<FiducialList>, vols: seq<Volume>, added: Option<string>) {
    && Grows(orig, synced) && AllSynced(synced, vols)
    && (added.Some? ==> added.value != "" && Spread(synced, vols, added.value) && AppendedLabel(orig, synced, added.value))
    && (added.None? ==> UnnamedAppends(orig, synced))
    && Reassociated(orig, synced, vols, |vols|)
    && DuplicatesOnly(orig, synced, vols)
  }

  /** The landmarksFromFiducials call of nodeAddedUpdate. */
  method SyncFiducials(scene: Scene, volumes: seq<Volume>) returns (addedLandmark: Option<string>)
    modifies scene
    ensures SyncResult(old(scene.lists), scene.lists, volumes, addedLandmark)
  {
    addedLandmark := LandmarksFromFiducials(scene, volumes);
  }

  /** The rows of the landmark table: every button's key once, in increasing order. */
  ghost predicate RowsOf(buttons: map<string, string>, rows: seq<string>) {
    Increasing(rows) && |rows| == |buttons| && forall k :: k in rows <==> k in buttons
  }

  /** The landmark nodeAddedUpdate picks: the one landmarksFromFiducials added, else the associated one, if non-empty. */
  function Picked(added: Option<string>, associated: Option<string>): (r: Option<string>)
    ensures r.Some? ==> r.value != "" && (r == added || r == associated)
    ensures Truthy(added) ==> r == added
    ensures !Truthy(added) && Truthy(associated) ==> r == associated
    ensures !Truthy(added) && !Truthy(associated) ==> r == None
  {
    if Truthy(added) then added else if Truthy(associated) then associated else None
  }

  class LandmarksWidget {
    var volumes: seq<Volume>
    var selectedLandmark: Option<string>
    /** The landmark buttons by landmark name, with their texts. */
    var buttons: map<string, string>
    /** The landmark buttons' rows in the group box, top to bottom. */
    var rows: seq<string>
    var pendingUpdate: bool
    var updatingFiducials: bool
    var movingView: Option<string>
    var renameEnabled: bool
    var removeEnabled: bool
    /** Single-shot updates scheduled so far. */
    var timers: nat
    var emitted: seq<Emission>

    /** No volumes yet, so the first updateLandmarkArray finds no landmarks and makes no buttons. */
    constructor()
      ensures volumes == [] && selectedLandmark == None && buttons == map[] && rows == []
      ensures !pendingUpdate && !updatingFiducials && movingView == None
      ensures !renameEnabled && !removeEnabled && timers == 0 && emitted == []
    {
      volumes := [];
      selectedLandmark := None;
      buttons := map[];
      rows := [];
      pendingUpdate := false;
      updatingFiducials := false;
      movingView := None;
      renameEnabled := false;
      removeEnabled := false;
      timers := 0;
      emitted := [];
    }

    /**
     * pickLandmark: reset every button's text to its key, star the picked
     * one's if it has a button, select it, enable rename and remove, clear
     * the moving view when asked, and emit landmarkPicked.
     */
    method PickLandmark(landmarkName: string, clearMovingView: bool)
      modifies this
      ensures buttons == Highlighted(old(buttons), landmarkName)
      ensures selectedLandmark == Some(landmarkName)
      ensures renameEnabled && removeEnabled
      ensures movingView == if clearMovingView then None else old(movingView)
      ensures emitted == old(emitted) + [Emission(LandmarkPicked, [Str(landmarkName)])]
      ensures volumes == old(volumes) && rows == old(rows) && timers == old(timers)
      ensures pendingUpdate == old(pendingUpdate) && updatingFiducials == old(updatingFiducials)
    {
      buttons := HighlightButtons(buttons, landmarkName);
      selectedLandmark := Some(landmarkName);
      renameEnabled := true;
      removeEnabled := true;
      if clearMovingView {
        movingView := None;
      }
      emitted := emitted + [Emission(LandmarkPicked, [Str(landmarkName)])];
    }

    /** requestNodeAddedUpdate: schedule an update unless one is pending. */
    method RequestNodeAddedUpdate()
      modifies this
      ensures (pendingUpdate, timers) == RequestSpec((old(pendingUpdate), old(timers)))
      ensures volumes == old(volumes) && selectedLandmark == old(selectedLandmark) && buttons == old(buttons)
      ensures rows == old(rows) && updatingFiducials == old(updatingFiducials) && movingView == old(movingView)
      ensures renameEnabled == old(renameEnabled) && removeEnabled == old(removeEnabled) && emitted == old(emitted)
    {
      if !pendingUpdate {
        timers := timers + 1;
        pendingUpdate := true;
      }
    }

    /**
     * updateLandmarkArray: new rename and remove buttons, disabled, and one
     * button per landmark of the volumes, in sorted order, its text the name.
     */
    method UpdateLandmarkArray(scene: Scene)
      modifies this, scene
      ensures scene.lists == AssociateAll(old(scene.lists), volumes)
      ensures buttons.Keys == Landmarks(old(scene.lists), volumes).Keys
      ensures forall k :: k in buttons ==> buttons[k] == k
      ensures RowsOf(buttons, rows)
      ensures !renameEnabled && !removeEnabled
      ensures volumes == old(volumes) && selectedLandmark == old(selectedLandmark) && timers == old(timers)
      ensures pendingUpdate == old(pendingUpdate) && updatingFiducials == old(updatingFiducials)
      ensures movingView == old(movingView) && emitted == old(emitted)
    {
      var landmarks := LandmarksForVolumes(scene, volumes);
      var newButtons, newRows := LandmarkButtons(landmarks.Keys);
      removeEnabled, renameEnabled := false, false;
      buttons, rows := newButtons, newRows;
    }

    /** setVolumeNodes: take the volumes, then rebuild the buttons. */
    method SetVolumeNodes(scene: Scene, volumeNodes: seq<Volume>)
      modifies this, scene
      ensures volumes == volumeNodes
      ensures scene.lists == AssociateAll(old(scene.lists), volumeNodes)
      ensures buttons.Keys == Landmarks(old(scene.lists), volumeNodes).Keys
      ensures forall k :: k in buttons ==> buttons[k] == k
      ensures RowsOf(buttons, rows)
      ensures !renameEnabled && !removeEnabled
      ensures selectedLandmark == old(selectedLandmark) && timers == old(timers)
      ensures pendingUpdate == old(pendingUpdate) && updatingFiducials == old(updatingFiducials)
      ensures movingView == old(movingView) && emitted == old(emitted)
    {
      volumes := volumeNodes;
      UpdateLandmarkArray(scene);
    }

    /**
     * removeLandmark: remove the selected landmark's fiducials, front to back as
     * removeLandmarkForVolumes is written, from the
     * volumes' lists (only an association pass when nothing is selected),
     * clear the selection and rebuild the buttons.
     */
    method RemoveLandmark(scene: Scene)
      modifies this, scene
      ensures selectedLandmark == None
      ensures var associated := AssociateAll(old(scene.lists), volumes);
              var removed := match old(selectedLandmark)
                case None => associated
                case Some(x) => RemoveInOrder(associated, Refs(Landmarks(old(scene.lists), volumes), x));
              && scene.lists == AssociateAll(removed, volumes)
              && buttons.Keys == Landmarks(removed, volumes).Keys
      ensures forall k :: k in buttons ==> buttons[k] == k
      ensures RowsOf(buttons, rows)
      ensures !renameEnabled && !removeEnabled
      ensures volumes == old(volumes) && emitted == old(emitted) && timers == old(timers)
      ensures pendingUpdate == old(pendingUpdate) && updatingFiducials == old(updatingFiducials)
      ensures movingView == old(movingView)
    {
      if selectedLandmark.Some? {
        RemoveLandmarkInOrder(scene, selectedLandmark.value, volumes);
      } else {
        var _ := LandmarksForVolumes(scene, volumes);
      }
      selectedLandmark := None;
      UpdateLandmarkArray(scene);
    }

    /**
     * nodeAddedUpdate: nothing while an update is running; otherwise RunUpdate.
     */
    method NodeAddedUpdate(scene: Scene, associated: Option<string>)
      returns (ghost synced: seq<FiducialList>, ghost added: Option<string>)
      modifies this, scene
      ensures old(updatingFiducials) ==> unchanged(this) && unchanged(scene)
      ensures !old(updatingFiducials) ==> UpdateRan(old(scene.lists), scene.lists, synced, added)
      ensures !old(updatingFiducials) ==> !pendingUpdate && !updatingFiducials && !renameEnabled && !removeEnabled
      ensures !old(updatingFiducials) ==>
                var picked := Picked(added, associated);
                && emitted == old(emitted) + (if picked.Some? then [Emission(LandmarkPicked, [Str(picked.value)])] else [])
                && selectedLandmark == (if picked.Some? then picked else old(selectedLandmark))
                && movingView == (if picked.Some? then None else old(movingView))
      ensures volumes == old(volumes) && timers == old(timers)
    {
      synced, added := scene.lists, None;
      if updatingFiducials {
        return;
      }
      synced, added := RunUpdate(scene, associated);
    }

    /**
     * What the buttons and the scene are after an update run.  The rebuild
     * comes after the pick, so every button shows its plain name again.
     */
    ghost predicate UpdateRan(orig: seq<FiducialList>, cur: seq<FiducialList>, synced: seq<FiducialList>, added: Option<string>)
      reads this
    {
      && SyncResult(orig, synced, volumes, added)
      && cur == AssociateAll(synced, volumes)
      && buttons.Keys == Landmarks(synced, volumes).Keys
      && (forall k :: k in buttons ==> buttons[k] == k)
      && RowsOf(buttons, rows)
    }

    /**
     * The body of nodeAddedUpdate: sync the volumes' lists, pick the landmark
     * landmarksFromFiducials added or else the one `associated` names (what
     * collectAssociatedFiducials returned), rebuild the buttons and clear
     * both flags.  `synced` is the scene after landmarksFromFiducials,
     * `added` what that returned.
     */
    method RunUpdate(scene: Scene, associated: Option<string>)
      returns (ghost synced: seq<FiducialList>, ghost added: Option<string>)
      requires !updatingFiducials
      modifies this, scene
      ensures UpdateRan(old(scene.lists), scene.lists, synced, added)
      ensures !pendingUpdate && !updatingFiducials && !renameEnabled && !removeEnabled
      ensures var picked := Picked(added, associated);
              && emitted == old(emitted) + (if picked.Some? then [Emission(LandmarkPicked, [Str(picked.value)])] else [])
              && selectedLandmark == (if picked.Some? then picked else old(selectedLandmark))
              && movingView == (if picked.Some? then None else old(movingView))
      ensures volumes == old(volumes) && timers == old(timers)
    {
      updatingFiducials := true;
      added := SyncAndPick(scene, associated);
      synced := scene.lists;
      UpdateLandmarkArray(scene);
      ghost var panel := (buttons, rows);
      pendingUpdate, updatingFiducials := false, false;
      assert (buttons, rows) == panel;
    }

    /**
     * The first half of nodeAddedUpdate: landmarksFromFiducials, then pick
     * the landmark it added or else the associated one.
     */
    method SyncAndPick(scene: Scene, associated: Option<string>) returns (ghost added: Option<string>)
      modifies this, scene
      ensures SyncResult(old(scene.lists), scene.lists, volumes, added)
      ensures var picked := Picked(added, associated);
              && emitted == old(emitted) + (if picked.Some? then [Emission(LandmarkPicked, [Str(picked.value)])] else [])
              && selectedLandmark == (if picked.Some? then picked else old(selectedLandmark))
              && movingView == (if picked.Some? then None else old(movingView))
              && (picked.Some? ==> buttons == Highlighted(old(buttons), picked.value) && renameEnabled && removeEnabled)
              && (picked.None? ==> buttons == old(buttons) && renameEnabled == old(renameEnabled) && removeEnabled == old(removeEnabled))
      ensures volumes == old(volumes) && rows == old(rows) && timers == old(timers)
      ensures pendingUpdate == old(pendingUpdate) && updatingFiducials == old(updatingFiducials)
    {
      var addedLandmark := SyncFiducials(scene, volumes);
      added := addedLandmark;
      if !Truthy(addedLandmark) {
        addedLandmark := associated;
      }
      if Truthy(addedLandmark) {
        PickLandmark(addedLandmark.value, true);
      }
    }

    /**
     * onFiducialMoved: record the list's moving view; when both the view and
     * the moving index are set, pick the moved markup's landmark (keeping the
     * view) and emit landmarkMoved.  `raised` is int's ValueError on an index
     * that is not a decimal number.
     */
    method OnFiducialMoved(list: FiducialList) returns (raised: bool)
      modifies this
      ensures movingView == AttributeOf(list, MovingInSliceView)
      ensures var index := AttributeOf(list, MovingMarkupIndex);
              var active := Truthy(AttributeOf(list, MovingInSliceView)) && Truthy(index);
              && (raised <==> active && ParseIndex(index.value).None?)
              && (active && !raised ==>
                    var name := NthLabel(list, ParseIndex(index.value).value);
                    && buttons == Highlighted(old(buttons), name)
                    && selectedLandmark == Some(name)
                    && renameEnabled && removeEnabled
                    && emitted == old(emitted) + [Emission(LandmarkPicked, [Str(name)]), Emission(LandmarkMoved, [Str(name)])])
              && (!active || raised ==>
                    && buttons == old(buttons) && selectedLandmark == old(selectedLandmark) && emitted == old(emitted)
                    && renameEnabled == old(renameEnabled) && removeEnabled == old(removeEnabled))
      ensures volumes == old(volumes) && rows == old(rows) && timers == old(timers)
      ensures pendingUpdate == old(pendingUpdate) && updatingFiducials == old(updatingFiducials)
    {
      movingView := AttributeOf(list, MovingInSliceView);
      var movingIndexAttribute := AttributeOf(list, MovingMarkupIndex);
      raised := false;
      if Truthy(movingView) && Truthy(movingIndexAttribute) {
        var movingIndex := ParseIndex(movingIndexAttribute.value);
        if movingIndex.None? {
          return true;
        }
        var landmarkName := NthLabel(list, movingIndex.value);
        PickLandmark(landmarkName, false);
        emitted := emitted + [Emission(LandmarkMoved, [Str(landmarkName)])];
      }
    }
  }

  /** pickLandmark's loop over the buttons, then the star on the picked one. */
  method HighlightButtons(buttons: map<string, string>, landmarkName: string) returns (texts: map<string, string>)
    ensures texts == Highlighted(buttons, landmarkName)
  {
    texts := buttons;
    var keys := texts.Keys;
    while keys != {}
      invariant keys <= buttons.Keys && texts.Keys == buttons.Keys
      invariant forall k :: k in texts ==> texts[k] == if k in keys then buttons[k] else k
      decreases |keys|
    {
      var key :| key in keys;
      texts := texts[key := key];
      keys := keys - {key};
    }
    if landmarkName in texts {
      texts := texts[landmarkName := "*" + landmarkName];
    }
    assert texts.Keys == Highlighted(buttons, landmarkName).Keys;
  }

  /** updateLandmarkArray's loop: a button per landmark, text its name, in sorted rows. */
  method LandmarkButtons(landmarks: set<string>) returns (buttons: map<string, string>, rows: seq<string>)
    ensures buttons.Keys == landmarks
    ensures forall k :: k in buttons ==> buttons[k] == k
    ensures RowsOf(buttons, rows)
  {
    var keys := Sorted(landmarks);
    buttons := map[];
    rows := [];
    for i := 0 to |keys|
      invariant rows == keys[..i]
      invariant forall k :: k in buttons <==> k in keys[..i]
      invariant forall k :: k in buttons ==> buttons[k] == k
    {
      assert keys[..i + 1] == keys[..i] + [keys[i]];
      buttons := buttons[keys[i] := keys[i]];
      rows := rows + [keys[i]];
    }
    assert keys[..|keys|] == keys;
    assert buttons.Keys == landmarks;
    IncreasingDistinct(rows);
    DistinctCard(rows, buttons.Keys);
  }

  lemma IncreasingDistinct(s: seq<string>)
    requires Increasing(s)
    ensures forall i, j :: 0 <= i < j < |s| ==> s[i] != s[j]
  {
    forall i, j | 0 <= i < j < |s|
      ensures s[i] != s[j]
    {
      StrLessIrreflexive(s[i]);
    }
  }

  /** A list without repeats is as long as the set of its elements. */
  lemma {:induction false} DistinctCard(s: seq<string>, keys: set<string>)
    requires forall i, j :: 0 <= i < j < |s| ==> s[i] != s[j]
    requires forall k :: k in s <==> k in keys
    ensures |s| == |keys|
    decreases |s|
  {
    if s != [] {
      var n := |s| - 1;
      assert s[n] in keys;
      forall k
        ensures k in s[..n] <==> k in keys - {s[n]}
      {
        if k in s[..n] {
          var i :| 0 <= i < n && s[i] == k;
          assert s[i] != s[n];
        }
        if k in keys - {s[n]} {
          assert k in s;
          var i :| 0 <= i < |s| && s[i] == k;
          assert i < n;
        }
      }
      DistinctCard(s[..n], keys - {s[n]});
    }
  }
}

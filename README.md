# Landmark registration bookkeeping, in Dafny

This project models the landmark bookkeeping of the Slicer LandmarkRegistration
module and the small widget and plugin classes around it, and proves what each
operation promises.

The host scene becomes a `Markups.Scene` object whose one field, `lists`, is the
sequence of fiducial list nodes in scene order. A list is addressed by its index
in that sequence, because the core never deletes a list. Volumes are values: an id,
a name and RAS bounds. A volume's list is the first list named
`<volume name>-landmarks`. Each fiducial has a label, a position, an optional
associated node id and selected/locked flags.

The logic methods of `LandmarkRegistrationLogic` are module-level methods that
take the scene and keep the source's loops. These are proved equal to a
specification function over the old scene:

- `LandmarkLogic.LandmarksForVolumes` (grouping by label);
- `FiducialPlacement.AddFiducial` (update by label, otherwise append a clamped fiducial);
- `LandmarkPlacement.AddLandmark` (smallest free `L-k`, one fiducial per volume);
- `LandmarkRemoval.RemoveLandmarkInOrder` (removeLandmarkForVolumes as written,
  one (list, index) pair after another);
- `LandmarkSync.EnsureFiducialInListForVolume`;
- `LandmarkPoints.VtkPointsForVolumes` (index-paired point export with its count
  check).

`LandmarkRemoval.RemoveLandmarkForVolumes` is the corrected removal described
under "Findings": it removes every referenced fiducial at once and is proved
equal to its own specification function. The widget's removeLandmark calls the
as-written `RemoveLandmarkInOrder`, as the source does.

`LandmarkSync.LandmarksFromFiducials` is specified by properties, not by a
function: lists only grow, every volume's list carries every label, every
fiducial a volume's list held is left associated with a volume whose list it
is in and keeps its label, position and selected and locked flags, every
appended fiducial is an unselected, unlocked duplicate of a fiducial some
volume's list held before and the first with its label in its list, and the
returned label is a non-empty label of every list that this call appended.

Caller positions are `array<real>` of length 3, because `addFiducial` clamps the
caller's sequence in place. `addLandmark` therefore carries an explicit aliasing
flag for the case where the fixed and moving positions are the same sequence.

The widgets are classes whose fields are the Python attributes:

- `PqWidget.Widget` is the signal/slot registry.
- `LandmarksWidgets.LandmarksWidget` holds the selected landmark, the
  pending/updating flags, the moving view and the button texts keyed and ordered
  by landmark name.
- `Visualization.VisualizationWidget` holds the layout option, the checkboxes and
  the fade slider's enabled flag.
- `RegistrationPlugins.RegistrationPlugin` holds its parent, layout and `widgets`
  list.

A widget's `emit` is recorded as an append to an `emitted` trace of `Emission`
values. `PqWidget.EmitSpec` states which slot calls an emission makes.
`registerPlugin` acts on a `Package` whose `dicts` field maps a dictionary
attribute name to the plugin dictionary. Importable modules are passed as a map
from module name to that module's attributes.

Python behaviour is written out where it matters:

- the falsiness of `None` and `""` (`Wrappers.Truthy`);
- `str.split('.')[-1]`, `str.replace` and ASCII `str.lower`;
- `list.remove`, which drops the first occurrence only;
- the order of `keys.sort()`, Python's string order in `StringOrder`.

`landmarksForVolumes` keeps a label when its TOTAL number of fiducials across
the volumes' lists equals the number of volumes. It does not check that every
volume has one. `LandmarkGroups.TotalCountNotPresence` shows a label kept though
the moving volume's list lacks it. This is the code's behaviour, and the model
follows it.

## Model

| member | source | states |
|---|---|---|
| Markups.FirstListNamed | LandmarkRegistration.py:646-647 | the result is the first list carrying the name, and none means no list carries it |
| Markups.FirstLabelIndex | LandmarkRegistration.py:658-664 | the result is the first fiducial index with the label, and none means no fiducial has it |
| Markups.LabelIndexFound | LandmarkRegistration.py:766-770 | the label search succeeds exactly when the label is among the list's labels |
| FiducialPlacement.Clip | LandmarkRegistration.py:672-675 | a coordinate ends at or below the upper bound and at or above the lower bound when the bounds are ordered; an inside value is kept; below gives the lower bound; above, or inverted bounds, give the upper bound (the second test wins) |
| FiducialPlacement.Clipped | LandmarkRegistration.py:669-675 | with ordered bounds the clamped point is inside them; a point already inside is unchanged |
| FiducialPlacement.ClippedIdempotent | LandmarkRegistration.py:669-675 | clamping twice to the same bounds equals clamping once |
| FiducialPlacement.ClipCarriesOver | LandmarkRegistration.py:704-710 | because the caller's position is clamped in place, a later volume with wider bounds receives the already-clamped point (a concrete case) |
| FiducialPlacement.ClipToBounds | LandmarkRegistration.py:669-675 | the array holds, in place, the clamp of its old contents |
| FiducialPlacement.WithList | LandmarkRegistration.py:646-653 | afterwards the volume has a list; an existing list leaves the scene unchanged; otherwise one new list for the volume is appended and becomes its list |
| FiducialPlacement.UpsertSpec | LandmarkRegistration.py:658-681 | the labels gain exactly the name. A present label: only its first fiducial moves, unclamped, and becomes unselected and unlocked; the count is unchanged. A new label: exactly one fiducial is appended, clamped into ordered bounds, unselected and unlocked, and earlier fiducials are unchanged |
| FiducialPlacement.AddFiducialFrame | LandmarkRegistration.py:634-686 | at most one list is added; every list other than the volume's is unchanged; no list is renamed |
| FiducialPlacement.AddFiducialAdds | LandmarkRegistration.py:646-681 | afterwards the volume's list carries the label |
| FiducialPlacement.AddFiducialKeepsLabels | LandmarkRegistration.py:658-681 | no volume loses a label |
| FiducialPlacement.AddFiducial | LandmarkRegistration.py:634-686 | the new scene and the caller's position are those of the upsert specification |
| LandmarkGroups.ListEntriesSpec | LandmarkRegistration.py:745-750 | one list contributes exactly its fiducials with the label, each (list, index) in range with that label, in increasing index order |
| LandmarkGroups.AllLabelsSpec | LandmarkRegistration.py:741-750 | a label is grouped exactly when some volume's list carries it |
| LandmarkGroups.EntriesSpec | LandmarkRegistration.py:741-750 | a label's group has as many pairs as the label's total occurrences; every pair is in range and carries the label; the group is non-empty exactly when some volume's list has the label |
| LandmarkGroups.LandmarksAreFullCounts | LandmarkRegistration.py:751-753 | a label is a landmark exactly when there are volumes and its total count equals their number; its pairs are then that many, in range, with that label |
| LandmarkGroups.OncePerVolumeIsLandmark | LandmarkRegistration.py:736-754 | a label held exactly once by every volume's list is a landmark |
| LandmarkGroups.TotalCountNotPresence | LandmarkRegistration.py:751-753 | a label held twice by the fixed list and absent from the moving list is still a landmark |
| LandmarkGroups.LandmarksIgnoreAssociation | LandmarkRegistration.py:736-754 | re-associating lists with their volumes does not change the landmarks |
| LandmarkGroups.Associate | LandmarkRegistration.py:730-734 | the volume's list gets the volume's id as AssociatedNodeID; no list changes name or fiducials; every other list is unchanged |
| LandmarkGroups.AssociateAll | LandmarkRegistration.py:741-742 | associating every volume's list keeps each list's name and fiducials |
| LandmarkLogic.VolumeFiducialList | LandmarkRegistration.py:723-734 | a missing volume gives none and leaves the scene unchanged; otherwise the result is the volume's list, or none, and that list is associated with the volume |
| LandmarkLogic.GroupList | LandmarkRegistration.py:745-750 | after one list the groups have the earlier labels plus this list's labels, each earlier group extended by this list's pairs |
| LandmarkLogic.GroupFiducial | LandmarkRegistration.py:746-750 | one fiducial extends the grouping of the list's prefix by one index |
| LandmarkLogic.DropIncomplete | LandmarkRegistration.py:751-753 | exactly the groups whose size equals the volume count are kept, unchanged |
| LandmarkLogic.GroupVolume | LandmarkRegistration.py:742-750 | one volume: its list is associated, and the groups gain its list's labels and pairs |
| LandmarkLogic.KeptAreLandmarks | LandmarkRegistration.py:741-753 | the kept groups are the landmarks of the old scene |
| LandmarkLogic.LandmarksForVolumes | LandmarkRegistration.py:736-754 | the result is the landmarks of the old scene, and every volume's list is associated with its volume |
| LandmarkNames.Digit | LandmarkRegistration.py:700 | a digit value is written as the character with that value |
| LandmarkNames.Decimal | LandmarkRegistration.py:700 | '%d' of a natural is non-empty, all digits, and one character exactly below ten |
| LandmarkNames.DecimalInjective | LandmarkRegistration.py:700 | distinct numbers have distinct decimal strings |
| LandmarkNames.LandmarkNameInjective | LandmarkRegistration.py:700 | distinct indices give distinct names L-k |
| LandmarkNames.NamesBelowCount | LandmarkRegistration.py:698-703 | the first n names are n distinct strings |
| LandmarkNames.FreshLandmarkIndex | LandmarkRegistration.py:698-703 | the counter loop stops at the smallest k whose name is not taken, and k is at most the number of taken names |
| LandmarkPlacement.Registered | LandmarkRegistration.py:696 | the registration state's lookups only re-associate lists; every label stays |
| LandmarkPlacement.PlaceOne | LandmarkRegistration.py:705-710 | when the two positions are one sequence they stay one after a placement |
| LandmarkPlacement.PlaceOneLabels | LandmarkRegistration.py:705-710 | a placement gives the volume's list the label and takes it from no volume |
| LandmarkPlacement.PlaceAllLabels | LandmarkRegistration.py:704-710 | after the loop every volume's list carries the new name |
| LandmarkPlacement.AddLandmark | LandmarkRegistration.py:688-711 | the name is the smallest free L-k among the landmarks; the scene and both positions are those of adding the name to each volume in turn, the moving volume from the moving position |
| LandmarkRemoval.RemoveMarkup | LandmarkRegistration.py:720 | removing index k drops exactly that fiducial and shifts the later ones down; an index out of range changes nothing |
| LandmarkRemoval.RemoveInOrder | LandmarkRegistration.py:719-720 | removing pairs one after another keeps the number of lists |
| LandmarkRemoval.InOrderDistinctLists | LandmarkRegistration.py:713-721 | when no two pairs point into the same list, removing them one after another is exactly the removal of every referenced fiducial |
| LandmarkRemoval.WithoutLabelSpec | LandmarkRegistration.py:713-721 | dropping a label removes exactly that label and exactly its occurrences |
| LandmarkRemoval.UnreferencedIsWithoutLabel | LandmarkRegistration.py:713-721 | when the pairs of a list are exactly its fiducials with the label, keeping unreferenced fiducials drops exactly that label |
| LandmarkRemoval.EntriesMembership | LandmarkRegistration.py:741-750 | a pair is grouped under a label exactly when its list is a volume's list and its index is in range and carries the label |
| LandmarkRemoval.VolumeEntriesMembership | LandmarkRegistration.py:742-750 | a pair comes from one volume exactly when it is in that volume's list, in range, with the label |
| LandmarkRemoval.RemoveReferencedSpec | LandmarkRegistration.py:713-721 | removing a landmark's pairs together drops the label from every volume's list and keeps every other list and all names and attributes |
| LandmarkRemoval.NoneReferenced | LandmarkRegistration.py:718-720 | a list without referenced pairs is unchanged |
| LandmarkRemoval.RemovedFromEveryVolume | LandmarkRegistration.py:713-721 | after the corrected removal every volume's labels are the old ones minus the landmark |
| LandmarkRemoval.ExampleLandmarks | LandmarkRegistration.py:736-754 | the fixed volume's list holding L-0, L-0, L-1 and no list for the moving volume give L-0, at (0,0) and (0,1), as the only landmark |
| LandmarkRemoval.ExampleVolumeEntries | LandmarkRegistration.py:741-750 | in that scene L-0 is grouped at (0,0), (0,1) and L-1 at (0,2) |
| LandmarkRemoval.StaleIndexRemovesOtherLabel | LandmarkRegistration.py:719-720 | in that scene, front-to-back removal leaves L-0 and removes L-1, while removing the referenced pairs together leaves L-1 |
| LandmarkRemoval.RemoveFiducial | LandmarkRegistration.py:720 | RemoveMarkup on one list changes only that list's fiducials |
| LandmarkRemoval.RemoveLandmarkInOrder | LandmarkRegistration.py:713-721 | as written: the lists are associated, then the landmark's pairs are removed one by one in group order |
| LandmarkRemoval.KeepUnreferenced | LandmarkRegistration.py:719-720 | the loop keeps exactly the fiducials of the list that no pair references |
| LandmarkRemoval.RemoveLandmarkForVolumes | LandmarkRegistration.py:713-721 | corrected: the lists are associated, then every referenced fiducial is removed at once |
| LandmarkSync.EnsureNoList | LandmarkRegistration.py:763-765 | without a list for the volume nothing changes and none is returned |
| LandmarkSync.EnsureFound | LandmarkRegistration.py:766-770 | a present label: only its first fiducial is re-associated, the count is unchanged, none is returned |
| LandmarkSync.EnsureAdded | LandmarkRegistration.py:771-777 | a missing label: one unselected, unlocked fiducial with it is appended at the position, and the label is returned |
| LandmarkSync.EnsureFrame | LandmarkRegistration.py:756-777 | lists only grow; lists other than the volume's are unchanged; anything appended carries the label; returning none means nothing was appended |
| LandmarkSync.EnsureLabels | LandmarkRegistration.py:756-777 | no volume's list changes identity; each volume's labels grow by at most the label; the volume's list ends up with it |
| LandmarkSync.EnsureNamed | LandmarkRegistration.py:771-777 | a returned label is the one asked for; a falsy return means whatever was appended has the empty label |
| LandmarkSync.EnsureFiducialInListForVolume | LandmarkRegistration.py:756-777 | the new scene and the result are those of the ensure specification |
| LandmarkSync.OuterEnd | LandmarkRegistration.py:842-860 | once every volume is handled, each label of any volume's list is in every volume's list |
| LandmarkSync.LandmarksFromFiducials | LandmarkRegistration.py:832-862 | lists only grow, every earlier fiducial keeping its label, position and selected and locked flags; every appended fiducial is unselected, unlocked, the first with its label in its list, and copies the label and position of a fiducial some volume's list held at the start; every label of any volume's list ends in every volume's list; every fiducial a volume's list held at the start ends associated with a volume whose list holds it; a returned label is non-empty, in every list, and was appended by this call at an index its list did not have before; none means only unnamed fiducials were appended |
| LandmarkSync.EnsureInOtherVolumes | LandmarkRegistration.py:855-860 | after the inner loop the label is in every volume's list, earlier fiducials stay spread and owned, every appended fiducial is still a duplicate, and the kept return value is still an appended label |
| LandmarkSync.SyncVolumeList | LandmarkRegistration.py:847-860 | after one volume's fiducials are handled, every label of the volumes so far is in every list, that volume's original fiducials are associated with it, and every appended fiducial is a duplicate |
| LandmarkSync.SyncFiducial | LandmarkRegistration.py:849-860 | after one fiducial is handled its label is in every volume's list, it is associated with its volume, and every appended fiducial is a duplicate |
| LandmarkSync.ReassociateFiducial | LandmarkRegistration.py:852-854 | the fiducial ends associated with its list's volume; labels, positions and flags stay |
| LandmarkSync.SyncedFromVolumeList | LandmarkRegistration.py:849-851 | the label and position the loop reads come from a fiducial some volume's list held at the start |
| LandmarkSync.EnsureTracked | LandmarkRegistration.py:766-777 | ensureFiducialInListForVolume appends only a label its list lacks, as an unselected, unlocked fiducial at the given label and position; earlier appended fiducials stay duplicates |
| LandmarkSync.AppendDuplicate | LandmarkRegistration.py:772-776 | appending one unselected, unlocked fiducial with a missing label keeps every appended fiducial a duplicate |
| LandmarkSync.EnsureAppended | LandmarkRegistration.py:772-777 | a label ensureFiducialInListForVolume returns sits at an index its list did not have before, and earlier appended labels stay |
| LandmarkSync.EnsureKeepsOwners | LandmarkRegistration.py:756-777 | ensureFiducialInListForVolume keeps every list lookup and every fiducial, and re-associates a fiducial only with the volume whose list holds it |
| LandmarkPoints.Positions | LandmarkRegistration.py:880-882 | the positions of a list, index by index |
| LandmarkPoints.PointsErrors | LandmarkRegistration.py:870-876 | it raises exactly when the lists pair up with the volumes, none is None, and there are no lists or their counts differ; the error names the first list's count |
| LandmarkPoints.PointsUnpaired | LandmarkRegistration.py:867-872 | unpaired or None entries give every volume an empty point set |
| LandmarkPoints.GatheredKeys | LandmarkRegistration.py:867-882 | the point sets have one key per volume |
| LandmarkPoints.GatheredDistinct | LandmarkRegistration.py:877-882 | with distinct volumes, volume i holds list i's positions once pair i is handled, and nothing before |
| LandmarkPoints.PointsPaired | LandmarkRegistration.py:877-882 | distinct volumes and equal counts: volume i gets exactly list i's positions in index order |
| LandmarkPoints.NewPointSets | LandmarkRegistration.py:867-869 | the first loop gives every volume an empty point set |
| LandmarkPoints.InsertPositions | LandmarkRegistration.py:880-882 | the inner loop appends the list's positions to one volume's set only |
| LandmarkPoints.VtkPointsForVolumes | LandmarkRegistration.py:864-883 | the result, or the raised error, is that of the points specification |
| PqWidget.RemoveFirst | RegistrationLib/pqWidget.py:19 | an absent slot leaves the list unchanged; a present one shortens it by one |
| PqWidget.RemoveFirstMultiset | RegistrationLib/pqWidget.py:19 | remove drops exactly one copy of the slot |
| PqWidget.RemoveFirstAt | RegistrationLib/pqWidget.py:19 | remove drops the first occurrence and keeps the slots before and after it in order |
| PqWidget.ConnectFrame | RegistrationLib/pqWidget.py:9-13 | connect creates the entry if absent, appends the slot, and leaves every other signal's slots unchanged |
| PqWidget.DisconnectFrame | RegistrationLib/pqWidget.py:15-19 | disconnect keeps every key, even an emptied one, drops the first connection of the slot if any, and leaves every other signal unchanged |
| PqWidget.EmitSpec | RegistrationLib/pqWidget.py:21-25 | emit calls each connection once, in connection order, with the same arguments, and nothing for a signal without an entry |
| PqWidget.ConnectThenEmit | RegistrationLib/pqWidget.py:9-25 | a new connection is called last on the next emit |
| PqWidget.ConnectDisconnect | RegistrationLib/pqWidget.py:9-19 | disconnecting a slot that was not connected before undoes the connect, except that the signal keeps its entry |
| PqWidget.ConnectDisconnectConnected | RegistrationLib/pqWidget.py:9-19 | for a slot already connected, connect then disconnect moves its first connection to the end |
| PqWidget.ConnectDisconnectReorders | RegistrationLib/pqWidget.py:9-19 | slots [a, b] with a connected again and then disconnected become [b, a] |
| PqWidget.DisconnectCount | RegistrationLib/pqWidget.py:15-19 | disconnect lowers the slot's connection count by one, never below zero |
| PqWidget.Widget.constructor | RegistrationLib/pqWidget.py:6-7 | a new widget has no connections |
| PqWidget.Widget.Connect | RegistrationLib/pqWidget.py:9-13 | the registry after connect |
| PqWidget.Widget.Disconnect | RegistrationLib/pqWidget.py:15-19 | the registry after disconnect |
| PqWidget.Widget.Emit | RegistrationLib/pqWidget.py:21-25 | the loop makes exactly the calls of the emit specification |
| RegistrationPlugins.LastComponent | RegistrationLib/RegistrationPlugin.py:157 | the result is a dot-free suffix of the name, preceded by a dot when shorter |
| RegistrationPlugins.LastComponentAfterDot | RegistrationLib/RegistrationPlugin.py:157 | the last component of package.word is word |
| RegistrationPlugins.RemoveAll | RegistrationLib/RegistrationPlugin.py:158 | replace never lengthens the name |
| RegistrationPlugins.RemoveAllAbsent | RegistrationLib/RegistrationPlugin.py:158 | without an occurrence of the suffix, replace changes nothing |
| RegistrationPlugins.RemoveAllFirst | RegistrationLib/RegistrationPlugin.py:158 | replace removes the first occurrence of the suffix, keeps what precedes it and resumes right after it |
| RegistrationPlugins.RemoveAllTrailing | RegistrationLib/RegistrationPlugin.py:158 | a name that carries the suffix only at its end loses exactly that suffix |
| RegistrationPlugins.Lower | RegistrationLib/RegistrationPlugin.py:159 | each character is lowered and no upper-case letter remains |
| RegistrationPlugins.LowerIdempotent | RegistrationLib/RegistrationPlugin.py:159 | lowering twice equals lowering once |
| RegistrationPlugins.PluginDictName | RegistrationLib/RegistrationPlugin.py:159-160 | the dictionary name is the lower-cased consumer followed by "Plugins" |
| RegistrationPlugins.PluginKeyOfModule | RegistrationLib/RegistrationPlugin.py:157-158 | package.wordPlugin registers under key word |
| RegistrationPlugins.RegistrationDictName | RegistrationLib/RegistrationPlugin.py:190-196 | consumer Registration gives the dictionary registrationPlugins |
| RegistrationPlugins.RegisterEnsuresDict | RegistrationLib/RegistrationPlugin.py:161-167 | a falsy provider raises NameError and changes nothing; otherwise the dictionary exists afterwards and no other is created |
| RegistrationPlugins.RegisterKeeps | RegistrationLib/RegistrationPlugin.py:165-187 | no registered entry changes, and other dictionaries are untouched |
| RegistrationPlugins.RegisterOnlyAdds | RegistrationLib/RegistrationPlugin.py:165-187 | without a registration only the empty dictionary may be added; a registration adds exactly the new key |
| RegistrationPlugins.RegisterFirstWins | RegistrationLib/RegistrationPlugin.py:169-172 | a key already registered leaves everything unchanged |
| RegistrationPlugins.RegisterTwice | RegistrationLib/RegistrationPlugin.py:169-180 | registering the same key again, whatever the globals and modules, changes nothing |
| RegistrationPlugins.RegisterFromGlobals | RegistrationLib/RegistrationPlugin.py:175-180 | a globals dict decides alone, so no import happens: the class from it is registered, or KeyError is raised when it lacks the class |
| RegistrationPlugins.RegisterFromModule | RegistrationLib/RegistrationPlugin.py:182-187 | without globals the module's attribute is registered; a missing module or attribute only ensures the dictionary |
| RegistrationPlugins.RegisterPlugin | RegistrationLib/RegistrationPlugin.py:102-187 | the package and outcome are those of the registration specification for the derived names |
| RegistrationPlugins.RegisterNamed | RegistrationLib/RegistrationPlugin.py:161-187 | the package and outcome are those of the registration specification for the given names |
| RegistrationPlugins.RegisterRegistrationPlugin | RegistrationLib/RegistrationPlugin.py:190-196 | registration plugins go to registrationPlugins under the name less "Plugin", and that dictionary exists unless NameError was raised |
| RegistrationPlugins.Without | RegistrationLib/RegistrationPlugin.py:88 | removeWidget leaves exactly the other widgets in the layout |
| RegistrationPlugins.DetachedSpec | RegistrationLib/RegistrationPlugin.py:87-91 | after destroy the layout holds exactly the widgets not tracked |
| RegistrationPlugins.RegistrationPlugin.constructor | RegistrationLib/RegistrationPlugin.py:55-62 | a new plugin keeps its parent and tracks no widgets |
| RegistrationPlugins.RegistrationPlugin.Create | RegistrationLib/RegistrationPlugin.py:65-82 | a missing parent is created with an empty layout; the frame is added to the layout and appended to widgets |
| RegistrationPlugins.RegistrationPlugin.Destroy | RegistrationLib/RegistrationPlugin.py:84-91 | every tracked widget leaves the layout and widgets becomes empty |
| StringOrder.StrLessIrreflexive | RegistrationLib/Landmarks.py:65-66 | no string sorts before itself |
| StringOrder.StrLessTransitive | RegistrationLib/Landmarks.py:65-66 | the sort order is transitive |
| StringOrder.StrLessTotal | RegistrationLib/Landmarks.py:65-66 | any two distinct strings are ordered one way |
| StringOrder.IncreasingUnique | RegistrationLib/Landmarks.py:65-66 | a set of keys has one sorted order |
| StringOrder.Least | RegistrationLib/Landmarks.py:66 | the least key of a non-empty set |
| StringOrder.Sorted | RegistrationLib/Landmarks.py:65-66 | keys.sort() yields every key once, in increasing order |
| LandmarksWidgets.ParseIndexDefined | RegistrationLib/Landmarks.py:103 | int() of the index attribute succeeds exactly on a non-empty string of digits |
| LandmarksWidgets.ParseDecimal | RegistrationLib/Landmarks.py:103 | int() reads back the decimal string of any index |
| LandmarksWidgets.HighlightMarksOne | RegistrationLib/Landmarks.py:126-131 | every button shows its key except the picked one, which shows '*' and its name; with no such button none is marked |
| LandmarksWidgets.HighlightButtons | RegistrationLib/Landmarks.py:126-131 | the loop resets the texts and marks the picked button |
| LandmarksWidgets.RequestSpec | RegistrationLib/Landmarks.py:169-174 | after a request an update is pending |
| LandmarksWidgets.RequestOnce | RegistrationLib/Landmarks.py:169-174 | a timer starts only when none is pending, so a second request changes nothing |
| LandmarksWidgets.SyncFiducials | RegistrationLib/Landmarks.py:199 | the scene after landmarksFromFiducials, with its result: lists only grow, earlier fiducials keep label, position and flags; every label is in every volume's list; every appended fiducial is an unselected, unlocked duplicate of one some volume's list held and the first with its label in its list; earlier fiducials end associated with their list's volume; a returned label is non-empty, in every list and appended by the call |
| LandmarksWidgets.Picked | RegistrationLib/Landmarks.py:198-203 | the synced landmark wins when truthy, otherwise the associated one when truthy, otherwise nothing is picked; a pick is never empty |
| LandmarksWidgets.LandmarkButtons | RegistrationLib/Landmarks.py:63-71 | exactly one button per landmark, its text its key, in sorted order |
| LandmarksWidgets.LandmarksWidget.constructor | RegistrationLib/Landmarks.py:10-27 | the initial fields: no volumes, no selection, no buttons, no update pending or running, no moving view |
| LandmarksWidgets.LandmarksWidget.PickLandmark | RegistrationLib/Landmarks.py:123-137 | the picked button is highlighted, the selection is set even without a button, rename/remove are enabled, the moving view is cleared only on request, landmarkPicked is emitted |
| LandmarksWidgets.LandmarksWidget.RequestNodeAddedUpdate | RegistrationLib/Landmarks.py:169-174 | the pending flag and timer count follow the request specification; nothing else changes |
| LandmarksWidgets.LandmarksWidget.UpdateLandmarkArray | RegistrationLib/Landmarks.py:35-75 | the lists are associated, and the buttons are exactly the current landmarks, in sorted rows, with rename/remove disabled |
| LandmarksWidgets.LandmarksWidget.SetVolumeNodes | RegistrationLib/Landmarks.py:29-33 | the volumes are stored and their lists associated; the buttons are rebuilt, one per landmark in sorted order, with rename and remove disabled; the selection, flags, moving view, timers and signals stay |
| LandmarksWidgets.LandmarksWidget.RemoveLandmark | RegistrationLib/Landmarks.py:151-154 | the selected landmark's pairs are removed one after another as removeLandmarkForVolumes is written (only an association pass without a selection); the selection is cleared, the buttons are rebuilt with rename and remove disabled; the flags, moving view, timers and signals stay |
| LandmarksWidgets.LandmarksWidget.NodeAddedUpdate | RegistrationLib/Landmarks.py:185-207 | nothing happens during an update; otherwise the lists are synced, the preferred new landmark is picked, the buttons are rebuilt with plain names (the pick's star is gone) and both flags end false |
| LandmarksWidgets.LandmarksWidget.RunUpdate | RegistrationLib/Landmarks.py:196-207 | the body of an update run: sync, pick, then a rebuild whose buttons show plain names, and both flags false |
| LandmarksWidgets.LandmarksWidget.SyncAndPick | RegistrationLib/Landmarks.py:198-203 | syncing, then picking the preferred landmark only when there is one: the pick highlights its button, selects it, enables rename and remove, clears the moving view and emits landmarkPicked; without a pick the buttons, selection and signals stay; rows, timers and flags stay either way |
| LandmarksWidgets.LandmarksWidget.OnFiducialMoved | RegistrationLib/Landmarks.py:96-106 | the moving view is always set from the attribute; with both attributes set, a bad index raises, otherwise the indexed label is picked and landmarkPicked then landmarkMoved are emitted; otherwise nothing else changes |
| Visualization.CheckedMembers | RegistrationLib/Visualization.py:89-92 | a volume is shown exactly when it is one of the volumes and checked |
| Visualization.ShownInOrder | RegistrationLib/Visualization.py:89-92 | the shown volumes are the checked ones in the order Fixed, Moving, Transformed |
| Visualization.FadeFollowsTransformed | RegistrationLib/Visualization.py:93 | Transformed is shown exactly when its box is checked |
| Visualization.AllShown | RegistrationLib/Visualization.py:47-53 | with every box checked, all three volumes are shown |
| Visualization.ShownVolumes | RegistrationLib/Visualization.py:89-92 | the loop collects the shown volumes |
| Visualization.VisualizationWidget.constructor | RegistrationLib/Visualization.py:13-53 | the layout is Axi/Sag/Cor, every box is checked, nothing is emitted |
| Visualization.VisualizationWidget.SelectLayout | RegistrationLib/Visualization.py:80-83 | the option is stored, then the update runs |
| Visualization.VisualizationWidget.ToggleVolume | RegistrationLib/Visualization.py:51 | a box change triggers the update; setting a box to its current state emits nothing |
| Visualization.VisualizationWidget.UpdateVisualization | RegistrationLib/Visualization.py:85-94 | the fade slider is enabled exactly when Transformed is checked, and layoutRequested is emitted with the layout and the shown volumes |

## Left out

- collectAssociatedFiducials (LandmarkRegistration.py:779-830) is not part of this model. It maps points through a vtkGeneralTransform. `NodeAddedUpdate` takes only its returned label, as the `associated` parameter; the scene changes it makes (its addLandmark calls and the RemoveMarkup of each collected fiducial from its other list) are not modelled.
- onFiducialEndMoving is not modelled. It repeats the pick of `OnFiducialMoved` under another signal.
- renameLandmark is not modelled. It calls the host's label setter with one argument, which the host API does not accept.
- addLandmark (the widget's button handler) is not modelled. It only switches the host into place mode.
- Qt and CTK widget construction, dialogs, the removeButton/renameButton hide calls, and the message box of wrappedNodeAddedUpdate are not modelled. The QTimer.singleShot deferral is modelled as a count of scheduled timers.
- Observers are not modelled: addLandmarkObservers, removeLandmarkObservers and the events they route.
- MRML batch states, setFiducialListDisplay, the active markup list save/restore in addFiducial, and logging are not modelled. None of them changes the modelled state.
- onFadeChanged and onZoom are not modelled. They drive rendering and another module.
- The plugin classes are not modelled: ThinPlatePlugin, AffinePlugin, LocalSimpleITKPlugin, LocalBRAINSFitPlugin, and the onLandmarkMoved and onLandmarkEndMoving stubs.
- Slots run during `PqWidget.Widget.Emit` are not modelled. Emit returns the calls it would make, because slots are identities, not code.
- LandmarksWidgets.ParseIndex: int() also accepts signs and surrounding whitespace; the model accepts digits only and treats anything else as the ValueError.
- RegistrationPlugins.Lower: Python's lower() maps all of Unicode; the model lowers ASCII letters only.
- LandmarkSync.LandmarksFromFiducials: the returned label is stated to be non-empty, present in every volume's list and appended by this call, but not to be the last label appended, because that would mean carrying the order of every ensure call through the three nested loop invariants.
- Python's importlib is a map from module name to module attributes. An import that raises is a name missing from that map.
- Visualization.VisualizationWidget.constructor: the fade slider starts enabled, as a new widget is. The constructor does not set it.
- Floating point is not modelled. Positions are triples of reals, and only comparison and assignment are used on them.

## Findings

| source | as written | input that shows it | evidently intended | confidence | as-written member | corrected member |
|---|---|---|---|---|---|---|
| LandmarkRegistration.py:713-721 | removeLandmarkForVolumes removes the landmark's (list, index) pairs one after another, so once one index is removed the later indices of the same list point one fiducial too far | the fixed volume's list holds L-0, L-0, L-1 and the moving volume has no list; L-0 counts twice, so it is a landmark at indices 0 and 1; removing index 0 then index 1 leaves L-0 and deletes L-1 | every fiducial of the landmark is removed and no other | not executed | LandmarkRemoval.RemoveLandmarkInOrder, LandmarkRemoval.StaleIndexRemovesOtherLabel | LandmarkRemoval.RemoveLandmarkForVolumes, LandmarkRemoval.RemoveReferencedSpec |

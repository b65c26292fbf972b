/**
 * VisualizationWidget: the layout the user picked and which of the Fixed,
 * Moving and Transformed volumes are checked for display.  Every change
 * emits layoutRequested with the layout and the checked volumes, and the
 * cross-fade slider is usable only while the transformed volume is shown.
 */
module Visualization {
  import opened PqWidget

  const Fixed := "Fixed"
  const Moving := "Moving"
  const Transformed := "Transformed"
  const LayoutRequested := "layoutRequested(mode,volumesToShow)"
  const DefaultLayout := "Axi/Sag/Cor"

  /** The volume checkboxes, in display order. */
  function Volumes(): seq<string> {
    [Fixed, Moving, Transformed]
  }

  /** The volumes of `vols` whose checkbox is checked, in the order of `vols`. */
  function Checked(vols: seq<string>, checked: map<string, bool>): (r: seq<string>)
    requires forall v :: v in vols ==> v in checked
    ensures |r| <= |vols|
  {
    if vols == [] then []
    else
      var v := vols[|vols| - 1];
      Checked(vols[..|vols| - 1], checked) + if checked[v] then [v] else []
  }

  /** A volume is listed exactly when it is one of `vols` and its box is checked. */
  lemma {:induction false} CheckedMembers(vols: seq<string>, checked: map<string, bool>, x: string)
    requires forall v :: v in vols ==> v in checked
    ensures x in Checked(vols, checked) <==> x in vols && checked[x]
  {
    if vols != [] {
      var init := vols[..|vols| - 1];
      assert vols == init + [vols[|vols| - 1]];
      CheckedMembers(init, checked, x);
    }
  }

  /** volumesToShow: Fixed, Moving and Transformed in that order, each only if checked. */
  function Shown(checked: map<string, bool>): seq<string>
    requires forall v :: v in Volumes() ==> v in checked
  {
    Checked(Volumes(), checked)
  }

  /** The order is fixed by the checkboxes, not by the order they were toggled in. */
  lemma ShownInOrder(checked: map<string, bool>)
    requires forall v :: v in Volumes() ==> v in checked
    ensures Shown(checked) == (if checked[Fixed] then [Fixed] else [])
                              + (if checked[Moving] then [Moving] else [])
                              + (if checked[Transformed] then [Transformed] else [])
  {
    var f := if checked[Fixed] then [Fixed] else [];
    var m := if checked[Moving] then [Moving] else [];
    var t := if checked[Transformed] then [Transformed] else [];
    assert [Fixed][..0] == [];
    assert Checked([Fixed], checked) == f;
    assert [Fixed, Moving][..1] == [Fixed];
    assert Checked([Fixed, Moving], checked) == f + m;
    assert Volumes()[..2] == [Fixed, Moving];
    assert Checked(Volumes(), checked) == f + m + t;
  }

  /** The fade slider is enabled exactly when the Transformed box is checked. */
  lemma FadeFollowsTransformed(checked: map<string, bool>)
    requires forall v :: v in Volumes() ==> v in checked
    ensures Transformed in Shown(checked) <==> checked[Transformed]
  {
    CheckedMembers(Volumes(), checked, Transformed);
  }

  /** With every box checked all three volumes are shown, in order. */
  lemma AllShown(checked: map<string, bool>)
    requires forall v :: v in Volumes() ==> v in checked && checked[v]
    ensures Shown(checked) == Volumes()
  {
    ShownInOrder(checked);
  }

  class VisualizationWidget {
    var layoutOption: string
    var checked: map<string, bool>
    var fadeEnabled: bool
    var emitted: seq<Emission>

    /** Every volume has its checkbox. */
    ghost predicate Valid()
      reads this
    {
      forall v :: v in Volumes() ==> v in checked
    }

    /** The widget as built: the three-view layout, every volume checked, nothing emitted yet. */
    constructor()
      ensures Valid()
      ensures layoutOption == DefaultLayout
      ensures forall v :: v in Volumes() ==> checked[v]
      ensures fadeEnabled && emitted == []
    {
      layoutOption := DefaultLayout;
      var boxes: map<string, bool> := map[];
      var vols := Volumes();
      for i := 0 to |vols|
        invariant forall v :: v in vols[..i] ==> v in boxes && boxes[v]
      {
        assert forall v :: v in vols[..i + 1] ==> v in vols[..i] || v == vols[i];
        boxes := boxes[vols[i] := true];
      }
      assert vols[..|vols|] == vols;
      checked := boxes;
      fadeEnabled := true;
      emitted := [];
    }

    /** selectLayout: keep the option, then update. */
    method SelectLayout(option: string)
      requires Valid()
      modifies this
      ensures Valid() && layoutOption == option && checked == old(checked)
      ensures fadeEnabled == checked[Transformed]
      ensures emitted == old(emitted) + [Emission(LayoutRequested, [Str(option), Strs(Shown(checked))])]
    {
      layoutOption := option;
      UpdateVisualization();
    }

    /**
     * A checkbox toggled by the user: Qt emits toggled, and so runs
     * updateVisualization, only when the state actually changes.
     */
    method ToggleVolume(volume: string, on: bool)
      requires Valid() && volume in Volumes()
      modifies this
      ensures Valid() && layoutOption == old(layoutOption)
      ensures checked == old(checked)[volume := on]
      ensures old(checked)[volume] == on ==> emitted == old(emitted) && fadeEnabled == old(fadeEnabled)
      ensures old(checked)[volume] != on ==>
                && fadeEnabled == checked[Transformed]
                && emitted == old(emitted) + [Emission(LayoutRequested, [Str(layoutOption), Strs(Shown(checked))])]
    {
      if checked[volume] != on {
        checked := checked[volume := on];
        UpdateVisualization();
      }
    }

    /** updateVisualization: collect the checked volumes, set the fade slider, emit the request. */
    method UpdateVisualization()
      requires Valid()
      modifies this
      ensures Valid() && layoutOption == old(layoutOption) && checked == old(checked)
      ensures fadeEnabled == checked[Transformed]
      ensures emitted == old(emitted) + [Emission(LayoutRequested, [Str(layoutOption), Strs(Shown(checked))])]
    {
      var volumesToShow := ShownVolumes(checked);
      FadeFollowsTransformed(checked);
      fadeEnabled := Transformed in volumesToShow;
      emitted := emitted + [Emission(LayoutRequested, [Str(layoutOption), Strs(volumesToShow)])];
    }
  }

  /** updateVisualization's loop over the volumes, appending each checked one. */
  method ShownVolumes(checked: map<string, bool>) returns (volumesToShow: seq<string>)
    requires forall v :: v in Volumes() ==> v in checked
    ensures volumesToShow == Shown(checked)
  {
    var vols := Volumes();
    volumesToShow := [];
    for i := 0 to |vols|
      invariant volumesToShow == Checked(vols[..i], checked)
    {
      assert vols[..i + 1][..i] == vols[..i];
      if checked[vols[i]] {
        volumesToShow := volumesToShow + [vols[i]];
      }
    }
    assert vols[..|vols|] == vols;
  }
}

/**
 * The admin edit-room page: `editRoom` enters edit mode, writes the new
 * price, unchecks every feature box, checks the requested ones and clicks
 * Update.
 */
module AdminEditRoom {
  import opened Wrappers
  import opened JsText
  import Features
  import opened FeatureCheckboxes

  /** The private table of this page's `getCheckboxId`. */
  const EditPageTable: Table := map[
    "WiFi" := "wifiCheckbox",
    "TV" := "tvCheckbox",
    "Radio" := "radioCheckbox",
    "Refreshments" := "refreshmentsCheckbox",
    "Safe" := "safeCheckbox",
    "Views" := "viewsCheckbox"
  ]

  /** The feature names `editRoom` unchecks, in the order it unchecks them. */
  const UncheckOrder: seq<string> := ["WiFi", "TV", "Radio", "Refreshments", "Safe", "Views"]

  const EditButton := "button:has-text(\"Edit\")"
  const UpdateButton := "button:has-text(\"Update\")"

  function GetCheckboxId(feature: string): Option<string>
  {
    Lookup(EditPageTable, feature)
  }

  /** An id for exactly the six feature names, none for any other string. */
  lemma CheckboxIdDefinedOnFeatureNames(feature: string)
    ensures GetCheckboxId(feature).Some? <==> Features.FromKey(feature).Some?
  {
  }

  /** This page's table is the registry's. */
  lemma CheckboxIdMatchesRegistry(f: Features.FeatureName)
    ensures GetCheckboxId(Features.Key(f)) == Some(Features.CheckboxId(f))
  {
  }

  /** The uncheck list is `ALL_FEATURES`, in the same order. */
  lemma UncheckOrderIsAllFeatures()
    ensures |UncheckOrder| == |Features.AllFeatures|
    ensures forall i :: 0 <= i < |UncheckOrder| ==> UncheckOrder[i] == Features.Key(Features.AllFeatures[i])
  {
  }

  /** The six ids of this page's table, by feature name. */
  lemma EditPageIds()
    ensures GetCheckboxId("WiFi") == Some("wifiCheckbox") && GetCheckboxId("TV") == Some("tvCheckbox")
    ensures GetCheckboxId("Radio") == Some("radioCheckbox")
    ensures GetCheckboxId("Refreshments") == Some("refreshmentsCheckbox")
    ensures GetCheckboxId("Safe") == Some("safeCheckbox") && GetCheckboxId("Views") == Some("viewsCheckbox")
    ensures EditPageTable.Values ==
      {"wifiCheckbox", "tvCheckbox", "radioCheckbox", "refreshmentsCheckbox", "safeCheckbox", "viewsCheckbox"}
  {
  }

  /** A loop over two names takes each name's step in turn and touches each name's box. */
  lemma TwoNames(table: Table, x: string, y: string, check: bool)
    ensures LoopSteps(table, [x, y], check) ==
      StepFor(Lookup(table, x), check) + StepFor(Lookup(table, y), check)
    ensures MappedIds(table, [x, y]) == IdSet(Lookup(table, x)) + IdSet(Lookup(table, y))
  {
    assert [] + [x] == [x] && [x] + [y] == [x, y];
    AppendFeature(table, [], x, check);
    AppendFeature(table, [x], y, check);
  }

  /** A loop over six names takes each name's step in turn. */
  lemma SixNameSteps(table: Table, a: string, b: string, c: string, d: string, e: string, f: string, check: bool)
    ensures LoopSteps(table, [a, b, c, d, e, f], check) ==
      (StepFor(Lookup(table, a), check) + StepFor(Lookup(table, b), check)) +
      (StepFor(Lookup(table, c), check) + StepFor(Lookup(table, d), check)) +
      (StepFor(Lookup(table, e), check) + StepFor(Lookup(table, f), check))
  {
    assert [a, b, c, d, e, f] == [a, b] + [c, d] + [e, f];
    TwoNames(table, a, b, check);
    TwoNames(table, c, d, check);
    TwoNames(table, e, f, check);
    LoopStepsOverConcat(table, [a, b], [c, d], check);
    LoopStepsOverConcat(table, [a, b] + [c, d], [e, f], check);
  }

  /** A loop over six names touches each name's box. */
  lemma SixNameIds(table: Table, a: string, b: string, c: string, d: string, e: string, f: string, check: bool)
    ensures MappedIds(table, [a, b, c, d, e, f]) ==
      IdSet(Lookup(table, a)) + IdSet(Lookup(table, b)) + IdSet(Lookup(table, c)) +
      IdSet(Lookup(table, d)) + IdSet(Lookup(table, e)) + IdSet(Lookup(table, f))
  {
    assert [a, b, c, d, e, f] == [a, b] + [c, d] + [e, f];
    TwoNames(table, a, b, check);
    TwoNames(table, c, d, check);
    TwoNames(table, e, f, check);
    MappedIdsOverConcat(table, [a, b], [c, d]);
    MappedIdsOverConcat(table, [a, b] + [c, d], [e, f]);
  }

  /** The uncheck pass unchecks all six boxes, one per feature, in registry order. */
  lemma UncheckPassCoversAllBoxes()
    ensures LoopSteps(EditPageTable, UncheckOrder, false) ==
      [ Uncheck("wifiCheckbox"), Uncheck("tvCheckbox"), Uncheck("radioCheckbox"),
        Uncheck("refreshmentsCheckbox"), Uncheck("safeCheckbox"), Uncheck("viewsCheckbox") ]
    ensures MappedIds(EditPageTable, UncheckOrder) == EditPageTable.Values
  {
    EditPageIds();
    SixNameSteps(EditPageTable, "WiFi", "TV", "Radio", "Refreshments", "Safe", "Views", false);
    SixNameIds(EditPageTable, "WiFi", "TV", "Radio", "Refreshments", "Safe", "Views", false);
  }

  /** The checkboxes `editRoom` leaves checked when `prior` were checked before. */
  function EditedChecks(prior: set<string>, newFeatures: seq<string>): set<string>
  {
    (prior - MappedIds(EditPageTable, UncheckOrder)) + MappedIds(EditPageTable, newFeatures)
  }

  /** Whatever was checked before, afterwards exactly the requested features' boxes are. */
  lemma EditedChecksExact(prior: set<string>, newFeatures: seq<string>)
    requires prior <= EditPageTable.Values
    ensures EditedChecks(prior, newFeatures) == MappedIds(EditPageTable, newFeatures)
  {
    UncheckPassCoversAllBoxes();
  }

  /** Editing twice with the same features leaves the same boxes checked as editing once. */
  lemma EditIdempotent(prior: set<string>, newFeatures: seq<string>)
    ensures EditedChecks(EditedChecks(prior, newFeatures), newFeatures) == EditedChecks(prior, newFeatures)
  {
    UncheckPassCoversAllBoxes();
    MappedIdsInTable(EditPageTable, newFeatures);
  }

  /** A requested name without a checkbox, anywhere in the list, adds no step and checks nothing. */
  lemma UnmappedNameIgnored(prior: set<string>, a: seq<string>, name: string, b: seq<string>)
    requires GetCheckboxId(name).None?
    ensures EditedChecks(prior, a + [name] + b) == EditedChecks(prior, a + b)
    ensures LoopSteps(EditPageTable, a + [name] + b, true) == LoopSteps(EditPageTable, a + b, true)
  {
    SkippedName(EditPageTable, a, name, b, true);
  }

  /** The admin edit-room page, seen through its edit form. */
  class AdminEditRoomPage {
    var editMode: bool
    var roomPrice: string
    /** The ids of the feature checkboxes that are checked. */
    var checked: set<string>
    /** The form actions performed so far, in order. */
    var steps: seq<FormStep>

    constructor (roomPrice: string, checked: set<string>)
      ensures !editMode && this.roomPrice == roomPrice && this.checked == checked && steps == []
    {
      editMode := false;
      this.roomPrice := roomPrice;
      this.checked := checked;
      steps := [];
    }

    method ClickEditButton()
      modifies this
      ensures editMode && roomPrice == old(roomPrice) && checked == old(checked)
      ensures steps == old(steps) + [Click(EditButton)]
    {
      editMode := true;
      steps := steps + [Click(EditButton)];
    }

    /** `locator(#id).check()` or `.uncheck()`: one box changes state and the action is logged. */
    method SetBox(id: string, check: bool)
      modifies this
      ensures editMode == old(editMode) && roomPrice == old(roomPrice)
      ensures checked == Toggled(old(checked), {id}, check)
      ensures steps == old(steps) + StepFor(Some(id), check)
    {
      if check {
        checked := checked + {id};
        steps := steps + [Check(id)];
      } else {
        checked := checked - {id};
        steps := steps + [Uncheck(id)];
      }
    }

    /** One iteration of the check or uncheck loop: the feature's box, if it has one, is set. */
    method SetFeatureBox(feature: string, check: bool)
      modifies this
      ensures editMode == old(editMode) && roomPrice == old(roomPrice)
      ensures checked == Toggled(old(checked), IdSet(GetCheckboxId(feature)), check)
      ensures steps == old(steps) + StepFor(GetCheckboxId(feature), check)
    {
      var id := GetCheckboxId(feature);
      if id.Some? {
        SetBox(id.value, check);
      } else {
        assert steps == steps + [];
      }
    }

    /** Sets the check state of the box of each named feature that has one. */
    method SetFeatureBoxes(features: seq<string>, check: bool)
      modifies this
      ensures editMode == old(editMode) && roomPrice == old(roomPrice)
      ensures checked == Toggled(old(checked), MappedIds(EditPageTable, features), check)
      ensures steps == old(steps) + LoopSteps(EditPageTable, features, check)
    {
      ghost var before, prior := steps, checked;
      var i := 0;
      while i < |features|
        invariant 0 <= i <= |features|
        invariant editMode == old(editMode) && roomPrice == old(roomPrice)
        invariant checked == Toggled(prior, MappedIds(EditPageTable, features[..i]), check)
        invariant steps == before + LoopSteps(EditPageTable, features[..i], check)
      {
        NextIteration(EditPageTable, features, i, check, prior, before, checked, steps);
        SetFeatureBox(features[i], check);
        i := i + 1;
      }
      assert features[..i] == features;
    }

    /**
     * Enters edit mode, writes the price, unchecks all six feature boxes,
     * checks the requested ones, and clicks Update last.
     */
    method EditRoom(newPrice: JsNumber, newFeatures: seq<string>)
      modifies this
      ensures editMode && roomPrice == NumberToString(newPrice)
      ensures checked == EditedChecks(old(checked), newFeatures)
      ensures old(checked) <= EditPageTable.Values ==> checked == MappedIds(EditPageTable, newFeatures)
      ensures steps == old(steps)
        + [Click(EditButton), Fill("#roomPrice", NumberToString(newPrice))]
        + LoopSteps(EditPageTable, UncheckOrder, false)
        + LoopSteps(EditPageTable, newFeatures, true)
        + [Click(UpdateButton)]
    {
      ghost var before := steps;
      ClickEditButton();
      roomPrice := NumberToString(newPrice);
      steps := steps + [Fill("#roomPrice", roomPrice)];
      assert steps == before + [Click(EditButton), Fill("#roomPrice", NumberToString(newPrice))];
      SetFeatureBoxes(UncheckOrder, false);
      SetFeatureBoxes(newFeatures, true);
      steps := steps + [Click(UpdateButton)];
      if old(checked) <= EditPageTable.Values {
        EditedChecksExact(old(checked), newFeatures);
      }
    }
  }
}

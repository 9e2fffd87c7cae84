/**
 * The admin room listing page: its room rows and the new-room form that
 * `createRoom` fills in.
 */
module AdminRooms {
  import opened Wrappers
  import opened JsText
  import Features
  import opened FeatureCheckboxes
  import opened RoomRow

  /** The private table of this page's `getCheckboxId`. */
  const CreatePageTable: Table := map[
    "WiFi" := "wifiCheckbox",
    "TV" := "tvCheckbox",
    "Radio" := "radioCheckbox",
    "Refreshments" := "refreshCheckbox",
    "Safe" := "safeCheckbox",
    "Views" := "viewsCheckbox"
  ]

  function GetCheckboxId(feature: string): Option<string>
  {
    Lookup(CreatePageTable, feature)
  }

  /** An id for exactly the six feature names, none for any other string. */
  lemma CheckboxIdDefinedOnFeatureNames(feature: string)
    ensures GetCheckboxId(feature).Some? <==> Features.FromKey(feature).Some?
  {
  }

  /**
   * This page agrees with the registry on every feature but Refreshments,
   * whose box it calls `refreshCheckbox` where the registry says
   * `refreshmentsCheckbox`.
   */
  lemma CheckboxIdVersusRegistry(f: Features.FeatureName)
    ensures f != Features.Refreshments ==> GetCheckboxId(Features.Key(f)) == Some(Features.CheckboxId(f))
    ensures GetCheckboxId(Features.Key(Features.Refreshments)) == Some("refreshCheckbox")
    ensures GetCheckboxId(Features.Key(Features.Refreshments)) != Some(Features.CheckboxId(Features.Refreshments))
  {
  }

  /** `getRoomRows`: one component per listing row, the i-th wrapping row i. */
  function GetRoomRows(listing: seq<RowCells>): (rows: seq<RoomRowComponent>)
    ensures |rows| == |listing|
    ensures forall i :: 0 <= i < |rows| ==> rows[i].row < |listing| && Cells(listing, rows[i]) == listing[i]
  {
    seq(|listing|, i requires 0 <= i => RoomRowComponent(i))
  }

  /** The price the create form posts for the room of the admin UI test. */
  lemma PriceFieldFor888()
    ensures NumberToString(Num(888)) == "888"
  {
  }

  /** The admin room listing page, seen through its new-room form. */
  class AdminRoomsPage {
    var roomName: string
    var roomType: string
    var accessible: string
    var roomPrice: string
    /** The ids of the feature checkboxes that are checked. */
    var checked: set<string>
    /** The form actions performed so far, in order. */
    var steps: seq<FormStep>

    constructor (checked: set<string>)
      ensures roomName == "" && roomType == "" && accessible == "" && roomPrice == ""
      ensures this.checked == checked && steps == []
    {
      roomName, roomType, accessible, roomPrice := "", "", "", "";
      this.checked := checked;
      steps := [];
    }

    /**
     * Fills in name, type, accessibility and price, checks the box of each
     * requested feature that has one, and clicks Create.
     */
    method CreateRoom(roomName: string, roomType: string, accessible: bool, price: JsNumber, features: seq<string>)
      modifies this
      ensures this.roomName == roomName && this.roomType == roomType
      ensures this.accessible == BoolToString(accessible) && roomPrice == NumberToString(price)
      ensures checked == old(checked) + MappedIds(CreatePageTable, features)
      ensures forall f :: f in features && GetCheckboxId(f).Some? ==> GetCheckboxId(f).value in checked
      ensures steps == old(steps)
        + [ Fill("#roomName", roomName), SelectOption("#type", roomType),
            SelectOption("#accessible", BoolToString(accessible)), Fill("#roomPrice", NumberToString(price)) ]
        + LoopSteps(CreatePageTable, features, true)
        + [Click("#createRoom")]
    {
      this.roomName := roomName;
      this.roomType := roomType;
      this.accessible := BoolToString(accessible);
      roomPrice := NumberToString(price);
      steps := steps + [ Fill("#roomName", roomName), SelectOption("#type", roomType),
                         SelectOption("#accessible", BoolToString(accessible)), Fill("#roomPrice", roomPrice) ];
      ghost var filled, prior := steps, checked;
      var i := 0;
      while i < |features|
        invariant 0 <= i <= |features|
        invariant checked == Toggled(prior, MappedIds(CreatePageTable, features[..i]), true)
        invariant this.roomName == roomName && this.roomType == roomType
        invariant this.accessible == BoolToString(accessible) && roomPrice == NumberToString(price)
        invariant steps == filled + LoopSteps(CreatePageTable, features[..i], true)
      {
        NextIteration(CreatePageTable, features, i, true, prior, filled, checked, steps);
        CheckFeatureBox(features[i]);
        i := i + 1;
      }
      assert features[..i] == features;
      steps := steps + [Click("#createRoom")];
      forall f | f in features && GetCheckboxId(f).Some? ensures GetCheckboxId(f).value in checked {
        RequestedIdTouched(CreatePageTable, features, f);
      }
    }

    /** One iteration of the feature loop: the feature's box, if it has one, is checked. */
    method CheckFeatureBox(feature: string)
      modifies this
      ensures roomName == old(roomName) && roomType == old(roomType)
      ensures accessible == old(accessible) && roomPrice == old(roomPrice)
      ensures checked == Toggled(old(checked), IdSet(GetCheckboxId(feature)), true)
      ensures steps == old(steps) + StepFor(GetCheckboxId(feature), true)
    {
      var id := GetCheckboxId(feature);
      if id.Some? {
        CheckBox(id.value);
      } else {
        assert steps == steps + [];
      }
    }

    /** `locator(#id).check()`: the box is checked and the action is logged. */
    method CheckBox(id: string)
      modifies this
      ensures roomName == old(roomName) && roomType == old(roomType)
      ensures accessible == old(accessible) && roomPrice == old(roomPrice)
      ensures checked == old(checked) + {id} && steps == old(steps) + [Check(id)]
    {
      checked := checked + {id};
      steps := steps + [Check(id)];
    }
  }
}

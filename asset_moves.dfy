/** The move dialog of the assets page: reading an asset's location back into a hall
    and a room, resetting the room when the chosen hall does not offer it, composing
    and validating the new location on submit, and dropping the moved or deleted asset
    from the room being viewed. */
module AssetMoves {
  import opened Wrappers
  import opened JsString
  import opened Seqs
  import opened AssetLocations
  import opened AssetGroups

  /** A hall and a room, as chosen in the dialog. */
  datatype MoveTarget = MoveTarget(hall: string, room: string)

  /** `location.startsWith(hall.id + " - ")` for lecture hall number `i`, under the
      guard that the location is not empty. */
  predicate HasHallPrefix(location: string, i: nat)
    requires i < |LECTURE_HALLS|
  {
    location != "" && StartsWith(location, LECTURE_HALLS[i].id + SEPARATOR)
  }

  /** The target read from lecture hall `k` on: the first hall whose prefix the
      location carries, with the rest of the location as the room; `OTHER` with the
      whole location when none does. */
  function TargetFrom(location: string, k: nat): (t: MoveTarget)
    requires k <= |LECTURE_HALLS|
    decreases |LECTURE_HALLS| - k
    ensures (forall i :: k <= i < |LECTURE_HALLS| ==> !HasHallPrefix(location, i)) ==>
      t == MoveTarget(OTHER_HALL, location)
    ensures forall i :: (k <= i < |LECTURE_HALLS| && HasHallPrefix(location, i)
      && (forall j :: k <= j < i ==> !HasHallPrefix(location, j))) ==>
      t == MoveTarget(LECTURE_HALLS[i].id, location[|LECTURE_HALLS[i].id| + |SEPARATOR|..])
  {
    if k == |LECTURE_HALLS| then MoveTarget(OTHER_HALL, location)
    else if HasHallPrefix(location, k) then
      MoveTarget(LECTURE_HALLS[k].id, location[|LECTURE_HALLS[k].id| + |SEPARATOR|..])
    else TargetFrom(location, k + 1)
  }

  /** No location carries two different hall prefixes. */
  lemma HallPrefixUnique(location: string, i: nat, j: nat)
    requires i < |LECTURE_HALLS| && j < |LECTURE_HALLS|
    requires HasHallPrefix(location, i) && HasHallPrefix(location, j)
    ensures i == j
  {
    var a := LECTURE_HALLS[i].id;
    var b := LECTURE_HALLS[j].id;
    assert location[..|a| + 3] == a + SEPARATOR && location[..|b| + 3] == b + SEPARATOR;
    if |a| < |b| {
      assert location[|a|] == (a + SEPARATOR)[|a|] == ' ';
      assert location[|a|] == (b + SEPARATOR)[|a|] == b[|a|];
      HallIdHasNoSpace(b, |a|);
    } else if |b| < |a| {
      assert location[|b|] == (b + SEPARATOR)[|b|] == ' ';
      assert location[|b|] == (a + SEPARATOR)[|b|] == a[|b|];
      HallIdHasNoSpace(a, |b|);
    } else {
      assert location[..|a|] == location[..|a| + 3][..|a|];
      assert (a + SEPARATOR)[..|a|] == a && (b + SEPARATOR)[..|b|] == b;
      assert a == b;
    }
  }

  /** The hall and room the dialog is filled with for a location: the hall whose
      `"<id> - "` prefix the location carries and what follows it, or `OTHER` and the
      whole location. */
  function TargetOf(location: string): (t: MoveTarget)
    ensures (forall i :: 0 <= i < |LECTURE_HALLS| ==> !HasHallPrefix(location, i)) ==>
      t == MoveTarget(OTHER_HALL, location)
    ensures forall i :: 0 <= i < |LECTURE_HALLS| && HasHallPrefix(location, i) ==>
      t == MoveTarget(LECTURE_HALLS[i].id, location[|LECTURE_HALLS[i].id| + |SEPARATOR|..])
  {
    forall i, j | 0 <= j < i < |LECTURE_HALLS| && HasHallPrefix(location, i)
      ensures !HasHallPrefix(location, j)
    {
      if HasHallPrefix(location, j) {
        HallPrefixUnique(location, i, j);
      }
    }
    TargetFrom(location, 0)
  }

  /** The dialog's state. */
  datatype MoveDialog = MoveDialog(open: bool, asset: Option<Asset>, hall: string, room: string)

  /** `openMoveDialog`: the dialog opens on the asset with the hall and room read from
      its location, trying the lecture halls in order and stopping at the first match. */
  method OpenMoveDialog(a: Asset) returns (dialog: MoveDialog)
    ensures dialog == MoveDialog(true, Some(a), TargetOf(a.location).hall, TargetOf(a.location).room)
  {
    var foundHall := OTHER_HALL;
    var foundRoom := a.location;
    var k := 0;
    while k < |LECTURE_HALLS|
      invariant k <= |LECTURE_HALLS|
      invariant forall j :: 0 <= j < k ==> !HasHallPrefix(a.location, j)
      invariant foundHall == OTHER_HALL && foundRoom == a.location
    {
      var hall := LECTURE_HALLS[k];
      if a.location != "" && StartsWith(a.location, hall.id + SEPARATOR) {
        foundHall := hall.id;
        foundRoom := a.location[|hall.id| + 3..];
        break;
      }
      k := k + 1;
    }
    dialog := MoveDialog(true, Some(a), foundHall, foundRoom);
  }

  /** The location a move writes: `"<hall> - <room>"`, or the bare room for `OTHER`. */
  function MoveLocation(t: MoveTarget): (loc: string)
    ensures t.hall == OTHER_HALL ==> loc == t.room
    ensures t.hall != OTHER_HALL ==> StartsWith(loc, t.hall + SEPARATOR)
    ensures |t.room| <= |loc| && loc[|loc| - |t.room|..] == t.room
  {
    if t.hall != OTHER_HALL then t.hall + SEPARATOR + t.room else t.room
  }

  /** Index of a lecture hall id in the list. */
  function HallIndex(h: string): (i: nat)
    requires IsLectureHall(h)
    ensures i < |LECTURE_HALLS| && LECTURE_HALLS[i].id == h
  {
    if h == "G2" then 0 else if h == "GD2" then 1 else if h == "GD3" then 2
    else if h == "GD4" then 3 else 4
  }

  /** Reading back a location composed for a hall with rooms gives that hall and room. */
  lemma ComposeThenRead(h: string, r: string)
    requires RoomsByHall(h).Some?
    ensures TargetOf(MoveLocation(MoveTarget(h, r))) == MoveTarget(h, r)
  {
    LectureHallsHaveRooms(h);
    var loc := MoveLocation(MoveTarget(h, r));
    var i := HallIndex(h);
    assert loc[..|h + SEPARATOR|] == h + SEPARATOR;
    assert HasHallPrefix(loc, i);
    assert loc[|h| + |SEPARATOR|..] == r;
  }

  /** A location with no hall prefix is read as `OTHER` with the whole location. */
  lemma ReadUnprefixed(location: string)
    requires forall i :: 0 <= i < |LECTURE_HALLS| ==> !StartsWith(location, LECTURE_HALLS[i].id + SEPARATOR)
    ensures TargetOf(location) == MoveTarget(OTHER_HALL, location)
  {
  }

  /** Reading a location and composing it again gives the location back exactly when
      it does not start with `"OTHER - "`: that prefix is dropped, since `OTHER` is
      both a lecture hall and the hall whose locations carry no prefix. */
  lemma {:induction false} ReadThenCompose(location: string)
    ensures MoveLocation(TargetOf(location)) == location <==> !StartsWith(location, OTHER_HALL + SEPARATOR)
  {
    var t := TargetOf(location);
    if i :| 0 <= i < |LECTURE_HALLS| && HasHallPrefix(location, i) {
      var id := LECTURE_HALLS[i].id;
      var n := |id| + |SEPARATOR|;
      assert location == location[..n] + location[n..];
      if id == OTHER_HALL {
        assert |MoveLocation(t)| < |location|;
      } else {
        assert i != 4;
        if StartsWith(location, OTHER_HALL + SEPARATOR) {
          assert HasHallPrefix(location, 4);
          HallPrefixUnique(location, i, 4);
        }
      }
    } else {
      assert !HasHallPrefix(location, 4);
    }
  }

  /** A location composed for a hall with rooms is grouped under that hall, in the room
      chosen with its surrounding whitespace removed. */
  lemma ComposeThenClassify(h: string, r: string)
    requires RoomsByHall(h).Some?
    ensures Classify(MoveLocation(MoveTarget(h, r))) == Placement(h, Trim(r))
  {
    LectureHallsHaveRooms(h);
    ClassifyComposed(h, r);
  }

  /** The room-reset effect: while the dialog is open on a hall with a room list, a room
      the hall does not offer is replaced by the hall's first room. */
  function ResetRoom(dialog: MoveDialog): (d: MoveDialog)
    ensures d.open == dialog.open && d.asset == dialog.asset && d.hall == dialog.hall
    ensures dialog.open && dialog.hall != OTHER_HALL && RoomsByHall(dialog.hall).Some? ==>
      d.room in RoomsByHall(dialog.hall).value
    ensures d.room != dialog.room <==>
      dialog.open && dialog.hall != OTHER_HALL && RoomsByHall(dialog.hall).Some?
      && dialog.room !in RoomsByHall(dialog.hall).value
  {
    if dialog.open && dialog.hall != OTHER_HALL && RoomsByHall(dialog.hall).Some? then
      var rooms := RoomsByHall(dialog.hall).value;
      LectureHallsHaveRooms(dialog.hall);
      if dialog.room !in rooms then dialog.(room := rooms[0]) else dialog
    else dialog
  }

  /** Running the reset again changes nothing. */
  lemma ResetRoomIdempotent(dialog: MoveDialog)
    ensures ResetRoom(ResetRoom(dialog)) == ResetRoom(dialog)
  {
  }

  /** A reset room is the hall's first room. */
  lemma ResetToFirstRoom(dialog: MoveDialog)
    requires ResetRoom(dialog).room != dialog.room
    ensures ResetRoom(dialog).room == RoomsByHall(dialog.hall).value[0]
  {
  }

  /** Only a bare `OTHER` room can compose a blank location: any other hall writes a
      `'-'` into it. */
  lemma BlankMoveIsOther(t: MoveTarget)
    requires Trim(MoveLocation(t)) == ""
    ensures t.hall == OTHER_HALL && AllWhitespace(t.room)
  {
    if t.hall != OTHER_HALL {
      ComposedNotBlank(t);
    }
  }

  /** A location composed for a hall other than `OTHER` holds a `'-'`, so it is never
      blank. */
  lemma ComposedNotBlank(t: MoveTarget)
    requires t.hall != OTHER_HALL
    ensures !AllWhitespace(MoveLocation(t))
  {
    assert MoveLocation(t)[|t.hall| + 1] == '-';
  }

  /** What a submit of the dialog did. */
  datatype MoveOutcome =
    | NoAsset                    // no asset chosen: nothing happens
    | Rejected                   // blank location: the user is asked for a room
    | Failed(location: string)   // the update request failed
    | Moved(location: string)    // the asset was moved there

  /** The page state a move touches: the dialog and the room whose details are open. */
  datatype MovePage = MovePage(dialog: MoveDialog, selected: Option<RoomSummary>)

  /** `prev.assets.filter(a => a.id !== id)`, the rest of the room left as it was. */
  function WithoutAsset(room: RoomSummary, id: string): (r: RoomSummary)
    ensures r.roomName == room.roomName && r.fullLocation == room.fullLocation
    ensures r.categoryCounts == room.categoryCounts && r.totalValue == room.totalValue
  {
    room.(assets := Filter(room.assets, HasOtherId(id)))
  }

  function HasOtherId(id: string): Asset -> bool {
    (a: Asset) => a.id != id
  }

  /** The local update of the selected room after a delete or a move: the room on
      display, if any, keeps its other assets in their order and loses those with `id`. */
  function DropFromSelected(selected: Option<RoomSummary>, id: string): (r: Option<RoomSummary>)
    ensures r.Some? <==> selected.Some?
    ensures r.Some? ==> IsSubsequence(r.value.assets, selected.value.assets)
    ensures r.Some? ==> forall a :: a in r.value.assets <==> a in selected.value.assets && a.id != id
  {
    match selected
    case None => None
    case Some(room) =>
      WithoutAssetMembers(room, id);
      Some(WithoutAsset(room, id))
  }

  /** `handleMoveSubmit`, with whether the update request succeeds as a parameter. */
  function SubmitMove(page: MovePage, updateSucceeds: bool): (r: (MovePage, MoveOutcome))
    ensures page.dialog.asset.None? <==> r.1 == NoAsset
    ensures r.1 == Rejected <==>
      page.dialog.asset.Some? && Trim(MoveLocation(MoveTarget(page.dialog.hall, page.dialog.room))) == ""
    ensures r.1 == Rejected ==> page.dialog.hall == OTHER_HALL && AllWhitespace(page.dialog.room)
    ensures r.1.Moved? || r.1.Failed? ==>
      r.1.location == MoveLocation(MoveTarget(page.dialog.hall, page.dialog.room))
    ensures r.1.Moved? <==> page.dialog.asset.Some? && r.1 != Rejected && updateSucceeds
    ensures !r.1.Moved? ==> r.0 == page
    ensures r.1.Moved? ==> r.0 == MovePage(
      page.dialog.(open := false, asset := None),
      DropFromSelected(page.selected, page.dialog.asset.value.id))
  {
    match page.dialog.asset
    case None => (page, NoAsset)
    case Some(a) =>
      var finalLocation := MoveLocation(MoveTarget(page.dialog.hall, page.dialog.room));
      if Trim(finalLocation) == "" then
        BlankMoveIsOther(MoveTarget(page.dialog.hall, page.dialog.room));
        (page, Rejected)
      else if !updateSucceeds then (page, Failed(finalLocation))
      else
        (MovePage(page.dialog.(open := false, asset := None), DropFromSelected(page.selected, a.id)),
         Moved(finalLocation))
  }

  /** `handleDelete`: once confirmed and deleted, the asset leaves the selected room. */
  function DeleteAsset(selected: Option<RoomSummary>, id: string, confirmed: bool, deleteSucceeds: bool)
    : (r: Option<RoomSummary>)
    ensures !(confirmed && deleteSucceeds) ==> r == selected
    ensures confirmed && deleteSucceeds ==> r == DropFromSelected(selected, id)
    ensures r.Some? <==> selected.Some?
    ensures confirmed && deleteSucceeds && r.Some? ==>
      forall a :: a in r.value.assets <==> a in selected.value.assets && a.id != id
  {
    if confirmed && deleteSucceeds then DropFromSelected(selected, id) else selected
  }

  /** The filtered list keeps exactly the other assets, in their order. */
  lemma WithoutAssetMembers(room: RoomSummary, id: string)
    ensures IsSubsequence(WithoutAsset(room, id).assets, room.assets)
    ensures forall a :: a in WithoutAsset(room, id).assets <==> a in room.assets && a.id != id
  {
    FilterIsSubsequence(room.assets, HasOtherId(id));
    FilterMembers(room.assets, HasOtherId(id));
  }

  /** When the id is held by the asset at `k` alone, the filtered list is the previous
      one with exactly that asset cut out. */
  lemma WithoutAssetCutsOne(room: RoomSummary, id: string, k: nat)
    requires k < |room.assets| && room.assets[k].id == id
    requires forall j :: 0 <= j < |room.assets| && j != k ==> room.assets[j].id != id
    ensures WithoutAsset(room, id).assets == room.assets[..k] + room.assets[k + 1..]
  {
    var s := room.assets;
    var p := HasOtherId(id);
    assert s == s[..k] + ([s[k]] + s[k + 1..]);
    FilterAppend(s[..k], [s[k]] + s[k + 1..], p);
    FilterAppend([s[k]], s[k + 1..], p);
    FilterKeepsAll(s[..k], p);
    FilterKeepsAll(s[k + 1..], p);
    assert Filter([s[k]], p) == [];
  }

  /** When no asset holds the id, nothing is removed. */
  lemma WithoutAbsentAsset(room: RoomSummary, id: string)
    requires forall j :: 0 <= j < |room.assets| ==> room.assets[j].id != id
    ensures WithoutAsset(room, id) == room
  {
    FilterKeepsAll(room.assets, HasOtherId(id));
  }
}

/** The places of the assets page: the lecture halls, the rooms each hall offers, the
    asset record, and how an asset's location string `"<hall> - <room>"` is read as a
    building and a room when assets are grouped for display. */
module AssetLocations {
  import opened Wrappers
  import opened JsString

  /** The separator between hall and room in a location string. */
  const SEPARATOR: string := " - "

  /** The hall id that stands for "somewhere else": its locations carry no hall prefix. */
  const OTHER_HALL: string := "OTHER"

  /** The building of an asset without a location ("other area"). */
  const OTHER_AREA: string := "Khu vực khác"

  /** The room of an asset whose location names no room ("unclassified"). */
  const UNSORTED_ROOM: string := "Chưa phân loại"

  /** The category of an asset without one ("other"). */
  const OTHER_CATEGORY: string := "Khác"

  datatype LectureHall = LectureHall(id: string, name: string)

  /** The halls offered by the move dialog, in the order it tries them. */
  const LECTURE_HALLS: seq<LectureHall> := [
    LectureHall("G2", "Giảng đường G2"),
    LectureHall("GD2", "Giảng đường 2 (GD2)"),
    LectureHall("GD3", "Giảng đường 3 (GD3)"),
    LectureHall("GD4", "Giảng đường 4 (GD4)"),
    LectureHall(OTHER_HALL, "Khu vực khác")
  ]

  /** `ROOMS_BY_HALL[hall]`: the rooms a hall offers; `None` for a hall without a list
      (among the lecture halls, only `OTHER`). */
  function RoomsByHall(hall: string): Option<seq<string>> {
    if hall == "G2" then Some(["101", "102", "201", "202", "301", "302", "305", "Phòng Giáo Viên"])
    else if hall == "GD2" then Some(["201", "202", "301", "302", "401", "402", "Hội trường lớn"])
    else if hall == "GD3" then Some(["101", "102", "201", "202", "301", "302"])
    else if hall == "GD4" then Some(["401 (Lab)", "402 (Lab)", "403", "404", "405"])
    else None
  }

  /** `LECTURE_HALLS.some(h => h.id === id)`. */
  predicate IsLectureHall(id: string) {
    exists i :: 0 <= i < |LECTURE_HALLS| && LECTURE_HALLS[i].id == id
  }

  /** The lecture halls are exactly the four buildings with room lists plus `OTHER`. */
  lemma LectureHallsHaveRooms(id: string)
    ensures IsLectureHall(id) <==> RoomsByHall(id).Some? || id == OTHER_HALL
    ensures RoomsByHall(id).Some? ==> |RoomsByHall(id).value| > 0
  {
    if RoomsByHall(id).Some? || id == OTHER_HALL {
      var i := if id == "G2" then 0 else if id == "GD2" then 1 else if id == "GD3" then 2
               else if id == "GD4" then 3 else 4;
      assert LECTURE_HALLS[i].id == id;
    }
  }

  /** An asset as the inventory service returns it; a missing category or location
      (both falsy in JavaScript) is the empty string, and the value is a whole number. */
  datatype Asset = Asset(id: string, name: string, category: string, location: string, value: int)

  /** `asset.category || "Khác"`. */
  function CategoryOf(a: Asset): (c: string)
    ensures c != ""
    ensures a.category != "" ==> c == a.category
    ensures a.category == "" ==> c == OTHER_CATEGORY
  {
    if a.category != "" then a.category else OTHER_CATEGORY
  }

  /** The building and the room an asset is shown under. */
  datatype Placement = Placement(building: string, room: string)

  /** The parse at the top of the grouping loop: a location whose part before the first
      `" - "`, trimmed, is a lecture hall id goes to that hall, in the room named by
      the rest of the string, trimmed; any other location with a `" - "` is a building
      of its own with the unclassified room; so is a location without one; and an
      empty location goes to the "other area". */
  function Classify(location: string): (p: Placement)
    ensures IndexOf(location, SEPARATOR).None? ==>
      p == Placement(if location == "" then OTHER_AREA else location, UNSORTED_ROOM)
    ensures IndexOf(location, SEPARATOR).Some? ==>
      var i := IndexOf(location, SEPARATOR).value;
      p == if IsLectureHall(Trim(location[..i]))
           then Placement(Trim(location[..i]), Trim(location[i + |SEPARATOR|..]))
           else Placement(location, UNSORTED_ROOM)
  {
    if Contains(location, SEPARATOR) then
      var parts := Split(location, SEPARATOR);
      if |parts| >= 2 then
        var hallId := Trim(parts[0]);
        if IsLectureHall(hallId) then
          SplitTailJoin(location, SEPARATOR, IndexOf(location, SEPARATOR).value);
          Placement(hallId, Trim(Join(parts[1..], SEPARATOR)))
        else
          Placement(location, UNSORTED_ROOM)
      else
        Placement(OTHER_AREA, UNSORTED_ROOM)
    else if location != "" then
      Placement(location, UNSORTED_ROOM)
    else
      Placement(OTHER_AREA, UNSORTED_ROOM)
  }

  /** No lecture hall id holds a space, so none can hide a separator. */
  lemma HallIdHasNoSpace(h: string, j: nat)
    requires IsLectureHall(h) && j < |h|
    ensures h[j] != ' '
  {
  }

  /** The first separator of `h + " - " + r` is the one right after the hall id. */
  lemma {:induction false} IndexOfComposed(h: string, r: string)
    requires IsLectureHall(h)
    ensures IndexOf(h + SEPARATOR + r, SEPARATOR) == Some(|h|)
  {
    var s := h + SEPARATOR + r;
    assert OccursAt(s, SEPARATOR, |h|) by {
      assert s[|h|..|h| + 3] == SEPARATOR;
    }
    forall j: nat | j < |h|
      ensures !OccursAt(s, SEPARATOR, j)
    {
      HallIdHasNoSpace(h, j);
      assert s[j] == h[j];
    }
  }

  /** A location written as `"<hall id> - <room>"` is grouped under that hall, in the
      room with the surrounding whitespace removed. */
  lemma ClassifyComposed(h: string, r: string)
    requires IsLectureHall(h)
    ensures Classify(h + SEPARATOR + r) == Placement(h, Trim(r))
  {
    var s := h + SEPARATOR + r;
    IndexOfComposed(h, r);
    assert s[..|h|] == h;
    assert s[|h| + |SEPARATOR|..] == r;
    HallTrimmed(h);
  }

  /** Lecture hall ids have no surrounding whitespace. */
  lemma HallTrimmed(h: string)
    requires IsLectureHall(h)
    ensures Trim(h) == h
  {
    TrimOfTrimmed(h);
  }
}

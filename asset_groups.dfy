/** The floor plan of the assets page: assets bucketed by building and then by room,
    each room with its asset list, a count per category and a total value; then the
    buildings, and the rooms inside each, put in name order. */
module AssetGroups {
  import opened Wrappers
  import opened JsString
  import opened Seqs
  import opened Dicts
  import opened AssetLocations

  /** What the page shows for one room. */
  datatype RoomSummary = RoomSummary(
    roomName: string,
    fullLocation: string,
    assets: seq<Asset>,
    categoryCounts: Dict<nat>,
    totalValue: int)

  /** One building of the floor plan with its rooms. */
  datatype BuildingGroup = BuildingGroup(buildingName: string, rooms: seq<RoomSummary>)

  /** The `groups` object: building name to (room name to room summary). */
  type Groups = Dict<Dict<RoomSummary>>

  /** The summary made for a room the first time an asset is placed in it. */
  function NewRoom(room: string, location: string): RoomSummary {
    RoomSummary(room, location, [], [], 0)
  }

  /** Adding one asset to its room: appended to the list, its value added to the
      total, and its category (or "Khác") counted once more. */
  function Record(summary: RoomSummary, a: Asset): RoomSummary {
    var cat := CategoryOf(a);
    summary.(
      assets := summary.assets + [a],
      totalValue := summary.totalValue + a.value,
      categoryCounts := Bump(summary.categoryCounts, cat))
  }

  /** `counts[cat] = (counts[cat] || 0) + 1`. */
  function Bump(counts: Dict<nat>, cat: string): Dict<nat> {
    Put(counts, cat, Get(counts, cat).GetOr(0) + 1)
  }

  /** Where the page shows an asset: the building and room its location is read as. */
  function Place(a: Asset): Placement {
    Classify(a.location)
  }

  /** One turn of the `forEach` loop, with `place` reading the asset's placement (the
      page's is `Place`; the grouping lemmas below hold for every `place`). */
  function AddAsset(groups: Groups, a: Asset, place: Asset -> Placement): Groups {
    var p := place(a);
    var rooms := Get(groups, p.building).GetOr([]);
    var summary := Get(rooms, p.room).GetOr(NewRoom(p.room, a.location));
    Put(groups, p.building, Put(rooms, p.room, Record(summary, a)))
  }

  /** The `groups` object after the loop has seen `assets` in order. */
  function Grouped(assets: seq<Asset>, place: Asset -> Placement): Groups
    decreases |assets|
  {
    if assets == [] then [] else AddAsset(Grouped(assets[..|assets| - 1], place), assets[|assets| - 1], place)
  }

  /** The grouping loop of the page, step by step on the `groups` object. */
  method GroupByLocation(assets: seq<Asset>) returns (groups: Groups)
    ensures groups == Grouped(assets, Place)
  {
    groups := [];
    for i := 0 to |assets|
      invariant groups == Grouped(assets[..i], Place)
    {
      GroupedSnoc(assets, i, Place);
      groups := AddToGroups(groups, assets[i]);
    }
    assert assets[..|assets|] == assets;
  }

  /** The loop's state after one more asset. */
  lemma GroupedSnoc(assets: seq<Asset>, i: nat, place: Asset -> Placement)
    requires i < |assets|
    ensures Grouped(assets[..i + 1], place) == AddAsset(Grouped(assets[..i], place), assets[i], place)
  {
    assert assets[..i + 1][..i] == assets[..i];
  }

  /** The body of the loop for asset `a`: read its building and room, create the room's
      summary when the room is new, and record the asset in it. */
  method AddToGroups(groups: Groups, a: Asset) returns (next: Groups)
    ensures next == AddAsset(groups, a, Place)
  {
    var p := Place(a);
    var rooms := Get(groups, p.building).GetOr([]);
    var current := Get(rooms, p.room).GetOr(NewRoom(p.room, a.location));
    ghost var found := current;
    var cat := CategoryOf(a);
    current := current.(
      assets := current.assets + [a],
      totalValue := current.totalValue + a.value,
      categoryCounts := Bump(current.categoryCounts, cat));
    assert current == Record(found, a);
    next := Put(groups, p.building, Put(rooms, p.room, current));
  }

  function RoomName(r: RoomSummary): string {
    r.roomName
  }

  function BuildingName(b: BuildingGroup): string {
    b.buildingName
  }

  /** `Object.entries(groups).map(...)`, before the buildings are sorted: each building
      with its rooms sorted by name. */
  function Entries(groups: Groups): (bs: seq<BuildingGroup>)
    ensures |bs| == |groups|
    ensures forall i :: 0 <= i < |groups| ==>
      bs[i] == BuildingGroup(groups[i].key, SortBy(Values(groups[i].value), RoomName))
  {
    seq(|groups|, i requires 0 <= i < |groups| =>
      BuildingGroup(groups[i].key, SortBy(Values(groups[i].value), RoomName)))
  }

  /** The floor plan rendered for `assets` placed by `place`. */
  function FloorPlan(assets: seq<Asset>, place: Asset -> Placement): seq<BuildingGroup> {
    SortBy(Entries(Grouped(assets, place)), BuildingName)
  }

  // ---------------------------------------------------------------------------
  // What a room summary means

  /** Whether `place` puts an asset at `p`. */
  function PlacedAt(place: Asset -> Placement, p: Placement): Asset -> bool {
    (a: Asset) => place(a) == p
  }

  /** Whether an asset counts under category `c`. */
  function InCategory(c: string): Asset -> bool {
    (a: Asset) => CategoryOf(a) == c
  }

  /** The assets placed at `p`, in input order. */
  function Members(assets: seq<Asset>, place: Asset -> Placement, p: Placement): seq<Asset> {
    Filter(assets, PlacedAt(place, p))
  }

  /** How many of `members` count under category `c`. */
  function CountIn(members: seq<Asset>, c: string): nat {
    |Filter(members, InCategory(c))|
  }

  function ValueOf(a: Asset): int {
    a.value
  }

  function TotalValue(members: seq<Asset>): int {
    SumOf(members, ValueOf)
  }

  function CountOf(n: nat): int {
    n
  }

  function RoomSize(r: RoomSummary): int {
    |r.assets|
  }

  function BuildingSize(rooms: Dict<RoomSummary>): int {
    SumValues(rooms, RoomSize)
  }

  function GroupSize(b: BuildingGroup): int {
    SumOf(b.rooms, RoomSize)
  }

  /** `counts` holds, for each category present among `members`, how many there are,
      and the counts add up to the number of members. */
  ghost predicate CountsCategories(counts: Dict<nat>, members: seq<Asset>) {
    && DistinctKeys(counts)
    && (forall c :: Get(counts, c) == Tally(members, c))
    && SumValues(counts, CountOf) == |members|
  }

  /** What `categoryCounts[c]` should read for `members`: absent when none counts under
      `c`, otherwise their number. */
  function Tally(members: seq<Asset>, c: string): Option<nat> {
    if CountIn(members, c) == 0 then None else Some(CountIn(members, c))
  }

  /** `summary` is the summary of the assets placed at `p`: there is at least one, the
      list is exactly them in input order, the location shown is the first one's, the
      total is the sum of their values, and the counts are their category counts. */
  ghost predicate Summarizes(summary: RoomSummary, assets: seq<Asset>, place: Asset -> Placement, p: Placement) {
    var members := Members(assets, place, p);
    && members != []
    && summary.roomName == p.room
    && summary.fullLocation == members[0].location
    && summary.assets == members
    && summary.totalValue == TotalValue(members)
    && CountsCategories(summary.categoryCounts, members)
  }

  /** `groups[p.building][p.room]`. */
  function Lookup(groups: Groups, p: Placement): Option<RoomSummary> {
    match Get(groups, p.building)
    case None => None
    case Some(rooms) => Get(rooms, p.room)
  }

  /** The grouping invariant: every room present summarizes the assets placed at it,
      every placement without a room has no assets, no key repeats, and the room sizes
      add up to the number of assets. */
  ghost predicate GroupsOf(groups: Groups, assets: seq<Asset>, place: Asset -> Placement) {
    && DistinctKeys(groups)
    && (forall b :: BuildingOk(groups, b))
    && (forall p :: RoomOk(groups, assets, place, p))
    && SumValues(groups, BuildingSize) == |assets|
  }

  /** Building `b`, if present, lists no room twice. */
  ghost predicate BuildingOk(groups: Groups, b: string) {
    Get(groups, b).Some? ==> DistinctKeys(Get(groups, b).value)
  }

  /** The room at `p`, if present, summarizes the assets placed there; if absent, no
      asset is placed there. */
  ghost predicate RoomOk(groups: Groups, assets: seq<Asset>, place: Asset -> Placement, p: Placement) {
    && (Lookup(groups, p).Some? ==> Summarizes(Lookup(groups, p).value, assets, place, p))
    && (Lookup(groups, p).None? ==> Members(assets, place, p) == [])
  }

  lemma MembersAppend(assets: seq<Asset>, a: Asset, place: Asset -> Placement, p: Placement)
    ensures Members(assets + [a], place, p) == Members(assets, place, p) + (if place(a) == p then [a] else [])
  {
    FilterAppend(assets, [a], PlacedAt(place, p));
    assert [a][1..] == [];
  }

  lemma CountInAppend(members: seq<Asset>, a: Asset, c: string)
    ensures CountIn(members + [a], c) == CountIn(members, c) + (if CategoryOf(a) == c then 1 else 0)
  {
    FilterAppend(members, [a], InCategory(c));
    assert [a][1..] == [];
  }

  /** A room with no assets yet has no category counts. */
  lemma NoCounts(members: seq<Asset>)
    requires members == []
    ensures CountsCategories([], members)
  {
    assert Values<nat>([]) == [];
    forall c ensures CountIn(members, c) == 0 {
    }
  }

  /** Counting one more asset keeps the counts those of the members. */
  lemma RecordCounts(counts: Dict<nat>, members: seq<Asset>, a: Asset)
    requires CountsCategories(counts, members)
    ensures CountsCategories(Bump(counts, CategoryOf(a)), members + [a])
  {
    var cat := CategoryOf(a);
    forall c
      ensures Get(Bump(counts, cat), c) == Tally(members + [a], c)
    {
      BumpTally(counts, members, a, c);
    }
    BumpSum(counts, members, a);
  }

  /** After counting `a`, category `c` reads as the tally of the members and `a`. */
  lemma BumpTally(counts: Dict<nat>, members: seq<Asset>, a: Asset, c: string)
    requires Get(counts, c) == Tally(members, c)
    requires Get(counts, CategoryOf(a)) == Tally(members, CategoryOf(a))
    ensures Get(Bump(counts, CategoryOf(a)), c) == Tally(members + [a], c)
  {
    CountInAppend(members, a, c);
  }

  /** Counting `a` adds one to the sum of the counts. */
  lemma BumpSum(counts: Dict<nat>, members: seq<Asset>, a: Asset)
    requires DistinctKeys(counts)
    requires Get(counts, CategoryOf(a)) == Tally(members, CategoryOf(a))
    requires SumValues(counts, CountOf) == |members|
    ensures SumValues(Bump(counts, CategoryOf(a)), CountOf) == |members + [a]|
  {
    var cat := CategoryOf(a);
    SumValuesPut(counts, cat, Get(counts, cat).GetOr(0) + 1, CountOf);
  }

  /** Recording an asset in the summary of its room keeps it the summary of that room. */
  lemma RecordSummarizes(summary: RoomSummary, assets: seq<Asset>, a: Asset, place: Asset -> Placement, p: Placement)
    requires place(a) == p
    requires Summarizes(summary, assets, place, p) || (Members(assets, place, p) == [] && summary == NewRoom(p.room, a.location))
    ensures Summarizes(Record(summary, a), assets + [a], place, p)
  {
    var members := Members(assets, place, p);
    MembersAppend(assets, a, place, p);
    if members == [] {
      NoCounts(members);
    }
    RecordCounts(summary.categoryCounts, members, a);
    SumOfAppend(members, [a], ValueOf);
    assert SumOf([a], ValueOf) == a.value;
  }

  /** Where one turn of the loop puts the asset, and that it leaves every other room
      as it was. */
  lemma LookupAfterAdd(groups: Groups, a: Asset, place: Asset -> Placement, q: Placement)
    ensures var p := place(a);
      var summary := Lookup(groups, p).GetOr(NewRoom(p.room, a.location));
      Lookup(AddAsset(groups, a, place), q) == if q == p then Some(Record(summary, a)) else Lookup(groups, q)
  {
  }

  /** One turn of the loop adds one asset to the room sizes. */
  lemma SizeAfterAdd(groups: Groups, a: Asset, place: Asset -> Placement)
    requires DistinctKeys(groups)
    requires BuildingOk(groups, place(a).building)
    ensures SumValues(AddAsset(groups, a, place), BuildingSize) == SumValues(groups, BuildingSize) + 1
  {
    var p := place(a);
    var rooms := Get(groups, p.building).GetOr([]);
    var summary := Get(rooms, p.room).GetOr(NewRoom(p.room, a.location));
    var rooms' := Put(rooms, p.room, Record(summary, a));
    SumValuesPut(rooms, p.room, Record(summary, a), RoomSize);
    SumValuesPut(groups, p.building, rooms', BuildingSize);
    if Get(groups, p.building).None? {
      assert Values<RoomSummary>([]) == [];
    }
  }

  /** One turn of the loop keeps the grouping invariant. */
  lemma {:induction false} AddAssetKeeps(groups: Groups, assets: seq<Asset>, a: Asset, place: Asset -> Placement)
    requires GroupsOf(groups, assets, place)
    ensures GroupsOf(AddAsset(groups, a, place), assets + [a], place)
  {
    var next := AddAsset(groups, a, place);
    var p := place(a);
    var summary := Lookup(groups, p).GetOr(NewRoom(p.room, a.location));
    assert RoomOk(groups, assets, place, p);
    RecordSummarizes(summary, assets, a, place, p);
    forall q
      ensures RoomOk(next, assets + [a], place, q)
    {
      assert RoomOk(groups, assets, place, q);
      RoomAfterAdd(groups, assets, a, place, q);
    }
    forall b
      ensures BuildingOk(next, b)
    {
      assert BuildingOk(groups, b);
    }
    assert BuildingOk(groups, p.building);
    SizeAfterAdd(groups, a, place);
  }

  /** After one turn of the loop, the room at `q` is right for the assets seen so far:
      the asset's own room by the recorded summary, every other one as before. */
  lemma RoomAfterAdd(groups: Groups, assets: seq<Asset>, a: Asset, place: Asset -> Placement, q: Placement)
    requires RoomOk(groups, assets, place, q)
    requires var p := place(a);
      Summarizes(Record(Lookup(groups, p).GetOr(NewRoom(p.room, a.location)), a), assets + [a], place, p)
    ensures RoomOk(AddAsset(groups, a, place), assets + [a], place, q)
  {
    LookupAfterAdd(groups, a, place, q);
    MembersAppend(assets, a, place, q);
  }

  /** The empty grouping is the grouping of no assets. */
  lemma NoGroups(place: Asset -> Placement)
    ensures GroupsOf([], [], place)
  {
    forall p ensures RoomOk([], [], place, p) {
    }
    forall b ensures BuildingOk([], b) {
    }
  }

  /** The grouping loop establishes the invariant for every input. */
  lemma {:induction false} GroupedInvariant(assets: seq<Asset>, place: Asset -> Placement)
    ensures GroupsOf(Grouped(assets, place), assets, place)
    decreases |assets|
  {
    if assets == [] {
      NoGroups(place);
    } else {
      var init := assets[..|assets| - 1];
      GroupedInvariant(init, place);
      AddAssetKeeps(Grouped(init, place), init, assets[|assets| - 1], place);
      FrontLast(assets);
    }
  }

  // ---------------------------------------------------------------------------
  // The grouping invariant, one consequence at a time

  /** No building and no room of a building is listed twice. */
  lemma GroupedKeys(assets: seq<Asset>, place: Asset -> Placement)
    ensures DistinctKeys(Grouped(assets, place))
    ensures forall i :: 0 <= i < |Grouped(assets, place)| ==> DistinctKeys(Grouped(assets, place)[i].value)
  {
    var groups := Grouped(assets, place);
    GroupedInvariant(assets, place);
    forall i | 0 <= i < |groups|
      ensures DistinctKeys(groups[i].value)
    {
      assert Get(groups, groups[i].key) == Some(groups[i].value);
      assert BuildingOk(groups, groups[i].key);
    }
  }

  /** The room of entry `m` of building entry `i` summarizes the assets placed there. */
  lemma GroupedRoom(assets: seq<Asset>, place: Asset -> Placement, i: nat, m: nat)
    requires i < |Grouped(assets, place)| && m < |Grouped(assets, place)[i].value|
    ensures var groups := Grouped(assets, place);
      Summarizes(groups[i].value[m].value, assets, place, Placement(groups[i].key, groups[i].value[m].key))
  {
    var groups := Grouped(assets, place);
    GroupedInvariant(assets, place);
    var rooms := groups[i].value;
    assert Get(groups, groups[i].key) == Some(rooms);
    assert BuildingOk(groups, groups[i].key);
    assert Lookup(groups, Placement(groups[i].key, rooms[m].key)) == Some(rooms[m].value);
    assert RoomOk(groups, assets, place, Placement(groups[i].key, rooms[m].key));
  }

  /** The room of entry `m` of building entry `i` is named by its key and lists exactly
      the assets placed there. */
  lemma GroupedRoomAssets(assets: seq<Asset>, place: Asset -> Placement, i: nat, m: nat)
    requires i < |Grouped(assets, place)| && m < |Grouped(assets, place)[i].value|
    ensures var groups := Grouped(assets, place);
      && groups[i].value[m].value.roomName == groups[i].value[m].key
      && groups[i].value[m].value.assets == Members(assets, place, Placement(groups[i].key, groups[i].value[m].key))
  {
    GroupedRoom(assets, place, i, m);
  }

  /** A placement that some asset has is present in the grouping. */
  lemma GroupedHas(assets: seq<Asset>, place: Asset -> Placement, p: Placement)
    requires Members(assets, place, p) != []
    ensures Lookup(Grouped(assets, place), p).Some?
  {
    GroupedInvariant(assets, place);
    assert RoomOk(Grouped(assets, place), assets, place, p);
  }

  /** The room sizes of the grouping add up to the number of assets. */
  lemma GroupedSize(assets: seq<Asset>, place: Asset -> Placement)
    ensures SumValues(Grouped(assets, place), BuildingSize) == |assets|
  {
    GroupedInvariant(assets, place);
  }

  // ---------------------------------------------------------------------------
  // The floor plan

  /** A building of the floor plan is a building of the grouping with its rooms sorted. */
  lemma FloorPlanBuilding(assets: seq<Asset>, place: Asset -> Placement, b: BuildingGroup)
    requires b in FloorPlan(assets, place)
    ensures exists i :: 0 <= i < |Grouped(assets, place)| && b == Entries(Grouped(assets, place))[i]
  {
    SortByMembers(Entries(Grouped(assets, place)), BuildingName);
  }

  /** One room of one building of the floor plan summarizes the assets placed in that
      building and that room. */
  lemma FloorPlanRoom(assets: seq<Asset>, place: Asset -> Placement, b: BuildingGroup, r: RoomSummary)
    requires b in FloorPlan(assets, place) && r in b.rooms
    ensures Summarizes(r, assets, place, Placement(b.buildingName, r.roomName))
  {
    var groups := Grouped(assets, place);
    FloorPlanBuilding(assets, place, b);
    var i :| 0 <= i < |groups| && b == Entries(groups)[i];
    var m := RoomEntry(groups[i].value, r);
    GroupedRoom(assets, place, i, m);
  }

  /** The entry of `rooms` holding a room shown in the sorted room list. */
  lemma RoomEntry(rooms: Dict<RoomSummary>, r: RoomSummary) returns (m: nat)
    requires r in SortBy(Values(rooms), RoomName)
    ensures m < |rooms| && rooms[m].value == r
  {
    var vs := Values(rooms);
    SortByMembers(vs, RoomName);
    assert r in vs;
    m :| m < |vs| && vs[m] == r;
  }

  /** Every room of every building of the floor plan summarizes its own assets. */
  lemma FloorPlanRooms(assets: seq<Asset>, place: Asset -> Placement)
    ensures forall b, r :: b in FloorPlan(assets, place) && r in b.rooms ==>
      Summarizes(r, assets, place, Placement(b.buildingName, r.roomName))
  {
    forall b, r | b in FloorPlan(assets, place) && r in b.rooms
      ensures Summarizes(r, assets, place, Placement(b.buildingName, r.roomName))
    {
      FloorPlanRoom(assets, place, b, r);
    }
  }

  /** The room names of one building of the grouping are its keys, so they differ. */
  lemma RoomNamesDistinct(assets: seq<Asset>, place: Asset -> Placement, i: nat)
    requires i < |Grouped(assets, place)|
    ensures DistinctBy(Values(Grouped(assets, place)[i].value), RoomName)
  {
    var groups := Grouped(assets, place);
    GroupedKeys(assets, place);
    var rooms := groups[i].value;
    forall m | 0 <= m < |rooms|
      ensures rooms[m].value.roomName == rooms[m].key
    {
      GroupedRoom(assets, place, i, m);
    }
  }

  /** The buildings of the floor plan are in increasing name order, and so are the
      rooms of each building; in particular no name appears twice. */
  lemma FloorPlanSorted(assets: seq<Asset>, place: Asset -> Placement)
    ensures StrictlySortedBy(FloorPlan(assets, place), BuildingName)
    ensures forall b :: b in FloorPlan(assets, place) ==> StrictlySortedBy(b.rooms, RoomName)
  {
    var groups := Grouped(assets, place);
    GroupedKeys(assets, place);
    SortByStrictlySorted(Entries(groups), BuildingName);
    forall b | b in FloorPlan(assets, place)
      ensures StrictlySortedBy(b.rooms, RoomName)
    {
      FloorPlanBuilding(assets, place, b);
      var i :| 0 <= i < |groups| && b == Entries(groups)[i];
      RoomNamesDistinct(assets, place, i);
      SortByStrictlySorted(Values(groups[i].value), RoomName);
    }
  }

  /** The room lists of the floor plan hold as many assets, all together, as the input. */
  lemma FloorPlanTotal(assets: seq<Asset>, place: Asset -> Placement)
    ensures SumOf(FloorPlan(assets, place), GroupSize) == |assets|
  {
    var groups := Grouped(assets, place);
    GroupedSize(assets, place);
    SumOfSortBy(Entries(groups), BuildingName, GroupSize);
    forall i | 0 <= i < |groups|
      ensures GroupSize(Entries(groups)[i]) == BuildingSize(Values(groups)[i])
    {
      SumOfSortBy(Values(groups[i].value), RoomName, RoomSize);
    }
    SumOfPointwise(Entries(groups), GroupSize, Values(groups), BuildingSize);
  }

  /** Entry `m` of building entry `i` of the grouping is shown, in that building, in
      the floor plan. */
  lemma FloorPlanHasRoom(assets: seq<Asset>, place: Asset -> Placement, i: nat, m: nat)
    requires i < |Grouped(assets, place)| && m < |Grouped(assets, place)[i].value|
    ensures Entries(Grouped(assets, place))[i] in FloorPlan(assets, place)
    ensures Grouped(assets, place)[i].value[m].value in Entries(Grouped(assets, place))[i].rooms
  {
    var groups := Grouped(assets, place);
    var rooms := groups[i].value;
    SortByMembers(Entries(groups), BuildingName);
    assert Values(rooms)[m] == rooms[m].value;
    SortByMembers(Values(rooms), RoomName);
  }

  /** An asset is among the members of its own placement. */
  lemma OwnPlacement(assets: seq<Asset>, place: Asset -> Placement, k: nat)
    requires k < |assets|
    ensures assets[k] in Members(assets, place, place(assets[k]))
  {
    FilterMembers(assets, PlacedAt(place, place(assets[k])));
  }

  /** The building and room entry an asset is grouped under. */
  lemma GroupedAsset(assets: seq<Asset>, place: Asset -> Placement, k: nat) returns (i: nat, m: nat)
    requires k < |assets|
    ensures i < |Grouped(assets, place)| && m < |Grouped(assets, place)[i].value|
    ensures var p := place(assets[k]);
      && Grouped(assets, place)[i].key == p.building
      && Grouped(assets, place)[i].value[m].value.roomName == p.room
      && assets[k] in Grouped(assets, place)[i].value[m].value.assets
  {
    var groups := Grouped(assets, place);
    var p := place(assets[k]);
    OwnPlacement(assets, place, k);
    GroupedHas(assets, place, p);
    i := Find(groups, p.building).value;
    m := Find(groups[i].value, p.room).value;
    GroupedRoomAssets(assets, place, i, m);
  }

  /** Every asset appears in the floor plan, in the room of the building it is placed
      in. */
  lemma FloorPlanShowsAsset(assets: seq<Asset>, place: Asset -> Placement, k: nat)
    requires k < |assets|
    ensures var p := place(assets[k]);
      exists b, r :: b in FloorPlan(assets, place) && r in b.rooms
        && b.buildingName == p.building && r.roomName == p.room && assets[k] in r.assets
  {
    var i, m := GroupedAsset(assets, place, k);
    FloorPlanHasRoom(assets, place, i, m);
    assert Entries(Grouped(assets, place))[i].buildingName == Grouped(assets, place)[i].key;
  }

  /** An asset listed in a room of the floor plan is placed in that room; with the names
      strictly ordered, that room is the only one listing it. */
  lemma FloorPlanOnlyOwnRoom(assets: seq<Asset>, place: Asset -> Placement, b: BuildingGroup, r: RoomSummary, a: Asset)
    requires b in FloorPlan(assets, place) && r in b.rooms && a in r.assets
    ensures place(a) == Placement(b.buildingName, r.roomName)
  {
    var p := Placement(b.buildingName, r.roomName);
    FloorPlanRoom(assets, place, b, r);
    FilterMembers(assets, PlacedAt(place, p));
  }

  /** `buildingGroups`: the grouping loop, then the buildings with their rooms, each
      list sorted by name. Every room summarizes the assets whose location names it, the
      rooms hold every asset once, and names are in strictly increasing order. */
  method BuildingGroups(assets: seq<Asset>) returns (plan: seq<BuildingGroup>)
    ensures plan == FloorPlan(assets, Place)
    ensures StrictlySortedBy(plan, BuildingName)
    ensures forall b :: b in plan ==> StrictlySortedBy(b.rooms, RoomName)
    ensures forall b, r :: b in plan && r in b.rooms ==>
      Summarizes(r, assets, Place, Placement(b.buildingName, r.roomName))
    ensures SumOf(plan, GroupSize) == |assets|
  {
    var groups := GroupByLocation(assets);
    plan := SortBy(Entries(groups), BuildingName);
    FloorPlanSorted(assets, Place);
    FloorPlanRooms(assets, Place);
    FloorPlanTotal(assets, Place);
  }
}

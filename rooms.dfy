/** The rooms screen: the five-way list filter, the values a room form
    sends, the edit form a room opens with and the save that writes them. */
module Rooms {
  import opened Common
  import opened Hotel

  // -----------------------------------------------------------------------
  // List filter
  // -----------------------------------------------------------------------

  /** The filter panel; None stands for a select or rate box left empty. The
      rate boxes hold the number the text parses to. */
  datatype RoomFilters = RoomFilters(
    roomType: Option<RoomType>,
    status: Option<RoomStatus>,
    minRate: Option<real>,
    maxRate: Option<real>)

  const NoFilters := RoomFilters(None, None, None, None)

  /** The five conditions of `filteredRooms`, all of which must hold. */
  predicate RoomListed(r: Room, search: string, f: RoomFilters) {
    && MatchesSearch(r.roomNumber, search)
    && (f.roomType.None? || r.roomType == f.roomType.value)
    && (f.status.None? || r.status == f.status.value)
    && (f.minRate.None? || r.rate >= f.minRate.value)
    && (f.maxRate.None? || r.rate <= f.maxRate.value)
  }

  /** `filteredRooms`: the rooms meeting every condition, in table order. */
  function FilteredRooms(rooms: seq<Room>, search: string, f: RoomFilters): (r: seq<Room>)
    ensures SubsequenceOf(r, rooms)
    ensures forall k :: 0 <= k < |rooms| ==>
      (rooms[k] in r <==>
        && Contains(Lower(rooms[k].roomNumber), Lower(search))
        && (f.roomType.None? || rooms[k].roomType == f.roomType.value)
        && (f.status.None? || rooms[k].status == f.status.value)
        && (f.minRate.None? || rooms[k].rate >= f.minRate.value)
        && (f.maxRate.None? || rooms[k].rate <= f.maxRate.value))
  {
    Filter(rooms, (r: Room) => RoomListed(r, search, f))
  }

  /** With an empty search box and no filter set, every room is listed, in order. */
  lemma {:induction false} NoFiltersListAll(rooms: seq<Room>)
    ensures FilteredRooms(rooms, "", NoFilters) == rooms
  {
    forall k | 0 <= k < |rooms|
      ensures RoomListed(rooms[k], "", NoFilters)
    {
      EmptySearchMatches(rooms[k].roomNumber);
    }
    FilterAll(rooms, (r: Room) => RoomListed(r, "", NoFilters));
  }

  /** The rate bounds are inclusive: a room priced exactly at both bounds
      passes them. */
  lemma BoundsInclusive(room: Room, search: string, f: RoomFilters)
    requires MatchesSearch(room.roomNumber, search)
    requires f.roomType.None? && f.status.None?
    requires f.minRate == Some(room.rate) && f.maxRate == Some(room.rate)
    ensures FilteredRooms([room], search, f) == [room]
  {
    assert room in FilteredRooms([room], search, f);
  }

  /** A minimum rate above the maximum rate lists nothing. */
  lemma {:induction false} CrossedBoundsListNothing(rooms: seq<Room>, search: string, f: RoomFilters)
    requires f.minRate.Some? && f.maxRate.Some? && f.minRate.value > f.maxRate.value
    ensures FilteredRooms(rooms, search, f) == []
  {
    FilterNone(rooms, (r: Room) => RoomListed(r, search, f));
  }

  /** Setting a filter only removes rooms: whatever a filter lists is listed
      when that filter is cleared. */
  lemma {:induction false} ClearingTypeWidens(rooms: seq<Room>, search: string, f: RoomFilters)
    ensures forall k :: 0 <= k < |FilteredRooms(rooms, search, f)| ==>
      FilteredRooms(rooms, search, f)[k] in FilteredRooms(rooms, search, f.(roomType := None))
  {
    var narrow := FilteredRooms(rooms, search, f);
    var wide := FilteredRooms(rooms, search, f.(roomType := None));
    forall k | 0 <= k < |narrow|
      ensures narrow[k] in wide
    {
      var m :| 0 <= m < |rooms| && rooms[m] == narrow[k];
      assert RoomListed(rooms[m], search, f.(roomType := None));
    }
  }

  // -----------------------------------------------------------------------
  // Form and save
  // -----------------------------------------------------------------------

  /** The room form, with the rate box holding the number it parses to. */
  datatype RoomForm = RoomForm(roomNumber: string, roomType: RoomType, rate: real, status: RoomStatus)

  /** The object `handleSubmit` writes. */
  datatype RoomValues = RoomValues(roomNumber: string, roomType: RoomType, rate: real, status: RoomStatus)

  /** `values`: every field of the form, under the table's column names. */
  function Values(form: RoomForm): (v: RoomValues)
    ensures v.roomNumber == form.roomNumber && v.roomType == form.roomType
    ensures v.rate == form.rate && v.status == form.status
  {
    RoomValues(form.roomNumber, form.roomType, form.rate, form.status)
  }

  /** `openEditModal`: the form opens with the room's own fields. */
  function EditForm(room: Room): (form: RoomForm)
    ensures form.roomNumber == room.roomNumber && form.roomType == room.roomType
    ensures form.rate == room.rate && form.status == room.status
  {
    RoomForm(room.roomNumber, room.roomType, room.rate, room.status)
  }

  /** A row after `.update(values)`: the id stays, the rest is overwritten. */
  function ApplyValues(room: Room, v: RoomValues): (r: Room)
    ensures r.id == room.id
    ensures r.roomNumber == v.roomNumber && r.roomType == v.roomType && r.rate == v.rate && r.status == v.status
  {
    room.(roomNumber := v.roomNumber, roomType := v.roomType, rate := v.rate, status := v.status)
  }

  /** Opening a room for editing and saving without a change writes the room
      back as it was. */
  lemma EditRoundTrip(room: Room)
    ensures ApplyValues(room, Values(EditForm(room))) == room
  {
  }

  datatype SaveError = StoreError

  predicate UniqueRoomIds(rooms: seq<Room>) {
    forall i, j :: 0 <= i < |rooms| && 0 <= j < |rooms| && rooms[i].id == rooms[j].id ==> i == j
  }

  /** `handleSubmit` on the rooms table: with a selected room the rows with
      its id are updated, otherwise a row with the table's new id is
      inserted; `writeFails` is whether the store refuses the write. */
  function SaveRoom(table: seq<Room>, selected: Option<Room>, form: RoomForm, newId: Id, writeFails: bool)
    : (r: Result<seq<Room>, SaveError>)
    ensures r.Failure? <==> writeFails
    ensures r.Success? && selected.Some? ==>
      |r.value| == |table| &&
      forall k :: 0 <= k < |table| ==>
        r.value[k] == if table[k].id == selected.value.id then ApplyValues(table[k], Values(form)) else table[k]
    ensures r.Success? && selected.None? ==>
      var v := Values(form);
      r.value == table + [Room(newId, v.roomNumber, v.roomType, v.rate, v.status)]
  {
    if writeFails then Failure(StoreError)
    else
      var v := Values(form);
      match selected
      case Some(room) =>
        Success(seq(|table|, k requires 0 <= k < |table| =>
          if table[k].id == room.id then ApplyValues(table[k], v) else table[k]))
      case None =>
        Success(table + [Room(newId, v.roomNumber, v.roomType, v.rate, v.status)])
  }

  /** Saving the unchanged edit form of a room of the table leaves the
      table as it was. */
  lemma SaveUnchangedEdit(table: seq<Room>, k: int, newId: Id)
    requires UniqueRoomIds(table) && 0 <= k < |table|
    ensures SaveRoom(table, Some(table[k]), EditForm(table[k]), newId, false) == Success(table)
  {
    var r := SaveRoom(table, Some(table[k]), EditForm(table[k]), newId, false).value;
    forall m | 0 <= m < |table|
      ensures r[m] == table[m]
    {
      if table[m].id == table[k].id {
        assert m == k;
        EditRoundTrip(table[k]);
      }
    }
    assert r == table;
  }
}

/** A table of rooms: channel -> connection -> client record, with no room left empty. */
module RoomTable {
  import opened Prelude

  type Table<H, K, C> = map<H, map<K, C>>

  predicate InRoom<H, K, C>(rooms: Table<H, K, C>, channel: H, conn: K) {
    channel in rooms && conn in rooms[channel]
  }

  ghost predicate NoEmptyRoom<H, K, C>(rooms: Table<H, K, C>) {
    forall h :: h in rooms ==> rooms[h] != map[]
  }

  function WithMember<H, K, C>(rooms: Table<H, K, C>, channel: H, conn: K, client: C): Table<H, K, C> {
    var room := if channel in rooms then rooms[channel] else map[];
    rooms[channel := room[conn := client]]
  }

  function Without<H, K, C>(rooms: Table<H, K, C>, channel: H, gone: set<K>): Table<H, K, C> {
    if channel !in rooms then rooms
    else
      var room := rooms[channel] - gone;
      if |room| == 0 then rooms - {channel} else rooms[channel := room]
  }

  lemma WithMemberMembers<H, K, C>(rooms: Table<H, K, C>, channel: H, conn: K, client: C, h: H, k: K)
    ensures var r := WithMember(rooms, channel, conn, client);
            && (InRoom(r, h, k) <==> InRoom(rooms, h, k) || (h == channel && k == conn))
            && (InRoom(r, h, k) ==> r[h][k] == if h == channel && k == conn then client else rooms[h][k])
  {
  }

  /** Removal takes exactly the named connections out of exactly the named room. */
  lemma WithoutMembers<H, K, C>(rooms: Table<H, K, C>, channel: H, gone: set<K>, h: H, k: K)
    ensures var r := Without(rooms, channel, gone);
            && (InRoom(r, h, k) <==> InRoom(rooms, h, k) && !(h == channel && k in gone))
            && (InRoom(r, h, k) ==> r[h][k] == rooms[h][k])
  {
    if channel in rooms {
      var room := rooms[channel] - gone;
      assert forall x :: x in rooms[channel] && x !in gone ==> x in room;
      assert |room| == 0 ==> room == map[];
    }
  }

  lemma WithoutKeepsRoomsNonEmpty<H, K, C>(rooms: Table<H, K, C>, channel: H, gone: set<K>)
    requires NoEmptyRoom(rooms)
    ensures NoEmptyRoom(Without(rooms, channel, gone))
  {
  }

  lemma DropOverwritten<H, K, C>(rooms: Table<H, K, C>, channel: H, room: map<K, C>)
    ensures rooms[channel := room] - {channel} == rooms - {channel}
  {
  }

  lemma OverwriteTwice<H, K, C>(rooms: Table<H, K, C>, channel: H, first: map<K, C>, second: map<K, C>)
    ensures rooms[channel := first][channel := second] == rooms[channel := second]
  {
  }

  lemma OverwriteSame<H, K, C>(rooms: Table<H, K, C>, channel: H)
    requires channel in rooms
    ensures rooms[channel := rooms[channel] - Elements([])] == rooms
  {
    assert rooms[channel] - Elements([]) == rooms[channel];
  }

  /** Joining and then leaving restores the table exactly, for a connection that was not in the room. */
  lemma LeaveUndoesJoin<H, K, C>(rooms: Table<H, K, C>, channel: H, conn: K, client: C)
    requires NoEmptyRoom(rooms) && !InRoom(rooms, channel, conn)
    ensures Without(WithMember(rooms, channel, conn, client), channel, {conn}) == rooms
  {
    var joined := WithMember(rooms, channel, conn, client);
    var room := joined[channel] - {conn};
    if channel in rooms {
      assert room == rooms[channel];
      assert |room| != 0;
    } else {
      assert room == map[];
    }
  }
}

/** The sharded room manager: 256 shards, each with its own table, standing for one flat index. */
module RoomManager {
  import opened Prelude
  import opened RoomTable
  import opened RoomShards

  /** channel -> connection id -> connection. */
  type Index = Table<Uuid, Uuid, Conn>

  /** The shards hold exactly the flat index: every channel in the shard its id selects and in no other. */
  ghost predicate Represents(shards: seq<Index>, flat: Index) {
    && |shards| == SHARD_COUNT
    && (forall i, h :: 0 <= i < SHARD_COUNT && h in shards[i] ==> ShardIndex(h) == i)
    && (forall h :: h in flat <==> h in shards[ShardIndex(h)])
    && (forall h :: h in flat ==> flat[h] == shards[ShardIndex(h)][h])
  }

  /** No room is empty and every connection is filed under its own id. */
  ghost predicate WellFiled(flat: Index) {
    && NoEmptyRoom(flat)
    && (forall h, k :: InRoom(flat, h, k) ==> flat[h][k].id == k)
  }

  function RoomOf(flat: Index, channel: Uuid): map<Uuid, Conn> {
    if channel in flat then flat[channel] else map[]
  }

  ghost predicate SameElsewhere(a: Index, b: Index, channel: Uuid) {
    forall h :: h != channel ==> SameRoom(a, b, h)
  }

  predicate SameRoom(a: Index, b: Index, h: Uuid) {
    (h in a <==> h in b) && (h in a && h in b ==> a[h] == b[h])
  }

  /** A change to one channel, made in its own shard, is the same change to the flat index. */
  lemma ShardUpdate(shards: seq<Index>, flat: Index, channel: Uuid, shard': Index, flat': Index)
    requires Represents(shards, flat)
    requires SameElsewhere(shard', shards[ShardIndex(channel)], channel) && SameElsewhere(flat', flat, channel)
    requires SameRoom(shard', flat', channel)
    ensures Represents(shards[ShardIndex(channel) := shard'], flat')
  {
    var at := ShardIndex(channel);
    var shards' := shards[at := shard'];
    forall i, h | 0 <= i < SHARD_COUNT && h in shards'[i] ensures ShardIndex(h) == i {
      assert i == at && h != channel ==> SameRoom(shard', shards[at], h);
    }
    forall h ensures SameRoom(flat', shards'[ShardIndex(h)], h) {
      if h != channel {
        assert SameRoom(flat', flat, h);
        assert ShardIndex(h) == at ==> SameRoom(shard', shards[at], h);
      }
    }
    assert forall h :: SameRoom(flat', shards'[ShardIndex(h)], h) ==> (h in flat' <==> h in shards'[ShardIndex(h)]);
  }

  lemma ShardJoin(shards: seq<Index>, flat: Index, channel: Uuid, conn: Conn)
    requires Represents(shards, flat)
    ensures Represents(shards[ShardIndex(channel) := WithMember(shards[ShardIndex(channel)], channel, conn.id, conn)],
                       WithMember(flat, channel, conn.id, conn))
  {
    ShardUpdate(shards, flat, channel,
                WithMember(shards[ShardIndex(channel)], channel, conn.id, conn),
                    WithMember(flat, channel, conn.id, conn));
  }

  lemma LeaveIsLocal(a: Index, channel: Uuid, connId: Uuid)
    ensures SameElsewhere(Without(a, channel, {connId}), a, channel)
  {
  }

  lemma LeaveSameRoom(a: Index, b: Index, channel: Uuid, connId: Uuid)
    requires SameRoom(a, b, channel)
    ensures SameRoom(Without(a, channel, {connId}), Without(b, channel, {connId}), channel)
  {
  }

  /** Overwriting a room with what is left of it, and dropping it when that is nothing. */
  lemma LeaveTable(rooms: Index, channel: Uuid, connId: Uuid)
    requires channel in rooms
    ensures var room := rooms[channel] - {connId};
            Without(rooms, channel, {connId}) ==
              if |room| == 0 then rooms[channel := room] - {channel} else rooms[channel := room]
  {
    DropOverwritten(rooms, channel, rooms[channel] - {connId});
  }

  ghost function Left(shards: seq<Index>, channel: Uuid, connId: Uuid): seq<Index>
    requires |shards| == SHARD_COUNT
  {
    shards[ShardIndex(channel) := Without(shards[ShardIndex(channel)], channel, {connId})]
  }

  lemma ShardLeave(shards: seq<Index>, flat: Index, channel: Uuid, connId: Uuid)
    requires Represents(shards, flat)
    ensures Represents(Left(shards, channel, connId), Without(flat, channel, {connId}))
  {
    LeaveIsLocal(shards[ShardIndex(channel)], channel, connId);
    LeaveIsLocal(flat, channel, connId);
    LeaveSameRoom(shards[ShardIndex(channel)], flat, channel, connId);
    ShardUpdate(shards, flat, channel,
                Without(shards[ShardIndex(channel)], channel, {connId}), Without(flat, channel, {connId}));
  }

  lemma JoinFiles(flat: Index, channel: Uuid, conn: Conn)
    requires WellFiled(flat)
    ensures WellFiled(WithMember(flat, channel, conn.id, conn))
  {
    var flat': Index := WithMember(flat, channel, conn.id, conn);
    assert conn.id in flat'[channel];
    forall h, k | InRoom(flat', h, k) ensures flat'[h][k].id == k {
      WithMemberMembers(flat, channel, conn.id, conn, h, k);
    }
  }

  lemma LeaveFiles(flat: Index, channel: Uuid, connId: Uuid)
    requires WellFiled(flat)
    ensures WellFiled(Without(flat, channel, {connId}))
  {
    WithoutKeepsRoomsNonEmpty(flat, channel, {connId});
    var flat': Index := Without(flat, channel, {connId});
    forall h, k | InRoom(flat', h, k) ensures flat'[h][k].id == k {
      WithoutMembers(flat, channel, {connId}, h, k);
    }
  }

  lemma LeaveKeeps(shards: seq<Index>, flat: Index, channel: Uuid, connId: Uuid)
    requires Represents(shards, flat) && WellFiled(flat)
    ensures Represents(Left(shards, channel, connId), Without(flat, channel, {connId}))
    ensures WellFiled(Without(flat, channel, {connId}))
  {
    ShardLeave(shards, flat, channel, connId);
    LeaveFiles(flat, channel, connId);
  }

  /** The flat index a set of shards stands for is unique. */
  lemma RepresentsOne(shards: seq<Index>, flat: Index, other: Index)
    requires Represents(shards, flat) && Represents(shards, other)
    ensures flat == other
  {
    assert forall h :: h in flat <==> h in other;
  }

  datatype JoinError = NilConn

  class Manager {
    const shards: array<Index>
    ghost var flat: Index

    ghost predicate Valid()
      reads this, shards
    {
      Represents(shards[..], flat) && WellFiled(flat)
    }

    constructor ()
      ensures Valid() && fresh(shards) && flat == map[]
    {
      var fresh_shards := new Index[SHARD_COUNT];
      var i := 0;
      while i < SHARD_COUNT
        invariant 0 <= i <= SHARD_COUNT
        invariant forall j :: 0 <= j < i ==> fresh_shards[j] == map[]
      {
        fresh_shards[i] := map[];
        i := i + 1;
      }
      shards := fresh_shards;
      flat := map[];
    }

    method Join(channel: Uuid, conn: Option<Conn>) returns (err: Option<JoinError>)
      requires Valid()
      modifies this, shards
      ensures Valid()
      ensures conn.None? ==> err == Some(NilConn) && flat == old(flat)
      ensures conn.Some? ==> err == None && flat == WithMember(old(flat), channel, conn.value.id, conn.value)
    {
      if conn.None? {
        return Some(NilConn);
      }
      var at := ShardIndex(channel);
      ghost var was := shards[..];
      var rooms := shards[at];
      var room := if channel in rooms then rooms[channel] else map[];
      shards[at] := rooms[channel := room[conn.value.id := conn.value]];
      ShardJoin(was, flat, channel, conn.value);
      assert shards[..] == was[at := WithMember(was[at], channel, conn.value.id, conn.value)];
      JoinFiles(flat, channel, conn.value);
      flat := WithMember(flat, channel, conn.value.id, conn.value);
      err := None;
    }

    method Leave(channel: Uuid, connId: Uuid)
      requires Valid()
      modifies this, shards
      ensures Valid() && flat == Without(old(flat), channel, {connId})
    {
      var at := ShardIndex(channel);
      ghost var was := shards[..];
      LeaveKeeps(was, flat, channel, connId);
      if channel in shards[at] {
        LeaveTable(shards[at], channel, connId);
        var rooms := shards[at][channel := shards[at][channel] - {connId}];
        if |rooms[channel]| == 0 {
          rooms := rooms - {channel};
        }
        shards[at] := rooms;
      }
      assert shards[..] == Left(was, channel, connId);
      flat := Without(flat, channel, {connId});
    }

    /** Every member once, in some order, and as many as Count says. */
    method List(channel: Uuid) returns (out: seq<Conn>)
      requires Valid()
      ensures Enumerates(out, RoomOf(flat, channel).Values)
      ensures forall c :: c in out <==> InRoom(flat, channel, c.id) && flat[channel][c.id] == c
      ensures |out| == if channel in flat then |flat[channel]| else 0
    {
      out := [];
      var at := ShardIndex(channel);
      RoomInItsShard(shards[..], flat, channel);
      if channel !in shards[at] {
        return;
      }
      var room := shards[at][channel];
      var todo := room.Keys;
      ghost var seen := {};
      while todo != {}
        invariant todo == room.Keys - seen && seen <= room.Keys
        invariant Lists(out, room, seen)
        decreases |todo|
      {
        var id := NextKey(todo);
        ListOneMore(out, room, seen, id);
        out := out + [room[id]];
        todo := todo - {id};
        seen := seen + {id};
      }
      assert seen == room.Keys;
      AllListed(out, room);
    }

    method Count(channel: Uuid) returns (n: nat)
      requires Valid()
      ensures n == if channel in flat then |flat[channel]| else 0
    {
      var at := ShardIndex(channel);
      n := if channel in shards[at] then |shards[at][channel]| else 0;
    }
  }

  lemma RoomInItsShard(shards: seq<Index>, flat: Index, channel: Uuid)
    requires Represents(shards, flat) && WellFiled(flat)
    ensures RoomOf(shards[ShardIndex(channel)], channel) == RoomOf(flat, channel)
    ensures FiledIn(RoomOf(flat, channel))
  {
    forall k | k in RoomOf(flat, channel) ensures RoomOf(flat, channel)[k].id == k {
      assert InRoom(flat, channel, k);
    }
  }

  ghost predicate FiledIn(room: map<Uuid, Conn>) {
    forall k :: k in room ==> room[k].id == k
  }

  /** `out` lists the connections filed under `seen`, each once. */
  ghost predicate Lists(out: seq<Conn>, room: map<Uuid, Conn>, seen: set<Uuid>) {
    && Distinct(out)
    && |out| == |seen|
    && (forall i :: 0 <= i < |out| ==> out[i].id in seen && out[i].id in room && room[out[i].id] == out[i])
    && (forall k :: k in seen && k in room ==> room[k] in out)
  }

  lemma ListOneMore(out: seq<Conn>, room: map<Uuid, Conn>, seen: set<Uuid>, id: Uuid)
    requires FiledIn(room) && Lists(out, room, seen) && id in room && id !in seen
    ensures Lists(out + [room[id]], room, seen + {id})
  {
    var out' := out + [room[id]];
    assert out'[|out|] == room[id];
    forall k | k in seen + {id} && k in room ensures room[k] in out' {
      if k in seen {
        assert room[k] in out;
      }
    }
  }

  lemma AllListed(out: seq<Conn>, room: map<Uuid, Conn>)
    requires FiledIn(room) && Lists(out, room, room.Keys)
    ensures Enumerates(out, room.Values) && |out| == |room|
  {
    forall c | c in room.Values ensures c in Elements(out) {
      var k :| k in room && room[k] == c;
      assert room[k] in out;
    }
    forall c | c in Elements(out) ensures c in room.Values {
      var i :| 0 <= i < |out| && out[i] == c;
      assert out[i].id in room;
    }
  }
}

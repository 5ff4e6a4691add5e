/** The in-memory room table of ChatService, and the service's methods over it. */
module ChatRooms {
  import opened Prelude
  import opened RoomTable

  type ChannelId = int
  type ConnId = int

  type Rooms<Client> = RoomTable.Table<ChannelId, ConnId, Client>

  function Accepting<C>(rooms: Rooms<C>, channel: ChannelId, accepts: ConnId -> bool): set<ConnId> {
    if channel in rooms then set k | k in rooms[channel] && accepts(k) else {}
  }

  /** What the channel-membership lookup answered. */
  datatype Membership = Member | NotMember | LookupFailed

  datatype JoinError = Unauthorized | MembershipUnknown

  class WsClient {
    const conn: ConnId

    constructor (conn: ConnId)
      ensures this.conn == conn
    {
      this.conn := conn;
    }
  }

  datatype RoomConn = RoomConn(conn: ConnId, client: WsClient)

  class ChatService {
    var rooms: map<ChannelId, map<ConnId, WsClient>>

    constructor ()
      ensures rooms == map[]
    {
      rooms := map[];
    }

    method JoinRoom(channel: ChannelId, membership: Membership, conn: ConnId) returns (err: Option<JoinError>)
      modifies this
      ensures err == match membership
                     case Member => None
                     case NotMember => Some(Unauthorized)
                     case LookupFailed => Some(MembershipUnknown)
      ensures err.Some? ==> rooms == old(rooms)
      ensures err.None? ==>
                && InRoom(rooms, channel, conn)
                && fresh(rooms[channel][conn]) && rooms[channel][conn].conn == conn
                && rooms == WithMember(old(rooms), channel, conn, rooms[channel][conn])
    {
      match membership {
        case LookupFailed => return Some(MembershipUnknown);
        case NotMember => return Some(Unauthorized);
        case Member =>
      }
      if channel !in rooms {
        rooms := rooms[channel := map[]];
      }
      var client := new WsClient(conn);
      rooms := rooms[channel := rooms[channel][conn := client]];
      err := None;
    }

    method LeaveRoom(channel: ChannelId, conn: ConnId)
      modifies this
      ensures rooms == Without(old(rooms), channel, {conn})
    {
      if channel in rooms {
        rooms := rooms[channel := rooms[channel] - {conn}];
        if |rooms[channel]| == 0 {
          rooms := rooms - {channel};
          assert rooms == old(rooms) - {channel};
        }
      }
    }

    /** First phase of a broadcast, under the read lock. */
    method Snapshot(channel: ChannelId) returns (clients: seq<RoomConn>)
      ensures AreMembers(Conns(clients), rooms, channel)
      ensures channel in rooms ==> Point(clients, rooms[channel])
    {
      clients := [];
      if channel !in rooms {
        return;
      }
      var conns := rooms[channel];
      var todo := conns.Keys;
      ghost var seen := {};
      while todo != {}
        invariant todo == conns.Keys - seen && seen <= conns.Keys
        invariant Enumerates(Conns(clients), seen)
        invariant Point(clients, conns)
        decreases |todo|
      {
        var conn := NextKey(todo);
        SnapshotOneMore(clients, conns, seen, conn);
        clients := clients + [RoomConn(conn, conns[conn])];
        todo := todo - {conn};
        seen := seen + {conn};
      }
    }

    /** Second phase: one write per snapshot entry; `accepts` is the network's verdict on each connection. */
    method WriteAll(clients: seq<RoomConn>, accepts: ConnId -> bool)
        returns (delivered: seq<ConnId>, failed: seq<ConnId>)
      ensures delivered == Select(Conns(clients), accepts)
      ensures failed == Select(Conns(clients), c => !accepts(c))
    {
      delivered, failed := [], [];
      var i := 0;
      while i < |clients|
        invariant 0 <= i <= |clients|
        invariant delivered == Select(Conns(clients[..i]), accepts)
        invariant failed == Select(Conns(clients[..i]), c => !accepts(c))
      {
        var rc := clients[i];
        assert Conns(clients[..i + 1]) == Conns(clients[..i]) + [rc.conn];
        SelectAppend(Conns(clients[..i]), rc.conn, accepts);
        SelectAppend(Conns(clients[..i]), rc.conn, c => !accepts(c));
        if accepts(rc.conn) {
          delivered := delivered + [rc.conn];
        } else {
          failed := failed + [rc.conn];
        }
        i := i + 1;
      }
      assert clients[..i] == clients;
    }

    /** Third phase, under the write lock. */
    method RemoveFailed(channel: ChannelId, failed: seq<ConnId>)
      modifies this
      ensures rooms == if failed == [] then old(rooms) else Without(old(rooms), channel, Elements(failed))
    {
      if |failed| == 0 {
        return;
      }
      if channel in rooms {
        var room := rooms[channel];
        var i := 0;
        OverwriteSame(rooms, channel);
        while i < |failed|
          invariant 0 <= i <= |failed|
          invariant room == old(rooms)[channel] - Elements(failed[..i])
          invariant rooms == old(rooms)[channel := room]
        {
          DropOneMore(old(rooms)[channel], failed, i);
          OverwriteTwice(old(rooms), channel, room, room - {failed[i]});
          room := room - {failed[i]};
          rooms := rooms[channel := room];
          i := i + 1;
        }
        assert failed[..i] == failed;
        if |room| == 0 {
          DropOverwritten(old(rooms), channel, room);
          rooms := rooms - {channel};
        }
      }
    }

    /**
     * A broadcast that no other goroutine interrupts: everyone in the room is written to exactly once,
     * and exactly those whose write failed are dropped.
     */
    method BroadcastToRoom(channel: ChannelId, accepts: ConnId -> bool) returns (delivered: seq<ConnId>)
      modifies this
      ensures Enumerates(delivered, Accepting(old(rooms), channel, accepts))
      ensures forall h, k :: InRoom(rooms, h, k) <==> InRoom(old(rooms), h, k) && (h != channel || accepts(k))
      ensures forall h, k :: InRoom(rooms, h, k) && InRoom(old(rooms), h, k) ==> rooms[h][k] == old(rooms)[h][k]
      ensures NoEmptyRoom(old(rooms)) ==> NoEmptyRoom(rooms)
    {
      var clients := Snapshot(channel);
      var failed;
      delivered, failed := WriteAll(clients, accepts);
      BroadcastOutcome(rooms, channel, Conns(clients), accepts);
      RemoveFailed(channel, failed);
    }
  }

  lemma DropOneMore<C>(room: map<ConnId, C>, failed: seq<ConnId>, i: nat)
    requires i < |failed|
    ensures room - Elements(failed[..i]) - {failed[i]} == room - Elements(failed[..i + 1])
  {
    assert Elements(failed[..i + 1]) == Elements(failed[..i]) + {failed[i]};
  }

  ghost function Conns(clients: seq<RoomConn>): (r: seq<ConnId>)
    ensures |r| == |clients|
    ensures forall i :: 0 <= i < |r| ==> r[i] == clients[i].conn
  {
    seq(|clients|, i requires 0 <= i < |clients| => clients[i].conn)
  }

  /** Every entry carries the client record its connection has in the room. */
  ghost predicate Point(clients: seq<RoomConn>, room: map<ConnId, WsClient>) {
    forall i :: 0 <= i < |clients| ==> clients[i].conn in room && clients[i].client == room[clients[i].conn]
  }

  lemma SnapshotOneMore(clients: seq<RoomConn>, room: map<ConnId, WsClient>, seen: set<ConnId>, conn: ConnId)
    requires Enumerates(Conns(clients), seen) && Point(clients, room) && conn in room && conn !in seen
    ensures Enumerates(Conns(clients + [RoomConn(conn, room[conn])]), seen + {conn})
    ensures Point(clients + [RoomConn(conn, room[conn])], room)
  {
    EnumerateOneMore(Conns(clients), seen, conn);
    assert Conns(clients + [RoomConn(conn, room[conn])]) == Conns(clients) + [conn];
  }

  function Select<T>(s: seq<T>, keep: T -> bool): seq<T> {
    if s == [] then []
    else if keep(s[0]) then [s[0]] + Select(s[1..], keep)
    else Select(s[1..], keep)
  }

  lemma {:induction false} SelectAppend<T>(s: seq<T>, x: T, keep: T -> bool)
    ensures Select(s + [x], keep) == Select(s, keep) + if keep(x) then [x] else []
  {
    if s == [] {
      assert ([] + [x])[1..] == [];
    } else {
      assert (s + [x])[1..] == s[1..] + [x];
      SelectAppend(s[1..], x, keep);
    }
  }

  lemma {:induction false} SelectIsSelection<T>(s: seq<T>, keep: T -> bool)
    ensures forall x :: x in Select(s, keep) <==> x in s && keep(x)
    ensures Distinct(s) ==> Distinct(Select(s, keep))
  {
    if s != [] {
      SelectIsSelection(s[1..], keep);
      assert s == [s[0]] + s[1..];
    }
  }

  ghost predicate AreMembers<C>(conns: seq<ConnId>, rooms: Rooms<C>, channel: ChannelId) {
    Enumerates(conns, if channel in rooms then rooms[channel].Keys else {})
  }

  /** The room after the clean-up of a broadcast that wrote to `conns`. */
  function AfterCleanup<C>(rooms: Rooms<C>, channel: ChannelId, conns: seq<ConnId>, accepts: ConnId -> bool): Rooms<C> {
    var failed := Select(conns, c => !accepts(c));
    if failed == [] then rooms else Without(rooms, channel, Elements(failed))
  }

  lemma BroadcastDelivers<C>(rooms: Rooms<C>, channel: ChannelId, conns: seq<ConnId>, accepts: ConnId -> bool)
    requires AreMembers(conns, rooms, channel)
    ensures Enumerates(Select(conns, accepts), Accepting(rooms, channel, accepts))
  {
    SelectIsSelection(conns, accepts);
    assert forall k :: k in Elements(conns) <==> InRoom(rooms, channel, k);
    assert forall k :: k in conns <==> k in Elements(conns);
  }

  /** Whoever did not accept is out of the room; nothing else changes. */
  lemma BroadcastRemoves<C>(rooms: Rooms<C>, channel: ChannelId, conns: seq<ConnId>, accepts: ConnId -> bool,
      h: ChannelId, k: ConnId)
    requires AreMembers(conns, rooms, channel)
    ensures var after := AfterCleanup(rooms, channel, conns, accepts);
            && (InRoom(after, h, k) <==> InRoom(rooms, h, k) && (h != channel || accepts(k)))
            && (InRoom(after, h, k) && InRoom(rooms, h, k) ==> after[h][k] == rooms[h][k])
  {
    var failed := Select(conns, c => !accepts(c));
    SelectIsSelection(conns, c => !accepts(c));
    WithoutMembers(rooms, channel, Elements(failed), h, k);
    assert k in Elements(conns) <==> InRoom(rooms, channel, k);
    assert k in failed <==> k in Elements(conns) && !accepts(k);
  }

  lemma BroadcastOutcome<C>(rooms: Rooms<C>, channel: ChannelId, conns: seq<ConnId>, accepts: ConnId -> bool)
    requires AreMembers(conns, rooms, channel)
    ensures Enumerates(Select(conns, accepts), Accepting(rooms, channel, accepts))
    ensures var after := AfterCleanup(rooms, channel, conns, accepts);
            && (forall h, k :: InRoom(after, h, k) <==> InRoom(rooms, h, k) && (h != channel || accepts(k)))
            && (forall h, k :: InRoom(after, h, k) && InRoom(rooms, h, k) ==> after[h][k] == rooms[h][k])
            && (NoEmptyRoom(rooms) ==> NoEmptyRoom(after))
  {
    var after := AfterCleanup(rooms, channel, conns, accepts);
    BroadcastDelivers(rooms, channel, conns, accepts);
    forall h, k
      ensures InRoom(after, h, k) <==> InRoom(rooms, h, k) && (h != channel || accepts(k))
      ensures InRoom(after, h, k) && InRoom(rooms, h, k) ==> after[h][k] == rooms[h][k]
    {
      BroadcastRemoves(rooms, channel, conns, accepts, h, k);
    }
    if NoEmptyRoom(rooms) {
      WithoutKeepsRoomsNonEmpty(rooms, channel, Elements(Select(conns, c => !accepts(c))));
    }
  }
}

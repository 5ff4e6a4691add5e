/** One broadcast from its snapshot to its last write: the room it saw, and nobody else, gets the message. */
module ChatBroadcasts {
  import opened Prelude
  import opened RoomTable
  import opened ChatRooms
  import opened ChatMachine
  import opened ChatInvariant
  import opened ChatTheorems

  /**
   * Since `t` took the snapshot for `msg`: while it is still writing `msg` it goes by that snapshot, a later
   * message of `t` has a later number, and only connections in `room` have `msg`.
   */
  ghost predicate Tracks(s: State, t: ConnId, msg: Message, snapshot: seq<nat>, room: set<ConnId>) {
    && Shape(s) && IsThread(s, t) && msg.sender == t && msg.number < |s.outbox[t]|
    && (InWritePhase(s.pc[t]) && s.pc[t].msg == msg ==> s.pc[t].snapshot == snapshot)
    && (s.pc[t].SnapshotWait? || s.pc[t].SnapshotHeld? ==> s.pc[t].msg.number > msg.number)
    && (forall c :: c in snapshot ==> RecordIn(s, c, room))
    && (forall k :: IsThread(s, k) ==> HeardBy(s, k, msg, room))
  }

  ghost predicate RecordIn(s: State, c: nat, room: set<ConnId>) {
    c < |s.clients| && s.clients[c].conn in room
  }

  ghost predicate HeardBy(s: State, k: ConnId, msg: Message, room: set<ConnId>)
    requires Shape(s) && IsThread(s, k)
  {
    msg in s.log[k] ==> k in room
  }

  ghost function RoomAt(s: State, h: ChannelId): set<ConnId> {
    if h in s.rooms then s.rooms[h].Keys else {}
  }

  lemma SnapshotTracks(s: State, t: ConnId, order: seq<ConnId>)
    requires Inv(s) && Enabled(s, t, TakeSnapshot(order))
    ensures var s' := SnapshotTaken(s, t, order);
            var snapshot := if s'.pc[t].Writing? then s'.pc[t].snapshot else [];
            Tracks(s', t, s.pc[t].msg, snapshot, RoomAt(s, s.channel[t]))
  {
    var s' := SnapshotTaken(s, t, order);
    var msg := s.pc[t].msg;
    assert InFlight(s, t);
    forall k | IsThread(s', k) ensures msg !in s'.log[k] {
      assert AllBefore(s.log[k], t, msg.number);
    }
    if s.channel[t] in s.rooms {
      var snapshot := s'.pc[t].snapshot;
      forall c | c in snapshot ensures RecordIn(s', c, RoomAt(s, s.channel[t])) {
        var j :| 0 <= j < |snapshot| && snapshot[j] == c;
        SnapshotEntry(s, t, order, j);
        assert order[j] in Elements(order);
      }
    }
  }

  lemma StepTracks(s: State, u: ConnId, a: Action, t: ConnId, msg: Message, snapshot: seq<nat>, room: set<ConnId>)
    requires Inv(s) && Enabled(s, u, a) && Tracks(s, t, msg, snapshot, room)
    ensures Tracks(Apply(s, u, a), t, msg, snapshot, room)
  {
    var s' := Apply(s, u, a);
    assert InFlight(s, u);
    if u == t {
      OwnPcTracks(s, t, a, msg, snapshot, room);
    } else {
      StepUnmoved(s, u, a, t);
    }
    forall c | c in snapshot ensures RecordIn(s', c, room) {
      assert RecordIn(s, c, room);
      RecordStays(s, u, a, c);
    }
    forall k | IsThread(s', k) ensures HeardBy(s', k, msg, room) {
      assert HeardBy(s, k, msg, room);
      LogAfter(s, u, a, k);
      if a.Write? && u == t && s.pc[t].msg == msg {
        assert RecordIn(s, s.pc[t].snapshot[s.pc[t].next], room);
      }
    }
  }

  lemma OwnPcTracks(s: State, t: ConnId, a: Action, msg: Message, snapshot: seq<nat>, room: set<ConnId>)
    requires Tracks(s, t, msg, snapshot, room) && Enabled(s, t, a)
    ensures var s' := Apply(s, t, a);
            && Shape(s') && IsThread(s', t) && msg.number < |s'.outbox[t]|
            && (InWritePhase(s'.pc[t]) && s'.pc[t].msg == msg ==> s'.pc[t].snapshot == snapshot)
            && (s'.pc[t].SnapshotWait? || s'.pc[t].SnapshotHeld? ==> s'.pc[t].msg.number > msg.number)
  {
  }

  lemma RecordStays(s: State, u: ConnId, a: Action, c: nat)
    requires Enabled(s, u, a) && c < |s.clients|
    ensures c < |Apply(s, u, a).clients| && Apply(s, u, a).clients[c].conn == s.clients[c].conn
  {
  }

  /** A step appends to a log at most the stepping goroutine's own message, and only to the client it is writing to. */
  lemma LogAfter(s: State, u: ConnId, a: Action, k: ConnId)
    requires Shape(s) && Enabled(s, u, a) && IsThread(s, k)
    ensures var s' := Apply(s, u, a);
            && Shape(s') && |s'.pc| == |s.pc|
            && (s'.log[k] == s.log[k]
                || (a.Write? && s'.log[k] == s.log[k] + [s.pc[u].msg]
                      && s.clients[s.pc[u].snapshot[s.pc[u].next]].conn == k))
  {
  }

  lemma {:induction false} RunTracks(
      s: State, run: seq<Step>, t: ConnId, msg: Message, snapshot: seq<nat>, room: set<ConnId>)
    requires Inv(s) && Legal(s, run) && Tracks(s, t, msg, snapshot, room)
    ensures Inv(After(s, run)) && Tracks(After(s, run), t, msg, snapshot, room)
    decreases |run|
  {
    if run != [] {
      StepInv(s, run[0].thread, run[0].action);
      StepTracks(s, run[0].thread, run[0].action, t, msg, snapshot, room);
      RunTracks(Apply(s, run[0].thread, run[0].action), run[1..], t, msg, snapshot, room);
    }
  }

  lemma StepKeepsRecords(s: State, u: ConnId, a: Action)
    requires Enabled(s, u, a)
    ensures ClientsStay(s, Apply(s, u, a)) && |Apply(s, u, a).pc| == |s.pc|
  {
    forall c | 0 <= c < |s.clients|
      ensures c < |Apply(s, u, a).clients| && Apply(s, u, a).clients[c].conn == s.clients[c].conn
    {
      RecordStays(s, u, a, c);
    }
  }

  lemma {:induction false} RunKeepsRecords(s: State, run: seq<Step>)
    requires Legal(s, run)
    ensures ClientsStay(s, After(s, run)) && |After(s, run).pc| == |s.pc|
    decreases |run|
  {
    if run != [] {
      StepKeepsRecords(s, run[0].thread, run[0].action);
      RunKeepsRecords(Apply(s, run[0].thread, run[0].action), run[1..]);
    }
  }

  /** The state in which the snapshot has just been taken, and what any run from there keeps. */
  lemma AfterSnapshot(s: State, t: ConnId, order: seq<ConnId>, run: seq<Step>)
    requires Inv(s) && Enabled(s, t, TakeSnapshot(order)) && Legal(SnapshotTaken(s, t, order), run)
    ensures var s1 := SnapshotTaken(s, t, order);
            var s' := After(s1, run);
            var snapshot := if s1.pc[t].Writing? then s1.pc[t].snapshot else [];
            && Inv(s') && Tracks(s', t, s.pc[t].msg, snapshot, RoomAt(s, s.channel[t]))
            && ClientsStay(s1, s') && |s'.pc| == |s.pc|
  {
    var s1 := SnapshotTaken(s, t, order);
    var snapshot := if s1.pc[t].Writing? then s1.pc[t].snapshot else [];
    SnapshotTracks(s, t, order);
    StepInv(s, t, TakeSnapshot(order));
    RunTracks(s1, run, t, s.pc[t].msg, snapshot, RoomAt(s, s.channel[t]));
    RunKeepsRecords(s1, run);
  }

  /** Whatever runs after the snapshot, nobody gets the message who was not in the room when it was taken. */
  lemma OnlyTheRoomHears(s: State, t: ConnId, order: seq<ConnId>, run: seq<Step>, k: ConnId)
    requires Reachable(s) && Enabled(s, t, TakeSnapshot(order)) && Legal(SnapshotTaken(s, t, order), run)
    requires IsThread(s, k)
    ensures var s' := After(SnapshotTaken(s, t, order), run);
            && Shape(s') && IsThread(s', k)
            && (s.pc[t].msg in s'.log[k] ==> InRoom(s.rooms, s.channel[t], k))
  {
    ReachableInv(s);
    AfterSnapshot(s, t, order, run);
    assert HeardBy(After(SnapshotTaken(s, t, order), run), k, s.pc[t].msg, RoomAt(s, s.channel[t]));
  }

  lemma FinishedBroadcast(s: State, t: ConnId, c: nat)
    requires Inv(s) && Enabled(s, t, FinishWrites) && c in s.pc[t].snapshot
    ensures c < |s.clients| && IsThread(s, s.clients[c].conn)
    ensures s.clients[c].conn !in s.closed ==> s.pc[t].msg in s.log[s.clients[c].conn]
  {
    var j :| 0 <= j < |s.pc[t].snapshot| && s.pc[t].snapshot[j] == c;
    BroadcastReachesSnapshot(s, t, j);
  }

  /**
   * From snapshot to last write, whatever runs in between: when the writes are done, a connection that has not been
   * closed has the message exactly when it was in the room as the snapshot was taken.
   */
  lemma BroadcastReachesTheRoom(s: State, t: ConnId, order: seq<ConnId>, run: seq<Step>, k: ConnId)
    requires Reachable(s) && Enabled(s, t, TakeSnapshot(order)) && Legal(SnapshotTaken(s, t, order), run)
    requires var s' := After(SnapshotTaken(s, t, order), run);
             Enabled(s', t, FinishWrites) && s'.pc[t].msg == s.pc[t].msg && k !in s'.closed
    requires IsThread(s, k) && s.channel[t] in s.rooms
    ensures var s' := After(SnapshotTaken(s, t, order), run);
            && Shape(s') && IsThread(s', k)
            && (s.pc[t].msg in s'.log[k] <==> InRoom(s.rooms, s.channel[t], k))
  {
    OnlyTheRoomHears(s, t, order, run, k);
    if InRoom(s.rooms, s.channel[t], k) {
      ReachableInv(s);
      AfterSnapshot(s, t, order, run);
      SnapshotIsTheRoom(s, t, order);
      FinishedBroadcast(After(SnapshotTaken(s, t, order), run), t, s.rooms[s.channel[t]][k]);
    }
  }
}

/** What the chat protocol guarantees in every reachable state, whatever the interleaving. */
module ChatTheorems {
  import opened Prelude
  import opened RoomTable
  import opened ChatRooms
  import opened ChatMachine
  import opened ChatInvariant

  ghost predicate Reachable(s: State) {
    exists s0, run :: Init(s0) && Legal(s0, run) && After(s0, run) == s
  }

  lemma ReachableInv(s: State)
    requires Reachable(s)
    ensures Inv(s)
  {
    var s0, run :| Init(s0) && Legal(s0, run) && After(s0, run) == s;
    InitInv(s0);
    RunInv(s0, run);
  }

  // ----- delivery -----

  /** `a` can be read off `b` by going forward through `b` and skipping some entries. */
  ghost predicate Subsequence<T>(a: seq<T>, b: seq<T>) {
    exists at: seq<nat> :: Picks(a, b, at)
  }

  ghost predicate Picks<T>(a: seq<T>, b: seq<T>, at: seq<nat>) {
    && |at| == |a|
    && (forall i, j :: 0 <= i < j < |at| ==> at[i] < at[j])
    && (forall i :: 0 <= i < |at| ==> at[i] < |b| && b[at[i]] == a[i])
  }

  function From(log: seq<Message>, sender: ConnId): seq<Message> {
    Select(log, (m: Message) => m.sender == sender)
  }

  lemma {:induction false} FromKeepsOrder(log: seq<Message>, sender: ConnId)
    requires OrderedBySender(log)
    ensures forall i :: 0 <= i < |From(log, sender)| ==>
              From(log, sender)[i] in log && From(log, sender)[i].sender == sender
    ensures forall i, j :: 0 <= i < j < |From(log, sender)| ==>
              From(log, sender)[i].number < From(log, sender)[j].number
  {
    if log != [] {
      var rest := From(log[1..], sender);
      FromKeepsOrder(log[1..], sender);
      forall i | 0 <= i < |rest|
        ensures rest[i] in log && (log[0].sender == sender ==> log[0].number < rest[i].number)
      {
        var j :| 0 <= j < |log[1..]| && log[1..][j] == rest[i];
        assert log[j + 1] == rest[i];
      }
    }
  }

  /**
   * What a connection received from one sender is a subsequence of what that sender sent:
   * in the sender's order and no message twice.
   */
  lemma DeliveryInOrder(s: State, conn: ConnId, sender: ConnId)
    requires Reachable(s) && IsThread(s, conn) && IsThread(s, sender)
    ensures Shape(s) && Subsequence(From(s.log[conn], sender), s.outbox[sender])
    ensures Distinct(From(s.log[conn], sender))
  {
    ReachableInv(s);
    var got := From(s.log[conn], sender);
    FromKeepsOrder(s.log[conn], sender);
    var at := seq(|got|, i requires 0 <= i < |got| => got[i].number);
    forall i | 0 <= i < |got| ensures got[i].number < |s.outbox[sender]| && s.outbox[sender][got[i].number] == got[i] {
      var j :| 0 <= j < |s.log[conn]| && s.log[conn][j] == got[i];
      assert WasSent(s, s.log[conn][j]);
    }
    assert Picks(got, s.outbox[sender], at);
  }

  /** Messages stay in their channel: a frame reaches only connections that joined the sender's channel. */
  lemma DeliveryStaysInChannel(s: State, conn: ConnId, m: Message)
    requires Reachable(s) && IsThread(s, conn) && Shape(s) && m in s.log[conn]
    ensures IsThread(s, m.sender) && s.channel[m.sender] == s.channel[conn] && m in s.outbox[m.sender]
  {
    ReachableInv(s);
    var i :| 0 <= i < |s.log[conn]| && s.log[conn][i] == m;
    assert WasSent(s, s.log[conn][i]);
  }

  /** A snapshot names exactly the members the room has at that moment, each once. */
  lemma SnapshotIsTheRoom(s: State, t: ConnId, order: seq<ConnId>)
    requires Reachable(s) && Enabled(s, t, TakeSnapshot(order)) && s.channel[t] in s.rooms
    ensures var s' := Apply(s, t, TakeSnapshot(order));
            && s'.pc[t].Writing? && s'.pc[t].next == 0 && Distinct(s'.pc[t].snapshot)
            && (forall c :: c in s'.pc[t].snapshot ==> c < |s.clients| && s.clients[c].conn in s.rooms[s.channel[t]])
            && (forall k :: k in s.rooms[s.channel[t]] ==>
                  s.rooms[s.channel[t]][k] in s'.pc[t].snapshot && s.clients[s.rooms[s.channel[t]][k]].conn == k)
  {
    ReachableInv(s);
    var h := s.channel[t];
    var snapshot := Apply(s, t, TakeSnapshot(order)).pc[t].snapshot;
    forall j | 0 <= j < |snapshot|
      ensures snapshot[j] < |s.clients| && s.clients[snapshot[j]].conn == order[j] && order[j] in s.rooms[h]
    {
      assert order[j] in Elements(order);
      assert InRoom(s.rooms, h, order[j]);
    }
    forall k | k in s.rooms[h] ensures s.rooms[h][k] in snapshot && s.clients[s.rooms[h][k]].conn == k {
      assert k in Elements(order);
      var j :| 0 <= j < |order| && order[j] == k;
      assert snapshot[j] == s.rooms[h][k];
      assert InRoom(s.rooms, h, k);
    }
  }

  /** When a broadcast has been through its snapshot, each connection of it got the message or was closed as failed. */
  lemma BroadcastReachesSnapshot(s: State, t: ConnId, j: nat)
    requires Inv(s) && Enabled(s, t, FinishWrites) && j < |s.pc[t].snapshot|
    ensures s.pc[t].snapshot[j] < |s.clients|
    ensures var conn := s.clients[s.pc[t].snapshot[j]].conn;
            && IsThread(s, conn)
            && (s.pc[t].msg in s.log[conn] || (conn in s.pc[t].failed && conn in s.closed))
  {
    assert InFlight(s, t);
    var conn := s.clients[s.pc[t].snapshot[j]].conn;
    assert Served(s, t, conn);
    if conn in s.pc[t].failed {
      assert conn in FailedOf(s.pc[t]);
    }
  }

  // ----- locks -----

  datatype Lock = Table | OfClient(client: nat)

  ghost predicate Holds(s: State, t: ConnId, l: Lock) {
    match l
    case Table => s.writer == Some(t) || t in s.readers
    case OfClient(c) => c < |s.clients| && s.clients[c].holder == Some(t)
  }

  lemma NeverTwoLocks(s: State, t: ConnId, l: Lock, m: Lock)
    requires Reachable(s) && Holds(s, t, l) && Holds(s, t, m)
    ensures l == m
  {
    ReachableInv(s);
  }

  /** Two goroutines never write broadcast frames to one socket at once, through the same record or through two. */
  lemma OneWriterPerConnection(s: State, t: ConnId, u: ConnId)
    requires Reachable(s) && IsThread(s, t) && IsThread(s, u) && s.pc[t].WriteHeld? && s.pc[u].WriteHeld?
    ensures MoreToWrite(s.pc[t]) && s.pc[t].snapshot[s.pc[t].next] < |s.clients|
    ensures MoreToWrite(s.pc[u]) && s.pc[u].snapshot[s.pc[u].next] < |s.clients|
    ensures s.clients[s.pc[t].snapshot[s.pc[t].next]].conn == s.clients[s.pc[u].snapshot[s.pc[u].next]].conn ==> t == u
  {
    ReachableInv(s);
  }

  /** The room table is never read or changed while another goroutine changes it. */
  lemma TableIsRaceFree(s: State, t: ConnId, a: Action, u: ConnId, b: Action)
    requires Reachable(s) && Enabled(s, t, a) && Enabled(s, u, b) && t != u
    requires a.Join? || a.Cleanup? || a.Leave?
    ensures !(b.Join? || b.Cleanup? || b.Leave? || b.TakeSnapshot?)
  {
    ReachableInv(s);
    assert s.writer == Some(t);
  }

  /** What Go's locks make a goroutine wait for, a pending writer included: it blocks new readers. */
  ghost predicate Blocked(s: State, t: ConnId)
    requires IsThread(s, t)
  {
    var pc := s.pc[t];
    || (WantsWriteLock(pc) && (s.writer.Some? || s.readers != {}))
    || (pc.SnapshotWait? && (s.writer.Some? || exists u :: IsThread(s, u) && WantsWriteLock(s.pc[u])))
    || (pc.Writing? && MoreToWrite(pc) && pc.snapshot[pc.next] < |s.clients|
          && s.clients[pc.snapshot[pc.next]].holder.Some?)
  }

  ghost predicate CanStep(s: State, t: ConnId) {
    IsThread(s, t) && !Blocked(s, t) && exists a :: Enabled(s, t, a)
  }

  lemma UnblockedCanStep(s: State, t: ConnId)
    requires Inv(s) && IsThread(s, t) && !s.pc[t].Returned? && !Blocked(s, t)
    ensures CanStep(s, t)
  {
    assert InFlight(s, t);
    match s.pc[t] {
      case Starting => assert Enabled(s, t, Admit(true));
      case JoinHeld => assert Enabled(s, t, Join);
      case Reading => assert Enabled(s, t, ReadError);
      case SnapshotHeld(msg) => SnapshotExists(s, t);
      case Writing(msg, snapshot, next, failed) =>
        if next < |snapshot| {
          assert Enabled(s, t, Acquire);
        } else {
          assert Enabled(s, t, FinishWrites);
        }
      case WriteHeld(msg, snapshot, next, failed) =>
        assert Target(s, t, snapshot[next]);
        assert Enabled(s, t, Write(false));
      case WriteFailed(msg, snapshot, next, failed) => assert Enabled(s, t, CloseFailed);
      case CleanupHeld(failed) => assert Enabled(s, t, Cleanup);
      case LeaveHeld => assert Enabled(s, t, Leave);
      case HangingUp => assert Enabled(s, t, HangUp);
      case JoinWait => assert Enabled(s, t, Acquire);
      case SnapshotWait(msg) => assert Enabled(s, t, Acquire);
      case CleanupWait(failed) => assert Enabled(s, t, Acquire);
      case LeaveWait => assert Enabled(s, t, Acquire);
      case Returned => assert false;
    }
  }

  lemma SnapshotExists(s: State, t: ConnId)
    requires Shape(s) && IsThread(s, t) && s.pc[t].SnapshotHeld?
    ensures exists a :: Enabled(s, t, a)
  {
    var h := s.channel[t];
    var order := SomeOrder(if h in s.rooms then s.rooms[h].Keys else {});
    assert Enabled(s, t, TakeSnapshot(order));
  }

  lemma {:induction false} SomeOrder<T>(all: set<T>) returns (order: seq<T>)
    ensures Enumerates(order, all)
    decreases |all|
  {
    order := [];
    if all != {} {
      var x :| x in all;
      order := SomeOrder(all - {x});
      EnumerateOneMore(order, all - {x}, x);
      order := order + [x];
      assert all - {x} + {x} == all;
    }
  }

  /** Whoever holds a lock can take a step. */
  lemma HoldersCanStep(s: State, t: ConnId, l: Lock)
    requires Inv(s) && Holds(s, t, l)
    ensures CanStep(s, t)
  {
    UnblockedCanStep(s, t);
  }

  /** And whatever step it takes releases the lock. */
  lemma HolderStepReleases(s: State, t: ConnId, l: Lock, a: Action)
    requires Inv(s) && Holds(s, t, l) && Enabled(s, t, a)
    ensures !Holds(Apply(s, t, a), t, l)
  {
    match l {
      case Table => assert HasWriteLock(s.pc[t]) || s.pc[t].SnapshotHeld?;
      case OfClient(c) => assert s.pc[t].WriteHeld? && WritesTo(s, t, c);
    }
  }

  /** No deadlock: while any goroutine has not returned, some goroutine can step. */
  lemma NoDeadlock(s: State, t: ConnId)
    requires Reachable(s) && IsThread(s, t) && !s.pc[t].Returned?
    ensures exists u :: CanStep(s, u)
  {
    ReachableInv(s);
    if !Blocked(s, t) {
      UnblockedCanStep(s, t);
    } else if s.writer.Some? {
      HoldersCanStep(s, s.writer.value, Table);
    } else if s.readers != {} {
      var u := SomeMember(s.readers);
      HoldersCanStep(s, u, Table);
    } else if s.pc[t].Writing? {
      var c := s.pc[t].snapshot[s.pc[t].next];
      HoldersCanStep(s, s.clients[c].holder.value, OfClient(c));
    } else {
      var u :| IsThread(s, u) && WantsWriteLock(s.pc[u]);
      UnblockedCanStep(s, u);
    }
  }

  // ----- membership -----

  /** A connection is in a room iff it joined it, has not left, and was not removed as failed; no room is empty. */
  lemma RoomsAreExact(s: State, h: ChannelId, k: ConnId)
    requires Reachable(s)
    ensures Shape(s) && NoEmptyRoom(s.rooms)
    ensures InRoom(s.rooms, h, k) <==>
              IsThread(s, k) && s.channel[k] == h && k in s.joined && k !in s.left && k !in s.removed
    ensures k in s.removed ==> k in s.closed
  {
    ReachableInv(s);
  }

  /** Once every handler has returned the table is empty, whatever broadcasts raced with leaves. */
  lemma NothingLeaks(s: State)
    requires Reachable(s) && forall t :: IsThread(s, t) ==> s.pc[t].Returned?
    ensures s.rooms == map[]
  {
    ReachableInv(s);
    if s.rooms != map[] {
      assert s.rooms.Keys != {};
      var h := SomeMember(s.rooms.Keys);
      assert s.rooms[h] != map[];
      var k := SomeMember(s.rooms[h].Keys);
      assert InRoom(s.rooms, h, k);
    }
  }
}

/**
 * What becomes of connections that failed, and of every message received: a closed connection leaves its room by
 * the time the broadcast that closed it is over, and no message is dropped on the way to the room.
 */
module ChatCleanup {
  import opened Prelude
  import opened RoomTable
  import opened ChatRooms
  import opened ChatMachine
  import opened ChatInvariant
  import opened ChatTheorems
  import opened ChatBroadcasts

  // ----- closed connections -----

  ghost predicate IsListed(s: State, k: ConnId) {
    exists t :: IsThread(s, t) && k in FailedOf(s.pc[t])
  }

  /** Whoever is closed and in a room is on the list of a goroutine that is still to clean up. */
  ghost predicate ClosedAreListed(s: State) {
    forall h, k :: InRoom(s.rooms, h, k) && k in s.closed ==> IsListed(s, k)
  }

  /** Nobody is closed before joining, other than by hanging up. */
  ghost predicate ClosedHaveJoined(s: State) {
    forall k :: k in s.closed ==> IsThread(s, k) && (k in s.joined || s.pc[k].Returned?)
  }

  ghost predicate CleanInv(s: State) {
    Inv(s) && ClosedAreListed(s) && ClosedHaveJoined(s)
  }

  /** What a step does to a list of failures: it stays, unless a clean-up takes it off together with its members. */
  lemma FailedStays(s: State, t: ConnId, a: Action, u: ConnId, k: ConnId)
    requires Inv(s) && Enabled(s, t, a) && IsThread(s, u) && k in FailedOf(s.pc[u])
    ensures var s' := Apply(s, t, a);
            IsThread(s', u) && (k in FailedOf(s'.pc[u]) || k in s'.removed)
  {
    if u == t {
      match a {
        case Acquire => assert FailedOf(AcquireLock(s, t).pc[t]) == FailedOf(s.pc[t]);
        case Write(ok) => assert FailedOf(WriteFrame(s, t, ok).pc[t]) == FailedOf(s.pc[t]);
        case CloseFailed => assert k in Apply(s, t, a).pc[t].failed;
        case _ =>
      }
    }
  }

  /** Only a failed write, or hanging up, closes a connection. */
  lemma ClosedAfter(s: State, t: ConnId, a: Action, k: ConnId)
    requires Inv(s) && Enabled(s, t, a) && k in Apply(s, t, a).closed && k !in s.closed
    ensures (a.HangUp? && k == t) || (a.CloseFailed? && k in FailedOf(Apply(s, t, a).pc[t]))
  {
    if a.CloseFailed? {
      var conn := s.clients[s.pc[t].snapshot[s.pc[t].next]].conn;
      var failed := Apply(s, t, a).pc[t].failed;
      assert failed[|failed| - 1] == conn;
    }
  }

  lemma StepClosedAreListed(s: State, t: ConnId, a: Action)
    requires CleanInv(s) && Enabled(s, t, a)
    ensures ClosedAreListed(Apply(s, t, a))
  {
    var s' := Apply(s, t, a);
    StepInv(s, t, a);
    forall h, k | InRoom(s'.rooms, h, k) && k in s'.closed ensures IsListed(s', k) {
      assert ShouldBeIn(s', h, k);
      RoomsAfter(s, t, a, h, k);
      if k in s.closed {
        if InRoom(s.rooms, h, k) {
          var u :| IsThread(s, u) && k in FailedOf(s.pc[u]);
          FailedStays(s, t, a, u, k);
        } else {
          assert false;
        }
      } else {
        ClosedAfter(s, t, a, k);
        assert a.CloseFailed?;
        assert IsThread(s', t) && k in FailedOf(s'.pc[t]);
      }
    }
  }

  lemma StepClosedHaveJoined(s: State, t: ConnId, a: Action)
    requires CleanInv(s) && Enabled(s, t, a)
    ensures ClosedHaveJoined(Apply(s, t, a))
  {
    var s' := Apply(s, t, a);
    StepInv(s, t, a);
    forall k | k in s'.closed ensures IsThread(s', k) && (k in s'.joined || s'.pc[k].Returned?) {
      if k in s.closed {
        JoinedStay(s, t, a, k);
      } else {
        ClosedAfter(s, t, a, k);
      }
    }
  }

  lemma JoinedStay(s: State, t: ConnId, a: Action, k: ConnId)
    requires Shape(s) && Enabled(s, t, a) && IsThread(s, k)
    ensures var s' := Apply(s, t, a);
            && Shape(s') && |s'.pc| == |s.pc| && s.joined <= s'.joined && s.removed <= s'.removed
            && (s.pc[k].Returned? ==> s'.pc[k].Returned?)
  {
  }

  lemma {:induction false} RunClean(s: State, run: seq<Step>)
    requires CleanInv(s) && Legal(s, run)
    ensures CleanInv(After(s, run))
    decreases |run|
  {
    if run != [] {
      StepInv(s, run[0].thread, run[0].action);
      StepClosedAreListed(s, run[0].thread, run[0].action);
      StepClosedHaveJoined(s, run[0].thread, run[0].action);
      RunClean(Apply(s, run[0].thread, run[0].action), run[1..]);
    }
  }

  lemma ReachableClean(s: State)
    requires Reachable(s)
    ensures CleanInv(s)
  {
    var s0, run :| Init(s0) && Legal(s0, run) && After(s0, run) == s;
    InitInv(s0);
    RunClean(s0, run);
  }

  /** A closed connection still in a room is on the list of a goroutine that is writing or is to clean up. */
  lemma ClosedInRoomIsListed(s: State, h: ChannelId, k: ConnId)
    requires Reachable(s) && InRoom(s.rooms, h, k) && k in s.closed
    ensures Shape(s) && exists t :: IsThread(s, t) && k in FailedOf(s.pc[t]) && s.channel[t] == h
  {
    ReachableClean(s);
    var t :| IsThread(s, t) && k in FailedOf(s.pc[t]);
    assert ShouldBeIn(s, h, k);
  }

  /** So when no broadcast is under way no closed connection is in any room. */
  lemma QuietRoomsAreOpen(s: State, h: ChannelId, k: ConnId)
    requires Reachable(s) && InRoom(s.rooms, h, k)
    requires forall t :: IsThread(s, t) ==> !InWritePhase(s.pc[t]) && !s.pc[t].CleanupWait? && !s.pc[t].CleanupHeld?
    ensures k !in s.closed
  {
    assert forall t :: IsThread(s, t) ==> FailedOf(s.pc[t]) == [];
    if k in s.closed {
      ClosedInRoomIsListed(s, h, k);
    }
  }

  lemma {:induction false} RunFailedStays(s: State, run: seq<Step>, t: ConnId, k: ConnId)
    requires Inv(s) && Legal(s, run) && IsThread(s, t) && (k in FailedOf(s.pc[t]) || k in s.removed)
    ensures Inv(After(s, run)) && IsThread(After(s, run), t)
    ensures k in FailedOf(After(s, run).pc[t]) || k in After(s, run).removed
    decreases |run|
  {
    if run != [] {
      var u, a := run[0].thread, run[0].action;
      if k !in s.removed {
        FailedStays(s, u, a, t, k);
      }
      JoinedStay(s, u, a, t);
      StepInv(s, u, a);
      RunFailedStays(Apply(s, u, a), run[1..], t, k);
    }
  }

  /** When a broadcast that listed a connection as failed is over, the connection is in no room, for good. */
  lemma FailedAreRemoved(s: State, run: seq<Step>, t: ConnId, k: ConnId, h: ChannelId)
    requires Reachable(s) && Legal(s, run) && IsThread(s, t) && k in FailedOf(s.pc[t])
    ensures var s' := After(s, run);
            && IsThread(s', t)
            && (s'.pc[t].Reading? ==> !InRoom(s'.rooms, h, k))
  {
    ReachableInv(s);
    RunFailedStays(s, run, t, k);
  }

  ghost predicate ReturnedClosed(s: State) {
    forall t :: IsThread(s, t) && s.pc[t].Returned? ==> t in s.closed
  }

  lemma StepReturnedClosed(s: State, t: ConnId, a: Action)
    requires Shape(s) && Enabled(s, t, a) && ReturnedClosed(s)
    ensures ReturnedClosed(Apply(s, t, a))
  {
    var s' := Apply(s, t, a);
    assert s.closed <= s'.closed && s'.pc == s.pc[t := s'.pc[t]];
    assert s'.pc[t].Returned? ==> a.HangUp? || s.pc[t].Returned?;
  }

  lemma {:induction false} RunReturnedClosed(s: State, run: seq<Step>)
    requires Inv(s) && Legal(s, run) && ReturnedClosed(s)
    ensures ReturnedClosed(After(s, run))
    decreases |run|
  {
    if run != [] {
      StepInv(s, run[0].thread, run[0].action);
      StepReturnedClosed(s, run[0].thread, run[0].action);
      RunReturnedClosed(Apply(s, run[0].thread, run[0].action), run[1..]);
    }
  }

  /** A handler that has returned has closed its connection. */
  lemma ReturnedAreClosed(s: State, t: ConnId)
    requires Reachable(s) && IsThread(s, t) && s.pc[t].Returned?
    ensures t in s.closed
  {
    var s0, run :| Init(s0) && Legal(s0, run) && After(s0, run) == s;
    InitInv(s0);
    RunReturnedClosed(s0, run);
  }

  // ----- how a handler comes in and goes out -----

  ghost predicate Took(run: seq<Step>, t: ConnId, a: Action) {
    exists i :: 0 <= i < |run| && run[i] == Step(t, a)
  }

  /** Nobody is in before being admitted; once in, nobody is on the way out before a read has failed. */
  ghost predicate ByTheDoor(s: State, run: seq<Step>, t: ConnId)
    requires IsThread(s, t)
  {
    && (t in s.joined || s.pc[t].JoinWait? || s.pc[t].JoinHeld? ==> Took(run, t, Admit(true)))
    && (t in s.joined && (s.pc[t].LeaveWait? || s.pc[t].LeaveHeld? || AfterLeave(s.pc[t])) ==> Took(run, t, ReadError))
    && (t in s.left ==> Took(run, t, ReadError))
  }

  lemma StepByTheDoor(s: State, run: seq<Step>, u: ConnId, a: Action, t: ConnId)
    requires Inv(s) && Enabled(s, u, a) && IsThread(s, t) && ByTheDoor(s, run, t)
    ensures IsThread(Apply(s, u, a), t) && ByTheDoor(Apply(s, u, a), run + [Step(u, a)], t)
  {
    var run' := run + [Step(u, a)];
    assert run'[|run|] == Step(u, a);
    forall b | Took(run, t, b) ensures Took(run', t, b) {
      var i :| 0 <= i < |run| && run[i] == Step(t, b);
      assert run'[i] == Step(t, b);
    }
    if u == t {
      OwnDoor(s, a, t);
    }
  }

  lemma OwnDoor(s: State, a: Action, t: ConnId)
    requires Inv(s) && Enabled(s, t, a)
    ensures var s' := Apply(s, t, a);
            && |s'.pc| == |s.pc|
            && (s'.pc[t].JoinWait? ==> a == Admit(true))
            && (s'.pc[t].JoinHeld? ==> s.pc[t].JoinWait?)
            && (t in s'.joined ==> t in s.joined || s.pc[t].JoinHeld?)
            && (t in s'.joined && s'.pc[t].LeaveWait? ==> a == ReadError)
            && (s'.pc[t].LeaveHeld? ==> s.pc[t].LeaveWait?)
            && (t in s'.left ==> t in s.left || s.pc[t].LeaveHeld?)
            && (t in s'.joined && AfterLeave(s'.pc[t]) ==> t in s'.left)
  {
    if a.Acquire? {
      var s' := AcquireLock(s, t);
      assert s'.joined == s.joined && s'.left == s.left && !s'.pc[t].JoinWait? && !s'.pc[t].LeaveWait?;
    } else if a.Write? {
      assert InWritePhase(WriteFrame(s, t, a.ok).pc[t]);
    }
  }

  lemma {:induction false} RunByTheDoor(done: seq<Step>, s: State, run: seq<Step>, t: ConnId)
    requires Inv(s) && Legal(s, run) && IsThread(s, t) && ByTheDoor(s, done, t)
    ensures IsThread(After(s, run), t) && ByTheDoor(After(s, run), done + run, t)
    decreases |run|
  {
    if run == [] {
      assert done + run == done;
    } else {
      StepInv(s, run[0].thread, run[0].action);
      StepByTheDoor(s, done, run[0].thread, run[0].action, t);
      RunByTheDoor(done + [run[0]], Apply(s, run[0].thread, run[0].action), run[1..], t);
      assert done + [run[0]] + run[1..] == done + run;
    }
  }

  /**
   * A connection is in a room only if it was admitted, and stays until a read of its own fails or a write to it has.
   */
  lemma ComesAndGoes(s0: State, run: seq<Step>, t: ConnId)
    requires Init(s0) && Legal(s0, run) && IsThread(s0, t)
    ensures var s := After(s0, run);
            && IsThread(s, t) && Shape(s)
            && (t in s.joined ==> Took(run, t, Admit(true)))
            && (t in s.joined && !Took(run, t, ReadError) && t !in s.removed ==> InRoom(s.rooms, s.channel[t], t))
  {
    InitInv(s0);
    RunInv(s0, run);
    RunByTheDoor([], s0, run, t);
    assert [] + run == run;
    var s := After(s0, run);
    if t in s.joined && !Took(run, t, ReadError) && t !in s.removed {
      assert ShouldBeIn(s, s.channel[t], t);
    }
  }

  // ----- no message is dropped -----

  /** `k` is still to be written to in this broadcast. */
  ghost predicate IsNext(s: State, t: ConnId, msg: Message, k: ConnId)
    requires IsThread(s, t)
  {
    && InWritePhase(s.pc[t]) && s.pc[t].msg == msg
    && exists j :: s.pc[t].next <= j < |s.pc[t].snapshot| && IsRecordOf(s, s.pc[t].snapshot[j], k)
  }

  predicate IsRecordOf(s: State, c: nat, k: ConnId) {
    c < |s.clients| && s.clients[c].conn == k
  }

  /** What a broadcast of `t` owes to `k`: it is to be written to, has the message, or is, or has been, cleaned up. */
  ghost predicate Dealt(s: State, t: ConnId, msg: Message, k: ConnId)
    requires Shape(s) && IsThread(s, t) && IsThread(s, k)
  {
    IsNext(s, t, msg, k) || msg in s.log[k] || k in FailedOf(s.pc[t]) || k in s.removed
  }

  lemma StepDealt(s: State, u: ConnId, a: Action, t: ConnId, msg: Message, k: ConnId)
    requires Inv(s) && Enabled(s, u, a) && IsThread(s, t) && IsThread(s, k) && Dealt(s, t, msg, k)
    ensures var s' := Apply(s, u, a);
            Shape(s') && IsThread(s', t) && IsThread(s', k) && Dealt(s', t, msg, k)
  {
    JoinedStay(s, u, a, k);
    if msg in s.log[k] {
      LogGrows(s, u, a, k, msg);
    } else if k in FailedOf(s.pc[t]) {
      FailedStays(s, u, a, t, k);
    } else if k !in s.removed {
      if u == t {
        OwnStepDealt(s, t, a, msg, k);
      } else {
        StillNext(s, u, a, t, msg, k);
      }
    }
  }

  lemma LogGrows(s: State, u: ConnId, a: Action, k: ConnId, msg: Message)
    requires Inv(s) && Enabled(s, u, a) && IsThread(s, k) && msg in s.log[k]
    ensures Shape(Apply(s, u, a)) && IsThread(Apply(s, u, a), k) && msg in Apply(s, u, a).log[k]
  {
    LogAfter(s, u, a, k);
  }

  lemma StillNext(s: State, u: ConnId, a: Action, t: ConnId, msg: Message, k: ConnId)
    requires Inv(s) && Enabled(s, u, a) && IsThread(s, t) && u != t && IsNext(s, t, msg, k)
    ensures IsThread(Apply(s, u, a), t) && IsNext(Apply(s, u, a), t, msg, k)
  {
    var s' := Apply(s, u, a);
    assert InFlight(s, u);
    StepUnmoved(s, u, a, t);
    var j :| s.pc[t].next <= j < |s.pc[t].snapshot| && IsRecordOf(s, s.pc[t].snapshot[j], k);
    assert IsRecordOf(s', s'.pc[t].snapshot[j], k);
  }

  lemma OwnStepDealt(s: State, t: ConnId, a: Action, msg: Message, k: ConnId)
    requires Inv(s) && Enabled(s, t, a) && IsThread(s, k) && IsNext(s, t, msg, k)
    ensures var s' := Apply(s, t, a);
            Shape(s') && IsThread(s', t) && IsThread(s', k) && Dealt(s', t, msg, k)
  {
    match a {
      case Acquire =>
        var j :| s.pc[t].next <= j < |s.pc[t].snapshot| && IsRecordOf(s, s.pc[t].snapshot[j], k);
        var s' := AcquireLock(s, t);
        assert IsRecordOf(s', s'.pc[t].snapshot[j], k);
      case Write(ok) => WriteDeals(s, t, ok, msg, k);
      case CloseFailed => CloseDeals(s, t, msg, k);
      case _ =>
    }
  }

  lemma WriteDeals(s: State, t: ConnId, ok: bool, msg: Message, k: ConnId)
    requires Inv(s) && Enabled(s, t, Write(ok)) && IsThread(s, k) && IsNext(s, t, msg, k)
    ensures var s' := WriteFrame(s, t, ok);
            Shape(s') && IsThread(s', t) && IsThread(s', k) && Dealt(s', t, msg, k)
  {
    var j :| s.pc[t].next <= j < |s.pc[t].snapshot| && IsRecordOf(s, s.pc[t].snapshot[j], k);
    var s' := WriteFrame(s, t, ok);
    if ok && j == s.pc[t].next {
      assert s'.log[k][|s.log[k]|] == msg;
    } else {
      assert IsRecordOf(s', s'.pc[t].snapshot[j], k);
    }
  }

  lemma CloseDeals(s: State, t: ConnId, msg: Message, k: ConnId)
    requires Inv(s) && Enabled(s, t, CloseFailed) && IsThread(s, k) && IsNext(s, t, msg, k)
    ensures var s' := Apply(s, t, CloseFailed);
            Shape(s') && IsThread(s', t) && IsThread(s', k) && Dealt(s', t, msg, k)
  {
    var j :| s.pc[t].next <= j < |s.pc[t].snapshot| && IsRecordOf(s, s.pc[t].snapshot[j], k);
    var s' := Apply(s, t, CloseFailed);
    if j == s.pc[t].next {
      assert s'.pc[t].failed[|s.pc[t].failed|] == k;
    } else {
      assert IsRecordOf(s', s'.pc[t].snapshot[j], k);
    }
  }

  lemma {:induction false} RunDealt(s: State, run: seq<Step>, t: ConnId, msg: Message, k: ConnId)
    requires Inv(s) && Legal(s, run) && IsThread(s, t) && IsThread(s, k) && Dealt(s, t, msg, k)
    ensures var s' := After(s, run);
            Inv(s') && IsThread(s', t) && IsThread(s', k) && Dealt(s', t, msg, k)
    decreases |run|
  {
    if run != [] {
      StepDealt(s, run[0].thread, run[0].action, t, msg, k);
      StepInv(s, run[0].thread, run[0].action);
      RunDealt(Apply(s, run[0].thread, run[0].action), run[1..], t, msg, k);
    }
  }

  /** `t` has received `msg` and not yet taken the snapshot for it. */
  predicate BeforeSnapshot(s: State, t: ConnId, msg: Message) {
    IsThread(s, t) && (s.pc[t].SnapshotWait? || s.pc[t].SnapshotHeld?) && s.pc[t].msg == msg
  }

  /** In the run, `t` takes the snapshot for `msg` at step `i`. */
  ghost predicate SnapshotAt(s: State, run: seq<Step>, i: nat, t: ConnId, msg: Message)
    requires Legal(s, run)
  {
    && i < |run| && run[i].thread == t && run[i].action.TakeSnapshot?
    && Legal(s, run[..i]) && BeforeSnapshot(After(s, run[..i]), t, msg)
    && Enabled(After(s, run[..i]), t, run[i].action)
    && Legal(Apply(After(s, run[..i]), t, run[i].action), run[i + 1..])
    && After(Apply(After(s, run[..i]), t, run[i].action), run[i + 1..]) == After(s, run)
  }

  lemma {:induction false} SnapshotIsTaken(s: State, run: seq<Step>, t: ConnId, msg: Message) returns (i: nat)
    requires Inv(s) && Legal(s, run) && BeforeSnapshot(s, t, msg)
    requires t < |After(s, run).pc| && !BeforeSnapshot(After(s, run), t, msg)
    ensures SnapshotAt(s, run, i, t, msg)
    decreases |run|
  {
    var u, a := run[0].thread, run[0].action;
    var s' := Apply(s, u, a);
    if u == t && a.TakeSnapshot? {
      i := 0;
      assert run[..0] == [];
    } else {
      StepInv(s, u, a);
      StaysBeforeSnapshot(s, u, a, t, msg);
      var j := SnapshotIsTaken(s', run[1..], t, msg);
      i := j + 1;
      assert run[..i][1..] == run[1..][..j] && run[1..][j + 1..] == run[i + 1..];
      assert run[..i][0] == run[0];
    }
  }

  lemma StaysBeforeSnapshot(s: State, u: ConnId, a: Action, t: ConnId, msg: Message)
    requires Enabled(s, u, a) && BeforeSnapshot(s, t, msg) && !(u == t && a.TakeSnapshot?)
    ensures BeforeSnapshot(Apply(s, u, a), t, msg)
  {
  }

  /**
   * From the receipt of a message until its sender reads again, whatever runs in between: at some point the snapshot
   * of the room was taken, and each connection in it then has the message by now, or has been closed and is in no
   * room.
   */
  lemma ReceivedReachesTheRoom(s: State, t: ConnId, body: string, run: seq<Step>)
    requires Reachable(s) && Enabled(s, t, Receive(body)) && Legal(Apply(s, t, Receive(body)), run)
    requires t < |After(Apply(s, t, Receive(body)), run).pc| && After(Apply(s, t, Receive(body)), run).pc[t].Reading?
    ensures var s1 := Apply(s, t, Receive(body));
            var msg := Message(t, |s.outbox[t]|, body);
            exists i: nat ::
              SnapshotAt(s1, run, i, t, msg) && RoomWasServed(After(s1, run[..i]), After(s1, run), t, msg)
  {
    ReachableInv(s);
    var s1 := Apply(s, t, Receive(body));
    var msg := Message(t, |s.outbox[t]|, body);
    StepInv(s, t, Receive(body));
    var i := SnapshotIsTaken(s1, run, t, msg);
    var mid := After(s1, run[..i]);
    RunInv(s1, run[..i]);
    forall k | InRoom(mid.rooms, mid.channel[t], k) ensures WasServed(mid, After(s1, run), k, msg) {
      SnapshotServes(mid, t, run[i].action.order, run[i + 1..], k);
    }
  }

  ghost predicate RoomWasServed(mid: State, s: State, t: ConnId, msg: Message) {
    && 0 <= t < |mid.channel|
    && forall k :: InRoom(mid.rooms, mid.channel[t], k) ==> WasServed(mid, s, k, msg)
  }

  ghost predicate WasServed(mid: State, s: State, k: ConnId, msg: Message) {
    && 0 <= k < |s.log|
    && (msg in s.log[k] || (k in s.closed && forall h :: !InRoom(s.rooms, h, k)))
  }

  lemma SnapshotServes(s: State, t: ConnId, order: seq<ConnId>, run: seq<Step>, k: ConnId)
    requires Inv(s) && Enabled(s, t, TakeSnapshot(order)) && InRoom(s.rooms, s.channel[t], k)
    requires Legal(SnapshotTaken(s, t, order), run)
    requires t < |After(SnapshotTaken(s, t, order), run).pc| && After(SnapshotTaken(s, t, order), run).pc[t].Reading?
    ensures WasServed(s, After(SnapshotTaken(s, t, order), run), k, s.pc[t].msg)
  {
    SnapshotDeals(s, t, order, k);
    StepInv(s, t, TakeSnapshot(order));
    DealtWhenReading(SnapshotTaken(s, t, order), t, run, s.pc[t].msg, k);
  }

  /** At the snapshot every member of the room is to be written to. */
  lemma SnapshotDeals(s: State, t: ConnId, order: seq<ConnId>, k: ConnId)
    requires Inv(s) && Enabled(s, t, TakeSnapshot(order)) && InRoom(s.rooms, s.channel[t], k)
    ensures var s' := SnapshotTaken(s, t, order);
            Shape(s') && IsThread(s', t) && IsThread(s', k) && Dealt(s', t, s.pc[t].msg, k)
  {
    var s' := SnapshotTaken(s, t, order);
    assert k in Elements(order);
    var j :| 0 <= j < |order| && order[j] == k;
    SnapshotEntry(s, t, order, j);
    assert IsRecordOf(s', s'.pc[t].snapshot[j], k);
  }

  /** Who was to be written to is served when the goroutine reads again. */
  lemma DealtWhenReading(s: State, t: ConnId, run: seq<Step>, msg: Message, k: ConnId)
    requires Inv(s) && Legal(s, run) && IsThread(s, t) && IsThread(s, k) && Dealt(s, t, msg, k)
    requires t < |After(s, run).pc| && After(s, run).pc[t].Reading?
    ensures 0 <= k < |After(s, run).log|
    ensures var s' := After(s, run);
            msg in s'.log[k] || (k in s'.closed && forall h :: !InRoom(s'.rooms, h, k))
  {
    RunDealt(s, run, t, msg, k);
    var s' := After(s, run);
    assert FailedOf(s'.pc[t]) == [] && !IsNext(s', t, msg, k);
    if k in s'.removed {
      forall h ensures !InRoom(s'.rooms, h, k) {
        assert !ShouldBeIn(s', h, k);
      }
    }
  }
}

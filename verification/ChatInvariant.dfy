/** What every step of the chat protocol keeps. */
module ChatInvariant {
  import opened Prelude
  import opened RoomTable
  import opened ChatRooms
  import opened ChatMachine

  ghost predicate Shape(s: State) {
    |s.pc| == |s.channel| == |s.log| == |s.outbox|
  }

  predicate IsThread(s: State, t: ConnId) {
    0 <= t < |s.pc|
  }

  /** The client a writing goroutine is about to write to. */
  ghost predicate WritesTo(s: State, t: ConnId, c: nat)
    requires IsThread(s, t)
  {
    MoreToWrite(s.pc[t]) && s.pc[t].snapshot[s.pc[t].next] == c
  }

  /** The table's lock is held by exactly the goroutines whose program counters say so. */
  ghost predicate TableLock(s: State) {
    && (s.writer.Some? ==> IsThread(s, s.writer.value) && s.readers == {})
    && (forall t :: t in s.readers ==> IsThread(s, t))
    && (forall t :: IsThread(s, t) ==> (s.writer == Some(t) <==> HasWriteLock(s.pc[t])))
    && (forall t :: IsThread(s, t) ==> (t in s.readers <==> s.pc[t].SnapshotHeld?))
  }

  /** A client's mutex is held by exactly the goroutine writing to that client. */
  ghost predicate ClientLocks(s: State) {
    && (forall c :: 0 <= c < |s.clients| && s.clients[c].holder.Some? ==>
          var t := s.clients[c].holder.value;
          IsThread(s, t) && s.pc[t].WriteHeld? && WritesTo(s, t, c))
    && (forall t :: IsThread(s, t) && s.pc[t].WriteHeld? ==>
          && MoreToWrite(s.pc[t])
          && var c := s.pc[t].snapshot[s.pc[t].next];
             c < |s.clients| && s.clients[c].holder == Some(t))
  }

  ghost predicate Locks(s: State) {
    TableLock(s) && ClientLocks(s)
  }

  predicate BeforeJoin(pc: Pc) {
    pc.Starting? || pc.JoinWait? || pc.JoinHeld?
  }

  predicate AfterLeave(pc: Pc) {
    pc.HangingUp? || pc.Returned?
  }

  /** A goroutine joins at most once, and is a member between its join and its leave. */
  ghost predicate Lifecycle(s: State) {
    && (forall t :: t in s.joined ==> IsThread(s, t))
    && (forall t :: t in s.left ==> t in s.joined)
    && (forall t :: IsThread(s, t) ==> Stage(s.pc[t], t in s.joined, t in s.left))
  }

  predicate Stage(pc: Pc, joined: bool, left: bool) {
    && (BeforeJoin(pc) ==> !joined)
    && (AfterLeave(pc) ==> joined ==> left)
    && (!BeforeJoin(pc) && !AfterLeave(pc) ==> joined && !left)
  }

  /** Client records name joined connections, no connection twice; the table points at the right record. */
  ghost predicate Registry(s: State) {
    && (forall c :: 0 <= c < |s.clients| ==> s.clients[c].conn in s.joined)
    && (forall c, d :: 0 <= c < d < |s.clients| ==> s.clients[c].conn != s.clients[d].conn)
    && (forall h, k :: InRoom(s.rooms, h, k) ==>
          s.rooms[h][k] < |s.clients| && s.clients[s.rooms[h][k]].conn == k)
  }

  ghost predicate ShouldBeIn(s: State, h: ChannelId, k: ConnId)
    requires Shape(s)
  {
    IsThread(s, k) && s.channel[k] == h && k in s.joined && k !in s.left && k !in s.removed
  }

  function FailedOf(pc: Pc): seq<ConnId> {
    if InWritePhase(pc) || pc.CleanupWait? || pc.CleanupHeld? then pc.failed else []
  }

  /** Rooms hold exactly those that should be in them, none is empty, and only closed connections have been removed. */
  ghost predicate RoomsMatch(s: State)
    requires Shape(s)
  {
    && NoEmptyRoom(s.rooms)
    && (forall h, k :: InRoom(s.rooms, h, k) <==> ShouldBeIn(s, h, k))
    && (forall k :: k in s.removed ==> k in s.joined && k in s.closed)
  }

  ghost predicate Membership(s: State)
    requires Shape(s)
  {
    RoomsMatch(s) && FailedLists(s)
  }

  ghost predicate FailedLists(s: State)
    requires Shape(s)
  {
    forall t, f :: IsThread(s, t) && f in FailedOf(s.pc[t]) ==>
      IsThread(s, f) && s.channel[f] == s.channel[t] && f in s.joined && f in s.closed
  }

  predicate AllBefore(log: seq<Message>, sender: ConnId, number: nat) {
    forall i :: 0 <= i < |log| && log[i].sender == sender ==> log[i].number < number
  }

  predicate OrderedBySender(log: seq<Message>) {
    forall i, j :: 0 <= i < j < |log| && log[i].sender == log[j].sender ==> log[i].number < log[j].number
  }

  ghost predicate WasSent(s: State, m: Message)
    requires Shape(s)
  {
    IsThread(s, m.sender) && m.number < |s.outbox[m.sender]| && s.outbox[m.sender][m.number] == m
  }

  ghost predicate Numbered(s: State)
    requires Shape(s)
  {
    forall t, k :: IsThread(s, t) && 0 <= k < |s.outbox[t]| ==> s.outbox[t][k].sender == t && s.outbox[t][k].number == k
  }

  /** Logs hold only sent messages, of the connection's own channel, in each sender's order. */
  ghost predicate Logs(s: State)
    requires Shape(s)
  {
    && (forall c, i :: IsThread(s, c) && 0 <= i < |s.log[c]| ==>
          WasSent(s, s.log[c][i]) && s.channel[s.log[c][i].sender] == s.channel[c])
    && (forall c :: IsThread(s, c) ==> OrderedBySender(s.log[c]))
  }

  ghost predicate IsLatest(s: State, t: ConnId, msg: Message)
    requires Shape(s) && IsThread(s, t)
  {
    && |s.outbox[t]| > 0
    && msg == s.outbox[t][|s.outbox[t]| - 1]
    && msg.sender == t && msg.number == |s.outbox[t]| - 1
  }

  ghost predicate Unseen(s: State, t: ConnId, msg: Message)
    requires Shape(s)
  {
    forall c :: IsThread(s, c) ==> AllBefore(s.log[c], t, msg.number)
  }

  /**
   * The clients of a snapshot are distinct, of the sender's channel; those before `next` are served, the rest not
   * yet.
   */
  ghost predicate Progress(s: State, t: ConnId)
    requires Shape(s) && IsThread(s, t) && InWritePhase(s.pc[t])
  {
    var pc := s.pc[t];
    && pc.next <= |pc.snapshot|
    && (!pc.Writing? ==> pc.next < |pc.snapshot|)
    && Distinct(pc.snapshot)
    && (forall j :: 0 <= j < |pc.snapshot| ==> pc.snapshot[j] < |s.clients|)
    && (forall j :: 0 <= j < |pc.snapshot| ==> Target(s, t, pc.snapshot[j]))
    && (forall j :: 0 <= j < pc.next ==> Served(s, t, s.clients[pc.snapshot[j]].conn))
    && (forall j :: pc.next <= j < |pc.snapshot| ==> NotYet(s, t, s.clients[pc.snapshot[j]].conn))
  }

  ghost predicate Target(s: State, t: ConnId, c: nat)
    requires Shape(s) && IsThread(s, t) && c < |s.clients|
  {
    var conn := s.clients[c].conn;
    IsThread(s, conn) && s.channel[conn] == s.channel[t]
  }

  ghost predicate Served(s: State, t: ConnId, conn: ConnId)
    requires Shape(s) && IsThread(s, t) && InWritePhase(s.pc[t])
  {
    IsThread(s, conn) && (s.pc[t].msg in s.log[conn] || conn in s.pc[t].failed)
  }

  ghost predicate NotYet(s: State, t: ConnId, conn: ConnId)
    requires Shape(s) && IsThread(s, t) && InWritePhase(s.pc[t])
  {
    IsThread(s, conn) && AllBefore(s.log[conn], t, s.pc[t].msg.number)
  }

  ghost predicate InFlight(s: State, t: ConnId)
    requires Shape(s) && IsThread(s, t)
  {
    var pc := s.pc[t];
    && (pc.SnapshotWait? || pc.SnapshotHeld? ==> IsLatest(s, t, pc.msg) && Unseen(s, t, pc.msg))
    && (InWritePhase(pc) ==> IsLatest(s, t, pc.msg) && Progress(s, t))
  }

  ghost predicate Delivery(s: State)
    requires Shape(s)
  {
    && Numbered(s)
    && Logs(s)
    && forall t :: IsThread(s, t) ==> InFlight(s, t)
  }

  ghost predicate Inv(s: State) {
    && Shape(s)
    && Locks(s)
    && Lifecycle(s)
    && Registry(s)
    && Membership(s)
    && Delivery(s)
  }

  lemma InitInv(s: State)
    requires Init(s)
    ensures Inv(s)
  {
  }

  lemma StepTableLock(s: State, t: ConnId, a: Action)
    requires Shape(s) && TableLock(s) && Enabled(s, t, a)
    ensures TableLock(Apply(s, t, a))
  {
    if a.Acquire? {
      AcquireTableLock(s, t);
    } else {
      ReleaseTableLock(s, t, a);
    }
  }

  lemma AcquireTableLock(s: State, t: ConnId)
    requires Shape(s) && TableLock(s) && Enabled(s, t, Acquire)
    ensures TableLock(AcquireLock(s, t))
  {
  }

  lemma ReleaseTableLock(s: State, t: ConnId, a: Action)
    requires Shape(s) && TableLock(s) && Enabled(s, t, a) && !a.Acquire?
    ensures TableLock(Apply(s, t, a))
  {
    match a {
      case TakeSnapshot(order) => assert TableLock(SnapshotTaken(s, t, order));
      case Join =>
      case Cleanup =>
      case Leave =>
      case _ => OtherTableLock(s, t, a);
    }
  }

  /** Any other step takes no part in the table's lock. */
  lemma OtherTableLock(s: State, t: ConnId, a: Action)
    requires Shape(s) && TableLock(s) && Enabled(s, t, a)
    requires !a.Acquire? && !a.TakeSnapshot? && !a.Join? && !a.Cleanup? && !a.Leave?
    ensures TableLock(Apply(s, t, a))
  {
    var s' := Apply(s, t, a);
    assert s'.writer == s.writer && s'.readers == s.readers && s'.pc == s.pc[t := s'.pc[t]];
    assert !HasWriteLock(s.pc[t]) && !s.pc[t].SnapshotHeld? && !HasWriteLock(s'.pc[t]) && !s'.pc[t].SnapshotHeld?;
  }

  lemma StepClientLocks(s: State, t: ConnId, a: Action)
    requires Shape(s) && ClientLocks(s) && Enabled(s, t, a)
    ensures ClientLocks(Apply(s, t, a))
  {
    match a {
      case Acquire => AcquireClientLock(s, t);
      case Write(ok) => ReleaseClientLock(s, t, ok);
      case _ => OtherClientLocks(s, t, a);
    }
  }

  lemma AcquireClientLock(s: State, t: ConnId)
    requires Shape(s) && ClientLocks(s) && Enabled(s, t, Acquire)
    ensures ClientLocks(AcquireLock(s, t))
  {
  }

  lemma ReleaseClientLock(s: State, t: ConnId, ok: bool)
    requires Shape(s) && ClientLocks(s) && Enabled(s, t, Write(ok))
    ensures ClientLocks(WriteFrame(s, t, ok))
  {
  }

  lemma OtherClientLocks(s: State, t: ConnId, a: Action)
    requires Shape(s) && ClientLocks(s) && Enabled(s, t, a) && !a.Acquire? && !a.Write?
    ensures ClientLocks(Apply(s, t, a))
  {
    HoldersAfter(s, t, a);
    var s' := Apply(s, t, a);
    forall u | IsThread(s', u) && s'.pc[u].WriteHeld? ensures u != t && s'.pc[u] == s.pc[u] {
    }
  }

  /** Any other step neither begins nor ends a write, and a new client's mutex is free. */
  lemma HoldersAfter(s: State, t: ConnId, a: Action)
    requires Shape(s) && Enabled(s, t, a) && !a.Acquire? && !a.Write?
    ensures var s' := Apply(s, t, a);
            && !s.pc[t].WriteHeld? && s'.pc == s.pc[t := s'.pc[t]] && !s'.pc[t].WriteHeld?
            && (s'.clients == s.clients || s'.clients == s.clients + [Client(t, None)])
  {
  }

  lemma StepLifecycle(s: State, t: ConnId, a: Action)
    requires Shape(s) && Lifecycle(s) && Enabled(s, t, a)
    ensures Lifecycle(Apply(s, t, a))
  {
    var s' := Apply(s, t, a);
    OwnStage(s, t, a);
    forall u | IsThread(s', u) ensures Stage(s'.pc[u], u in s'.joined, u in s'.left) {
      assert Stage(s.pc[u], u in s.joined, u in s.left);
      assert u != t ==> s'.pc[u] == s.pc[u];
    }
  }

  lemma OwnStage(s: State, t: ConnId, a: Action)
    requires Shape(s) && Enabled(s, t, a) && Stage(s.pc[t], t in s.joined, t in s.left)
        && (t in s.left ==> t in s.joined)
    ensures var s' := Apply(s, t, a);
            && |s'.pc| == |s.pc| && Stage(s'.pc[t], t in s'.joined, t in s'.left)
            && s'.joined == (if a.Join? then s.joined + {t} else s.joined)
            && s'.left == (if a.Leave? then s.left + {t} else s.left)
  {
    match a {
      case Acquire => AcquireStage(s, t);
      case Write(ok) => assert InWritePhase(WriteFrame(s, t, ok).pc[t]);
      case Join =>
      case Leave =>
      case _ => OtherStage(s, t, a);
    }
  }

  lemma AcquireStage(s: State, t: ConnId)
    requires Shape(s) && Enabled(s, t, Acquire) && Stage(s.pc[t], t in s.joined, t in s.left)
    ensures var s' := AcquireLock(s, t);
            && |s'.pc| == |s.pc| && Stage(s'.pc[t], t in s'.joined, t in s'.left)
            && s'.joined == s.joined && s'.left == s.left
  {
  }

  lemma OtherStage(s: State, t: ConnId, a: Action)
    requires Shape(s) && Enabled(s, t, a) && Stage(s.pc[t], t in s.joined, t in s.left)
    requires !a.Acquire? && !a.Write? && !a.Join? && !a.Leave?
    ensures var s' := Apply(s, t, a);
            && |s'.pc| == |s.pc| && Stage(s'.pc[t], t in s'.joined, t in s'.left)
            && s'.joined == s.joined && s'.left == s.left
  {
  }

  lemma StepRegistry(s: State, t: ConnId, a: Action)
    requires Shape(s) && Lifecycle(s) && Registry(s) && Enabled(s, t, a)
    ensures Registry(Apply(s, t, a))
  {
    var s' := Apply(s, t, a);
    RecordsAfter(s, t, a);
    forall h, k | InRoom(s'.rooms, h, k)
      ensures s'.rooms[h][k] < |s'.clients| && s'.clients[s'.rooms[h][k]].conn == k
    {
      RoomsAfter(s, t, a, h, k);
      assert InRoom(s.rooms, h, k) || a.Join?;
    }
  }

  /** Only a join makes a client record, for the joiner, who had none. */
  lemma RecordsAfter(s: State, t: ConnId, a: Action)
    requires Shape(s) && Lifecycle(s) && Registry(s) && Enabled(s, t, a)
    ensures var s' := Apply(s, t, a);
            && ClientsStay(s, s')
            && (a.Join? ==> |s'.clients| == |s.clients| + 1 && s'.clients[|s.clients|].conn == t)
            && (forall c :: 0 <= c < |s'.clients| ==> s'.clients[c].conn in s'.joined)
            && (forall c, d :: 0 <= c < d < |s'.clients| ==> s'.clients[c].conn != s'.clients[d].conn)
  {
    assert a.Join? ==> t !in s.joined;
  }

  /** The only room changes: a join adds the joiner; cleanup and leave take named connections out of one room. */
  lemma RoomsAfter(s: State, t: ConnId, a: Action, h: ChannelId, k: ConnId)
    requires Enabled(s, t, a)
    ensures var s' := Apply(s, t, a);
            && (a.Join? ==>
                  && (InRoom(s'.rooms, h, k) <==> InRoom(s.rooms, h, k) || (h == s.channel[t] && k == t))
                  && (InRoom(s'.rooms, h, k) ==>
                        s'.rooms[h][k] == if h == s.channel[t] && k == t then |s.clients| else s.rooms[h][k]))
            && (!a.Join? ==>
                  && (InRoom(s'.rooms, h, k) <==> InRoom(s.rooms, h, k) && !(h == s.channel[t] && k in Gone(s, t, a)))
                  && (InRoom(s'.rooms, h, k) ==> s'.rooms[h][k] == s.rooms[h][k]))
  {
    if a.Join? {
      WithMemberMembers(s.rooms, s.channel[t], t, |s.clients|, h, k);
    } else if a.Cleanup? || a.Leave? {
      WithoutMembers(s.rooms, s.channel[t], Gone(s, t, a), h, k);
    }
  }

  ghost function Gone(s: State, t: ConnId, a: Action): set<ConnId>
    requires Enabled(s, t, a)
  {
    match a
    case Cleanup => Elements(s.pc[t].failed)
    case Leave => {t}
    case _ => {}
  }

  lemma StepMembership(s: State, t: ConnId, a: Action)
    requires Shape(s) && Lifecycle(s) && Membership(s) && Enabled(s, t, a)
    ensures Shape(Apply(s, t, a)) && RoomsMatch(Apply(s, t, a))
  {
    if a.Join? {
      JoinMembership(s, t);
    } else if a.Cleanup? {
      CleanupMembership(s, t);
    } else if a.Leave? {
      LeaveMembership(s, t);
    } else {
      OtherMembership(s, t, a);
    }
  }

  lemma JoinMembership(s: State, t: ConnId)
    requires Shape(s) && Lifecycle(s) && RoomsMatch(s) && Enabled(s, t, Join)
    ensures Shape(Apply(s, t, Join)) && RoomsMatch(Apply(s, t, Join))
  {
    var s' := Apply(s, t, Join);
    assert t in s'.rooms[s.channel[t]];
    forall h, k ensures InRoom(s'.rooms, h, k) <==> ShouldBeIn(s', h, k) {
      RoomsAfter(s, t, Join, h, k);
    }
  }

  lemma CleanupMembership(s: State, t: ConnId)
    requires Shape(s) && RoomsMatch(s) && FailedLists(s) && Enabled(s, t, Cleanup)
    ensures Shape(Apply(s, t, Cleanup)) && RoomsMatch(Apply(s, t, Cleanup))
  {
    var s' := Apply(s, t, Cleanup);
    WithoutKeepsRoomsNonEmpty(s.rooms, s.channel[t], Gone(s, t, Cleanup));
    assert FailedOf(s.pc[t]) == s.pc[t].failed;
    forall h, k ensures InRoom(s'.rooms, h, k) <==> ShouldBeIn(s', h, k) {
      RoomsAfter(s, t, Cleanup, h, k);
    }
  }

  lemma LeaveMembership(s: State, t: ConnId)
    requires Shape(s) && RoomsMatch(s) && Enabled(s, t, Leave)
    ensures Shape(Apply(s, t, Leave)) && RoomsMatch(Apply(s, t, Leave))
  {
    var s' := Apply(s, t, Leave);
    WithoutKeepsRoomsNonEmpty(s.rooms, s.channel[t], {t});
    forall h, k ensures InRoom(s'.rooms, h, k) <==> ShouldBeIn(s', h, k) {
      RoomsAfter(s, t, Leave, h, k);
    }
  }

  lemma OtherMembership(s: State, t: ConnId, a: Action)
    requires Shape(s) && RoomsMatch(s) && Enabled(s, t, a) && !a.Join? && !a.Cleanup? && !a.Leave?
    ensures Shape(Apply(s, t, a)) && RoomsMatch(Apply(s, t, a))
  {
    var s' := Apply(s, t, a);
    assert s'.rooms == s.rooms && s'.joined == s.joined && s'.left == s.left && s'.removed == s.removed;
    assert s.closed <= s'.closed && s'.channel == s.channel && |s'.pc| == |s.pc|;
    forall h, k ensures InRoom(s'.rooms, h, k) <==> ShouldBeIn(s', h, k) {
      assert ShouldBeIn(s', h, k) <==> ShouldBeIn(s, h, k);
    }
  }

  lemma StepFailed(s: State, t: ConnId, a: Action)
    requires Shape(s) && Registry(s) && FailedLists(s) && Enabled(s, t, a) && InFlight(s, t)
    ensures Shape(Apply(s, t, a)) && FailedLists(Apply(s, t, a))
  {
    if a.CloseFailed? {
      assert Target(s, t, s.pc[t].snapshot[s.pc[t].next]);
      CloseExtendsFailed(s, t);
    } else {
      OtherFailed(s, t, a);
    }
  }

  lemma CloseExtendsFailed(s: State, t: ConnId)
    requires Shape(s) && Registry(s) && FailedLists(s) && Enabled(s, t, CloseFailed)
    requires Target(s, t, s.pc[t].snapshot[s.pc[t].next])
    ensures Shape(Apply(s, t, CloseFailed)) && FailedLists(Apply(s, t, CloseFailed))
  {
    var s' := Apply(s, t, CloseFailed);
    var conn := s.clients[s.pc[t].snapshot[s.pc[t].next]].conn;
    assert s'.pc[t].failed == s.pc[t].failed + [conn];
    forall u, f | IsThread(s', u) && f in FailedOf(s'.pc[u])
      ensures IsThread(s', f) && s'.channel[f] == s'.channel[u] && f in s'.joined && f in s'.closed
    {
      if u != t || f != conn {
        assert f in FailedOf(s.pc[u]);
      }
      assert IsThread(s, f);
    }
  }

  lemma OtherFailed(s: State, t: ConnId, a: Action)
    requires Shape(s) && FailedLists(s) && Enabled(s, t, a) && !a.CloseFailed?
    ensures FailedLists(Apply(s, t, a))
  {
    var s' := Apply(s, t, a);
    forall u, f | IsThread(s', u) && f in FailedOf(s'.pc[u])
      ensures IsThread(s', f) && s'.channel[f] == s'.channel[u] && f in s'.joined && f in s'.closed
    {
      FailedAfter(s, t, a, u, f);
      assert IsThread(s, u) && f in FailedOf(s.pc[u]);
      assert IsThread(s, f) && s.channel[f] == s.channel[u] && f in s.joined && f in s.closed;
    }
  }

  /** Only closing a failed connection adds to a list of failures; what is joined or closed stays so. */
  lemma FailedAfter(s: State, t: ConnId, a: Action, u: ConnId, f: ConnId)
    requires Shape(s) && Enabled(s, t, a) && !a.CloseFailed? && IsThread(s, u)
    requires f in FailedOf(Apply(s, t, a).pc[u])
    ensures f in FailedOf(s.pc[u])
    ensures var s' := Apply(s, t, a);
            s'.channel == s.channel && |s'.pc| == |s.pc| && s.joined <= s'.joined && s.closed <= s'.closed
  {
    var s' := Apply(s, t, a);
    if u == t {
      match a {
        case Acquire => assert FailedOf(AcquireLock(s, t).pc[t]) == FailedOf(s.pc[t]);
        case Write(ok) => assert FailedOf(WriteFrame(s, t, ok).pc[t]) == FailedOf(s.pc[t]);
        case _ =>
      }
    }
  }

  lemma StepNumbered(s: State, t: ConnId, a: Action)
    requires Shape(s) && Numbered(s) && Enabled(s, t, a)
    ensures Numbered(Apply(s, t, a))
  {
  }

  /** A sent message stays sent. */
  lemma StepSent(s: State, t: ConnId, a: Action, m: Message)
    requires Shape(s) && Enabled(s, t, a) && WasSent(s, m)
    ensures WasSent(Apply(s, t, a), m)
  {
  }

  lemma StepLogs(s: State, t: ConnId, a: Action)
    requires Shape(s) && Logs(s) && Enabled(s, t, a) && InFlight(s, t)
    ensures Logs(Apply(s, t, a))
  {
    match a {
      case Write(ok) => WriteKeepsLogs(s, t, ok);
      case _ => OtherLogs(s, t, a);
    }
  }

  lemma OtherLogs(s: State, t: ConnId, a: Action)
    requires Shape(s) && Logs(s) && Enabled(s, t, a) && !a.Write?
    ensures Logs(Apply(s, t, a))
  {
    var s' := Apply(s, t, a);
    assert s'.log == s.log;
    forall c, i | IsThread(s', c) && 0 <= i < |s'.log[c]|
      ensures WasSent(s', s'.log[c][i]) && s'.channel[s'.log[c][i].sender] == s'.channel[c]
    {
      StepSent(s, t, a, s.log[c][i]);
    }
  }

  /** A frame written goes to a connection of the writer's channel, after everything the writer sent before. */
  lemma WriteKeepsLogs(s: State, t: ConnId, ok: bool)
    requires Shape(s) && Logs(s) && Enabled(s, t, Write(ok)) && InFlight(s, t)
    ensures Logs(WriteFrame(s, t, ok))
  {
    var c := s.pc[t].snapshot[s.pc[t].next];
    assert Target(s, t, c) && NotYet(s, t, s.clients[c].conn);
    AppendInOrder(s.log[s.clients[c].conn], s.pc[t].msg);
  }

  lemma AppendInOrder(log: seq<Message>, m: Message)
    requires OrderedBySender(log) && AllBefore(log, m.sender, m.number)
    ensures OrderedBySender(log + [m])
    ensures AllBefore(log + [m], m.sender, m.number + 1)
  {
  }

  /** To goroutine `u` nothing has happened but that logs may have grown by others' messages and records been added. */
  ghost predicate Unmoved(s: State, s': State, u: ConnId)
    requires Shape(s) && IsThread(s, u)
  {
    && Shape(s') && |s'.pc| == |s.pc| && s'.channel == s.channel
    && s'.pc[u] == s.pc[u] && s'.outbox[u] == s.outbox[u]
    && ClientsStay(s, s')
    && (forall c :: IsThread(s, c) ==> LogStays(s.log[c], s'.log[c], u))
  }

  ghost predicate ClientsStay(s: State, s': State) {
    |s.clients| <= |s'.clients| && forall c :: 0 <= c < |s.clients| ==> s'.clients[c].conn == s.clients[c].conn
  }

  ghost predicate LogStays(log: seq<Message>, log': seq<Message>, u: ConnId) {
    log' == log || exists m: Message :: m.sender != u && log' == log + [m]
  }

  lemma StepUnmoved(s: State, t: ConnId, a: Action, u: ConnId)
    requires Shape(s) && Enabled(s, t, a) && IsThread(s, u) && u != t && InFlight(s, t)
    ensures Unmoved(s, Apply(s, t, a), u)
  {
    if a.Write? {
      assert s.pc[t].msg.sender == t;
    }
  }

  lemma OthersInFlight(s: State, s': State, u: ConnId)
    requires Shape(s) && IsThread(s, u) && Unmoved(s, s', u) && InFlight(s, u)
    ensures InFlight(s', u)
  {
    var pc := s.pc[u];
    if pc.SnapshotWait? || pc.SnapshotHeld? {
      forall c | IsThread(s', c) ensures AllBefore(s'.log[c], u, pc.msg.number) {
        assert LogStays(s.log[c], s'.log[c], u);
      }
    } else if InWritePhase(pc) {
      OthersProgress(s, s', u);
    }
  }

  lemma OthersProgress(s: State, s': State, u: ConnId)
    requires Shape(s) && IsThread(s, u) && Unmoved(s, s', u) && InWritePhase(s.pc[u]) && Progress(s, u)
    ensures Progress(s', u)
  {
    var pc := s.pc[u];
    forall j | 0 <= j < |pc.snapshot| ensures pc.snapshot[j] < |s'.clients| && Target(s', u, pc.snapshot[j]) {
      assert Target(s, u, pc.snapshot[j]);
    }
    forall j | 0 <= j < pc.next ensures Served(s', u, s'.clients[pc.snapshot[j]].conn) {
      var conn := s.clients[pc.snapshot[j]].conn;
      assert Served(s, u, conn) && LogStays(s.log[conn], s'.log[conn], u);
    }
    forall j | pc.next <= j < |pc.snapshot| ensures NotYet(s', u, s'.clients[pc.snapshot[j]].conn) {
      var conn := s.clients[pc.snapshot[j]].conn;
      assert NotYet(s, u, conn) && LogStays(s.log[conn], s'.log[conn], u);
    }
  }

  lemma OwnInFlight(s: State, t: ConnId, a: Action)
    requires Inv(s) && Enabled(s, t, a)
    ensures Shape(Apply(s, t, a)) && InFlight(Apply(s, t, a), t)
  {
    assert InFlight(s, t);
    match a {
      case Receive(body) => ReceiveInFlight(s, t, body);
      case TakeSnapshot(order) => SnapshotInFlight(s, t, order);
      case Acquire => AcquireInFlight(s, t);
      case Write(ok) => WriteInFlight(s, t, ok);
      case CloseFailed => CloseInFlight(s, t);
      case _ =>
    }
  }

  lemma ReceiveInFlight(s: State, t: ConnId, body: string)
    requires Shape(s) && Numbered(s) && Logs(s) && Enabled(s, t, Receive(body))
    ensures Shape(Apply(s, t, Receive(body))) && InFlight(Apply(s, t, Receive(body)), t)
  {
    var s' := Apply(s, t, Receive(body));
    var number := |s.outbox[t]|;
    forall c | IsThread(s', c) ensures AllBefore(s'.log[c], t, number) {
      forall i | 0 <= i < |s.log[c]| && s.log[c][i].sender == t ensures s.log[c][i].number < number {
        assert WasSent(s, s.log[c][i]);
      }
    }
  }

  lemma SnapshotInFlight(s: State, t: ConnId, order: seq<ConnId>)
    requires Shape(s) && Registry(s) && Membership(s) && Enabled(s, t, TakeSnapshot(order)) && InFlight(s, t)
    ensures Shape(SnapshotTaken(s, t, order)) && InFlight(SnapshotTaken(s, t, order), t)
  {
    if s.channel[t] in s.rooms {
      SnapshotProgress(s, t, order);
    }
  }

  lemma SnapshotProgress(s: State, t: ConnId, order: seq<ConnId>)
    requires Shape(s) && Registry(s) && Membership(s) && Enabled(s, t, TakeSnapshot(order)) && s.channel[t] in s.rooms
    requires Unseen(s, t, s.pc[t].msg)
    ensures Shape(SnapshotTaken(s, t, order)) && Progress(SnapshotTaken(s, t, order), t)
  {
    var s' := SnapshotTaken(s, t, order);
    var snapshot := s'.pc[t].snapshot;
    forall j | 0 <= j < |snapshot|
      ensures snapshot[j] < |s.clients| && s.clients[snapshot[j]].conn == order[j]
      ensures Target(s', t, snapshot[j]) && NotYet(s', t, order[j])
    {
      SnapshotEntry(s, t, order, j);
      assert AllBefore(s.log[order[j]], t, s.pc[t].msg.number);
    }
  }

  /** Each entry of a snapshot is the client record of a member of the room. */
  lemma SnapshotEntry(s: State, t: ConnId, order: seq<ConnId>, j: nat)
    requires Shape(s) && Registry(s) && Membership(s) && IsThread(s, t) && s.channel[t] in s.rooms
    requires IsSnapshot(s, s.channel[t], order) && j < |order|
    ensures var c := ClientsOf(s.rooms[s.channel[t]], order)[j];
            c < |s.clients| && s.clients[c].conn == order[j]
    ensures IsThread(s, order[j]) && s.channel[order[j]] == s.channel[t]
  {
    assert order[j] in Elements(order);
    assert InRoom(s.rooms, s.channel[t], order[j]) && ShouldBeIn(s, s.channel[t], order[j]);
  }

  lemma AcquireInFlight(s: State, t: ConnId)
    requires Shape(s) && Enabled(s, t, Acquire) && InFlight(s, t)
    ensures Shape(AcquireLock(s, t)) && InFlight(AcquireLock(s, t), t)
  {
    var s' := AcquireLock(s, t);
    if InWritePhase(s.pc[t]) {
      SameProgress(s, s', t);
    }
  }

  lemma SameProgress(s: State, s': State, t: ConnId)
    requires Shape(s) && IsThread(s, t) && InWritePhase(s.pc[t]) && Progress(s, t)
    requires Shape(s') && |s'.pc| == |s.pc| && InWritePhase(s'.pc[t]) && s'.log == s.log && s'.channel == s.channel
    requires s'.pc[t].msg == s.pc[t].msg && s'.pc[t].snapshot == s.pc[t].snapshot
    requires s'.pc[t].next == s.pc[t].next < |s.pc[t].snapshot| && s'.pc[t].failed == s.pc[t].failed
    requires |s'.clients| == |s.clients| && forall c :: 0 <= c < |s.clients| ==> s'.clients[c].conn == s.clients[c].conn
    ensures Progress(s', t)
  {
    var pc := s.pc[t];
    assert forall j :: 0 <= j < |pc.snapshot| ==> Target(s, t, pc.snapshot[j]) ==> Target(s', t, pc.snapshot[j]);
    assert forall j :: 0 <= j < pc.next ==> Served(s, t, s.clients[pc.snapshot[j]].conn);
    assert forall j :: pc.next <= j < |pc.snapshot| ==> NotYet(s, t, s.clients[pc.snapshot[j]].conn);
  }

  lemma WriteInFlight(s: State, t: ConnId, ok: bool)
    requires Shape(s) && Registry(s) && Enabled(s, t, Write(ok)) && InFlight(s, t)
    ensures Shape(WriteFrame(s, t, ok)) && InFlight(WriteFrame(s, t, ok), t)
  {
    var s' := WriteFrame(s, t, ok);
    if ok {
      NextProgress(s, s', t);
    } else {
      SameProgress(s, s', t);
    }
  }

  lemma CloseInFlight(s: State, t: ConnId)
    requires Shape(s) && Registry(s) && Enabled(s, t, CloseFailed) && InFlight(s, t)
    ensures Shape(Apply(s, t, CloseFailed)) && InFlight(Apply(s, t, CloseFailed), t)
  {
    NextProgress(s, Apply(s, t, CloseFailed), t);
  }

  /** Serving the next client of the snapshot, by a frame in its log or by an entry in `failed`. */
  lemma NextProgress(s: State, s': State, t: ConnId)
    requires Shape(s) && Registry(s) && IsThread(s, t) && InWritePhase(s.pc[t]) && Progress(s, t)
        && MoreToWrite(s.pc[t])
    requires Shape(s') && |s'.pc| == |s.pc| && s'.channel == s.channel
    requires s'.pc[t].Writing? && s'.pc[t].msg == s.pc[t].msg && s'.pc[t].snapshot == s.pc[t].snapshot
    requires s'.pc[t].next == s.pc[t].next + 1
    requires |s'.clients| == |s.clients| && forall c :: 0 <= c < |s.clients| ==> s'.clients[c].conn == s.clients[c].conn
    requires var conn := s.clients[s.pc[t].snapshot[s.pc[t].next]].conn;
             || (s'.log == s.log[conn := s.log[conn] + [s.pc[t].msg]] && s'.pc[t].failed == s.pc[t].failed)
             || (s'.log == s.log && s'.pc[t].failed == s.pc[t].failed + [conn])
    ensures Progress(s', t)
  {
    var pc := s.pc[t];
    var conn := s.clients[pc.snapshot[pc.next]].conn;
    assert Target(s, t, pc.snapshot[pc.next]);
    forall j | 0 <= j < |pc.snapshot| ensures Target(s', t, pc.snapshot[j]) {
      assert Target(s, t, pc.snapshot[j]);
    }
    forall j | 0 <= j < pc.next + 1 ensures Served(s', t, s'.clients[pc.snapshot[j]].conn) {
      if j < pc.next {
        assert Served(s, t, s.clients[pc.snapshot[j]].conn);
      } else if s'.pc[t].failed == pc.failed {
        assert s'.log[conn][|s.log[conn]|] == pc.msg;
      } else {
        assert s'.pc[t].failed[|pc.failed|] == conn;
      }
    }
    forall j | pc.next + 1 <= j < |pc.snapshot| ensures NotYet(s', t, s'.clients[pc.snapshot[j]].conn) {
      assert NotYet(s, t, s.clients[pc.snapshot[j]].conn);
      assert s.clients[pc.snapshot[j]].conn != conn;
    }
  }

  /** Every step of every goroutine keeps the invariant. */
  lemma StepInv(s: State, t: ConnId, a: Action)
    requires Inv(s) && Enabled(s, t, a)
    ensures Inv(Apply(s, t, a))
  {
    var s' := Apply(s, t, a);
    assert InFlight(s, t);
    StepTableLock(s, t, a);
    StepClientLocks(s, t, a);
    StepLifecycle(s, t, a);
    StepRegistry(s, t, a);
    StepMembership(s, t, a);
    StepFailed(s, t, a);
    StepDelivery(s, t, a);
  }

  lemma StepDelivery(s: State, t: ConnId, a: Action)
    requires Inv(s) && Enabled(s, t, a)
    ensures Shape(Apply(s, t, a)) && Delivery(Apply(s, t, a))
  {
    var s' := Apply(s, t, a);
    assert InFlight(s, t);
    StepNumbered(s, t, a);
    StepLogs(s, t, a);
    forall u | IsThread(s', u) ensures InFlight(s', u) {
      if u == t {
        OwnInFlight(s, t, a);
      } else {
        assert InFlight(s, u);
        StepUnmoved(s, t, a, u);
        OthersInFlight(s, s', u);
      }
    }
  }

  lemma {:induction false} RunInv(s: State, run: seq<Step>)
    requires Inv(s) && Legal(s, run)
    ensures Inv(After(s, run))
    decreases |run|
  {
    if run != [] {
      StepInv(s, run[0].thread, run[0].action);
      RunInv(Apply(s, run[0].thread, run[0].action), run[1..]);
    }
  }
}

/**
 * The chat protocol as a step machine: one goroutine per WebSocket connection, each running the
 * handler's join / read / broadcast / leave lifecycle over the shared room table.
 *
 * A connection and its goroutine share one number, an index into the per-handler sequences.
 * `mu` is the service's RWMutex; every client record has a mutex of its own. Acquiring a lock is a
 * step, and so is each critical section (its last act is the release). Any interleaving is a run.
 */
module ChatMachine {
  import opened Prelude
  import opened RoomTable
  import opened ChatRooms

  /** `number` is the position in the sender's own sending order. */
  datatype Message = Message(sender: ConnId, number: nat, body: string)

  datatype Client = Client(conn: ConnId, holder: Option<ConnId>)

  /** Where a goroutine is. A name ending in Wait blocks on a lock; one ending in Held owns it. */
  datatype Pc =
    | Starting
    | JoinWait
    | JoinHeld
    | Reading
    | SnapshotWait(msg: Message)
    | SnapshotHeld(msg: Message)
    | Writing(msg: Message, snapshot: seq<nat>, next: nat, failed: seq<ConnId>)
    | WriteHeld(msg: Message, snapshot: seq<nat>, next: nat, failed: seq<ConnId>)
    | WriteFailed(msg: Message, snapshot: seq<nat>, next: nat, failed: seq<ConnId>)
    | CleanupWait(failed: seq<ConnId>)
    | CleanupHeld(failed: seq<ConnId>)
    | LeaveWait
    | LeaveHeld
    | HangingUp
    | Returned

  datatype State = State(
    channel: seq<ChannelId>,
    pc: seq<Pc>,
    rooms: Rooms<nat>,
    clients: seq<Client>,
    writer: Option<ConnId>,
    readers: set<ConnId>,
    closed: set<ConnId>,
    // Histories: frames that reached each connection, messages each connection sent, and fates.
    log: seq<seq<Message>>,
    outbox: seq<seq<Message>>,
    joined: set<ConnId>,
    left: set<ConnId>,
    removed: set<ConnId>)

  datatype Action =
    | Admit(isMember: bool)
    | Acquire
    | Join
    | SkipFrame
    | Receive(body: string)
    | ReadError
    | TakeSnapshot(order: seq<ConnId>)
    | Write(ok: bool)
    | CloseFailed
    | FinishWrites
    | Cleanup
    | Leave
    | HangUp

  ghost predicate Init(s: State) {
    && |s.pc| == |s.channel| == |s.log| == |s.outbox|
    && (forall t :: 0 <= t < |s.pc| ==> s.pc[t] == Starting && s.log[t] == [] && s.outbox[t] == [])
    && s.rooms == map[] && s.clients == [] && s.writer == None && s.readers == {} && s.closed == {}
    && s.joined == {} && s.left == {} && s.removed == {}
  }

  predicate WantsWriteLock(pc: Pc) {
    pc.JoinWait? || pc.CleanupWait? || pc.LeaveWait?
  }

  predicate HasWriteLock(pc: Pc) {
    pc.JoinHeld? || pc.CleanupHeld? || pc.LeaveHeld?
  }

  predicate InWritePhase(pc: Pc) {
    pc.Writing? || pc.WriteHeld? || pc.WriteFailed?
  }

  /** Is there a further client to write to? */
  predicate MoreToWrite(pc: Pc) {
    InWritePhase(pc) && pc.next < |pc.snapshot|
  }

  ghost predicate LockFree(s: State, t: ConnId)
    requires 0 <= t < |s.pc|
  {
    var pc := s.pc[t];
    if WantsWriteLock(pc) then s.writer == None && s.readers == {}
    else if pc.SnapshotWait? then s.writer == None
    else
      && pc.Writing? && MoreToWrite(pc) && pc.snapshot[pc.next] < |s.clients|
      && s.clients[pc.snapshot[pc.next]].holder == None
  }

  ghost predicate Enabled(s: State, t: ConnId, a: Action) {
    && 0 <= t < |s.pc| == |s.channel| == |s.log| == |s.outbox|
    && var pc := s.pc[t];
       match a
       case Admit(_) => pc.Starting?
       case Acquire => LockFree(s, t)
       case Join => pc.JoinHeld?
       case SkipFrame => pc.Reading? && t !in s.closed
       case Receive(_) => pc.Reading? && t !in s.closed
       case ReadError => pc.Reading?
       case TakeSnapshot(order) => pc.SnapshotHeld? && IsSnapshot(s, s.channel[t], order)
       case Write(ok) =>
         && pc.WriteHeld? && MoreToWrite(pc) && pc.snapshot[pc.next] < |s.clients|
         && var conn := s.clients[pc.snapshot[pc.next]].conn;
            0 <= conn < |s.log| && (ok ==> conn !in s.closed)
       case CloseFailed => pc.WriteFailed? && MoreToWrite(pc) && pc.snapshot[pc.next] < |s.clients|
       case FinishWrites => pc.Writing? && !MoreToWrite(pc)
       case Cleanup => pc.CleanupHeld?
       case Leave => pc.LeaveHeld?
       case HangUp => pc.HangingUp?
  }

  /** The members of the room, each once, in whatever order the map was ranged over. */
  ghost predicate IsSnapshot(s: State, h: ChannelId, order: seq<ConnId>) {
    Enumerates(order, if h in s.rooms then s.rooms[h].Keys else {})
  }

  ghost function ClientsOf(room: map<ConnId, nat>, order: seq<ConnId>): seq<nat>
    requires Elements(order) <= room.Keys
  {
    seq(|order|, i requires 0 <= i < |order| => assert order[i] in Elements(order); room[order[i]])
  }

  ghost function At(s: State, t: ConnId, pc: Pc): State
    requires 0 <= t < |s.pc|
  {
    s.(pc := s.pc[t := pc])
  }

  ghost function Apply(s: State, t: ConnId, a: Action): State
    requires Enabled(s, t, a)
  {
    var pc := s.pc[t];
    match a
    case Admit(isMember) =>
      if isMember then At(s, t, JoinWait) else At(s, t, HangingUp)
    case Acquire => AcquireLock(s, t)
    case Join =>
      var c := |s.clients|;
      At(s, t, Reading).(
        rooms := WithMember(s.rooms, s.channel[t], t, c),
        clients := s.clients + [Client(t, None)],
        joined := s.joined + {t},
        writer := None)
    case SkipFrame => s
    case Receive(body) =>
      var msg := Message(t, |s.outbox[t]|, body);
      At(s, t, SnapshotWait(msg)).(outbox := s.outbox[t := s.outbox[t] + [msg]])
    case ReadError => At(s, t, LeaveWait)
    case TakeSnapshot(order) => SnapshotTaken(s, t, order)
    case Write(ok) => WriteFrame(s, t, ok)
    case CloseFailed =>
      var conn := s.clients[pc.snapshot[pc.next]].conn;
      At(s, t, Writing(pc.msg, pc.snapshot, pc.next + 1, pc.failed + [conn])).(closed := s.closed + {conn})
    case FinishWrites =>
      At(s, t, if pc.failed == [] then Reading else CleanupWait(pc.failed))
    case Cleanup =>
      At(s, t, Reading).(
        rooms := Without(s.rooms, s.channel[t], Elements(pc.failed)),
        removed := s.removed + Elements(pc.failed),
        writer := None)
    case Leave =>
      At(s, t, HangingUp).(
        rooms := Without(s.rooms, s.channel[t], {t}),
        left := s.left + {t},
        writer := None)
    case HangUp => At(s, t, Returned).(closed := s.closed + {t})
  }

  ghost function AcquireLock(s: State, t: ConnId): State
    requires 0 <= t < |s.pc| && LockFree(s, t)
  {
    var pc := s.pc[t];
    match pc
    case JoinWait => At(s, t, JoinHeld).(writer := Some(t))
    case CleanupWait(failed) => At(s, t, CleanupHeld(failed)).(writer := Some(t))
    case LeaveWait => At(s, t, LeaveHeld).(writer := Some(t))
    case SnapshotWait(msg) => At(s, t, SnapshotHeld(msg)).(readers := s.readers + {t})
    case Writing(msg, snapshot, next, failed) =>
      var c := snapshot[next];
      At(s, t, WriteHeld(msg, snapshot, next, failed)).(clients := s.clients[c := s.clients[c].(holder := Some(t))])
  }

  /** Copy the room under the read lock and release it; nothing more happens when there is no room. */
  ghost function SnapshotTaken(s: State, t: ConnId, order: seq<ConnId>): State
    requires Enabled(s, t, TakeSnapshot(order))
  {
    var pc := s.pc[t];
    var h := s.channel[t];
    var pc' := if h in s.rooms then Writing(pc.msg, ClientsOf(s.rooms[h], order), 0, []) else Reading;
    At(s, t, pc').(readers := s.readers - {t})
  }

  /** Write one frame under the client's mutex and release it. */
  ghost function WriteFrame(s: State, t: ConnId, ok: bool): State
    requires Enabled(s, t, Write(ok))
  {
    var pc := s.pc[t];
    var c := pc.snapshot[pc.next];
    var conn := s.clients[c].conn;
    var released := s.(clients := s.clients[c := s.clients[c].(holder := None)]);
    if ok then
      var pc' := Writing(pc.msg, pc.snapshot, pc.next + 1, pc.failed);
      At(released, t, pc').(log := s.log[conn := s.log[conn] + [pc.msg]])
    else
      At(released, t, WriteFailed(pc.msg, pc.snapshot, pc.next, pc.failed))
  }

  datatype Step = Step(thread: ConnId, action: Action)

  ghost predicate Legal(s: State, run: seq<Step>)
    decreases |run|
  {
    run == [] || (Enabled(s, run[0].thread, run[0].action) && Legal(Apply(s, run[0].thread, run[0].action), run[1..]))
  }

  ghost function After(s: State, run: seq<Step>): State
    requires Legal(s, run)
    decreases |run|
  {
    if run == [] then s else After(Apply(s, run[0].thread, run[0].action), run[1..])
  }
}

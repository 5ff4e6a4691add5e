/**
 * Concurrent calls on the sharded manager. A call takes its shard's lock, runs its body on that shard
 * alone, and returns as it releases the lock. Whatever the interleaving, every answer is the one the
 * flat index gives when the same calls run one after another in the order they acquired their locks.
 */
module RoomLinearization {
  import opened Prelude
  import opened RoomTable
  import opened RoomShards
  import opened RoomManager

  datatype Call =
    | JoinCall(channel: Uuid, conn: Conn)
    | LeaveCall(channel: Uuid, connId: Uuid)
    | ListCall(channel: Uuid)
    | CountCall(channel: Uuid)

  datatype Answer = Nothing | Members(conns: set<Conn>) | Size(n: nat)

  predicate Writes(c: Call) {
    c.JoinCall? || c.LeaveCall?
  }

  /** What a call does to an index, be it a shard or the flat index. */
  function Effect(index: Index, c: Call): Index {
    match c
    case JoinCall(channel, conn) => WithMember(index, channel, conn.id, conn)
    case LeaveCall(channel, connId) => Without(index, channel, {connId})
    case _ => index
  }

  function Reply(index: Index, c: Call): Answer {
    match c
    case ListCall(channel) => Members(RoomOf(index, channel).Values)
    case CountCall(channel) => Size(|RoomOf(index, channel)|)
    case _ => Nothing
  }

  /** The flat index after the calls, run one after another on an empty index. */
  function Serial(calls: seq<Call>): Index {
    if calls == [] then map[] else Effect(Serial(calls[..|calls| - 1]), calls[|calls| - 1])
  }

  function SerialReply(calls: seq<Call>, k: nat): Answer
    requires k < |calls|
  {
    Reply(Serial(calls[..k]), calls[k])
  }

  /** `shard` is looked up once, on entry; `ticket` is the call's place in lock-acquisition order. */
  datatype Pc =
    | Idle
    | Waiting(call: Call, shard: nat)
    | Locked(call: Call, shard: nat, ticket: nat)
    | Ran(call: Call, shard: nat, ticket: nat, answer: Answer)

  datatype State = State(
    shards: seq<Index>,
    writer: seq<Option<nat>>,
    readers: seq<set<nat>>,
    pc: seq<Pc>,
    order: seq<Call>,
    returned: set<(nat, Answer)>)

  datatype Action = Start(call: Call) | Acquire | Run | Return

  ghost predicate Init(s: State) {
    && |s.shards| == |s.writer| == |s.readers| == SHARD_COUNT
    && (forall i :: 0 <= i < SHARD_COUNT ==> s.shards[i] == map[] && s.writer[i] == None && s.readers[i] == {})
    && (forall t :: 0 <= t < |s.pc| ==> s.pc[t] == Idle)
    && s.order == [] && s.returned == {}
  }

  ghost predicate Shape(s: State) {
    && |s.shards| == |s.writer| == |s.readers| == SHARD_COUNT
    && (forall t :: 0 <= t < |s.pc| && !s.pc[t].Idle? ==> s.pc[t].shard < SHARD_COUNT)
  }

  ghost predicate Enabled(s: State, t: nat, a: Action) {
    && Shape(s)
    && t < |s.pc|
    && match a
       case Start(_) => s.pc[t].Idle?
       case Acquire =>
         && s.pc[t].Waiting?
         && s.writer[s.pc[t].shard] == None
         && (Writes(s.pc[t].call) ==> s.readers[s.pc[t].shard] == {})
       case Run => s.pc[t].Locked?
       case Return => s.pc[t].Ran?
  }

  ghost function Apply(s: State, t: nat, a: Action): State
    requires Enabled(s, t, a)
  {
    var pc := s.pc[t];
    match a
    case Start(call) => s.(pc := s.pc[t := Waiting(call, ShardIndex(call.channel))])
    case Acquire =>
      var i := pc.shard;
      var held := if Writes(pc.call) then s.(writer := s.writer[i := Some(t)])
                  else s.(readers := s.readers[i := s.readers[i] + {t}]);
      held.(pc := s.pc[t := Locked(pc.call, i, |s.order|)], order := s.order + [pc.call])
    case Run =>
      var i := pc.shard;
      s.(shards := s.shards[i := Effect(s.shards[i], pc.call)],
         pc := s.pc[t := Ran(pc.call, i, pc.ticket, Reply(s.shards[i], pc.call))])
    case Return =>
      var i := pc.shard;
      var released := if Writes(pc.call) then s.(writer := s.writer[i := None])
                      else s.(readers := s.readers[i := s.readers[i] - {t}]);
      released.(pc := s.pc[t := Idle], returned := s.returned + {(pc.ticket, pc.answer)})
  }

  // ----- the invariant -----

  predicate Holds(pc: Pc, i: nat, exclusively: bool) {
    (pc.Locked? || pc.Ran?) && pc.shard == i && Writes(pc.call) == exclusively
  }

  /** Shard i's lock is held by exactly the goroutines whose program counters say so. */
  ghost predicate ShardLock(s: State, i: nat)
    requires Shape(s) && i < SHARD_COUNT
  {
    && (s.writer[i].Some? ==> s.writer[i].value < |s.pc| && s.readers[i] == {})
    && (forall t :: t in s.readers[i] ==> t < |s.pc|)
    && (forall t: nat :: t < |s.pc| ==> (s.writer[i] == Some(t) <==> Holds(s.pc[t], i, true)))
    && (forall t: nat :: t < |s.pc| ==> (t in s.readers[i] <==> Holds(s.pc[t], i, false)))
  }

  ghost predicate Locks(s: State) {
    Shape(s) && forall i :: 0 <= i < SHARD_COUNT ==> ShardLock(s, i)
  }

  /** A shard as it will be once the writer that holds it, if any, has run its body. */
  ghost function Settled(s: State, i: nat): Index
    requires |s.shards| == |s.writer| == SHARD_COUNT && i < SHARD_COUNT
  {
    if s.writer[i].Some? && s.writer[i].value < |s.pc| && s.pc[s.writer[i].value].Locked? then
      Effect(s.shards[i], s.pc[s.writer[i].value].call)
    else
      s.shards[i]
  }

  ghost function AllSettled(s: State): seq<Index>
    requires |s.shards| == |s.writer| == SHARD_COUNT
  {
    seq(SHARD_COUNT, i requires 0 <= i < SHARD_COUNT => Settled(s, i))
  }

  /** What each goroutine is due to answer, or answered, is what the serial order gives. */
  ghost predicate Agrees(s: State, t: nat)
    requires |s.shards| == SHARD_COUNT && t < |s.pc|
  {
    match s.pc[t]
    case Idle => true
    case Waiting(call, i) => i == ShardIndex(call.channel)
    case Locked(call, i, k) =>
      && i == ShardIndex(call.channel)
      && k < |s.order| && s.order[k] == call && Reply(s.shards[i], call) == SerialReply(s.order, k)
    case Ran(call, i, k, answer) =>
      && i == ShardIndex(call.channel)
      && k < |s.order| && s.order[k] == call && answer == SerialReply(s.order, k)
  }

  ghost predicate Inv(s: State) {
    && Locks(s)
    && Represents(AllSettled(s), Serial(s.order))
    && (forall t :: 0 <= t < |s.pc| ==> Agrees(s, t))
    && (forall k, answer :: (k, answer) in s.returned ==> k < |s.order| && answer == SerialReply(s.order, k))
  }

  lemma InitInv(s: State)
    requires Init(s)
    ensures Inv(s)
  {
    assert forall i :: 0 <= i < SHARD_COUNT ==> AllSettled(s)[i] == map[];
  }

  lemma EffectRepresents(shards: seq<Index>, flat: Index, c: Call)
    requires Represents(shards, flat)
    ensures Represents(shards[ShardIndex(c.channel) := Effect(shards[ShardIndex(c.channel)], c)], Effect(flat, c))
  {
    match c {
      case JoinCall(channel, conn) => ShardJoin(shards, flat, channel, conn);
      case LeaveCall(channel, connId) => ShardLeave(shards, flat, channel, connId);
      case _ => assert shards[ShardIndex(c.channel) := shards[ShardIndex(c.channel)]] == shards;
    }
  }

  lemma ReplyRepresents(shards: seq<Index>, flat: Index, c: Call)
    requires Represents(shards, flat)
    ensures Reply(shards[ShardIndex(c.channel)], c) == Reply(flat, c)
  {
    assert RoomOf(shards[ShardIndex(c.channel)], c.channel) == RoomOf(flat, c.channel);
  }

  /** Calls that acquire later do not change what earlier ones answer. */
  lemma LaterCallsDoNotMatter(order: seq<Call>, c: Call, k: nat)
    requires k < |order|
    ensures SerialReply(order + [c], k) == SerialReply(order, k)
  {
    assert (order + [c])[..k] == order[..k];
  }

  lemma StepLocks(s: State, t: nat, a: Action)
    requires Locks(s) && Enabled(s, t, a)
    ensures Locks(Apply(s, t, a))
  {
    forall i | 0 <= i < SHARD_COUNT ensures Shape(Apply(s, t, a)) && ShardLock(Apply(s, t, a), i) {
      assert ShardLock(s, i);
      StepShardLock(s, t, a, i);
    }
  }

  lemma StepShardLock(s: State, t: nat, a: Action, i: nat)
    requires Enabled(s, t, a) && i < SHARD_COUNT && ShardLock(s, i)
    ensures Shape(Apply(s, t, a)) && ShardLock(Apply(s, t, a), i)
  {
  }

  lemma AcquireInv(s: State, t: nat)
    requires Inv(s) && Enabled(s, t, Acquire)
    ensures Inv(Apply(s, t, Acquire))
  {
    var s' := Apply(s, t, Acquire);
    StepLocks(s, t, Acquire);
    AcquireRepresents(s, t);
    forall u | 0 <= u < |s'.pc| ensures Agrees(s', u) {
      AcquireAgrees(s, t, u);
    }
    forall k, answer | (k, answer) in s'.returned ensures k < |s'.order| && answer == SerialReply(s'.order, k) {
      LaterCallsDoNotMatter(s.order, s.pc[t].call, k);
    }
  }

  lemma AcquireRepresents(s: State, t: nat)
    requires Inv(s) && Enabled(s, t, Acquire)
    ensures Locks(Apply(s, t, Acquire))
    ensures Represents(AllSettled(Apply(s, t, Acquire)), Serial(Apply(s, t, Acquire).order))
  {
    StepLocks(s, t, Acquire);
    assert Agrees(s, t);
    EffectRepresents(AllSettled(s), Serial(s.order), s.pc[t].call);
    AcquireSettles(s, t);
    assert (s.order + [s.pc[t].call])[..|s.order|] == s.order;
  }

  lemma AcquireAgrees(s: State, t: nat, u: nat)
    requires Inv(s) && Enabled(s, t, Acquire) && u < |s.pc|
    ensures Shape(Apply(s, t, Acquire)) && Agrees(Apply(s, t, Acquire), u)
  {
    assert Agrees(s, t) && Agrees(s, u);
    var call := s.pc[t].call;
    if u == t {
      AcquireSettles(s, t);
      ReplyRepresents(AllSettled(s), Serial(s.order), call);
      assert (s.order + [call])[..|s.order|] == s.order;
    } else if s.pc[u].Locked? || s.pc[u].Ran? {
      LaterCallsDoNotMatter(s.order, call, s.pc[u].ticket);
    }
  }

  lemma AcquireSettles(s: State, t: nat)
    requires Locks(s) && Enabled(s, t, Acquire)
    ensures var call := s.pc[t].call;
            var i := s.pc[t].shard;
            && AllSettled(s)[i] == s.shards[i]
            && AllSettled(Apply(s, t, Acquire)) == AllSettled(s)[i := Effect(AllSettled(s)[i], call)]
  {
    var s' := Apply(s, t, Acquire);
    var call := s.pc[t].call;
    var i := s.pc[t].shard;
    assert ShardLock(s, i);
    forall j | 0 <= j < SHARD_COUNT
      ensures Settled(s', j) == if j == i then Effect(s.shards[i], call) else Settled(s, j)
    {
      assert j != i ==> s'.writer[j] == s.writer[j];
      assert ShardLock(s, j);
    }
  }

  lemma RunInv(s: State, t: nat)
    requires Inv(s) && Enabled(s, t, Run)
    ensures Inv(Apply(s, t, Run))
  {
    var s' := Apply(s, t, Run);
    var call := s.pc[t].call;
    var i := s.pc[t].shard;
    StepLocks(s, t, Run);
    RunSettles(s, t);
    assert Agrees(s, t);
    forall u | 0 <= u < |s'.pc| ensures Agrees(s', u) {
      assert Agrees(s, u);
      if u != t && s.pc[u].Locked? {
        OthersKeepTheirShard(s, t, u);
      }
    }
  }

  lemma RunSettles(s: State, t: nat)
    requires Locks(s) && Enabled(s, t, Run)
    ensures AllSettled(Apply(s, t, Run)) == AllSettled(s)
  {
    forall j | 0 <= j < SHARD_COUNT ensures Settled(Apply(s, t, Run), j) == Settled(s, j) {
      assert ShardLock(s, j);
      RunSettlesShard(s, t, j);
    }
  }

  lemma RunSettlesShard(s: State, t: nat, j: nat)
    requires Enabled(s, t, Run) && j < SHARD_COUNT && ShardLock(s, j)
    ensures Settled(Apply(s, t, Run), j) == Settled(s, j)
  {
    assert Holds(s.pc[t], s.pc[t].shard, Writes(s.pc[t].call));
  }

  lemma OthersKeepTheirShard(s: State, t: nat, u: nat)
    requires Locks(s) && Enabled(s, t, Run) && u < |s.pc| && u != t && s.pc[u].Locked?
    ensures var at := s.pc[u].shard;
            Reply(Apply(s, t, Run).shards[at], s.pc[u].call) == Reply(s.shards[at], s.pc[u].call)
  {
    assert ShardLock(s, s.pc[u].shard);
    assert Holds(s.pc[u], s.pc[u].shard, Writes(s.pc[u].call));
    assert Holds(s.pc[t], s.pc[t].shard, Writes(s.pc[t].call));
  }

  lemma StartOrReturnInv(s: State, t: nat, a: Action)
    requires Inv(s) && Enabled(s, t, a) && (a.Start? || a.Return?)
    ensures Inv(Apply(s, t, a))
  {
    var s' := Apply(s, t, a);
    StepLocks(s, t, a);
    forall j | 0 <= j < SHARD_COUNT ensures Settled(s', j) == Settled(s, j) {
      assert ShardLock(s, j);
    }
    assert AllSettled(s') == AllSettled(s);
    assert Agrees(s, t);
    forall u | 0 <= u < |s'.pc| ensures Agrees(s', u) {
      assert Agrees(s, u);
    }
  }

  lemma StepInv(s: State, t: nat, a: Action)
    requires Inv(s) && Enabled(s, t, a)
    ensures Inv(Apply(s, t, a))
  {
    match a {
      case Acquire => AcquireInv(s, t);
      case Run => RunInv(s, t);
      case _ => StartOrReturnInv(s, t, a);
    }
  }

  // ----- runs -----

  datatype Step = Step(thread: nat, action: Action)

  ghost predicate Legal(s: State, run: seq<Step>)
    decreases |run|
  {
    run == [] || (Enabled(s, run[0].thread, run[0].action) && Legal(Apply(s, run[0].thread, run[0].action), run[1..]))
  }

  ghost function After(s: State, run: seq<Step>): State
    requires Legal(s, run)
    decreases |run|
  {
    if run == [] then s else After(Apply(s, run[0].thread, run[0].action), run[1..])
  }

  lemma {:induction false} RunsKeepInv(s: State, run: seq<Step>)
    requires Inv(s) && Legal(s, run)
    ensures Inv(After(s, run))
    decreases |run|
  {
    if run != [] {
      StepInv(s, run[0].thread, run[0].action);
      RunsKeepInv(Apply(s, run[0].thread, run[0].action), run[1..]);
    }
  }

  ghost predicate Reachable(s: State) {
    exists s0, run :: Init(s0) && Legal(s0, run) && After(s0, run) == s
  }

  lemma ReachableInv(s: State)
    requires Reachable(s)
    ensures Inv(s)
  {
    var s0, run :| Init(s0) && Legal(s0, run) && After(s0, run) == s;
    InitInv(s0);
    RunsKeepInv(s0, run);
  }

  /** Every call that has returned answered as the serial run in lock-acquisition order answers. */
  lemma AnswersAreSerial(s: State, ticket: nat, answer: Answer)
    requires Reachable(s) && (ticket, answer) in s.returned
    ensures ticket < |s.order| && answer == Reply(Serial(s.order[..ticket]), s.order[ticket])
  {
    ReachableInv(s);
  }

  /** When no call is between its acquire and its release, the shards are the serial run's flat index. */
  lemma QuietShardsAreSerial(s: State)
    requires Reachable(s) && forall t :: 0 <= t < |s.pc| ==> s.pc[t].Idle? || s.pc[t].Waiting?
    ensures Represents(s.shards, Serial(s.order))
  {
    ReachableInv(s);
    forall i | 0 <= i < SHARD_COUNT ensures AllSettled(s)[i] == s.shards[i] {
      assert ShardLock(s, i);
    }
    assert AllSettled(s) == s.shards;
  }

  /** A call that has returned stands before every call that acquires from then on: real-time order is kept. */
  lemma RealTimeOrder(s: State, ticket: nat, answer: Answer, t: nat)
    requires Reachable(s) && (ticket, answer) in s.returned && Enabled(s, t, Acquire)
    ensures Apply(s, t, Acquire).pc[t].Locked? && ticket < Apply(s, t, Acquire).pc[t].ticket
  {
    ReachableInv(s);
  }

  lemma {:induction false} SerialIsWellFiled(calls: seq<Call>)
    ensures WellFiled(Serial(calls))
  {
    if calls != [] {
      var before := Serial(calls[..|calls| - 1]);
      SerialIsWellFiled(calls[..|calls| - 1]);
      match calls[|calls| - 1] {
        case JoinCall(channel, conn) => JoinFiles(before, channel, conn);
        case LeaveCall(channel, connId) => LeaveFiles(before, channel, connId);
        case _ =>
      }
    }
  }
}

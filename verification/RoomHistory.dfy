/** Who is in a room, read off the history of calls alone, and what concurrent List and Count calls answer by it. */
module RoomHistory {
  import opened Prelude
  import opened RoomTable
  import opened RoomShards
  import opened RoomManager
  import opened RoomLinearization

  predicate JoinsAt(calls: seq<Call>, i: nat, h: Uuid, k: Uuid) {
    i < |calls| && calls[i].JoinCall? && calls[i].channel == h && calls[i].conn.id == k
  }

  predicate LeavesAt(calls: seq<Call>, i: nat, h: Uuid, k: Uuid) {
    i < |calls| && calls[i].LeaveCall? && calls[i].channel == h && calls[i].connId == k
  }

  /** The call is a join of `k` to `h`, and no later call joins or takes it out. */
  ghost predicate Stands(calls: seq<Call>, i: nat, h: Uuid, k: Uuid) {
    JoinsAt(calls, i, h, k) && forall j :: i < j < |calls| ==> !JoinsAt(calls, j, h, k) && !LeavesAt(calls, j, h, k)
  }

  lemma StandsAfter(calls: seq<Call>, c: Call, i: nat, h: Uuid, k: Uuid)
    ensures Stands(calls + [c], i, h, k) <==>
            || (i == |calls| && c.JoinCall? && c.channel == h && c.conn.id == k)
            || (&& Stands(calls, i, h, k)
                && !(c.JoinCall? && c.channel == h && c.conn.id == k)
                && !(c.LeaveCall? && c.channel == h && c.connId == k))
  {
    var calls' := calls + [c];
    assert calls'[|calls|] == c;
    forall j: nat | j < |calls|
      ensures JoinsAt(calls', j, h, k) <==> JoinsAt(calls, j, h, k)
      ensures LeavesAt(calls', j, h, k) <==> LeavesAt(calls, j, h, k)
    {
      assert calls'[j] == calls[j];
    }
    if Stands(calls', i, h, k) && i < |calls| {
      assert !JoinsAt(calls', |calls|, h, k) && !LeavesAt(calls', |calls|, h, k);
      forall j | i < j < |calls| ensures !JoinsAt(calls, j, h, k) && !LeavesAt(calls, j, h, k) {
        assert !JoinsAt(calls', j, h, k) && !LeavesAt(calls', j, h, k);
      }
    }
  }

  /** A connection is in a room exactly when its last call about that room was a join, and as that join gave it. */
  lemma {:induction false} SerialByHistory(calls: seq<Call>, h: Uuid, k: Uuid)
    ensures InRoom(Serial(calls), h, k) <==> exists i: nat :: Stands(calls, i, h, k)
    ensures forall i: nat :: Stands(calls, i, h, k) ==>
              InRoom(Serial(calls), h, k) && Serial(calls)[h][k] == calls[i].conn
    decreases |calls|
  {
    if calls != [] {
      var before, c := calls[..|calls| - 1], calls[|calls| - 1];
      assert calls == before + [c];
      SerialByHistory(before, h, k);
      forall i: nat ensures Stands(calls, i, h, k) <==>
                     || (i == |before| && c.JoinCall? && c.channel == h && c.conn.id == k)
                     || (&& Stands(before, i, h, k)
                         && !(c.JoinCall? && c.channel == h && c.conn.id == k)
                         && !(c.LeaveCall? && c.channel == h && c.connId == k))
      {
        StandsAfter(before, c, i, h, k);
      }
      EffectOnMember(Serial(before), c, h, k);
      if c.JoinCall? && c.channel == h && c.conn.id == k {
        assert Stands(calls, |before|, h, k);
      } else if InRoom(Serial(calls), h, k) {
        var i: nat :| Stands(before, i, h, k);
        assert Stands(calls, i, h, k);
      }
    }
  }

  lemma EffectOnMember(index: Index, c: Call, h: Uuid, k: Uuid)
    ensures var after := Effect(index, c);
            && (c.JoinCall? && c.channel == h && c.conn.id == k ==> InRoom(after, h, k) && after[h][k] == c.conn)
            && (c.LeaveCall? && c.channel == h && c.connId == k ==> !InRoom(after, h, k))
            && (!(c.JoinCall? && c.channel == h && c.conn.id == k) && !(c.LeaveCall? && c.channel == h && c.connId == k)
                ==> (InRoom(after, h, k) <==> InRoom(index, h, k))
                    && (InRoom(after, h, k) ==> after[h][k] == index[h][k]))
  {
    match c {
      case JoinCall(channel, conn) => WithMemberMembers(index, channel, conn.id, conn, h, k);
      case LeaveCall(channel, connId) => WithoutMembers(index, channel, {connId}, h, k);
      case _ =>
    }
  }

  /** The connections whose last call about the room, before the ticket, was a join. */
  ghost predicate InByHistory(calls: seq<Call>, h: Uuid, c: Conn) {
    exists i: nat :: Stands(calls, i, h, c.id) && calls[i].conn == c
  }

  /** In every concurrent history List answers exactly the connections whose last call before it was a join. */
  lemma ListByHistory(s: State, ticket: nat, answer: Answer, c: Conn)
    requires Reachable(s) && (ticket, answer) in s.returned && ticket < |s.order| && s.order[ticket].ListCall?
    ensures answer.Members?
    ensures c in answer.conns <==> InByHistory(s.order[..ticket], s.order[ticket].channel, c)
  {
    AnswersAreSerial(s, ticket, answer);
    var calls, h := s.order[..ticket], s.order[ticket].channel;
    SerialIsWellFiled(calls);
    SerialByHistory(calls, h, c.id);
    if c in answer.conns {
      var k :| k in Serial(calls)[h] && Serial(calls)[h][k] == c;
      assert InRoom(Serial(calls), h, k);
    }
  }

  /** And Count answers how many there are. */
  lemma CountByHistory(s: State, ticket: nat, answer: Answer) returns (ids: set<Uuid>)
    requires Reachable(s) && (ticket, answer) in s.returned && ticket < |s.order| && s.order[ticket].CountCall?
    ensures answer == Size(|ids|)
    ensures forall k :: k in ids <==> exists i: nat :: Stands(s.order[..ticket], i, s.order[ticket].channel, k)
  {
    AnswersAreSerial(s, ticket, answer);
    var calls, h := s.order[..ticket], s.order[ticket].channel;
    ids := if h in Serial(calls) then Serial(calls)[h].Keys else {};
    forall k ensures k in ids <==> exists i: nat :: Stands(calls, i, h, k) {
      SerialByHistory(calls, h, k);
      assert k in ids <==> InRoom(Serial(calls), h, k);
    }
  }
}

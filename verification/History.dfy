/** Chat history: keyset pagination by creation time, and the walk a client makes through it page by page. */
module History {
  import opened Prelude

  type Id = int

  datatype Message = Message(id: Id, channel: int, createdAt: int, content: string)

  datatype FindError = CursorNotFound

  function InChannel(rows: seq<Message>, channel: int): seq<Message> {
    if rows == [] then []
    else if rows[0].channel == channel then [rows[0]] + InChannel(rows[1..], channel)
    else InChannel(rows[1..], channel)
  }

  function OlderThan(rows: seq<Message>, t: int): seq<Message> {
    if rows == [] then []
    else if rows[0].createdAt < t then [rows[0]] + OlderThan(rows[1..], t)
    else OlderThan(rows[1..], t)
  }

  function Insert(m: Message, s: seq<Message>): seq<Message> {
    if s == [] || s[0].createdAt <= m.createdAt then [m] + s else [s[0]] + Insert(m, s[1..])
  }

  /** `ORDER BY created_at DESC`; rows of equal time keep their physical order. */
  function NewestFirst(s: seq<Message>): seq<Message> {
    if s == [] then [] else Insert(s[0], NewestFirst(s[1..]))
  }

  function Take(s: seq<Message>, limit: nat): seq<Message> {
    if |s| <= limit then s else s[..limit]
  }

  function Lookup(rows: seq<Message>, id: Id): Option<Message> {
    if rows == [] then None else if rows[0].id == id then Some(rows[0]) else Lookup(rows[1..], id)
  }

  /** At most `limit` messages, newest first; with a cursor, only those older than the cursor message. */
  function FindByChannelID(
      rows: seq<Message>, channel: int, limit: nat, beforeId: Option<Id>): Result<seq<Message>, FindError>
  {
    match beforeId
    case None => Ok(Take(NewestFirst(InChannel(rows, channel)), limit))
    case Some(id) =>
      match Lookup(rows, id)
      case None => Err(CursorNotFound)
      case Some(cursor) => Ok(Take(NewestFirst(OlderThan(InChannel(rows, channel), cursor.createdAt)), limit))
  }

  predicate Descending(s: seq<Message>) {
    forall i, j :: 0 <= i < j < |s| ==> s[i].createdAt >= s[j].createdAt
  }

  predicate DistinctTimes(s: seq<Message>) {
    forall i, j :: 0 <= i < j < |s| ==> s[i].createdAt != s[j].createdAt
  }

  predicate DistinctIds(s: seq<Message>) {
    forall i, j :: 0 <= i < j < |s| ==> s[i].id != s[j].id
  }

  // ----- the query -----

  lemma {:induction false} OlderIsNotLonger(s: seq<Message>, t: int)
    ensures |OlderThan(s, t)| <= |s|
  {
    if s != [] {
      OlderIsNotLonger(s[1..], t);
    }
  }

  lemma {:induction false} InsertKeeps(m: Message, s: seq<Message>)
    ensures multiset(Insert(m, s)) == multiset{m} + multiset(s)
  {
    if s != [] && s[0].createdAt > m.createdAt {
      InsertKeeps(m, s[1..]);
      assert s == [s[0]] + s[1..];
    }
  }

  lemma {:induction false} InsertSorts(m: Message, s: seq<Message>)
    requires Descending(s)
    ensures Descending(Insert(m, s))
    ensures Insert(m, s)[0].createdAt == if s == [] || s[0].createdAt <= m.createdAt then m.createdAt
        else s[0].createdAt
  {
    if s == [] || s[0].createdAt <= m.createdAt {
      DescendingCons(m, s);
    } else {
      DescendingTail(s, 1);
      InsertSorts(m, s[1..]);
      DescendingCons(s[0], Insert(m, s[1..]));
    }
  }

  lemma DescendingCons(m: Message, s: seq<Message>)
    requires Descending(s) && (s != [] ==> m.createdAt >= s[0].createdAt)
    ensures Descending([m] + s)
  {
    assert forall i :: 0 < i < |[m] + s| ==> ([m] + s)[i] == s[i - 1];
  }

  lemma DescendingTail(s: seq<Message>, k: nat)
    requires Descending(s) && k <= |s|
    ensures Descending(s[k..])
  {
    assert forall i :: 0 <= i < |s[k..]| ==> s[k..][i] == s[k + i];
  }

  lemma {:induction false} NewestFirstSorts(s: seq<Message>)
    ensures multiset(NewestFirst(s)) == multiset(s) && Descending(NewestFirst(s))
  {
    if s != [] {
      NewestFirstSorts(s[1..]);
      InsertKeeps(s[0], NewestFirst(s[1..]));
      InsertSorts(s[0], NewestFirst(s[1..]));
      assert s == [s[0]] + s[1..];
    }
  }

  lemma {:induction false} OlderOfInsert(m: Message, s: seq<Message>, t: int)
    requires Descending(s)
    ensures OlderThan(Insert(m, s), t) == if m.createdAt < t then Insert(m, OlderThan(s, t)) else OlderThan(s, t)
  {
    if s == [] {
    } else if s[0].createdAt <= m.createdAt {
      assert ([m] + s)[1..] == s;
      if m.createdAt < t {
        OlderKeepsOlder(s, t);
      }
    } else {
      OlderOfInsert(m, s[1..], t);
    }
  }

  /** In a descending list the messages older than `t` are a tail of it, and once one is old all are. */
  lemma {:induction false} OlderKeepsOlder(s: seq<Message>, t: int)
    requires Descending(s)
    ensures s != [] && s[0].createdAt < t ==> OlderThan(s, t) == s
  {
    if s != [] && s[0].createdAt < t {
      if |s| > 1 {
        OlderKeepsOlder(s[1..], t);
      }
      assert s == [s[0]] + s[1..];
    }
  }

  lemma {:induction false} OlderCommutesWithSort(s: seq<Message>, t: int)
    ensures NewestFirst(OlderThan(s, t)) == OlderThan(NewestFirst(s), t)
  {
    if s != [] {
      OlderCommutesWithSort(s[1..], t);
      NewestFirstSorts(s[1..]);
      OlderOfInsert(s[0], NewestFirst(s[1..]), t);
      if s[0].createdAt < t {
        assert ([s[0]] + OlderThan(s[1..], t))[1..] == OlderThan(s[1..], t);
      }
    }
  }

  lemma {:induction false} OlderTwice(s: seq<Message>, t: int, u: int)
    requires u <= t
    ensures OlderThan(OlderThan(s, t), u) == OlderThan(s, u)
  {
    if s != [] {
      OlderTwice(s[1..], t, u);
      if s[0].createdAt < t {
        assert ([s[0]] + OlderThan(s[1..], t))[1..] == OlderThan(s[1..], t);
      }
    }
  }

  lemma {:induction false} OlderOfAppend(s: seq<Message>, more: seq<Message>, channel: int, t: int)
    requires forall m :: m in more && m.channel == channel ==> m.createdAt >= t
    ensures OlderThan(InChannel(s + more, channel), t) == OlderThan(InChannel(s, channel), t)
  {
    if s == [] {
      assert [] + more == more;
      NoneOlder(more, channel, t);
    } else {
      assert (s + more)[1..] == s[1..] + more;
      OlderOfAppend(s[1..], more, channel, t);
      if s[0].channel == channel {
        assert ([s[0]] + InChannel(s[1..] + more, channel))[1..] == InChannel(s[1..] + more, channel);
        assert ([s[0]] + InChannel(s[1..], channel))[1..] == InChannel(s[1..], channel);
      }
    }
  }

  lemma {:induction false} NoneOlder(s: seq<Message>, channel: int, t: int)
    requires forall m :: m in s && m.channel == channel ==> m.createdAt >= t
    ensures OlderThan(InChannel(s, channel), t) == []
  {
    if s != [] {
      NoneOlder(s[1..], channel, t);
      if s[0].channel == channel {
        assert ([s[0]] + InChannel(s[1..], channel))[1..] == InChannel(s[1..], channel);
      }
    }
  }

  lemma {:induction false} InChannelMembers(s: seq<Message>, channel: int)
    ensures forall m :: m in InChannel(s, channel) <==> m in s && m.channel == channel
    ensures DistinctIds(s) ==> DistinctIds(InChannel(s, channel))
  {
    if s != [] {
      InChannelMembers(s[1..], channel);
      assert s == [s[0]] + s[1..];
    }
  }

  lemma {:induction false} LookupFinds(s: seq<Message>, m: Message)
    requires m in s && DistinctIds(s)
    ensures Lookup(s, m.id) == Some(m)
  {
    if s[0] != m {
      LookupFinds(s[1..], m);
      var i :| 0 <= i < |s[1..]| && s[1..][i] == m;
      assert s[i + 1] == m;
    }
  }

  /** The rows a fetch may choose from. */
  function Eligible(rows: seq<Message>, channel: int, beforeId: Option<Id>): Result<seq<Message>, FindError> {
    if beforeId.None? then Ok(InChannel(rows, channel))
    else
      var cursor := Lookup(rows, beforeId.value);
      if cursor.None? then Err(CursorNotFound) else Ok(OlderThan(InChannel(rows, channel), cursor.value.createdAt))
  }

  /** page is the newest part of all: what it leaves out, in any order, is no newer than anything it shows. */
  ghost predicate NewestPartOf(page: seq<Message>, all: seq<Message>) {
    exists rest: seq<Message> :: multiset(all) == multiset(page) + multiset(rest) && NoneNewer(page, rest)
  }

  ghost predicate NoneNewer(page: seq<Message>, rest: seq<Message>) {
    forall i, j :: 0 <= i < |page| && 0 <= j < |rest| ==> page[i].createdAt >= rest[j].createdAt
  }

  lemma TakeIsNewest(s: seq<Message>, n: nat)
    requires Descending(s)
    ensures Descending(Take(s, n)) && NewestPartOf(Take(s, n), s)
    ensures |Take(s, n)| == if |s| <= n then |s| else n
  {
    var page := Take(s, n);
    var rest := s[|page|..];
    assert s == page + rest;
    assert NoneNewer(page, rest);
  }

  /** `page` is a page of `limit` of the messages `all`: newest first, as full as can be, nothing newer left out. */
  ghost predicate IsPage(all: seq<Message>, limit: nat, page: seq<Message>) {
    && Descending(page)
    && |page| == (if |all| <= limit then |all| else limit)
    && NewestPartOf(page, all)
  }

  /**
   * What a database may answer a fetch with. The sort key is the creation time alone, so messages of equal time may
   * come in any order, a different one at each fetch.
   */
  ghost predicate Answers(rows: seq<Message>, channel: int, limit: nat, beforeId: Option<Id>, page: seq<Message>) {
    var eligible := Eligible(rows, channel, beforeId);
    eligible.Ok? && IsPage(eligible.value, limit, page)
  }

  /** The query is answered exactly when its cursor is known, and with a page of the messages it may choose from. */
  lemma PageShowsNewest(rows: seq<Message>, channel: int, limit: nat, beforeId: Option<Id>)
    ensures var found := FindByChannelID(rows, channel, limit, beforeId);
            && (found.Ok? <==> (beforeId.None? || exists m :: m in rows && m.id == beforeId.value))
            && (found.Ok? ==> Answers(rows, channel, limit, beforeId, found.value))
  {
    if beforeId.Some? {
      LookupExactly(rows, beforeId.value);
    }
    var eligible := Eligible(rows, channel, beforeId);
    if eligible.Ok? {
      SortedPage(eligible.value, limit);
    }
  }

  lemma SortedPage(all: seq<Message>, limit: nat)
    ensures IsPage(all, limit, Take(NewestFirst(all), limit))
  {
    var sorted := NewestFirst(all);
    NewestFirstSorts(all);
    assert |multiset(sorted)| == |sorted| && |multiset(all)| == |all|;
    TakeIsNewest(sorted, limit);
    var page := Take(sorted, limit);
    var rest: seq<Message> :| multiset(sorted) == multiset(page) + multiset(rest) && NoneNewer(page, rest);
    assert multiset(all) == multiset(page) + multiset(rest) && NoneNewer(page, rest);
  }

  lemma {:induction false} LookupExactly(rows: seq<Message>, id: Id)
    ensures Lookup(rows, id).Some? <==> exists m :: m in rows && m.id == id
  {
    if rows != [] && rows[0].id != id {
      LookupExactly(rows[1..], id);
      assert rows == [rows[0]] + rows[1..];
    } else if rows != [] {
      assert rows[0] in rows;
    }
  }
}

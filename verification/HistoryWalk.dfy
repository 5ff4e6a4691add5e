/**
 * The walk a client makes through a channel's history: fetch, then fetch again with the last id of the page as the
 * cursor, until a page is empty. Each fetch may be answered with any page the query allows.
 */
module HistoryWalk {
  import opened Prelude
  import opened History

  function Last(page: seq<Message>): Message
    requires page != []
  {
    page[|page| - 1]
  }

  /** `arrivals[k]` are the messages saved just before the k-th fetch, `pages[k]` what it was answered. */
  ghost predicate IsWalk(
      rows: seq<Message>, arrivals: seq<seq<Message>>, channel: int, limit: nat, beforeId: Option<Id>,
      pages: seq<seq<Message>>)
    decreases |pages|
  {
    || pages == []
    || (&& arrivals != []
        && var table := rows + arrivals[0];
           && Answers(table, channel, limit, beforeId, pages[0])
           && if pages[0] == [] then |pages| == 1
              else IsWalk(table, arrivals[1..], channel, limit, Some(Last(pages[0]).id), pages[1..]))
  }

  predicate Ended(pages: seq<seq<Message>>) {
    pages != [] && pages[|pages| - 1] == []
  }

  /** The same walk with the cursor's time in place of its id, through messages that do not change. */
  ghost predicate ListWalk(all: seq<Message>, limit: nat, pages: seq<seq<Message>>)
    decreases |pages|
  {
    || pages == []
    || (&& IsPage(all, limit, pages[0])
        && if pages[0] == [] then |pages| == 1
           else ListWalk(OlderThan(all, Last(pages[0]).createdAt), limit, pages[1..]))
  }

  function Flatten(batches: seq<seq<Message>>): seq<Message> {
    if batches == [] then [] else batches[0] + Flatten(batches[1..])
  }

  /** Everything that arrives in the channel is at least as new as `t`. */
  predicate ArriveAfter(arrivals: seq<seq<Message>>, channel: int, t: int) {
    forall m :: m in Flatten(arrivals) && m.channel == channel ==> m.createdAt >= t
  }

  /** What arrives in the channel is at least as new as what was there. */
  predicate ArriveNewer(rows: seq<Message>, arrivals: seq<seq<Message>>, channel: int) {
    forall m :: m in rows && m.channel == channel ==> ArriveAfter(arrivals, channel, m.createdAt)
  }

  /** No page of `limit` ends between two messages of the same time. */
  predicate CleanBoundaries(s: seq<Message>, limit: nat)
    requires limit >= 1
    decreases |s|
  {
    |s| <= limit || (s[limit - 1].createdAt != s[limit].createdAt && CleanBoundaries(s[limit..], limit))
  }

  // ----- what is older than a time, counted -----

  lemma {:induction false} OlderMembers(s: seq<Message>, t: int)
    ensures forall m :: m in OlderThan(s, t) <==> m in s && m.createdAt < t
  {
    if s != [] {
      OlderMembers(s[1..], t);
      assert s == [s[0]] + s[1..];
    }
  }

  lemma {:induction false} OlderCount(s: seq<Message>, t: int, m: Message)
    ensures multiset(OlderThan(s, t))[m] == if m.createdAt < t then multiset(s)[m] else 0
  {
    if s != [] {
      OlderCount(s[1..], t, m);
      assert s == [s[0]] + s[1..];
    }
  }

  lemma OlderOfPermutation(a: seq<Message>, b: seq<Message>, t: int)
    requires multiset(a) == multiset(b)
    ensures multiset(OlderThan(a, t)) == multiset(OlderThan(b, t)) && |OlderThan(a, t)| == |OlderThan(b, t)|
  {
    forall m ensures multiset(OlderThan(a, t))[m] == multiset(OlderThan(b, t))[m] {
      OlderCount(a, t, m);
      OlderCount(b, t, m);
    }
    assert multiset(OlderThan(a, t)) == multiset(OlderThan(b, t));
    SameLength(OlderThan(a, t), OlderThan(b, t));
  }

  lemma SameLength<T>(a: seq<T>, b: seq<T>)
    requires multiset(a) == multiset(b)
    ensures |a| == |b|
  {
    assert |multiset(a)| == |a| && |multiset(b)| == |b|;
  }

  lemma {:induction false} OlderDropsPrefix(s: seq<Message>, k: nat, t: int)
    requires k <= |s| && forall i :: 0 <= i < k ==> s[i].createdAt >= t
    ensures OlderThan(s, t) == OlderThan(s[k..], t)
    ensures |OlderThan(s, t)| <= |s| - k
  {
    if k == 0 {
      assert s[0..] == s;
      OlderIsNotLonger(s, t);
    } else {
      OlderDropsPrefix(s[1..], k - 1, t);
      assert s[1..][k - 1..] == s[k..];
    }
  }

  lemma {:induction false} OlderKeepsSuffix(s: seq<Message>, k: nat, t: int)
    requires k <= |s| && forall i :: k <= i < |s| ==> s[i].createdAt < t
    ensures |OlderThan(s, t)| >= |s| - k
  {
    if s != [] {
      OlderKeepsSuffix(s[1..], if k == 0 then 0 else k - 1, t);
    }
  }

  lemma {:induction false} OlderIsTail(s: seq<Message>, k: nat, t: int)
    requires Descending(s) && 0 < k <= |s| && t == s[k - 1].createdAt
    requires k < |s| ==> s[k].createdAt < t
    ensures OlderThan(s, t) == s[k..]
  {
    if k == 1 {
      OlderKeepsOlder(s[1..], t);
      if |s| == 1 {
        assert s[1..] == [];
      }
    } else {
      OlderIsTail(s[1..], k - 1, t);
      assert s[1..][k - 1..] == s[k..];
    }
  }

  /** The time at a rank is the one that few enough messages are older than, and enough are not newer than. */
  lemma RankTime(sorted: seq<Message>, k: nat, t: int)
    requires Descending(sorted) && 0 < k <= |sorted|
    requires |OlderThan(sorted, t)| <= |sorted| - k < |OlderThan(sorted, t + 1)|
    ensures sorted[k - 1].createdAt == t
  {
    if sorted[k - 1].createdAt > t {
      OlderDropsPrefix(sorted, k, t + 1);
    } else if sorted[k - 1].createdAt < t {
      OlderKeepsSuffix(sorted, k - 1, t);
    }
  }

  lemma SortedLength(s: seq<Message>)
    ensures |NewestFirst(s)| == |s|
  {
    NewestFirstSorts(s);
    assert |multiset(NewestFirst(s))| == |multiset(s)|;
  }

  // ----- one page -----

  /** A page and what it leaves out; the next fetch chooses from the older ones of those. */
  lemma PageSplits(all: seq<Message>, limit: nat, page: seq<Message>) returns (rest: seq<Message>)
    requires IsPage(all, limit, page) && page != []
    ensures multiset(all) == multiset(page) + multiset(rest) && NoneNewer(page, rest) && |all| == |page| + |rest|
    ensures multiset(page + rest) == multiset(all)
    ensures multiset(OlderThan(all, Last(page).createdAt)) == multiset(OlderThan(rest, Last(page).createdAt))
    ensures |OlderThan(all, Last(page).createdAt)| == |OlderThan(rest, Last(page).createdAt)|
  {
    rest :| multiset(all) == multiset(page) + multiset(rest) && NoneNewer(page, rest);
    assert |multiset(all)| == |multiset(page)| + |multiset(rest)|;
    var t := Last(page).createdAt;
    OlderOfPermutation(all, page + rest, t);
    OlderDropsPrefix(page + rest, |page|, t);
    assert (page + rest)[|page|..] == rest;
  }

  lemma OlderIsPart(s: seq<Message>, t: int)
    ensures multiset(OlderThan(s, t)) <= multiset(s) && |OlderThan(s, t)| <= |s|
    ensures |OlderThan(s, t)| == |s| ==> multiset(OlderThan(s, t)) == multiset(s)
  {
    forall m ensures multiset(OlderThan(s, t))[m] <= multiset(s)[m] {
      OlderCount(s, t, m);
    }
    OlderIsNotLonger(s, t);
    if |OlderThan(s, t)| == |s| {
      OlderAll(s, t);
    }
  }

  lemma {:induction false} OlderAll(s: seq<Message>, t: int)
    requires |OlderThan(s, t)| >= |s|
    ensures OlderThan(s, t) == s
  {
    if s != [] {
      OlderIsNotLonger(s[1..], t);
      OlderAll(s[1..], t);
      assert s == [s[0]] + s[1..];
    }
  }

  /** Whatever the order among equal times, a page ends at the same time. */
  lemma PageEndsAt(all: seq<Message>, limit: nat, page: seq<Message>)
    requires IsPage(all, limit, page) && page != []
    ensures |NewestFirst(all)| == |all| && NewestFirst(all)[|page| - 1].createdAt == Last(page).createdAt
  {
    var t := Last(page).createdAt;
    NewestFirstSorts(all);
    SortedLength(all);
    PageRank(all, limit, page);
    OlderOfPermutation(NewestFirst(all), all, t);
    OlderOfPermutation(NewestFirst(all), all, t + 1);
    RankTime(NewestFirst(all), |page|, t);
  }

  lemma PageRank(all: seq<Message>, limit: nat, page: seq<Message>)
    requires IsPage(all, limit, page) && page != []
    ensures var t := Last(page).createdAt;
            |page| <= |all| && |OlderThan(all, t)| <= |all| - |page| < |OlderThan(all, t + 1)|
  {
    var t := Last(page).createdAt;
    var rest := PageSplits(all, limit, page);
    OlderIsPart(rest, t);
    AtMost(page, rest);
    OlderKeepsSuffix(page + rest, |page| - 1, t + 1);
    OlderOfPermutation(all, page + rest, t + 1);
  }

  lemma AtMost(page: seq<Message>, rest: seq<Message>)
    requires page != [] && NoneNewer(page, rest)
    ensures forall i :: |page| - 1 <= i < |page + rest| ==> (page + rest)[i].createdAt <= Last(page).createdAt
  {
  }

  // ----- every walk -----

  lemma SubDistinct(a: seq<Message>, b: seq<Message>)
    requires multiset(a) <= multiset(b) && DistinctIds(b)
    ensures DistinctIds(a)
  {
    forall i, j | 0 <= i < j < |a| ensures a[i].id != a[j].id {
      assert a[i] in multiset(b) && a[j] in multiset(b);
      if a[i].id == a[j].id {
        assert a == a[..j] + a[j..];
        assert multiset(a)[a[i]] == multiset(a[..j])[a[i]] + multiset(a[j..])[a[i]];
        assert a[..j][i] == a[i] && a[j..][0] == a[i];
        CountsOnce(b, a[i]);
      }
    }
  }

  lemma {:induction false} CountsOnce(s: seq<Message>, m: Message)
    requires DistinctIds(s)
    ensures multiset(s)[m] <= 1
  {
    if s != [] {
      CountsOnce(s[1..], m);
      assert s == [s[0]] + s[1..];
      assert s[0] == m ==> m !in s[1..];
    }
  }

  lemma DescendingAppend(page: seq<Message>, later: seq<Message>)
    requires Descending(page) && Descending(later) && page != []
    requires forall m :: m in later ==> m.createdAt <= Last(page).createdAt
    ensures Descending(page + later)
  {
  }

  /** What a walk shows is in order and is part of the whole. */
  lemma {:induction false} WalkIsPart(all: seq<Message>, limit: nat, pages: seq<seq<Message>>)
    requires ListWalk(all, limit, pages)
    ensures Descending(Flatten(pages)) && multiset(Flatten(pages)) <= multiset(all)
    decreases |pages|
  {
    if pages != [] && pages[0] != [] {
      var page, later := pages[0], Flatten(pages[1..]);
      var t := Last(page).createdAt;
      WalkIsPart(OlderThan(all, t), limit, pages[1..]);
      var rest := PageSplits(all, limit, page);
      OlderIsPart(rest, t);
      OlderMembers(all, t);
      assert forall m :: m in later ==> m in multiset(later);
      DescendingAppend(page, later);
    } else if pages != [] {
      assert pages[1..] == [];
    }
  }

  /** No walk is longer than one fetch more than there are messages. */
  lemma {:induction false} WalkIsShort(all: seq<Message>, limit: nat, pages: seq<seq<Message>>)
    requires ListWalk(all, limit, pages)
    ensures |pages| <= |all| + 1
    decreases |pages|
  {
    if pages != [] && pages[0] != [] {
      PageShrinks(all, limit, pages[0]);
      WalkIsShort(OlderThan(all, Last(pages[0]).createdAt), limit, pages[1..]);
    }
  }

  lemma PageShrinks(all: seq<Message>, limit: nat, page: seq<Message>)
    requires IsPage(all, limit, page) && page != []
    ensures |OlderThan(all, Last(page).createdAt)| <= |all| - |page|
  {
    var rest := PageSplits(all, limit, page);
    OlderIsPart(rest, Last(page).createdAt);
  }

  /** A walk that has not ended can go on. */
  lemma {:induction false} ListWalkGoesOn(all: seq<Message>, limit: nat, pages: seq<seq<Message>>)
      returns (page: seq<Message>)
    requires ListWalk(all, limit, pages) && !Ended(pages)
    ensures ListWalk(all, limit, pages + [page])
    decreases |pages|
  {
    if pages == [] {
      page := Take(NewestFirst(all), limit);
      SortedPage(all, limit);
      assert ([page])[1..] == [];
    } else {
      assert pages[0] != [];
      page := ListWalkGoesOn(OlderThan(all, Last(pages[0]).createdAt), limit, pages[1..]);
      assert (pages + [page])[1..] == pages[1..] + [page];
    }
  }

  lemma {:induction false} SomeWalk(all: seq<Message>, limit: nat) returns (pages: seq<seq<Message>>)
    ensures ListWalk(all, limit, pages) && Ended(pages)
    decreases |all|
  {
    var page := Take(NewestFirst(all), limit);
    SortedPage(all, limit);
    if page == [] {
      pages := [page];
    } else {
      PageShrinks(all, limit, page);
      var later := SomeWalk(OlderThan(all, Last(page).createdAt), limit);
      pages := [page] + later;
      assert pages[1..] == later;
    }
  }

  // ----- which walks show everything -----

  /** A walk that has ended showed everything exactly when no page ended inside a group of equal times. */
  lemma {:induction false} WholeListExactly(all: seq<Message>, limit: nat, pages: seq<seq<Message>>)
    requires limit >= 1 && ListWalk(all, limit, pages) && Ended(pages)
    ensures multiset(Flatten(pages)) == multiset(all) <==> CleanBoundaries(NewestFirst(all), limit)
    decreases |pages|
  {
    var page := pages[0];
    SortedLength(all);
    if page == [] {
      assert all == [] && pages[1..] == [];
    } else {
      var t := Last(page).createdAt;
      WholeListExactly(OlderThan(all, t), limit, pages[1..]);
      if |all| <= limit {
        LastPageIsAll(all, limit, pages);
      } else if NewestFirst(all)[limit].createdAt == t {
        TieLosesMessages(all, limit, pages);
      } else {
        CleanCut(all, limit, page);
        FlattenFirst(pages);
        SameFront(multiset(page), multiset(Flatten(pages[1..])), multiset(OlderThan(all, t)));
        CleanStep(NewestFirst(all), limit);
      }
    }
  }

  lemma FlattenFirst(pages: seq<seq<Message>>)
    requires pages != []
    ensures multiset(Flatten(pages)) == multiset(pages[0]) + multiset(Flatten(pages[1..]))
    ensures |Flatten(pages)| == |pages[0]| + |Flatten(pages[1..])|
  {
  }

  lemma CleanStep(sorted: seq<Message>, limit: nat)
    requires 1 <= limit < |sorted|
    ensures CleanBoundaries(sorted, limit) <==>
            sorted[limit - 1].createdAt != sorted[limit].createdAt && CleanBoundaries(sorted[limit..], limit)
  {
  }

  lemma LastPageIsAll(all: seq<Message>, limit: nat, pages: seq<seq<Message>>)
    requires ListWalk(all, limit, pages) && Ended(pages) && pages[0] != [] && |all| <= limit
    ensures multiset(Flatten(pages)) == multiset(all)
  {
    var rest := PageSplits(all, limit, pages[0]);
    PageShrinks(all, limit, pages[0]);
    assert rest == [];
    WalkIsPart(OlderThan(all, Last(pages[0]).createdAt), limit, pages[1..]);
  }

  /** A page that ends inside a group of equal times loses the rest of the group. */
  lemma TieLosesMessages(all: seq<Message>, limit: nat, pages: seq<seq<Message>>)
    requires limit >= 1 && ListWalk(all, limit, pages) && pages != [] && pages[0] != [] && |all| > limit
    requires |NewestFirst(all)| == |all| && NewestFirst(all)[limit].createdAt == Last(pages[0]).createdAt
    ensures multiset(Flatten(pages)) != multiset(all)
    ensures !CleanBoundaries(NewestFirst(all), limit)
  {
    var t, later := Last(pages[0]).createdAt, Flatten(pages[1..]);
    PageEndsAt(all, limit, pages[0]);
    CleanStep(NewestFirst(all), limit);
    TieCounts(all, limit, t);
    WalkIsPart(OlderThan(all, t), limit, pages[1..]);
    PartIsNotLonger(later, OlderThan(all, t));
    FlattenFirst(pages);
    if multiset(Flatten(pages)) == multiset(all) {
      SameLength(Flatten(pages), all);
    }
  }

  lemma TieCounts(all: seq<Message>, k: nat, t: int)
    requires k < |all| == |NewestFirst(all)| && NewestFirst(all)[k].createdAt == t
    ensures |OlderThan(all, t)| < |all| - k
  {
    NewestFirstSorts(all);
    AtLeast(NewestFirst(all), k);
    OlderDropsPrefix(NewestFirst(all), k + 1, t);
    OlderOfPermutation(NewestFirst(all), all, t);
  }

  lemma AtLeast(s: seq<Message>, k: nat)
    requires Descending(s) && k < |s|
    ensures forall i :: 0 <= i <= k ==> s[i].createdAt >= s[k].createdAt
  {
  }

  lemma PartIsNotLonger(a: seq<Message>, b: seq<Message>)
    requires multiset(a) <= multiset(b)
    ensures |a| <= |b|
  {
    assert multiset(b) == multiset(a) + (multiset(b) - multiset(a));
    assert |multiset(b)| == |multiset(a)| + |multiset(b) - multiset(a)|;
  }

  /** A page that ends between two times leaves out exactly the older messages. */
  lemma CleanCut(all: seq<Message>, limit: nat, page: seq<Message>)
    requires limit >= 1 && IsPage(all, limit, page) && page != [] && |all| > limit
    requires |NewestFirst(all)| == |all| && NewestFirst(all)[limit].createdAt != Last(page).createdAt
    ensures multiset(all) == multiset(page) + multiset(OlderThan(all, Last(page).createdAt))
    ensures NewestFirst(OlderThan(all, Last(page).createdAt)) == NewestFirst(all)[limit..]
    ensures NewestFirst(all)[limit - 1].createdAt == Last(page).createdAt
  {
    var t := Last(page).createdAt;
    PageEndsAt(all, limit, page);
    CutSorted(all, limit, t);
    var rest := PageSplits(all, limit, page);
    OlderIsPart(rest, t);
  }

  lemma CutSorted(all: seq<Message>, k: nat, t: int)
    requires 0 < k < |all| == |NewestFirst(all)|
    requires NewestFirst(all)[k - 1].createdAt == t != NewestFirst(all)[k].createdAt
    ensures NewestFirst(OlderThan(all, t)) == NewestFirst(all)[k..] && |OlderThan(all, t)| == |all| - k
  {
    NewestFirstSorts(all);
    OlderIsTail(NewestFirst(all), k, t);
    OlderCommutesWithSort(all, t);
    OlderOfPermutation(NewestFirst(all), all, t);
  }

  lemma SameFront(front: multiset<Message>, a: multiset<Message>, b: multiset<Message>)
    ensures front + a == front + b <==> a == b
  {
    assert front + a - front == a && front + b - front == b;
  }

  lemma {:induction false} DistinctTimesAreClean(s: seq<Message>, limit: nat)
    requires limit >= 1 && DistinctTimes(s)
    ensures CleanBoundaries(s, limit)
    decreases |s|
  {
    if |s| > limit {
      DistinctTimesAreClean(s[limit..], limit);
    }
  }

  lemma {:induction false} CleanByOnesIsDistinct(s: seq<Message>)
    requires Descending(s) && CleanBoundaries(s, 1)
    ensures DistinctTimes(s)
  {
    if |s| > 1 {
      CleanByOnesIsDistinct(s[1..]);
    }
  }

  /** With distinct times there is one order, and so one way to show everything. */
  lemma {:induction false} OneOrder(a: seq<Message>, b: seq<Message>)
    requires multiset(a) == multiset(b) && Descending(a) && Descending(b) && DistinctTimes(b)
    ensures a == b
    decreases |a|
  {
    SameLength(a, b);
    if a != [] {
      SameNewest(a, b);
      TailsAgree(a, b);
      DescendingTail(a, 1);
      DescendingTail(b, 1);
      OneOrder(a[1..], b[1..]);
      assert a == [a[0]] + a[1..] && b == [b[0]] + b[1..];
    }
  }

  lemma SameNewest(a: seq<Message>, b: seq<Message>)
    requires multiset(a) == multiset(b) && Descending(a) && Descending(b) && DistinctTimes(b) && a != [] && b != []
    ensures a[0] == b[0]
  {
    assert a[0] in multiset(b) && b[0] in multiset(a);
    var i :| 0 <= i < |b| && b[i] == a[0];
    var j :| 0 <= j < |a| && a[j] == b[0];
    assert a[0].createdAt >= a[j].createdAt && b[0].createdAt >= b[i].createdAt;
    assert b[0].createdAt == b[i].createdAt;
  }

  lemma TailsAgree(a: seq<Message>, b: seq<Message>)
    requires a != [] && b != [] && a[0] == b[0] && multiset(a) == multiset(b)
    ensures multiset(a[1..]) == multiset(b[1..])
  {
    assert a == [a[0]] + a[1..] && b == [b[0]] + b[1..];
    SameFront(multiset{a[0]}, multiset(a[1..]), multiset(b[1..]));
  }

  // ----- the walk through the stored table -----

  lemma PrefixDistinct(a: seq<Message>, b: seq<Message>)
    requires DistinctIds(a + b)
    ensures DistinctIds(a)
  {
    assert forall i :: 0 <= i < |a| ==> (a + b)[i] == a[i];
  }

  lemma CursorEligible(rows: seq<Message>, arrived: seq<Message>, channel: int, cursor: Message)
    requires DistinctIds(rows + arrived) && cursor in rows
    requires forall m :: m in arrived && m.channel == channel ==> m.createdAt >= cursor.createdAt
    ensures Eligible(rows + arrived, channel, Some(cursor.id))
         == Ok(OlderThan(InChannel(rows, channel), cursor.createdAt))
  {
    LookupFinds(rows + arrived, cursor);
    OlderOfAppend(rows, arrived, channel, cursor.createdAt);
  }

  lemma PageMembers(all: seq<Message>, limit: nat, page: seq<Message>, m: Message)
    requires IsPage(all, limit, page) && m in page
    ensures m in all
  {
    var rest := PageSplits(all, limit, page);
    assert m in multiset(all);
  }

  /** With a cursor, whatever arrives in the meantime, being newer, is never chosen from. */
  lemma {:induction false} CursorWalk(
      rows: seq<Message>, arrivals: seq<seq<Message>>, channel: int, limit: nat, cursor: Message,
          pages: seq<seq<Message>>)
    requires DistinctIds(rows + Flatten(arrivals)) && cursor in rows && ArriveAfter(arrivals, channel, cursor.createdAt)
    ensures IsWalk(rows, arrivals, channel, limit, Some(cursor.id), pages)
       <==> |pages| <= |arrivals| && ListWalk(OlderThan(InChannel(rows, channel), cursor.createdAt), limit, pages)
    decreases |pages|
  {
    if pages != [] && arrivals != [] {
      var table := rows + arrivals[0];
      var older := OlderThan(InChannel(rows, channel), cursor.createdAt);
      assert table + Flatten(arrivals[1..]) == rows + Flatten(arrivals);
      PrefixDistinct(table, Flatten(arrivals[1..]));
      CursorEligible(rows, arrivals[0], channel, cursor);
      if pages[0] != [] && IsPage(older, limit, pages[0]) {
        var last := Last(pages[0]);
        PageMembers(older, limit, pages[0], last);
        OlderMembers(InChannel(rows, channel), cursor.createdAt);
        InChannelMembers(rows, channel);
        OlderTwice(InChannel(rows, channel), cursor.createdAt, last.createdAt);
        OlderOfAppend(rows, arrivals[0], channel, last.createdAt);
        CursorWalk(table, arrivals[1..], channel, limit, last, pages[1..]);
      }
    }
  }

  /** So a whole walk is one through the channel as it was at the first fetch. */
  lemma WalkIsListWalk(
      rows: seq<Message>, arrivals: seq<seq<Message>>, channel: int, limit: nat, pages: seq<seq<Message>>)
    requires Undisturbed(rows, arrivals, channel)
    ensures IsWalk(rows, arrivals, channel, limit, None, pages)
       <==> |pages| <= |arrivals| && ListWalk(InChannel(rows, channel), limit, pages)
  {
    var all := InChannel(rows, channel);
    if pages != [] && arrivals != [] {
      assert rows + arrivals[0] == rows;
      assert Flatten(arrivals) == Flatten(arrivals[1..]);
      if pages[0] != [] && IsPage(all, limit, pages[0]) {
        var last := Last(pages[0]);
        PageMembers(all, limit, pages[0], last);
        InChannelMembers(rows, channel);
        assert ArriveAfter(arrivals, channel, last.createdAt);
        CursorWalk(rows, arrivals[1..], channel, limit, last, pages[1..]);
      }
    }
  }

  /** Ids are unique, and what is saved between fetches is no older than what was there at the first one. */
  ghost predicate Undisturbed(rows: seq<Message>, arrivals: seq<seq<Message>>, channel: int) {
    && DistinctIds(rows + Flatten(arrivals))
    && (arrivals != [] ==> arrivals[0] == [])
    && ArriveNewer(rows, arrivals, channel)
  }

  /** Saving newer messages between the fetches makes no difference to which walks there are. */
  lemma WalkIgnoresArrivals(
      rows: seq<Message>, arrivals: seq<seq<Message>>, channel: int, limit: nat, pages: seq<seq<Message>>)
    requires Undisturbed(rows, arrivals, channel)
    ensures IsWalk(rows, arrivals, channel, limit, None, pages)
       <==> IsWalk(rows, Quiet(|arrivals|), channel, limit, None, pages)
  {
    WalkIsListWalk(rows, arrivals, channel, limit, pages);
    PrefixDistinct(rows, Flatten(arrivals));
    QuietIsUndisturbed(rows, |arrivals|, channel);
    WalkIsListWalk(rows, Quiet(|arrivals|), channel, limit, pages);
  }

  /** Every walk ends within one fetch more than there are messages, and until then every fetch is answered. */
  lemma WalkEnds(rows: seq<Message>, arrivals: seq<seq<Message>>, channel: int, limit: nat, pages: seq<seq<Message>>)
    requires Undisturbed(rows, arrivals, channel) && IsWalk(rows, arrivals, channel, limit, None, pages)
    ensures |pages| <= |InChannel(rows, channel)| + 1
    ensures Ended(pages) || |pages| == |arrivals|
         || exists page :: IsWalk(rows, arrivals, channel, limit, None, pages + [page])
  {
    WalkIsListWalk(rows, arrivals, channel, limit, pages);
    WalkIsShort(InChannel(rows, channel), limit, pages);
    if !Ended(pages) && |pages| < |arrivals| {
      var page := ListWalkGoesOn(InChannel(rows, channel), limit, pages);
      WalkIsListWalk(rows, arrivals, channel, limit, pages + [page]);
    }
  }

  /**
   * No walk shows a message twice; it shows messages of the channel that were there at the first fetch, newest first.
   */
  lemma WalkNeverRepeats(rows: seq<Message>, arrivals: seq<seq<Message>>, channel: int, limit: nat,
      pages: seq<seq<Message>>)
    requires Undisturbed(rows, arrivals, channel) && IsWalk(rows, arrivals, channel, limit, None, pages)
    ensures var shown := Flatten(pages);
            && Descending(shown) && DistinctIds(shown)
            && forall m :: m in shown ==> m in rows && m.channel == channel
  {
    var all := InChannel(rows, channel);
    WalkIsListWalk(rows, arrivals, channel, limit, pages);
    WalkIsPart(all, limit, pages);
    PrefixDistinct(rows, Flatten(arrivals));
    InChannelMembers(rows, channel);
    SubDistinct(Flatten(pages), all);
    forall m | m in Flatten(pages) ensures m in all {
      assert m in multiset(all);
    }
  }

  /** A walk that has ended showed the whole channel exactly when no page ended inside a tie. */
  lemma WholeHistoryExactly(rows: seq<Message>, arrivals: seq<seq<Message>>, channel: int, limit: nat,
      pages: seq<seq<Message>>)
    requires limit >= 1 && Undisturbed(rows, arrivals, channel)
    requires IsWalk(rows, arrivals, channel, limit, None, pages) && Ended(pages)
    ensures multiset(Flatten(pages)) == multiset(InChannel(rows, channel))
       <==> CleanBoundaries(NewestFirst(InChannel(rows, channel)), limit)
  {
    WalkIsListWalk(rows, arrivals, channel, limit, pages);
    WholeListExactly(InChannel(rows, channel), limit, pages);
  }

  /** When the channel's times are distinct, every walk that has ended showed exactly the channel, newest first. */
  lemma DistinctTimesShowAll(rows: seq<Message>, arrivals: seq<seq<Message>>, channel: int, limit: nat,
      pages: seq<seq<Message>>)
    requires limit >= 1 && Undisturbed(rows, arrivals, channel) && DistinctTimes(NewestFirst(InChannel(rows, channel)))
    requires IsWalk(rows, arrivals, channel, limit, None, pages) && Ended(pages)
    ensures Flatten(pages) == NewestFirst(InChannel(rows, channel))
  {
    var all := InChannel(rows, channel);
    DistinctTimesAreClean(NewestFirst(all), limit);
    WholeHistoryExactly(rows, arrivals, channel, limit, pages);
    WalkIsListWalk(rows, arrivals, channel, limit, pages);
    WalkIsPart(all, limit, pages);
    NewestFirstSorts(all);
    OneOrder(Flatten(pages), NewestFirst(all));
  }

  function Quiet(n: nat): seq<seq<Message>> {
    seq(n, i => [])
  }

  lemma {:induction false} QuietIsQuiet(n: nat)
    ensures Flatten(Quiet(n)) == []
  {
    if n > 0 {
      assert Quiet(n)[1..] == Quiet(n - 1);
      QuietIsQuiet(n - 1);
    }
  }

  lemma {:induction false} InChannelIsNotLonger(s: seq<Message>, channel: int)
    ensures |InChannel(s, channel)| <= |s|
  {
    if s != [] {
      InChannelIsNotLonger(s[1..], channel);
    }
  }

  lemma QuietIsUndisturbed(rows: seq<Message>, n: nat, channel: int)
    requires DistinctIds(rows)
    ensures Undisturbed(rows, Quiet(n), channel)
  {
    QuietIsQuiet(n);
    assert rows + [] == rows;
  }

  /** Every walk of pages of `limit` during which nothing arrives shows the whole channel. */
  ghost predicate ShowsAll(rows: seq<Message>, channel: int, limit: nat) {
    forall pages :: IsWalk(rows, Quiet(|rows| + 1), channel, limit, None, pages) && Ended(pages)
                    ==> multiset(Flatten(pages)) == multiset(InChannel(rows, channel))
  }

  lemma ShowsAllExactly(rows: seq<Message>, channel: int, limit: nat)
    requires limit >= 1 && DistinctIds(rows)
    ensures ShowsAll(rows, channel, limit) <==> CleanBoundaries(NewestFirst(InChannel(rows, channel)), limit)
  {
    var quiet := Quiet(|rows| + 1);
    QuietIsUndisturbed(rows, |rows| + 1, channel);
    forall pages | IsWalk(rows, quiet, channel, limit, None, pages) && Ended(pages)
      ensures multiset(Flatten(pages)) == multiset(InChannel(rows, channel))
         <==> CleanBoundaries(NewestFirst(InChannel(rows, channel)), limit)
    {
      WholeHistoryExactly(rows, quiet, channel, limit, pages);
    }
    var pages := SomeWalk(InChannel(rows, channel), limit);
    WalkIsShort(InChannel(rows, channel), limit, pages);
    InChannelIsNotLonger(rows, channel);
    WalkIsListWalk(rows, quiet, channel, limit, pages);
  }

  /** Every page size shows the whole channel exactly when its timestamps are distinct. */
  lemma EveryLimitExactly(rows: seq<Message>, channel: int)
    requires DistinctIds(rows)
    ensures (forall limit: nat :: limit >= 1 ==> ShowsAll(rows, channel, limit))
       <==> DistinctTimes(NewestFirst(InChannel(rows, channel)))
  {
    var all := NewestFirst(InChannel(rows, channel));
    NewestFirstSorts(InChannel(rows, channel));
    if DistinctTimes(all) {
      forall limit: nat | limit >= 1 ensures ShowsAll(rows, channel, limit) {
        DistinctTimesAreClean(all, limit);
        ShowsAllExactly(rows, channel, limit);
      }
    }
    if forall limit: nat :: limit >= 1 ==> ShowsAll(rows, channel, limit) {
      assert ShowsAll(rows, channel, 1);
      ShowsAllExactly(rows, channel, 1);
      CleanByOnesIsDistinct(all);
    }
  }

  /** Two messages of one time, read one by one: a walk ends having shown only the one the database put first. */
  lemma TiesCanHide(a: Message, b: Message)
    requires a.channel == b.channel && a.createdAt == b.createdAt && a.id != b.id
    ensures IsWalk([a, b], Quiet(3), a.channel, 1, None, [[a], []]) && Ended([[a], []])
    ensures Flatten([[a], []]) == [a] && InChannel([a, b], a.channel) == [a, b]
    ensures !ShowsAll([a, b], a.channel, 1)
  {
    TwoRows(a, b);
    TieWalk(a, b);
    QuietIsUndisturbed([a, b], 3, a.channel);
    WalkIsListWalk([a, b], Quiet(3), a.channel, 1, [[a], []]);
  }

  lemma TieWalk(a: Message, b: Message)
    requires a.channel == b.channel && a.createdAt == b.createdAt && a != b
    ensures ListWalk([a, b], 1, [[a], []]) && Flatten([[a], []]) == [a]
    ensures multiset(Flatten([[a], []])) != multiset([a, b])
  {
    TwoRows(a, b);
    var none: seq<seq<Message>> := [[]];
    assert ListWalk([], 1, none) by {
      SortedPage([], 1);
    }
    assert [[a], []][1..] == none && none[1..] == [];
    assert Flatten([[a], []]) == [a];
    assert multiset([a])[b] == 0 && multiset([a, b])[b] == 1;
  }

  lemma TwoRows(a: Message, b: Message)
    requires a.channel == b.channel && a.createdAt == b.createdAt
    ensures InChannel([a, b], a.channel) == [a, b] && OlderThan([a, b], a.createdAt) == []
    ensures IsPage([a, b], 1, [a])
  {
    assert [a, b][1..] == [b] && [b][1..] == [];
    assert InChannel([b], a.channel) == [b];
    assert OlderThan([b], a.createdAt) == OlderThan([], a.createdAt) == [];
    assert multiset([a, b]) == multiset([a]) + multiset([b]) && NoneNewer([a], [b]);
  }
}

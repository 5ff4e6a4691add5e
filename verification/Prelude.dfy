/** Vocabulary shared by the models. */
module Prelude {

  datatype Option<+T> = None | Some(value: T)

  datatype Result<+T, +E> = Ok(value: T) | Err(error: E)

  /** The length Go's `len` gives a string: its UTF-8 bytes. */
  function ByteLength(s: string): nat {
    if s == [] then 0
    else
      var bytes := if s[0] < '\U{80}' then 1 else if s[0] < '\U{800}' then 2 else if s[0] < '\U{10000}' then 3 else 4;
      bytes + ByteLength(s[1..])
  }

  ghost predicate Distinct<T>(s: seq<T>) {
    forall i, j :: 0 <= i < j < |s| ==> s[i] != s[j]
  }

  /** `s` lists every element of `all` exactly once, in some order: what ranging over a Go map yields. */
  ghost predicate Enumerates<T>(s: seq<T>, all: set<T>) {
    Distinct(s) && Elements(s) == all
  }

  function Elements<T>(s: seq<T>): set<T> {
    set x | x in s
  }

  /** No entry comes before one it should follow. */
  ghost predicate InOrder<T>(s: seq<T>, before: (T, T) -> bool) {
    forall i, j :: 0 <= i < j < |s| ==> before(s[i], s[j])
  }

  /** A query's choice of an order: all its rows, each once, sorted by its key. */
  ghost predicate Orders<T(!new)>(order: set<T> -> seq<T>, before: (T, T) -> bool) {
    forall rows: set<T> :: Enumerates(order(rows), rows) && InOrder(order(rows), before)
  }

  lemma {:induction false} EnumeratesLength<T>(s: seq<T>, all: set<T>)
    requires Enumerates(s, all)
    ensures |s| == |all|
  {
    if s == [] {
      assert Elements(s) == {};
    } else {
      var front, last := s[..|s| - 1], s[|s| - 1];
      assert last !in Elements(front);
      assert all == Elements(front) + {last};
      EnumeratesLength(front, Elements(front));
    }
  }

  ghost predicate ByKey<T>(s: seq<T>, key: T -> int) {
    forall i, j :: 0 <= i < j < |s| ==> key(s[i]) <= key(s[j])
  }

  /** Any rows can be sorted by any key. */
  lemma {:induction false} SortExists<T(!new)>(rows: set<T>, key: T -> int)
    ensures exists s: seq<T> :: Enumerates(s, rows) && ByKey(s, key)
    decreases |rows|
  {
    if rows == {} {
      var s: seq<T> := [];
      assert Enumerates(s, rows) && ByKey(s, key);
    } else {
      var last := Greatest(rows, key);
      SortExists(rows - {last}, key);
      var s :| Enumerates(s, rows - {last}) && ByKey(s, key);
      AppendGreatest(s, rows - {last}, last, key);
      assert rows - {last} + {last} == rows;
    }
  }

  lemma AppendGreatest<T>(s: seq<T>, rows: set<T>, last: T, key: T -> int)
    requires Enumerates(s, rows) && ByKey(s, key) && last !in rows && forall y :: y in rows ==> key(y) <= key(last)
    ensures Enumerates(s + [last], rows + {last}) && ByKey(s + [last], key)
  {
    EnumerateOneMore(s, rows, last);
    assert forall i :: 0 <= i < |s| ==> s[i] in Elements(s);
  }

  lemma {:induction false} Greatest<T>(rows: set<T>, key: T -> int) returns (x: T)
    requires rows != {}
    ensures x in rows && forall y :: y in rows ==> key(y) <= key(x)
    decreases |rows|
  {
    x :| x in rows;
    if rows != {x} {
      assert rows - {x} != {} by {
        assert rows == rows - {x} + {x};
      }
      var z := Greatest(rows - {x}, key);
      if key(z) > key(x) {
        x := z;
      }
    }
  }

  ghost function Sorted<T(!new)>(rows: set<T>, key: T -> int): (s: seq<T>)
    ensures Enumerates(s, rows) && ByKey(s, key)
  {
    SortExists(rows, key);
    var s :| Enumerates(s, rows) && ByKey(s, key);
    s
  }

  lemma SomeMember<T>(s: set<T>) returns (x: T)
    requires s != {}
    ensures x in s
  {
    x :| x in s;
  }

  lemma EnumerateOneMore<T>(s: seq<T>, all: set<T>, x: T)
    requires Enumerates(s, all) && x !in all
    ensures Enumerates(s + [x], all + {x})
  {
    assert forall y :: y in s ==> y in Elements(s);
    assert Elements(s + [x]) == Elements(s) + {x};
  }

  /** Some key that has not been visited yet: the order in which Go ranges over a map is unspecified. */
  method NextKey<T>(todo: set<T>) returns (key: T)
    requires todo != {}
    ensures key in todo
  {
    key :| key in todo;
  }
}

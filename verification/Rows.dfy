/** The rows of a table or list that a condition keeps. */
module Rows {

  /** The rows of a table that a condition keeps, in order. */
  function Keep<T>(rows: seq<T>, kept: T -> bool): seq<T> {
    if rows == [] then [] else (if kept(rows[0]) then [rows[0]] else []) + Keep(rows[1..], kept)
  }

  lemma KeepHead<T>(rows: seq<T>, kept: T -> bool)
    requires rows != []
    ensures Keep(rows, kept) == (if kept(rows[0]) then [rows[0]] else []) + Keep(rows[1..], kept)
  {}

  lemma KeepOf<T>(head: T, rest: seq<T>, kept: T -> bool)
    ensures Keep([head] + rest, kept) == (if kept(head) then [head] else []) + Keep(rest, kept)
    ensures Keep([], kept) == []
  {
    KeepHead([head] + rest, kept);
  }

  lemma {:induction false} KeepMember<T>(rows: seq<T>, kept: T -> bool, x: T)
    ensures x in Keep(rows, kept) <==> x in rows && kept(x)
  {
    if rows != [] {
      KeepMember(rows[1..], kept, x);
      assert x in rows <==> x == rows[0] || x in rows[1..];
    }
  }

  lemma KeepMembers<T(!new)>(rows: seq<T>, kept: T -> bool)
    ensures forall x :: x in Keep(rows, kept) <==> x in rows && kept(x)
  {
    forall x ensures x in Keep(rows, kept) <==> x in rows && kept(x) { KeepMember(rows, kept, x); }
  }

  predicate Pairwise<T>(rows: seq<T>, related: (T, T) -> bool) {
    forall i, j | 0 <= i < j < |rows| :: related(rows[i], rows[j])
  }

  /** What holds between any earlier and any later row holds between kept rows. */
  lemma {:induction false} KeepPairwise<T(!new)>(rows: seq<T>, kept: T -> bool, related: (T, T) -> bool)
    requires Pairwise(rows, related)
    ensures Pairwise(Keep(rows, kept), related)
  {
    if rows != [] {
      KeepPairwise(rows[1..], kept, related);
      forall x | x in Keep(rows[1..], kept) ensures related(rows[0], x) {
        KeepMember(rows[1..], kept, x);
        var i :| 0 <= i < |rows[1..]| && rows[1..][i] == x;
        assert rows[i + 1] == x;
      }
      HeadRelated(rows[0], Keep(rows[1..], kept), related);
    }
  }

  lemma HeadRelated<T(!new)>(head: T, rest: seq<T>, related: (T, T) -> bool)
    requires forall x | x in rest :: related(head, x)
    requires Pairwise(rest, related)
    ensures Pairwise([head] + rest, related)
  {
    var k := [head] + rest;
    forall i, j | 0 <= i < j < |k| ensures related(k[i], k[j]) {
      assert k[j] == rest[j - 1] && rest[j - 1] in rest;
      if i > 0 { assert k[i] == rest[i - 1]; }
    }
  }

  lemma {:induction false} KeepAll<T>(rows: seq<T>, kept: T -> bool)
    requires forall x | x in rows :: kept(x)
    ensures Keep(rows, kept) == rows
  {
    if rows != [] { KeepAll(rows[1..], kept); }
  }

  lemma {:induction false} KeptAndDropped<T>(rows: seq<T>, kept: T -> bool, dropped: T -> bool)
    requires forall x | x in rows :: dropped(x) == !kept(x)
    ensures |Keep(rows, kept)| + |Keep(rows, dropped)| == |rows|
  {
    if rows != [] { KeptAndDropped(rows[1..], kept, dropped); }
  }

  /** Pigeonhole: a subset is no larger, and of the same size only if it is the whole set. */
  lemma SubsetSize(a: set<string>, b: set<string>)
    requires a <= b
    ensures |a| <= |b| && (|a| == |b| ==> a == b)
  {
    assert a + (b - a) == b;
    assert |a| + |b - a| == |b|;
  }

  // ---------- positions ----------

  /** Where the row at `i` comes among the kept ones. */
  function Position<T>(rows: seq<T>, kept: T -> bool, i: nat): nat
    requires i <= |rows|
  {
    |Keep(rows[..i], kept)|
  }

  lemma {:induction false} KeepConcat<T>(a: seq<T>, b: seq<T>, kept: T -> bool)
    ensures Keep(a + b, kept) == Keep(a, kept) + Keep(b, kept)
  {
    if a == [] {
      assert a + b == b;
    } else {
      assert (a + b)[1..] == a[1..] + b;
      KeepConcat(a[1..], b, kept);
      var head := if kept(a[0]) then [a[0]] else [];
      assert Keep(a + b, kept) == head + Keep(a[1..] + b, kept);
      assert head + (Keep(a[1..], kept) + Keep(b, kept)) == (head + Keep(a[1..], kept)) + Keep(b, kept);
    }
  }

  lemma PositionNext<T>(rows: seq<T>, kept: T -> bool, i: nat)
    requires i < |rows|
    ensures Keep(rows[..i + 1], kept) == Keep(rows[..i], kept) + if kept(rows[i]) then [rows[i]] else []
  {
    assert rows[..i + 1] == rows[..i] + [rows[i]];
    KeepConcat(rows[..i], [rows[i]], kept);
    assert Keep([rows[i]], kept) == if kept(rows[i]) then [rows[i]] else [];
  }

  lemma KeptAtPosition<T>(rows: seq<T>, kept: T -> bool, i: nat)
    requires i < |rows| && kept(rows[i])
    ensures Position(rows, kept, i) < |Keep(rows, kept)| && Keep(rows, kept)[Position(rows, kept, i)] == rows[i]
  {
    assert rows == rows[..i + 1] + rows[i + 1..];
    KeepConcat(rows[..i + 1], rows[i + 1..], kept);
    PositionNext(rows, kept, i);
  }

  /** A stricter condition keeps a row at the same position exactly when it drops nothing before it. */
  lemma {:induction false} PositionsAgreeExactly<T>(rows: seq<T>, loose: T -> bool, strict: T -> bool, i: nat)
    requires i <= |rows| && forall x | x in rows :: strict(x) ==> loose(x)
    ensures Position(rows, strict, i) <= Position(rows, loose, i)
    ensures Position(rows, strict, i) == Position(rows, loose, i) <==>
            forall j | 0 <= j < i :: loose(rows[j]) ==> strict(rows[j])
  {
    if i > 0 {
      PositionsAgreeExactly(rows, loose, strict, i - 1);
      PositionNext(rows, loose, i - 1);
      PositionNext(rows, strict, i - 1);
    }
  }
}

/** Python's stable sort with reverse=True: equal elements keep their order. */
module Sorting {

  // `geq` compares the keys.
  function Insert<T>(x: T, s: seq<T>, geq: (T, T) -> bool): (r: seq<T>)
    ensures |r| == |s| + 1
  {
    if s == [] || geq(x, s[0]) then [x] + s else [s[0]] + Insert(x, s[1..], geq)
  }

  function SortDesc<T>(s: seq<T>, geq: (T, T) -> bool): (r: seq<T>)
    ensures |r| == |s|
  {
    if s == [] then [] else Insert(s[0], SortDesc(s[1..], geq), geq)
  }

  ghost predicate Descends<T>(s: seq<T>, geq: (T, T) -> bool) {
    forall i, j :: 0 <= i < j < |s| ==> geq(s[i], s[j])
  }

  ghost predicate Total<T(!new)>(geq: (T, T) -> bool) {
    && (forall x, y :: geq(x, y) || geq(y, x))
    && (forall x, y, z :: geq(x, y) && geq(y, z) ==> geq(x, z))
  }

  lemma {:induction false} InsertElements<T>(x: T, s: seq<T>, geq: (T, T) -> bool)
    ensures multiset(Insert(x, s, geq)) == multiset{x} + multiset(s)
    ensures forall y :: y in Insert(x, s, geq) <==> y == x || y in s
  {
    if s == [] || geq(x, s[0]) {
    } else {
      InsertElements(x, s[1..], geq);
      assert s == [s[0]] + s[1..];
    }
  }

  lemma {:induction false} InsertDescends<T(!new)>(x: T, s: seq<T>, geq: (T, T) -> bool)
    requires Total(geq) && Descends(s, geq)
    ensures Descends(Insert(x, s, geq), geq)
  {
    if s == [] || geq(x, s[0]) {
      assert forall j :: 0 < j < |s| ==> geq(s[0], s[j]);
    } else {
      InsertDescends(x, s[1..], geq);
      InsertElements(x, s[1..], geq);
      var t := Insert(x, s[1..], geq);
      forall j | 0 <= j < |t| ensures geq(s[0], t[j]) {
        assert t[j] in t;
      }
    }
  }

  lemma {:induction false} SortFacts<T(!new)>(s: seq<T>, geq: (T, T) -> bool)
    requires Total(geq)
    ensures Descends(SortDesc(s, geq), geq) && multiset(SortDesc(s, geq)) == multiset(s)
    ensures forall y :: y in SortDesc(s, geq) <==> y in s
  {
    if s == [] {
    } else {
      SortFacts(s[1..], geq);
      InsertDescends(s[0], SortDesc(s[1..], geq), geq);
      InsertElements(s[0], SortDesc(s[1..], geq), geq);
      assert s == [s[0]] + s[1..];
    }
  }

  // ---------- Stability ----------

  ghost predicate Before<T>(s: seq<T>, x: T, y: T) {
    exists i, j :: 0 <= i < j < |s| && s[i] == x && s[j] == y
  }

  lemma BeforeInTail<T>(h: T, t: seq<T>, x: T, y: T)
    ensures Before(t, x, y) || (h == x && y in t) ==> Before([h] + t, x, y)
    ensures Before([h] + t, x, y) ==> Before(t, x, y) || (h == x && y in t)
  {
    var s := [h] + t;
    if Before(t, x, y) {
      var i, j :| 0 <= i < j < |t| && t[i] == x && t[j] == y;
      assert s[i + 1] == x && s[j + 1] == y;
    }
    if h == x && y in t {
      var j :| 0 <= j < |t| && t[j] == y;
      assert s[0] == x && s[j + 1] == y;
    }
    if Before(s, x, y) {
      var i, j :| 0 <= i < j < |s| && s[i] == x && s[j] == y;
      assert t[j - 1] == y && (i > 0 ==> t[i - 1] == x);
    }
  }

  lemma {:induction false} InsertKeepsOrder<T>(h: T, s: seq<T>, x: T, y: T, geq: (T, T) -> bool)
    requires Before(s, x, y)
    ensures Before(Insert(h, s, geq), x, y)
  {
    if s == [] || geq(h, s[0]) {
      BeforeInTail(h, s, x, y);
    } else {
      assert s == [s[0]] + s[1..];
      BeforeInTail(s[0], s[1..], x, y);
      InsertElements(h, s[1..], geq);
      if Before(s[1..], x, y) {
        InsertKeepsOrder(h, s[1..], x, y, geq);
      }
      BeforeInTail(s[0], Insert(h, s[1..], geq), x, y);
    }
  }

  lemma {:induction false} InsertGoesFirst<T>(x: T, s: seq<T>, y: T, geq: (T, T) -> bool)
    requires y in s && geq(x, y)
    ensures Before(Insert(x, s, geq), x, y)
  {
    if s == [] || geq(x, s[0]) {
      BeforeInTail(x, s, x, y);
    } else {
      assert s == [s[0]] + s[1..];
      InsertGoesFirst(x, s[1..], y, geq);
      BeforeInTail(s[0], Insert(x, s[1..], geq), x, y);
    }
  }

  // What comes first stays first unless the later one is greater.
  lemma {:induction false} SortIsStable<T(!new)>(s: seq<T>, x: T, y: T, geq: (T, T) -> bool)
    requires Total(geq) && Before(s, x, y) && geq(x, y)
    ensures Before(SortDesc(s, geq), x, y)
  {
    var h, t := s[0], s[1..];
    assert s == [h] + t;
    BeforeInTail(h, t, x, y);
    SortFacts(t, geq);
    if Before(t, x, y) {
      SortIsStable(t, x, y, geq);
      InsertKeepsOrder(h, SortDesc(t, geq), x, y, geq);
    } else {
      InsertGoesFirst(x, SortDesc(t, geq), y, geq);
    }
  }

  lemma {:induction false} SortOfSorted<T>(s: seq<T>, geq: (T, T) -> bool)
    requires Descends(s, geq)
    ensures SortDesc(s, geq) == s
  {
    if s == [] {
    } else {
      SortOfSorted(s[1..], geq);
      assert s == [s[0]] + s[1..];
      assert |s| > 1 ==> geq(s[0], s[1]);
    }
  }
}

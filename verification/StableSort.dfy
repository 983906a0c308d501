/** Python's stable sort, as insertion from the left. `above(x, y)` says that x
    must stand strictly before y. */
module StableSort {
  /** Ties are an equivalence. */
  ghost predicate StrictWeak<T(!new)>(above: (T, T) -> bool) {
    && (forall x, y :: above(x, y) ==> !above(y, x))
    && (forall x, y, z :: above(x, z) ==> above(x, y) || above(y, z))
  }

  ghost predicate Ordered<T>(s: seq<T>, above: (T, T) -> bool) {
    forall i, j :: 0 <= i < j < |s| ==> !above(s[j], s[i])
  }

  /** x goes before the first element it is above, hence after its ties. */
  function Insert<T>(s: seq<T>, x: T, above: (T, T) -> bool): seq<T> {
    if s == [] then [x]
    else if above(x, s[0]) then [x] + s
    else [s[0]] + Insert(s[1..], x, above)
  }

  function Sort<T>(s: seq<T>, above: (T, T) -> bool): seq<T> {
    if s == [] then [] else Insert(Sort(s[..|s| - 1], above), s[|s| - 1], above)
  }

  /** The elements tied with `t`, in order. */
  ghost function Ties<T>(s: seq<T>, t: T, above: (T, T) -> bool): seq<T> {
    if s == [] then []
    else Tie(s[0], t, above) + Ties(s[1..], t, above)
  }

  lemma {:induction false} InsertKeeps<T>(s: seq<T>, x: T, above: (T, T) -> bool)
    ensures multiset(Insert(s, x, above)) == multiset(s) + multiset{x}
  {
    if s != [] && !above(x, s[0]) {
      InsertKeeps(s[1..], x, above);
      assert s == [s[0]] + s[1..];
    }
  }

  lemma {:induction false} InsertOrders<T(!new)>(s: seq<T>, x: T, above: (T, T) -> bool)
    requires StrictWeak(above) && Ordered(s, above)
    ensures Ordered(Insert(s, x, above), above)
  {
    if s == [] {
    } else if above(x, s[0]) {
      forall j | 0 <= j < |s| ensures !above(s[j], x) {
        if j > 0 { assert !above(s[j], s[0]); }
      }
    } else {
      InsertOrders(s[1..], x, above);
      InsertKeeps(s[1..], x, above);
      var rest := Insert(s[1..], x, above);
      forall j | 0 <= j < |rest| ensures !above(rest[j], s[0]) {
        assert rest[j] in multiset(rest);
        if rest[j] != x {
          var k :| 0 <= k < |s[1..]| && s[1..][k] == rest[j];
          assert s[k + 1] == rest[j];
        }
      }
    }
  }

  lemma {:induction false} NoTiesBelow<T(!new)>(s: seq<T>, t: T, above: (T, T) -> bool)
    requires forall i :: 0 <= i < |s| ==> above(t, s[i])
    ensures Ties(s, t, above) == []
  {
    if s != [] { NoTiesBelow(s[1..], t, above); }
  }

  /** What stands below x stands below whatever ties with x. */
  lemma BelowATie<T(!new)>(s: seq<T>, x: T, t: T, above: (T, T) -> bool)
    requires StrictWeak(above) && Ordered(s, above) && s != [] && above(x, s[0])
    requires !above(x, t)
    ensures forall i :: 0 <= i < |s| ==> above(t, s[i])
  {
    forall i | 0 <= i < |s| ensures above(t, s[i]) {
      if i > 0 { assert !above(s[i], s[0]); }
      assert above(x, s[i]);
    }
  }

  function Tie<T>(x: T, t: T, above: (T, T) -> bool): seq<T> {
    if above(x, t) || above(t, x) then [] else [x]
  }

  lemma TiesCons<T>(y: T, s: seq<T>, t: T, above: (T, T) -> bool)
    ensures Ties([y] + s, t, above) == Tie(y, t, above) + Ties(s, t, above)
  {
    assert ([y] + s)[1..] == s;
  }

  lemma OrderedTail<T>(s: seq<T>, above: (T, T) -> bool)
    requires s != [] && Ordered(s, above)
    ensures Ordered(s[1..], above) && s == [s[0]] + s[1..]
  {
  }

  lemma {:induction false} InsertAfterTies<T(!new)>(s: seq<T>, x: T, t: T, above: (T, T) -> bool)
    requires StrictWeak(above) && Ordered(s, above)
    ensures Ties(Insert(s, x, above), t, above) == Ties(s, t, above) + Tie(x, t, above)
  {
    if s == [] {
      TiesCons(x, s, t, above);
    } else if above(x, s[0]) {
      TiesCons(x, s, t, above);
      if Tie(x, t, above) == [x] {
        BelowATie(s, x, t, above);
        NoTiesBelow(s, t, above);
      }
    } else {
      OrderedTail(s, above);
      InsertAfterTies(s[1..], x, t, above);
      TiesCons(s[0], Insert(s[1..], x, above), t, above);
      TiesCons(s[0], s[1..], t, above);
    }
  }

  lemma {:induction false} TiesAppend<T>(s: seq<T>, x: T, t: T, above: (T, T) -> bool)
    ensures Ties(s + [x], t, above) == Ties(s, t, above) + Tie(x, t, above)
  {
    if s != [] {
      TiesAppend(s[1..], x, t, above);
      assert (s + [x])[1..] == s[1..] + [x];
    }
  }

  /** Sorting permutes, orders, and keeps ties in their original order. */
  lemma {:induction false} SortIsStable<T(!new)>(s: seq<T>, above: (T, T) -> bool)
    requires StrictWeak(above)
    ensures multiset(Sort(s, above)) == multiset(s) && Ordered(Sort(s, above), above)
    ensures forall t :: Ties(Sort(s, above), t, above) == Ties(s, t, above)
  {
    if s != [] {
      var front, x := s[..|s| - 1], s[|s| - 1];
      assert s == front + [x];
      SortIsStable(front, above);
      InsertKeeps(Sort(front, above), x, above);
      InsertOrders(Sort(front, above), x, above);
      forall t ensures Ties(Sort(s, above), t, above) == Ties(s, t, above) {
        InsertAfterTies(Sort(front, above), x, t, above);
        TiesAppend(front, x, t, above);
      }
    }
  }
}

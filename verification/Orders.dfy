/** Ascending sequences over a strict order: sorted, duplicate-free, determined by their elements. */
module Orders {

  ghost predicate StrictOrder<T(!new)>(less: (T, T) -> bool) {
    && (forall x :: !less(x, x))
    && (forall x, y, z :: less(x, y) && less(y, z) ==> less(x, z))
  }

  ghost predicate Ascending<T>(less: (T, T) -> bool, s: seq<T>) {
    forall i, j :: 0 <= i < j < |s| ==> less(s[i], s[j])
  }

  ghost function Elements<T>(s: seq<T>): set<T> {
    set x | x in s
  }

  lemma ElementsEmpty<T>(s: seq<T>)
    ensures Elements(s) == {} <==> s == []
  {
    if s != [] {
      assert s[0] in Elements(s);
    }
  }

  lemma ElementsAppend<T>(s: seq<T>, t: seq<T>)
    ensures Elements(s + t) == Elements(s) + Elements(t)
  {
  }

  lemma AscendingJoin<T>(less: (T, T) -> bool, s: seq<T>, t: seq<T>)
    requires Ascending(less, s) && Ascending(less, t)
    requires forall i, j :: 0 <= i < |s| && 0 <= j < |t| ==> less(s[i], t[j])
    ensures Ascending(less, s + t)
  {
  }

  /** Two ascending sequences with the same elements are the same sequence. */
  lemma {:induction false} AscendingUnique<T(!new)>(less: (T, T) -> bool, s: seq<T>, t: seq<T>)
    requires StrictOrder(less) && Ascending(less, s) && Ascending(less, t)
    requires Elements(s) == Elements(t)
    ensures s == t
    decreases |s|
  {
    ElementsEmpty(s);
    ElementsEmpty(t);
    if s != [] {
      SameLast(less, s, t);
      InitElements(less, s);
      InitElements(less, t);
      AscendingUnique(less, s[..|s| - 1], t[..|t| - 1]);
      assert s == s[..|s| - 1] + [s[|s| - 1]];
      assert t == t[..|t| - 1] + [t[|t| - 1]];
    }
  }

  lemma SameLast<T(!new)>(less: (T, T) -> bool, s: seq<T>, t: seq<T>)
    requires StrictOrder(less) && Ascending(less, s) && Ascending(less, t)
    requires s != [] && t != [] && Elements(s) == Elements(t)
    ensures s[|s| - 1] == t[|t| - 1]
  {
    var x, y := s[|s| - 1], t[|t| - 1];
    assert x in Elements(t) && y in Elements(s);
    assert x == y || less(y, x);
    assert x == y || less(x, y);
  }

  lemma InitElements<T(!new)>(less: (T, T) -> bool, s: seq<T>)
    requires StrictOrder(less) && Ascending(less, s) && s != []
    ensures Elements(s[..|s| - 1]) == Elements(s) - {s[|s| - 1]}
  {
    assert s == s[..|s| - 1] + [s[|s| - 1]];
  }

  /** Sorted insertion; an element already present is kept once. */
  function Insert<T(==)>(less: (T, T) -> bool, s: seq<T>, x: T): seq<T> {
    if s == [] then [x]
    else if s[|s| - 1] == x then s
    else if less(s[|s| - 1], x) then s + [x]
    else Insert(less, s[..|s| - 1], x) + [s[|s| - 1]]
  }

  lemma {:induction false} InsertAscending<T(!new)>(less: (T, T) -> bool, s: seq<T>, x: T)
    requires StrictOrder(less) && Ascending(less, s)
    requires forall y :: y in s ==> y == x || less(x, y) || less(y, x)
    ensures Ascending(less, Insert(less, s, x))
    ensures Elements(Insert(less, s, x)) == Elements(s) + {x}
  {
    if s != [] && s[|s| - 1] != x {
      var init, last := s[..|s| - 1], s[|s| - 1];
      assert s == init + [last];
      if !less(last, x) {
        InsertAscending(less, init, x);
        var rest := Insert(less, init, x);
        forall i | 0 <= i < |rest| ensures less(rest[i], last) {
          assert rest[i] in Elements(rest);
        }
        AscendingJoin(less, rest, [last]);
        ElementsAppend(rest, [last]);
        ElementsAppend(init, [last]);
      }
    }
  }

  lemma SliceOfRest<T>(s: seq<T>, c: nat, i: nat, j: nat)
    requires c + j <= |s| && i <= j
    ensures s[c..][i..j] == s[c + i..c + j]
  {
  }
}

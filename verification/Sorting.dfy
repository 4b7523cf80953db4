/** The order guarantees of a stable sort (Python's `list.sort` with a key), shared by
    the scheduler, the ranker and the version list. */
module Sorting {

  /** `before(x, y)` says that x has to come strictly earlier than y. */
  ghost predicate StrictWeakOrder<T(!new)>(before: (T, T) -> bool) {
    && (forall x :: !before(x, x))
    && (forall x, y, z :: before(x, y) && before(y, z) ==> before(x, z))
    && (forall x, y, z :: !before(x, y) && !before(y, z) ==> !before(x, z))
  }

  ghost predicate Sorted<T>(before: (T, T) -> bool, s: seq<T>) {
    forall i, j :: 0 <= i < j < |s| ==> !before(s[j], s[i])
  }

  ghost predicate NoDuplicates<T>(s: seq<T>) {
    forall i, j :: 0 <= i < j < |s| ==> s[i] != s[j]
  }

  predicate Tied<T>(before: (T, T) -> bool, x: T, y: T) {
    !before(x, y) && !before(y, x)
  }

  /** The elements of s tied with x, in the order in which s lists them. */
  function TiesWith<T>(before: (T, T) -> bool, x: T, s: seq<T>): seq<T> {
    if s == [] then []
    else (if Tied(before, x, s[0]) then [s[0]] else []) + TiesWith(before, x, s[1..])
  }

  /** x goes before the first element that has to come later than x, so behind its ties. */
  function Insert<T>(before: (T, T) -> bool, x: T, s: seq<T>): seq<T> {
    if s == [] then [x]
    else if before(x, s[0]) then [x] + s
    else [s[0]] + Insert(before, x, s[1..])
  }

  function StableSort<T>(before: (T, T) -> bool, s: seq<T>): seq<T> {
    if s == [] then []
    else Insert(before, s[|s| - 1], StableSort(before, s[..|s| - 1]))
  }

  lemma {:induction false} InsertContents<T>(before: (T, T) -> bool, x: T, s: seq<T>)
    ensures multiset(Insert(before, x, s)) == multiset(s) + multiset{x}
  {
    if s != [] {
      assert s == [s[0]] + s[1..];
      if !before(x, s[0]) { InsertContents(before, x, s[1..]); }
    }
  }

  lemma {:induction false} InsertSorted<T(!new)>(before: (T, T) -> bool, x: T, s: seq<T>)
    requires StrictWeakOrder(before) && Sorted(before, s)
    ensures Sorted(before, Insert(before, x, s))
  {
    if s != [] && !before(x, s[0]) {
      var tail := Insert(before, x, s[1..]);
      InsertSorted(before, x, s[1..]);
      InsertContents(before, x, s[1..]);
      forall j | 0 <= j < |tail| ensures !before(tail[j], s[0]) {
        assert tail[j] in multiset(tail);
        assert tail[j] == x || tail[j] in s[1..];
      }
    }
  }

  lemma Assoc<T>(a: seq<T>, b: seq<T>, c: seq<T>)
    ensures a + (b + c) == (a + b) + c
  {}

  lemma {:induction false} TiesAppend<T>(before: (T, T) -> bool, x: T, a: seq<T>, b: seq<T>)
    ensures TiesWith(before, x, a + b) == TiesWith(before, x, a) + TiesWith(before, x, b)
  {
    if a == [] {
      assert a + b == b;
    } else {
      assert (a + b)[0] == a[0] && (a + b)[1..] == a[1..] + b;
      TiesAppend(before, x, a[1..], b);
      var head := if Tied(before, x, a[0]) then [a[0]] else [];
      Assoc(head, TiesWith(before, x, a[1..]), TiesWith(before, x, b));
    }
  }

  lemma {:induction false} InsertTies<T(!new)>(before: (T, T) -> bool, x: T, s: seq<T>, y: T)
    requires StrictWeakOrder(before) && Sorted(before, s)
    ensures TiesWith(before, y, Insert(before, x, s)) == TiesWith(before, y, s + [x])
  {
    TiesAppend(before, y, s, [x]);
    if s == [] {
    } else if before(x, s[0]) {
      if Tied(before, y, x) {
        forall i | 0 <= i < |s| ensures !Tied(before, y, s[i]) {
          assert !before(s[i], s[0]);
        }
        NoTies(before, y, s);
      }
      assert [x] + s == [x] + s;
    } else {
      InsertTies(before, x, s[1..], y);
      TiesAppend(before, y, s[1..], [x]);
    }
  }

  lemma {:induction false} NoTies<T>(before: (T, T) -> bool, x: T, s: seq<T>)
    requires forall i :: 0 <= i < |s| ==> !Tied(before, x, s[i])
    ensures TiesWith(before, x, s) == []
  {
    if s != [] { NoTies(before, x, s[1..]); }
  }

  /** A stable sort keeps the contents, puts them in order, and leaves ties as they were. */
  lemma {:induction false} StableSortCorrect<T(!new)>(before: (T, T) -> bool, s: seq<T>)
    requires StrictWeakOrder(before)
    ensures multiset(StableSort(before, s)) == multiset(s)
    ensures |StableSort(before, s)| == |s|
    ensures Sorted(before, StableSort(before, s))
    ensures forall x :: TiesWith(before, x, StableSort(before, s)) == TiesWith(before, x, s)
  {
    if s != [] {
      var init, last := s[..|s| - 1], s[|s| - 1];
      assert s == init + [last];
      StableSortCorrect(before, init);
      InsertContents(before, last, StableSort(before, init));
      InsertSorted(before, last, StableSort(before, init));
      forall x ensures TiesWith(before, x, StableSort(before, s)) == TiesWith(before, x, s) {
        InsertTies(before, last, StableSort(before, init), x);
        TiesAppend(before, x, StableSort(before, init), [last]);
        TiesAppend(before, x, init, [last]);
      }
      assert |multiset(StableSort(before, s))| == |multiset(s)|;
    }
  }

  /** Those promises leave no freedom: order and stability determine the result. */
  lemma {:induction false} StableSortUnique<T(!new)>(before: (T, T) -> bool, a: seq<T>, b: seq<T>)
    requires StrictWeakOrder(before) && Sorted(before, a) && Sorted(before, b)
    requires forall x :: TiesWith(before, x, a) == TiesWith(before, x, b)
    ensures a == b
    decreases |a|
  {
    SameHead(before, a, b);
    if a != [] {
      forall x ensures TiesWith(before, x, a[1..]) == TiesWith(before, x, b[1..]) {
        var p := if Tied(before, x, a[0]) then [a[0]] else [];
        assert TiesWith(before, x, a) == p + TiesWith(before, x, a[1..]);
        assert TiesWith(before, x, b) == p + TiesWith(before, x, b[1..]);
        DropPrefix(p, TiesWith(before, x, a[1..]), TiesWith(before, x, b[1..]));
      }
      StableSortUnique(before, a[1..], b[1..]);
      assert a == [a[0]] + a[1..] && b == [b[0]] + b[1..];
    }
  }

  lemma DropPrefix<T>(p: seq<T>, a: seq<T>, b: seq<T>)
    requires p + a == p + b
    ensures a == b
  {
    assert a == (p + a)[|p|..] && b == (p + b)[|p|..];
  }

  lemma SameHead<T(!new)>(before: (T, T) -> bool, a: seq<T>, b: seq<T>)
    requires StrictWeakOrder(before) && Sorted(before, a) && Sorted(before, b)
    requires forall x :: TiesWith(before, x, a) == TiesWith(before, x, b)
    ensures a == [] <==> b == []
    ensures a != [] ==> a[0] == b[0]
  {
    HeadTie(before, a);
    HeadTie(before, b);
    if a != [] {
      TieIsElement(before, a[0], b);
      TieIsElement(before, b[0], a);
      assert Tied(before, a[0], b[0]);
      assert TiesWith(before, a[0], b)[0] == b[0];
    }
  }

  lemma HeadTie<T(!new)>(before: (T, T) -> bool, s: seq<T>)
    requires StrictWeakOrder(before)
    ensures s != [] ==> TiesWith(before, s[0], s) != [] && TiesWith(before, s[0], s)[0] == s[0]
  {}

  lemma {:induction false} TieIsElement<T>(before: (T, T) -> bool, x: T, s: seq<T>)
    requires TiesWith(before, x, s) != []
    ensures exists i :: 0 <= i < |s| && s[i] == TiesWith(before, x, s)[0] && Tied(before, x, s[i])
  {
    if !Tied(before, x, s[0]) {
      TieIsElement(before, x, s[1..]);
      var i :| 0 <= i < |s[1..]| && s[1..][i] == TiesWith(before, x, s[1..])[0] && Tied(before, x, s[1..][i]);
      assert s[i + 1] == s[1..][i];
    }
  }

  // ---- the order among ties, told pair by pair ----

  /** Of two elements the earlier one has to come first, or they are tied and it was first. */
  ghost predicate InTurn<T>(before: (T, T) -> bool, first: (T, T) -> bool, s: seq<T>) {
    forall i, j :: 0 <= i < j < |s| ==> before(s[i], s[j]) || (!before(s[j], s[i]) && first(s[i], s[j]))
  }

  /** x goes right behind everything that need not come later. */
  lemma {:induction false} InsertAt<T>(before: (T, T) -> bool, x: T, s: seq<T>) returns (k: nat)
    ensures k <= |s| && Insert(before, x, s) == s[..k] + [x] + s[k..]
    ensures (forall i :: 0 <= i < k ==> !before(x, s[i])) && (k < |s| ==> before(x, s[k]))
  {
    if s == [] || before(x, s[0]) {
      k := 0;
    } else {
      k := InsertAt(before, x, s[1..]);
      assert s == [s[0]] + s[1..] && s[..k + 1] == [s[0]] + s[1..][..k];
      k := k + 1;
    }
  }

  lemma InsertInTurn<T(!new)>(before: (T, T) -> bool, first: (T, T) -> bool, x: T, s: seq<T>)
    requires StrictWeakOrder(before) && InTurn(before, first, s)
    requires forall y :: y in s ==> first(y, x)
    ensures InTurn(before, first, Insert(before, x, s))
  {
    var k := InsertAt(before, x, s);
    forall i | k <= i < |s| ensures before(x, s[i]) {
      assert i > k ==> before(s[k], s[i]) || !before(s[i], s[k]);
    }
  }

  /** Sorting leaves whatever was first among ties first. */
  lemma {:induction false} SortInTurn<T(!new)>(before: (T, T) -> bool, first: (T, T) -> bool, s: seq<T>)
    requires StrictWeakOrder(before) && forall i, j :: 0 <= i < j < |s| ==> first(s[i], s[j])
    ensures InTurn(before, first, StableSort(before, s))
  {
    if s != [] {
      var init, last := s[..|s| - 1], s[|s| - 1];
      SortInTurn(before, first, init);
      StableSortCorrect(before, init);
      SamePermutation(StableSort(before, init), init);
      forall y | y in StableSort(before, init) ensures first(y, last) {
        assert y in init;
      }
      InsertInTurn(before, first, last, StableSort(before, init));
    }
  }

  /** What is in order already stays as it is. */
  lemma SortOfSorted<T(!new)>(before: (T, T) -> bool, s: seq<T>)
    requires StrictWeakOrder(before) && Sorted(before, s)
    ensures StableSort(before, s) == s
  {
    StableSortCorrect(before, s);
    StableSortUnique(before, StableSort(before, s), s);
  }

  lemma SamePermutation<T>(a: seq<T>, b: seq<T>)
    requires multiset(a) == multiset(b)
    ensures |a| == |b|
    ensures forall x :: x in a <==> x in b
    ensures NoDuplicates(a) ==> NoDuplicates(b)
  {
    assert |multiset(a)| == |multiset(b)|;
    forall x ensures x in a <==> x in b {
      assert x in multiset(a) <==> x in multiset(b);
    }
    if NoDuplicates(a) && !NoDuplicates(b) {
      var i, j :| 0 <= i < j < |b| && b[i] == b[j];
      assert b == b[..i] + [b[i]] + b[i + 1..j] + [b[j]] + b[j + 1..];
      assert multiset(b)[b[i]] >= 2;
      OnceEach(a, b[i]);
    }
  }

  lemma {:induction false} OnceEach<T>(s: seq<T>, x: T)
    requires NoDuplicates(s)
    ensures multiset(s)[x] <= 1
  {
    if s != [] {
      assert s == [s[0]] + s[1..];
      OnceEach(s[1..], x);
      if x == s[0] { assert x !in s[1..]; }
    }
  }
}

/**
 * The date comparator shared by the post sorter and the review loader,
 * `direction === "newest" ? dateB - dateA : dateA - dateB`, over integer
 * timestamps, and the sort that the page obtains from `Array.prototype.sort`
 * with it, modelled as an insertion sort.
 */
module DateSort {

  /** Only the exact string "newest" selects descending order; anything else sorts ascending. */
  predicate Newest(direction: string) {
    direction == "newest"
  }

  /** An element dated `dx` may stand before one dated `dy` under the comparator. */
  predicate Precedes(dx: int, dy: int, newest: bool) {
    if newest then dx >= dy else dx <= dy
  }

  /** Every earlier element may stand before every later one. */
  ghost predicate Ordered<T>(s: seq<T>, date: T -> int, newest: bool) {
    forall i, j :: 0 <= i < j < |s| ==> Precedes(date(s[i]), date(s[j]), newest)
  }

  /** No two positions carry the same date. */
  ghost predicate DistinctDates<T>(s: seq<T>, date: T -> int) {
    forall i, j :: 0 <= i < j < |s| ==> date(s[i]) != date(s[j])
  }

  function Insert<T>(x: T, s: seq<T>, date: T -> int, newest: bool): seq<T> {
    if s == [] then [x]
    else if Precedes(date(x), date(s[0]), newest) then [x] + s
    else [s[0]] + Insert(x, s[1..], date, newest)
  }

  function SortBy<T>(s: seq<T>, date: T -> int, newest: bool): seq<T> {
    if s == [] then [] else Insert(s[0], SortBy(s[1..], date, newest), date, newest)
  }

  /** `array.sort(comparator)` for the given direction string. */
  function SortByDate<T>(s: seq<T>, date: T -> int, direction: string): seq<T> {
    SortBy(s, date, Newest(direction))
  }

  lemma {:induction false} InsertPermutes<T>(x: T, s: seq<T>, date: T -> int, newest: bool)
    ensures multiset(Insert(x, s, date, newest)) == multiset(s) + multiset{x}
  {
    if s != [] && !Precedes(date(x), date(s[0]), newest) {
      InsertPermutes(x, s[1..], date, newest);
      assert s == [s[0]] + s[1..];
    }
  }

  lemma {:induction false} InsertOrdered<T>(x: T, s: seq<T>, date: T -> int, newest: bool)
    requires Ordered(s, date, newest)
    ensures Ordered(Insert(x, s, date, newest), date, newest)
  {
    if s != [] && !Precedes(date(x), date(s[0]), newest) {
      var tail := s[1..];
      var rest := Insert(x, tail, date, newest);
      InsertOrdered(x, tail, date, newest);
      InsertPermutes(x, tail, date, newest);
      forall j | 0 <= j < |rest|
        ensures Precedes(date(s[0]), date(rest[j]), newest)
      {
        assert rest[j] in multiset(rest);
        if rest[j] != x {
          assert rest[j] in multiset(tail);
          var k :| 0 <= k < |tail| && tail[k] == rest[j];
          assert s[k + 1] == rest[j];
        }
      }
      var r := [s[0]] + rest;
      forall i, j | 0 <= i < j < |r|
        ensures Precedes(date(r[i]), date(r[j]), newest)
      {
        if i > 0 {
          assert r[i] == rest[i - 1] && r[j] == rest[j - 1];
        } else {
          assert r[j] == rest[j - 1];
        }
      }
    }
  }

  /** The sorted sequence is a permutation of its input. */
  lemma {:induction false} SortPermutes<T>(s: seq<T>, date: T -> int, newest: bool)
    ensures multiset(SortBy(s, date, newest)) == multiset(s)
    ensures |SortBy(s, date, newest)| == |s|
  {
    if s != [] {
      SortPermutes(s[1..], date, newest);
      InsertPermutes(s[0], SortBy(s[1..], date, newest), date, newest);
      assert s == [s[0]] + s[1..];
    }
    assert |multiset(SortBy(s, date, newest))| == |SortBy(s, date, newest)|;
  }

  /** The sorted sequence is in comparator order. */
  lemma {:induction false} SortOrdered<T>(s: seq<T>, date: T -> int, newest: bool)
    ensures Ordered(SortBy(s, date, newest), date, newest)
  {
    if s != [] {
      SortOrdered(s[1..], date, newest);
      InsertOrdered(s[0], SortBy(s[1..], date, newest), date, newest);
    }
  }

  /** Sorting by a direction string: permutation, length, and descending iff "newest". */
  lemma SortByDateIsSort<T>(s: seq<T>, date: T -> int, direction: string)
    ensures multiset(SortByDate(s, date, direction)) == multiset(s)
    ensures |SortByDate(s, date, direction)| == |s|
    ensures Newest(direction) ==> Ordered(SortByDate(s, date, direction), date, true)
    ensures !Newest(direction) ==> Ordered(SortByDate(s, date, direction), date, false)
  {
    SortPermutes(s, date, Newest(direction));
    SortOrdered(s, date, Newest(direction));
  }

  function Reverse<T>(s: seq<T>): seq<T> {
    if s == [] then [] else Reverse(s[1..]) + [s[0]]
  }

  lemma {:induction false} ReverseAt<T>(s: seq<T>)
    ensures |Reverse(s)| == |s|
    ensures forall k :: 0 <= k < |s| ==> Reverse(s)[k] == s[|s| - 1 - k]
    ensures multiset(Reverse(s)) == multiset(s)
  {
    if s != [] {
      ReverseAt(s[1..]);
      assert s == [s[0]] + s[1..];
    }
  }

  /** Reading an ordered sequence backwards gives the other direction's order. */
  lemma ReverseFlipsOrder<T>(s: seq<T>, date: T -> int, newest: bool)
    requires Ordered(s, date, newest)
    ensures Ordered(Reverse(s), date, !newest)
  {
    ReverseAt(s);
    var r := Reverse(s);
    forall i, j | 0 <= i < j < |r|
      ensures Precedes(date(r[i]), date(r[j]), !newest)
    {
      assert r[i] == s[|s| - 1 - i] && r[j] == s[|s| - 1 - j];
    }
  }

  /** Elements with equal dates are the same element. */
  ghost predicate DatesIdentify<T>(s: seq<T>, date: T -> int) {
    forall x, y :: x in s && y in s && date(x) == date(y) ==> x == y
  }

  lemma DistinctDatesIdentify<T>(s: seq<T>, date: T -> int)
    requires DistinctDates(s, date)
    ensures DatesIdentify(s, date)
  {
  }

  /** Two orderings of one multiset, where equal dates mean equal elements, start alike. */
  lemma HeadsAgree<T>(a: seq<T>, b: seq<T>, date: T -> int, newest: bool)
    requires Ordered(a, date, newest) && Ordered(b, date, newest)
    requires multiset(a) == multiset(b) && a != [] && b != []
    requires DatesIdentify(a, date)
    ensures a[0] == b[0]
  {
    assert a[0] in multiset(b) && b[0] in multiset(a);
    var k :| 0 <= k < |b| && b[k] == a[0];
    var m :| 0 <= m < |a| && a[m] == b[0];
    assert Precedes(date(a[0]), date(a[m]), newest) && Precedes(date(b[0]), date(b[k]), newest);
  }

  /** Dropping a common first element keeps the rest a permutation of each other. */
  lemma TailsPermute<T>(a: seq<T>, b: seq<T>)
    requires multiset(a) == multiset(b) && a != [] && b != [] && a[0] == b[0]
    ensures multiset(a[1..]) == multiset(b[1..])
  {
    assert a == [a[0]] + a[1..] && b == [b[0]] + b[1..];
    assert multiset(a[1..]) == multiset(a) - multiset{a[0]};
    assert multiset(b[1..]) == multiset(b) - multiset{b[0]};
  }

  /**
   * When equal dates mean equal elements, there is only one ordering of a
   * given multiset of elements in a given direction.
   */
  lemma {:induction false} OrderedUnique<T>(a: seq<T>, b: seq<T>, date: T -> int, newest: bool)
    requires Ordered(a, date, newest) && Ordered(b, date, newest)
    requires multiset(a) == multiset(b)
    requires DatesIdentify(a, date)
    ensures a == b
  {
    assert |a| == |multiset(a)| == |multiset(b)| == |b|;
    if a != [] {
      HeadsAgree(a, b, date, newest);
      TailsPermute(a, b);
      assert forall x :: x in a[1..] ==> x in a;
      OrderedUnique(a[1..], b[1..], date, newest);
      assert a == [a[0]] + a[1..] && b == [b[0]] + b[1..];
    }
  }

  /**
   * Sorting by "newest" and then sorting the result by "oldest" yields
   * exactly the reverse order, when dates are distinct.
   */
  lemma NewestThenOldestReverses<T>(s: seq<T>, date: T -> int)
    requires DistinctDates(s, date)
    ensures SortByDate(SortByDate(s, date, "newest"), date, "oldest")
         == Reverse(SortByDate(s, date, "newest"))
  {
    var n := SortByDate(s, date, "newest");
    var o := SortByDate(n, date, "oldest");
    SortByDateIsSort(s, date, "newest");
    SortByDateIsSort(n, date, "oldest");
    ReverseAt(n);
    ReverseFlipsOrder(n, date, true);
    DistinctDatesIdentify(s, date);
    forall x, y | x in o && y in o && date(x) == date(y)
      ensures x == y
    {
      assert x in multiset(s) && y in multiset(s);
    }
    OrderedUnique(o, Reverse(n), date, false);
  }
}

/**
 * Events of the couple calendar and the two operations the store applies
 * to its local event list: keeping the events that pass a test (JavaScript's
 * `Array.prototype.filter`) and the stable ascending sort by date
 * (`Array.prototype.sort` with a date comparator).
 */
module EventList {

  /** One event document; `date` and `createdAt` are millisecond timestamps, `kind` is its `type`. */
  datatype Event = Event(
    id: string,
    coupleId: string,
    title: string,
    date: int,
    kind: string,
    description: string,
    createdAt: int)

  predicate SortedByDate(s: seq<Event>) {
    forall i, j :: 0 <= i < j < |s| ==> s[i].date <= s[j].date
  }

  /** The events of `s` that satisfy `p`, in their original order. */
  function Keep(s: seq<Event>, p: Event -> bool): (r: seq<Event>)
    ensures |r| <= |s|
    ensures forall x :: x in r <==> x in s && p(x)
    ensures multiset(r) <= multiset(s)
  {
    if s == [] then []
    else
      assert s == s[..|s| - 1] + [s[|s| - 1]];
      if p(s[|s| - 1]) then Keep(s[..|s| - 1], p) + [s[|s| - 1]]
      else Keep(s[..|s| - 1], p)
  }

  /** Filtering a concatenation filters each part: the kept elements stay in their order. */
  lemma {:induction false} KeepConcat(a: seq<Event>, b: seq<Event>, p: Event -> bool)
    ensures Keep(a + b, p) == Keep(a, p) + Keep(b, p)
    decreases |b|
  {
    if b == [] {
      assert a + b == a;
    } else {
      var last := b[|b| - 1];
      assert (a + b)[..|a + b| - 1] == a + b[..|b| - 1];
      KeepConcat(a, b[..|b| - 1], p);
    }
  }

  /** Filtering a sequence sorted by date leaves it sorted. */
  lemma {:induction false} KeepSorted(s: seq<Event>, p: Event -> bool)
    requires SortedByDate(s)
    ensures SortedByDate(Keep(s, p))
  {
    if s != [] {
      var init := s[..|s| - 1];
      KeepSorted(init, p);
      var k := Keep(init, p);
      forall i | 0 <= i < |k|
        ensures k[i].date <= s[|s| - 1].date
      {
        assert k[i] in init;
      }
    }
  }

  /**
   * Places `e` after every event of `s` with a date not later than its own:
   * what a stable sort does with an element pushed onto a sorted list.
   */
  function InsertByDate(s: seq<Event>, e: Event): (r: seq<Event>)
    ensures |r| == |s| + 1
    ensures multiset(r) == multiset(s) + multiset{e}
  {
    if s == [] || s[|s| - 1].date <= e.date then s + [e]
    else
      assert s == s[..|s| - 1] + [s[|s| - 1]];
      InsertByDate(s[..|s| - 1], e) + [s[|s| - 1]]
  }

  /** Inserting into a list sorted by date keeps it sorted. */
  lemma {:induction false} InsertByDateSorted(s: seq<Event>, e: Event)
    requires SortedByDate(s)
    ensures SortedByDate(InsertByDate(s, e))
  {
    if s != [] && e.date < s[|s| - 1].date {
      var init, last := s[..|s| - 1], s[|s| - 1];
      InsertByDateSorted(init, e);
      var rest := InsertByDate(init, e);
      assert InsertByDate(s, e) == rest + [last];
      forall i | 0 <= i < |rest|
        ensures rest[i].date <= last.date
      {
        assert rest[i] in multiset(rest);
        if rest[i] != e {
          assert rest[i] in init;
        }
      }
    }
  }

  /** The stable ascending sort by date of `s`, by insertion from the front. */
  function SortByDate(s: seq<Event>): (r: seq<Event>)
    ensures |r| == |s|
    ensures multiset(r) == multiset(s)
    ensures SortedByDate(r)
  {
    if s == [] then []
    else
      assert s == s[..|s| - 1] + [s[|s| - 1]];
      InsertByDateSorted(SortByDate(s[..|s| - 1]), s[|s| - 1]);
      InsertByDate(SortByDate(s[..|s| - 1]), s[|s| - 1])
  }

  /** Sorting a list that is already sorted by date leaves it unchanged. */
  lemma {:induction false} SortSortedIsIdentity(s: seq<Event>)
    requires SortedByDate(s)
    ensures SortByDate(s) == s
  {
    if s != [] {
      var init := s[..|s| - 1];
      SortSortedIsIdentity(init);
      assert s == init + [s[|s| - 1]];
    }
  }
}

/** The order of a queue. `Array.prototype.sort` is stable (section 23.1.3.30 of ECMA-262,
    14th edition); `Sort` is the stable sort by `Compare`, and `SortUnique` shows that any
    stable sort gives this same answer. */
module Sorting {
  import opened Basics
  import opened Messages

  function Insert(m: Msg, s: seq<Msg>): (r: seq<Msg>)
    ensures |r| == |s| + 1
  {
    if s == [] then [m]
    else if Compare(m, s[0]) <= 0 then [m] + s
    else [s[0]] + Insert(m, s[1..])
  }

  function Sort(s: seq<Msg>): (r: seq<Msg>)
    ensures |r| == |s|
  {
    if s == [] then [] else Insert(s[0], Sort(s[1..]))
  }

  ghost predicate Sorted(s: seq<Msg>) {
    forall i, j | 0 <= i < j < |s| :: Compare(s[i], s[j]) <= 0
  }

  /** Selects the messages that compare equal to the given priority and order time. */
  function SameKey(priority: int, orderTime: Instant): Msg -> bool {
    (m: Msg) => m.priority == priority && m.orderTime == orderTime
  }

  function HasPriority(p: int): Msg -> bool {
    (m: Msg) => m.priority == p
  }

  lemma {:induction false} InsertMembers(m: Msg, s: seq<Msg>)
    ensures forall x :: x in Insert(m, s) <==> x == m || x in s
  {
    if s != [] && Compare(m, s[0]) > 0 {
      InsertMembers(m, s[1..]);
      assert s == [s[0]] + s[1..];
    }
  }

  lemma {:induction false} SortMembers(s: seq<Msg>)
    ensures forall x :: x in Sort(s) <==> x in s
  {
    if s != [] {
      SortMembers(s[1..]);
      InsertMembers(s[0], Sort(s[1..]));
      assert s == [s[0]] + s[1..];
    }
  }

  lemma {:induction false} InsertSorted(m: Msg, s: seq<Msg>)
    requires Sorted(s)
    ensures Sorted(Insert(m, s))
  {
    if s != [] && Compare(m, s[0]) > 0 {
      InsertSorted(m, s[1..]);
      InsertMembers(m, s[1..]);
      var r := Insert(m, s[1..]);
      forall i | 0 <= i < |r| ensures Compare(s[0], r[i]) <= 0 {
        assert r[i] in r;
      }
    }
  }

  /** Higher priority goes first, and among equals what is earlier in order time. */
  lemma {:induction false} SortSorts(s: seq<Msg>)
    ensures Sorted(Sort(s))
    ensures forall i, j | 0 <= i < j < |s| ::
              var a, b := Sort(s)[i], Sort(s)[j];
              a.priority > b.priority || (a.priority == b.priority && a.orderTime <= b.orderTime)
  {
    if s != [] {
      SortSorts(s[1..]);
      InsertSorted(s[0], Sort(s[1..]));
    }
  }

  lemma {:induction false} InsertStable(m: Msg, s: seq<Msg>, p: int, o: Instant)
    ensures Filter(Insert(m, s), SameKey(p, o)) == Filter([m] + s, SameKey(p, o))
  {
    assert ([m] + s)[1..] == s;
    if s != [] && Compare(m, s[0]) > 0 {
      InsertStable(m, s[1..], p, o);
      assert Insert(m, s)[1..] == Insert(m, s[1..]);
      assert ([m] + s[1..])[1..] == s[1..];
    }
  }

  /** Sorting is a stable permutation: messages with equal keys keep their relative order. */
  lemma {:induction false} SortStable(s: seq<Msg>, p: int, o: Instant)
    ensures Filter(Sort(s), SameKey(p, o)) == Filter(s, SameKey(p, o))
  {
    if s != [] {
      InsertStable(s[0], Sort(s[1..]), p, o);
      SortStable(s[1..], p, o);
      assert ([s[0]] + Sort(s[1..]))[1..] == Sort(s[1..]);
    }
  }

  lemma SortedHeads(t: seq<Msg>, u: seq<Msg>)
    requires t != [] && Sorted(t) && Sorted(u)
    requires forall p, o :: Filter(t, SameKey(p, o)) == Filter(u, SameKey(p, o))
    ensures u != [] && Compare(u[0], t[0]) <= 0
  {
    var f := SameKey(t[0].priority, t[0].orderTime);
    FilterMembers(t, f);
    FilterMembers(u, f);
    assert t[0] in Filter(t, f);
    assert t[0] in Filter(u, f);
    assert t[0] in u;
  }

  /** Any sorted list with the same messages per key, in the same order per key, is the
      answer of `Sort`: a stable sort by this comparison has only one possible result. */
  lemma {:induction false} SortUnique(t: seq<Msg>, u: seq<Msg>)
    requires Sorted(t) && Sorted(u)
    requires forall p, o :: Filter(t, SameKey(p, o)) == Filter(u, SameKey(p, o))
    ensures t == u
  {
    if t == [] {
      if u != [] {
        SortedHeads(u, t);
      }
    } else {
      SortedHeads(t, u);
      SortedHeads(u, t);
      var f := SameKey(t[0].priority, t[0].orderTime);
      assert Filter(t, f)[0] == t[0];
      assert Filter(u, f)[0] == u[0];
      forall p, o ensures Filter(t[1..], SameKey(p, o)) == Filter(u[1..], SameKey(p, o)) {
        assert Filter(t, SameKey(p, o)) == Filter(u, SameKey(p, o));
        if t[0].priority == p && t[0].orderTime == o {
          assert Filter(t[1..], SameKey(p, o)) == Filter(t, SameKey(p, o))[1..];
          assert Filter(u[1..], SameKey(p, o)) == Filter(u, SameKey(p, o))[1..];
        }
      }
      SortUnique(t[1..], u[1..]);
      assert t == [t[0]] + t[1..] && u == [u[0]] + u[1..];
    }
  }

  lemma SortFixesSorted(s: seq<Msg>)
    requires Sorted(s)
    ensures Sort(s) == s
  {
    SortSorts(s);
    forall p, o ensures Filter(Sort(s), SameKey(p, o)) == Filter(s, SameKey(p, o)) {
      SortStable(s, p, o);
    }
    SortUnique(Sort(s), s);
  }
}

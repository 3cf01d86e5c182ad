/** The java.util.stream steps the pipelines use (`map`, `filter`, and
    `map(Optional::get)`), over a finite ordered list, collected eagerly. */
module Streams {
  import opened Optional

  /** `map(f)`: one output per input, in input order. */
  function Map<A, B>(f: A -> B, s: seq<A>): (r: seq<B>)
    ensures |r| == |s|
    ensures forall i :: 0 <= i < |s| ==> r[i] == f(s[i])
  {
    seq(|s|, i requires 0 <= i < |s| => f(s[i]))
  }

  /** `filter(p)`: the elements satisfying `p`, in input order. */
  function Filter<A>(p: A -> bool, s: seq<A>): (r: seq<A>)
    ensures |r| <= |s|
    ensures forall i :: 0 <= i < |r| ==> p(r[i])
    ensures forall i :: 0 <= i < |r| ==> r[i] in s
    ensures forall i :: 0 <= i < |s| && p(s[i]) ==> s[i] in r
  {
    if s == [] then []
    else
      (if p(s[0]) then [s[0]] else []) + Filter(p, s[1..])
  }

  /** `map(Optional::get)` on a list whose elements are all present. */
  function Unwrap<T>(os: seq<Option<T>>): (r: seq<T>)
    requires forall i :: 0 <= i < |os| ==> os[i].Some?
    ensures |r| == |os|
    ensures forall i :: 0 <= i < |os| ==> os[i] == Some(r[i])
  {
    seq(|os|, i requires 0 <= i < |os| => os[i].value)
  }

  lemma MapCons<A, B>(f: A -> B, x: A, s: seq<A>)
    ensures Map(f, [x] + s) == [f(x)] + Map(f, s)
  {
  }

  lemma FilterCons<A>(p: A -> bool, x: A, s: seq<A>)
    ensures Filter(p, [x] + s) == (if p(x) then [x] else []) + Filter(p, s)
  {
  }

  lemma MapAppend<A, B>(f: A -> B, s: seq<A>, t: seq<A>)
    ensures Map(f, s + t) == Map(f, s) + Map(f, t)
  {
  }

  /** Filtering a concatenation filters each part and keeps them in order;
      with `FilterCons` this fixes the order of the kept elements. */
  lemma {:induction false} FilterAppend<A>(p: A -> bool, s: seq<A>, t: seq<A>)
    ensures Filter(p, s + t) == Filter(p, s) + Filter(p, t)
  {
    if s == [] {
      assert s + t == t;
    } else {
      var head := if p(s[0]) then [s[0]] else [];
      calc {
        Filter(p, s + t);
        { assert s + t == [s[0]] + (s[1..] + t); }
        Filter(p, [s[0]] + (s[1..] + t));
        { FilterCons(p, s[0], s[1..] + t); }
        head + Filter(p, s[1..] + t);
        { FilterAppend(p, s[1..], t); }
        head + (Filter(p, s[1..]) + Filter(p, t));
        (head + Filter(p, s[1..])) + Filter(p, t);
        { FilterCons(p, s[0], s[1..]); assert s == [s[0]] + s[1..]; }
        Filter(p, s) + Filter(p, t);
      }
    }
  }

  /** `filter(p)` keeps every occurrence of an element satisfying `p`, and none
      of the others. */
  lemma {:induction false} FilterCounts<A>(p: A -> bool, s: seq<A>, x: A)
    ensures multiset(Filter(p, s))[x] == if p(x) then multiset(s)[x] else 0
  {
    if s != [] {
      assert s == [s[0]] + s[1..];
      FilterCons(p, s[0], s[1..]);
      FilterCounts(p, s[1..], x);
    }
  }
}

/** Shared vocabulary: options, filters over sequences and the lemmas about them. */
module Prelude {

  datatype Option<+T> = None | Some(value: T)

  function OptionSeq<T>(o: Option<T>): seq<T> {
    match o case None => [] case Some(x) => [x]
  }

  function MaxInt(a: int, b: int): int {
    if a < b then b else a
  }

  /** The elements of `s` that satisfy `p`, in order. */
  function Filter<T>(p: T -> bool, s: seq<T>): (r: seq<T>)
    ensures |r| <= |s|
    ensures forall x | x in r :: x in s && p(x)
    ensures forall x | x in s && p(x) :: x in r
  {
    if s == [] then []
    else (if p(s[0]) then [s[0]] else []) + Filter(p, s[1..])
  }

  lemma {:induction false} FilterConcat<T>(p: T -> bool, a: seq<T>, b: seq<T>)
    ensures Filter(p, a + b) == Filter(p, a) + Filter(p, b)
  {
    if a == [] {
      assert a + b == b;
    } else {
      assert (a + b)[1..] == a[1..] + b;
      FilterConcat(p, a[1..], b);
    }
  }

  lemma {:induction false} FilterSnoc<T>(p: T -> bool, a: seq<T>, x: T)
    ensures Filter(p, a + [x]) == Filter(p, a) + if p(x) then [x] else []
  {
    FilterConcat(p, a, [x]);
  }

  lemma {:induction false} FilterNone<T>(p: T -> bool, s: seq<T>)
    requires forall x :: x in s ==> !p(x)
    ensures Filter(p, s) == []
  {
    if s != [] {
      assert s[0] in s;
      FilterNone(p, s[1..]);
    }
  }

  lemma {:induction false} FilterAgree<T>(p: T -> bool, q: T -> bool, s: seq<T>)
    requires forall x :: x in s ==> p(x) == q(x)
    ensures Filter(p, s) == Filter(q, s)
  {
    if s != [] {
      assert s[0] in s;
      FilterAgree(p, q, s[1..]);
    }
  }

  /** The elements of a sequence, as a set. */
  function Elements<T>(s: seq<T>): set<T> {
    set x | x in s
  }

  /** The elements of a set, each once. */
  method Listed<T(==)>(s: set<T>) returns (out: seq<T>)
    ensures Elements(out) == s && |out| == |s|
    ensures forall x :: x in out <==> x in s
  {
    var rest := s;
    out := [];
    while rest != {}
      invariant Elements(out) + rest == s && Elements(out) !! rest && |out| + |rest| == |s|
    {
      var x :| x in rest;
      assert Elements(out + [x]) == Elements(out) + {x};
      out, rest := out + [x], rest - {x};
    }
    assert forall x :: x in out <==> x in Elements(out);
  }
}

/** Sums over finite sets: the arithmetic every ledger in this project is stated with. */
module Sums {

  /** The sum of f over s; the order of summation does not matter (see SumRemove). */
  ghost function SumSet<K(!new)>(s: set<K>, f: K -> int): int
  {
    if s == {} then 0 else var x :| x in s; f(x) + SumSet(s - {x}, f)
  }

  /** Any element can be taken out first. */
  lemma {:induction false} SumRemove<K(!new)>(s: set<K>, x: K, f: K -> int)
    requires x in s
    ensures SumSet(s, f) == f(x) + SumSet(s - {x}, f)
    decreases s
  {
    var y :| y in s && SumSet(s, f) == f(y) + SumSet(s - {y}, f);
    if x != y {
      SumRemove(s - {y}, x, f);
      SumRemove(s - {x}, y, f);
      assert s - {y} - {x} == s - {x} - {y};
    }
  }

  lemma SumInsert<K(!new)>(s: set<K>, x: K, f: K -> int)
    requires x !in s
    ensures SumSet(s + {x}, f) == f(x) + SumSet(s, f)
  {
    SumRemove(s + {x}, x, f);
    assert s + {x} - {x} == s;
  }

  lemma {:induction false} SumCong<K(!new)>(s: set<K>, f: K -> int, g: K -> int)
    requires forall x :: x in s ==> f(x) == g(x)
    ensures SumSet(s, f) == SumSet(s, g)
    decreases s
  {
    if s != {} {
      var x :| x in s;
      SumRemove(s, x, f);
      SumRemove(s, x, g);
      SumCong(s - {x}, f, g);
    }
  }

  lemma {:induction false} SumMono<K(!new)>(s: set<K>, f: K -> int, g: K -> int)
    requires forall x :: x in s ==> f(x) <= g(x)
    ensures SumSet(s, f) <= SumSet(s, g)
    decreases s
  {
    if s != {} {
      var x :| x in s;
      SumRemove(s, x, f);
      SumRemove(s, x, g);
      SumMono(s - {x}, f, g);
    }
  }

  lemma {:induction false} SumPlus<K(!new)>(s: set<K>, f: K -> int, g: K -> int, h: K -> int)
    requires forall x :: x in s ==> h(x) == f(x) + g(x)
    ensures SumSet(s, h) == SumSet(s, f) + SumSet(s, g)
    decreases s
  {
    if s != {} {
      var x :| x in s;
      SumRemove(s, x, f);
      SumRemove(s, x, g);
      SumRemove(s, x, h);
      SumPlus(s - {x}, f, g, h);
    }
  }

  /** Elements on which f vanishes may be left out. */
  lemma {:induction false} SumSupport<K(!new)>(s: set<K>, t: set<K>, f: K -> int)
    requires s <= t
    requires forall x :: x in t && x !in s ==> f(x) == 0
    ensures SumSet(t, f) == SumSet(s, f)
    decreases t
  {
    if s != t {
      var x :| x in t && x !in s;
      SumRemove(t, x, f);
      SumSupport(s, t - {x}, f);
    }
  }

  /** Changing f at one element of s changes the sum by the difference. */
  lemma SumBump<K(!new)>(s: set<K>, x: K, f: K -> int, g: K -> int)
    requires x in s
    requires forall y :: y in s && y != x ==> f(y) == g(y)
    ensures SumSet(s, g) - SumSet(s, f) == g(x) - f(x)
  {
    SumRemove(s, x, f);
    SumRemove(s, x, g);
    SumCong(s - {x}, f, g);
  }

  lemma {:induction false} SumSplit<K(!new)>(s: set<K>, t: set<K>, f: K -> int)
    requires s <= t
    ensures SumSet(t, f) == SumSet(s, f) + SumSet(t - s, f)
    decreases s
  {
    if s == {} {
      assert t - s == t;
    } else {
      var x :| x in s;
      SumRemove(s, x, f);
      SumRemove(t, x, f);
      SumSplit(s - {x}, t - {x}, f);
      assert t - {x} - (s - {x}) == t - s;
    }
  }

  function Max(a: int, b: int): int { if a < b then b else a }

  /** The largest value of f over s, at least 0. */
  ghost function MaxSet<K(!new)>(s: set<K>, f: K -> int): int
  {
    if s == {} then 0 else var x :| x in s; Max(f(x), MaxSet(s - {x}, f))
  }

  lemma {:induction false} MaxRemove<K(!new)>(s: set<K>, x: K, f: K -> int)
    requires x in s
    ensures MaxSet(s, f) == Max(f(x), MaxSet(s - {x}, f))
    decreases s
  {
    var y :| y in s && MaxSet(s, f) == Max(f(y), MaxSet(s - {y}, f));
    if x != y {
      MaxRemove(s - {y}, x, f);
      MaxRemove(s - {x}, y, f);
      assert s - {y} - {x} == s - {x} - {y};
      var fx, fy, rest := f(x), f(y), MaxSet(s - {x} - {y}, f);
      assert Max(fy, Max(fx, rest)) == Max(fx, Max(fy, rest));
    }
  }

  lemma MaxInsert<K(!new)>(s: set<K>, x: K, f: K -> int)
    requires x !in s
    ensures MaxSet(s + {x}, f) == Max(f(x), MaxSet(s, f))
  {
    MaxRemove(s + {x}, x, f);
    assert s + {x} - {x} == s;
  }
}

/**
  The agent's two enforcers: the limit on simultaneous addresses per node, and the traffic quota per node
  (internal/agent/iplimit/iplimit.go, internal/agent/quota/quota.go). Each decides a set to block and
  installs it only when it differs from the set installed last.
 */
module Enforcement {
  import opened Names

  // ----- the order of addresses -----

  /** Go's order on strings: byte by byte, a prefix first. */
  predicate Less(a: string, b: string)
  {
    b != "" && (a == "" || a[0] < b[0] || (a[0] == b[0] && Less(a[1..], b[1..])))
  }

  lemma {:induction false} LessTrans(a: string, b: string, c: string)
    requires Less(a, b) && Less(b, c)
    ensures Less(a, c)
    decreases |a|
  {
    if a != "" && a[0] == b[0] && b[0] == c[0] { LessTrans(a[1..], b[1..], c[1..]); }
  }

  lemma {:induction false} LessTotal(a: string, b: string)
    ensures Less(a, b) || Less(b, a) || a == b
    ensures !(Less(a, b) && Less(b, a)) && !Less(a, a)
    decreases |a|
  {
    if a != "" && b != "" && a[0] == b[0] {
      LessTotal(a[1..], b[1..]);
      LessTotal(a[1..], a[1..]);
      assert a == [a[0]] + a[1..] && b == [b[0]] + b[1..];
    } else if a != "" {
      LessTotal(a[1..], a[1..]);
    }
  }

  /** One string comes before the other if it is a proper prefix or smaller where they first differ. */
  predicate Before(a: string, b: string, k: nat)
  {
    k <= |a| && k < |b| && a[..k] == b[..k] && (k == |a| || a[k] < b[k])
  }

  lemma SameFirst(a: string, b: string, k: nat)
    ensures Before(a, b, k) && k > 0 ==> a != "" && a[0] == b[0]
  {
    if Before(a, b, k) && k > 0 { assert a[0] == a[..k][0] && b[0] == b[..k][0]; }
  }

  lemma {:induction false} LessIsLexicographic(a: string, b: string)
    ensures Less(a, b) <==> exists k: nat :: Before(a, b, k)
    decreases |a|
  {
    if b != "" && (a == "" || a[0] < b[0]) {
      assert Before(a, b, 0);
    } else if b != "" && a[0] == b[0] {
      LessIsLexicographic(a[1..], b[1..]);
      if k: nat :| Before(a[1..], b[1..], k) {
        assert a[..k + 1] == [a[0]] + a[1..][..k] && b[..k + 1] == [b[0]] + b[1..][..k];
        assert Before(a, b, k + 1);
      }
      if k: nat :| Before(a, b, k) {
        assert k > 0;
        assert a[1..][..k - 1] == a[..k][1..] && b[1..][..k - 1] == b[..k][1..];
        assert Before(a[1..], b[1..], k - 1);
      }
    } else {
      forall k: nat ensures !Before(a, b, k) { SameFirst(a, b, k); }
    }
  }

  // ----- sorting in place -----

  /** Position p does not come after position q. */
  predicate Ordered(s: seq<string>, p: int, q: int)
    requires 0 <= p < |s| && 0 <= q < |s|
  {
    !Less(s[q], s[p])
  }

  lemma OrderedTrans(s: seq<string>, p: nat, q: nat, r: nat)
    requires p < |s| && q < |s| && r < |s| && Ordered(s, p, q) && Ordered(s, q, r)
    ensures Ordered(s, p, r)
  {
    LessTotal(s[p], s[q]);
    LessTotal(s[q], s[r]);
    LessTotal(s[p], s[r]);
    if Less(s[p], s[q]) && Less(s[q], s[r]) { LessTrans(s[p], s[q], s[r]); }
  }

  predicate SortedTo(s: seq<string>, n: int)
    requires 0 <= n <= |s|
  {
    forall p, q :: 0 <= p < q < n ==> Ordered(s, p, q)
  }

  /** The first i + 1 places are in order, except that what stands at j has still to move down. */
  predicate Sinking(s: seq<string>, i: int, j: int)
    requires 0 <= j <= i < |s|
  {
    && (forall p, q :: 0 <= p < q <= i && p != j && q != j ==> Ordered(s, p, q))
    && (forall q :: j < q <= i ==> Ordered(s, j, q))
  }

  lemma SwapSinks(s: seq<string>, i: int, j: int)
    requires 0 < j <= i < |s| && Sinking(s, i, j) && Less(s[j], s[j - 1])
    ensures Sinking(s[j := s[j - 1]][j - 1 := s[j]], i, j - 1)
  {
    hide Less;
    var t := s[j := s[j - 1]][j - 1 := s[j]];
    LessTotal(s[j], s[j - 1]);
    forall p, q | 0 <= p < q <= i && p != j - 1 && q != j - 1 ensures Ordered(t, p, q)
    {
      if q == j { assert Ordered(s, p, j - 1); }
      else if p == j { assert Ordered(s, j - 1, q); }
      else { assert Ordered(s, p, q); }
    }
    var below := j - 1;
    forall q | j <= q <= i ensures Ordered(t, below, q)
    {
      if q > j { assert Ordered(s, j, q); }
    }
  }

  lemma SunkIsSorted(s: seq<string>, i: int, j: int)
    requires 0 <= j <= i < |s| && Sinking(s, i, j) && (j == 0 || Ordered(s, j - 1, j))
    ensures SortedTo(s, i + 1)
  {
    hide Ordered;
    forall p, q | 0 <= p < q < i + 1 ensures Ordered(s, p, q)
    {
      if q == j && p < j - 1 { OrderedTrans(s, p, j - 1, j); }
    }
  }

  /** Insertion sort by adjacent swaps. */
  method SortInPlace(a: array<string>)
    modifies a
    ensures SortedTo(a[..], a.Length)
    ensures multiset(a[..]) == multiset(old(a[..]))
  {
    hide Ordered, Sinking;
    if a.Length == 0 { return; }
    var i := 1;
    OneIsSorted(a[..]);
    while i < a.Length
      invariant 1 <= i <= a.Length && SortedTo(a[..], i)
      invariant multiset(a[..]) == multiset(old(a[..]))
    {
      var j := i;
      StartsSinking(a[..], i);
      while j > 0 && Less(a[j], a[j - 1])
        invariant 0 <= j <= i && Sinking(a[..], i, j)
        invariant multiset(a[..]) == multiset(old(a[..]))
      {
        SwapSinks(a[..], i, j);
        a[j], a[j - 1] := a[j - 1], a[j];
        j := j - 1;
      }
      StopsSinking(a[..], i, j);
      i := i + 1;
    }
  }

  lemma OneIsSorted(s: seq<string>)
    requires |s| > 0
    ensures SortedTo(s, 1)
  {
  }

  lemma StartsSinking(s: seq<string>, i: int)
    requires 0 < i < |s| && SortedTo(s, i)
    ensures Sinking(s, i, i)
  {
  }

  lemma StopsSinking(s: seq<string>, i: int, j: int)
    requires 0 <= j <= i < |s| && Sinking(s, i, j) && (j == 0 || !Less(s[j], s[j - 1]))
    ensures SortedTo(s, i + 1)
  {
    SunkIsSorted(s, i, j);
  }

  predicate StrictlySorted(s: seq<string>) { forall p, q :: 0 <= p < q < |s| ==> Less(s[p], s[q]) }

  /** The elements of a set, each once, in strictly ascending order. */
  ghost predicate ListsInOrder(s: seq<string>, of: set<string>)
  {
    StrictlySorted(s) && (forall x :: x in s <==> x in of) && |s| == |of|
  }

  /** The addresses of a set in strictly ascending order, each once, whatever order the set is ranged over. */
  method SortedIPs(active: set<string>) returns (out: seq<string>)
    ensures ListsInOrder(out, active)
  {
    var items: seq<string> := [];
    var rest := active;
    while rest != {}
      invariant rest <= active && multiset(items) == multiset(active - rest)
    {
      var ip :| ip in rest;
      assert active - (rest - {ip}) == (active - rest) + {ip};
      items, rest := items + [ip], rest - {ip};
    }
    assert active - {} == active;
    var a := new string[|items|](i requires 0 <= i < |items| => items[i]);
    assert a[..] == items;
    SortInPlace(a);
    out := a[..];
    SortedSet(out, active);
  }

  lemma SortedSet(s: seq<string>, of: set<string>)
    requires SortedTo(s, |s|) && multiset(s) == multiset(of)
    ensures ListsInOrder(s, of)
  {
    assert forall x :: x in s <==> x in multiset(s);
    assert |multiset(s)| == |s| && |multiset(of)| == |of|;
    forall p, q | 0 <= p < q < |s| ensures Less(s[p], s[q])
    {
      assert Ordered(s, p, q);
      NoRepeat(s, of, p, q);
      LessTotal(s[p], s[q]);
    }
  }

  lemma NoRepeat(s: seq<string>, of: set<string>, p: int, q: int)
    requires 0 <= p < q < |s| && multiset(s) == multiset(of)
    ensures s[p] != s[q]
  {
    assert s == s[..q] + s[q..];
    assert s[p] in s[..q] && s[q] in s[q..];
    assert multiset(s) == multiset(s[..q]) + multiset(s[q..]);
    assert multiset(of)[s[p]] <= 1;
  }

  // ----- who is blocked -----

  /** How many of the addresses come before this one. */
  function RankOf(active: set<string>, ip: string): nat { |set x | x in active && Less(x, ip)| }

  /** The addresses past the first `limit`. */
  function Tail(active: set<string>, limit: nat): set<string> { set ip | ip in active && RankOf(active, ip) >= limit }

  ghost function Elements(s: seq<string>): set<string> { set x | x in s }

  lemma AddElement(front: seq<string>, last: string)
    requires last !in front
    ensures |Elements(front + [last])| == |Elements(front)| + 1
  {
    assert Elements(front + [last]) == Elements(front) + {last};
  }

  lemma {:induction false} PrefixSize(s: seq<string>, n: nat)
    requires StrictlySorted(s) && n <= |s|
    ensures |Elements(s[..n])| == n
    decreases n
  {
    hide Less, Elements;
    if n == 0 {
      NoElements();
    } else {
      var front, last := s[..n - 1], s[n - 1];
      PrefixSize(s, n - 1);
      assert s[..n] == front + [last];
      forall p | 0 <= p < n - 1 ensures s[p] != last { LessTotal(s[p], last); }
      AddElement(front, last);
    }
  }

  lemma NoElements()
    ensures Elements([]) == {}
  {
  }

  /** In a strictly sorted list of the set, an address's rank is its position. */
  lemma RankIsPosition(s: seq<string>, active: set<string>, k: nat)
    requires StrictlySorted(s) && (forall x :: x in s <==> x in active) && k < |s|
    ensures RankOf(active, s[k]) == k
  {
    forall x ensures x in active && Less(x, s[k]) <==> x in s[..k]
    {
      if x in active {
        var p :| 0 <= p < |s| && s[p] == x;
        LessTotal(s[p], s[k]);
        assert p < k ==> s[..k][p] == x;
      }
    }
    assert (set x | x in active && Less(x, s[k])) == Elements(s[..k]);
    PrefixSize(s, k);
  }

  /** The first `limit` of a list, or all of it. */
  function First(s: seq<string>, limit: nat): seq<string> { if limit <= |s| then s[..limit] else s }

  lemma TailIsSuffix(s: seq<string>, active: set<string>, limit: nat)
    requires StrictlySorted(s) && (forall x :: x in s <==> x in active)
    ensures Tail(active, limit) == if limit <= |s| then set x | x in s[limit..] else {}
    ensures active - Tail(active, limit) == set x | x in First(s, limit)
  {
    var cut := if limit <= |s| then limit else |s|;
    assert First(s, limit) == s[..cut];
    forall k | 0 <= k < |s| ensures s[k] in Tail(active, limit) <==> k >= limit { RankIsPosition(s, active, k); }
    forall x | x in active
      ensures x in Tail(active, limit) <==> x in s[cut..]
      ensures x !in Tail(active, limit) <==> x in First(s, limit)
    {
      var k :| 0 <= k < |s| && s[k] == x;
      if k >= cut { assert s[cut..][k - cut] == x; } else { assert s[..cut][k] == x; }
      forall j | 0 <= j < |s| && s[j] == x ensures j == k { LessTotal(s[j], s[k]); LessTotal(s[k], s[j]); }
    }
  }

  /** What the checks of one round see: configured limits, the ports and active addresses that could be found out. */
  datatype Sight = Sight(limits: map<string, int>, ports: map<string, int>, active: map<int, set<string>>)

  /** The node has a limit, and its port and active addresses are known. */
  predicate Resolvable(v: Sight, node: string)
  {
    node in v.limits && v.limits[node] > 0 && node in v.ports && v.ports[node] > 0 && v.ports[node] in v.active
  }

  function ActiveOf(v: Sight, node: string): set<string>
    requires Resolvable(v, node)
  {
    v.active[v.ports[node]]
  }

  function BlockedBy(v: Sight, node: string): set<string>
  {
    if Resolvable(v, node) then Tail(ActiveOf(v, node), v.limits[node]) else {}
  }

  function BlockedFor(v: Sight, nodes: set<string>): set<string>
  {
    set n, ip | n in nodes && ip in BlockedBy(v, n) :: ip
  }

  /** The decision: the tails of all over-limit nodes together. */
  function Blocked(v: Sight): set<string> { BlockedFor(v, v.limits.Keys) }

  lemma TailSizes(active: set<string>, limit: nat)
    ensures |active - Tail(active, limit)| == if |active| <= limit then |active| else limit
  {
    SortedExists(active);
    var s :| ListsInOrder(s, active);
    TailIsSuffix(s, active, limit);
    var cut := if limit <= |s| then limit else |s|;
    assert First(s, limit) == s[..cut];
    PrefixSize(s, cut);
  }

  lemma {:induction false} SortedExists(active: set<string>)
    ensures exists s :: ListsInOrder(s, active)
    decreases active
  {
    hide Less, ListsInOrder;
    if active == {} {
      NothingInOrder();
    } else {
      var x :| x in active;
      SortedExists(active - {x});
      var s :| ListsInOrder(s, active - {x});
      Extended(s, active - {x}, x);
      assert active - {x} + {x} == active;
      assert ListsInOrder(s[..Place(s, x)] + [x] + s[Place(s, x)..], active);
    }
  }

  lemma NothingInOrder()
    ensures ListsInOrder([], {})
  {
  }

  lemma Extended(s: seq<string>, of: set<string>, x: string)
    requires ListsInOrder(s, of) && x !in of
    ensures ListsInOrder(s[..Place(s, x)] + [x] + s[Place(s, x)..], of + {x})
  {
    hide Less, StrictlySorted;
    var k := Place(s, x);
    InsertedSorted(s, x, k);
    assert s == s[..k] + s[k..];
  }

  function Place(s: seq<string>, x: string): (k: nat)
    ensures k <= |s| && (forall i :: 0 <= i < k ==> Less(s[i], x)) && (k < |s| ==> !Less(s[k], x))
  {
    if s == [] || !Less(s[0], x) then 0 else 1 + Place(s[1..], x)
  }

  lemma InsertedSorted(s: seq<string>, x: string, k: nat)
    requires StrictlySorted(s) && x !in s && k == Place(s, x)
    ensures StrictlySorted(s[..k] + [x] + s[k..])
  {
    var t := s[..k] + [x] + s[k..];
    forall i | k <= i < |s| ensures Less(x, s[i])
    {
      LessTotal(s[k], x);
      if i > k { LessTrans(x, s[k], s[i]); }
    }
    forall p, q | 0 <= p < q < |t| ensures Less(t[p], t[q])
    {
      if p < k && q > k { assert Less(s[p], s[q - 1]); }
      else if p > k { assert Less(s[p - 1], s[q - 1]); }
    }
  }

  /** The address is one of those active on the node's port, and as many as the node's limit come before it. */
  ghost predicate PastTheLimit(v: Sight, n: string, ip: string)
  {
    && n in v.limits && 0 < v.limits[n] && n in v.ports && 0 < v.ports[n] && v.ports[n] in v.active
    && ip in v.active[v.ports[n]] && |set x | x in v.active[v.ports[n]] && Less(x, ip)| >= v.limits[n]
  }

  /**
    An address is blocked exactly when it is past some node's limit, and a node with a limit whose port and
    addresses are known keeps at most that many.
   */
  lemma BlockedIsRight(v: Sight)
    ensures forall n :: n in v.limits && 0 < v.limits[n] && n in v.ports && 0 < v.ports[n] && v.ports[n] in v.active ==>
              |v.active[v.ports[n]] - Blocked(v)| <= v.limits[n]
    ensures forall ip :: ip in Blocked(v) <==> exists n :: PastTheLimit(v, n, ip)
  {
    forall n | Resolvable(v, n) ensures |ActiveOf(v, n) - Blocked(v)| <= v.limits[n]
    {
      TailSizes(ActiveOf(v, n), v.limits[n]);
      assert forall ip :: ip in BlockedBy(v, n) ==> ip in Blocked(v);
      Smaller(ActiveOf(v, n) - Blocked(v), ActiveOf(v, n) - Tail(ActiveOf(v, n), v.limits[n]));
    }
    forall ip | ip in Blocked(v) ensures exists n :: PastTheLimit(v, n, ip)
    {
      var n :| n in v.limits.Keys && ip in BlockedBy(v, n);
      assert PastTheLimit(v, n, ip);
    }
    forall ip, n | PastTheLimit(v, n, ip) ensures ip in Blocked(v)
    {
      assert ip in BlockedBy(v, n);
    }
  }

  lemma {:induction false} Smaller<T>(a: set<T>, b: set<T>)
    requires a <= b
    ensures |a| <= |b|
    decreases a
  {
    if a != {} {
      var x :| x in a;
      Smaller(a - {x}, b - {x});
    }
  }

  // ----- installing only what changed -----

  /** The set applied last (none since the start), and what nft really holds. */
  datatype Gate<T> = Gate(last: Option<set<T>>, installed: set<T>)

  /** A set decided upon is applied unless it is the one applied last; a failed application installs nothing. */
  function Settle<T>(g: Gate<T>, decided: set<T>, works: bool): Gate<T>
  {
    if g.last == Some(decided) || !works then g else Gate(Some(decided), decided)
  }

  /** The error kept for status queries: it changes only when something is applied. */
  function ErrorAfter<T>(g: Gate<T>, failing: bool, decided: set<T>, works: bool): bool
  {
    if g.last == Some(decided) then failing else !works
  }

  /** What was applied last is what is installed. */
  predicate Tracks<T(==)>(g: Gate<T>) { g.last.Some? ==> g.installed == g.last.value }

  function SettleAll<T>(g: Gate<T>, decisions: seq<(set<T>, bool)>): Gate<T>
    decreases |decisions|
  {
    if decisions == [] then g else SettleAll(Settle(g, decisions[0].0, decisions[0].1), decisions[1..])
  }

  /** Over every run of successful and failing applications the remembered set is the installed one. */
  lemma {:induction false} SettledTracks<T>(g: Gate<T>, decisions: seq<(set<T>, bool)>)
    requires Tracks(g)
    ensures Tracks(SettleAll(g, decisions))
    decreases |decisions|
  {
    if decisions != [] { SettledTracks(Settle(g, decisions[0].0, decisions[0].1), decisions[1..]); }
  }

  /**
    In every run the decided set is in force after a check exactly when it was in force already or its
    application worked; with no error kept it is in force.
   */
  lemma InForce<T>(g: Gate<T>, decisions: seq<(set<T>, bool)>, failing: bool, decided: set<T>, works: bool)
    requires Tracks(g)
    ensures var before := SettleAll(g, decisions);
            var after := Settle(before, decided, works);
      && (after.installed == decided <==> works || before.installed == decided)
      && (!ErrorAfter(before, failing, decided, works) ==> after.installed == decided)
  {
    SettledTracks(g, decisions);
  }

  /** The error kept after a run. */
  function ErrorAll<T>(g: Gate<T>, failing: bool, decisions: seq<(set<T>, bool)>): bool
    decreases |decisions|
  {
    if decisions == [] then failing
    else
      var d := decisions[0];
      ErrorAll(Settle(g, d.0, d.1), ErrorAfter(g, failing, d.0, d.1), decisions[1..])
  }

  /**
    After any run and one more check, an error is kept although the decided set is in force exactly when the
    set was the one applied last and an error was kept before, or applying it failed while an earlier
    process had left just that set installed.
   */
  lemma StaleErrorIsExact<T>(g: Gate<T>, decisions: seq<(set<T>, bool)>, failing: bool, decided: set<T>, works: bool)
    requires Tracks(g)
    ensures var before, kept := SettleAll(g, decisions), ErrorAll(g, failing, decisions);
            (ErrorAfter(before, kept, decided, works) && Settle(before, decided, works).installed == decided) <==>
            (if before.last == Some(decided) then kept else !works && before.installed == decided)
  {
    SettledTracks(g, decisions);
  }

  /** The check at i applied something: its set was not the one applied last. */
  predicate Applies<T(==)>(g: Gate<T>, decisions: seq<(set<T>, bool)>, i: int)
    requires 0 <= i < |decisions|
  {
    SettleAll(g, decisions[..i]).last != Some(decisions[i].0)
  }

  /** The last application of a run failed, or there was none and an error was kept at its start. */
  predicate LastFailed<T(==)>(g: Gate<T>, failing: bool, decisions: seq<(set<T>, bool)>)
  {
    if forall i :: 0 <= i < |decisions| ==> !Applies(g, decisions, i) then failing
    else exists i :: 0 <= i < |decisions| && Applies(g, decisions, i) && !decisions[i].1 &&
                     forall j :: i < j < |decisions| ==> !Applies(g, decisions, j)
  }

  lemma {:induction false} SettleAllLast<T>(g: Gate<T>, decisions: seq<(set<T>, bool)>, failing: bool)
    requires decisions != []
    ensures var n := |decisions| - 1; var before := SettleAll(g, decisions[..n]);
      && SettleAll(g, decisions) == Settle(before, decisions[n].0, decisions[n].1)
      && ErrorAll(g, failing, decisions)
          == ErrorAfter(before, ErrorAll(g, failing, decisions[..n]), decisions[n].0, decisions[n].1)
    decreases |decisions|
  {
    var n, d := |decisions| - 1, decisions[0];
    if n > 0 {
      SettleAllLast(Settle(g, d.0, d.1), decisions[1..], ErrorAfter(g, failing, d.0, d.1));
      assert decisions[1..][..n - 1] == decisions[..n][1..];
      assert decisions[..n][0] == d;
    } else {
      assert decisions == [d] && decisions[1..] == [] && decisions[..n] == [];
    }
  }

  /** In every run the error kept is the outcome of the last application, whatever was decided since. */
  lemma {:induction false} ErrorIsTheLastOutcome<T>(g: Gate<T>, decisions: seq<(set<T>, bool)>, failing: bool)
    ensures ErrorAll(g, failing, decisions) <==> LastFailed(g, failing, decisions)
    decreases |decisions|
  {
    if decisions != [] {
      var n := |decisions| - 1;
      var before := decisions[..n];
      SettleAllLast(g, decisions, failing);
      ErrorIsTheLastOutcome(g, before, failing);
      hide SettleAll, ErrorAll;
      forall i | 0 <= i < n ensures Applies(g, decisions, i) == Applies(g, before, i) && decisions[i] == before[i]
      {
        assert decisions[..i] == before[..i];
      }
      if Applies(g, decisions, n) {
        assert ErrorAll(g, failing, decisions) == !decisions[n].1;
      } else {
        LastFailedExtends(g, failing, decisions);
      }
    }
  }

  lemma LastFailedExtends<T>(g: Gate<T>, failing: bool, decisions: seq<(set<T>, bool)>)
    requires decisions != [] && !Applies(g, decisions, |decisions| - 1)
    requires forall i :: 0 <= i < |decisions| - 1 ==>
      Applies(g, decisions, i) == Applies(g, decisions[..|decisions| - 1], i) && decisions[i] == decisions[..|decisions| - 1][i]
    ensures LastFailed(g, failing, decisions) == LastFailed(g, failing, decisions[..|decisions| - 1])
  {
    hide Applies;
    var n, before := |decisions| - 1, decisions[..|decisions| - 1];
    if i :| 0 <= i < n && Applies(g, before, i) && !before[i].1 && forall j :: i < j < n ==> !Applies(g, before, j) {
      assert Applies(g, decisions, i) && forall j :: i < j < |decisions| ==> !Applies(g, decisions, j);
    }
  }

  /** A run that shows it: a set is applied, another fails, and the first is decided on again. */
  lemma StaleError(a: set<string>, b: set<string>)
    requires a != b
    ensures var g1 := Settle(Gate(None, {}), a, true);
            var g2, e2 := Settle(g1, b, false), ErrorAfter(g1, false, b, false);
            ErrorAfter(g2, e2, a, true) && Settle(g2, a, true).installed == a
  {
  }

  /** Equal size and inclusion one way are equality. */
  method SameSet<T(==)>(a: set<T>, b: set<T>) returns (same: bool)
    ensures same <==> a == b
  {
    if |a| != |b| { return false; }
    var rest := a;
    while rest != {}
      invariant rest <= a && forall x :: x in a && x !in rest ==> x in b
    {
      var k :| k in rest;
      if k !in b { return false; }
      rest := rest - {k};
    }
    SameSize(a, b);
    return true;
  }

  lemma {:induction false} SameSize<T>(a: set<T>, b: set<T>)
    requires a <= b && |a| == |b|
    ensures a == b
    decreases a
  {
    if a == {} {
    } else {
      var x :| x in a;
      SameSize(a - {x}, b - {x});
    }
  }

  lemma NothingBlocked(v: Sight)
    ensures BlockedFor(v, {}) == {}
  {
  }

  lemma BlockedForStep(v: Sight, before: set<string>, node: string)
    ensures BlockedFor(v, before + {node}) == BlockedFor(v, before) + BlockedBy(v, node)
  {
    hide BlockedBy;
  }

  /** The addresses past a node's limit, if its port and its addresses are known. */
  method BlockNode(v: Sight, node: string) returns (blocked: set<string>)
    ensures blocked == BlockedBy(v, node)
  {
    hide Tail, Less;
    if !Resolvable(v, node) { return {}; }
    var ips := SortedIPs(ActiveOf(v, node));
    TailIsSuffix(ips, ActiveOf(v, node), v.limits[node]);
    if |ips| > v.limits[node] { return set ip | ip in ips[v.limits[node]..]; }
    assert |ips| == v.limits[node] ==> ips[v.limits[node]..] == [];
    return {};
  }

  class IpEnforcer {
    var last: Option<set<string>>
    var failing: bool
    var installed: set<string>

    constructor (installed: set<string>)
      ensures Stored() == Gate(None, installed) && !failing
    {
      last, failing, this.installed := None, false, installed;
    }

    function Stored(): Gate<string>
      reads this
    {
      Gate(last, installed)
    }

    /** One round over all limits, in whatever order they come. */
    method Check(v: Sight, limitsRead: bool, works: bool) returns (ok: bool)
      modifies this
      ensures Stored() == if limitsRead then Settle(old(Stored()), Blocked(v), works) else old(Stored())
      ensures ok <==> limitsRead && (works || old(last) == Some(Blocked(v)))
      ensures failing == if limitsRead then ErrorAfter(old(Stored()), old(failing), Blocked(v), works) else old(failing)
    {
      hide BlockedFor, BlockedBy;
      NothingBlocked(v);
      if !limitsRead { return false; }
      var blocked: set<string> := {};
      var rest := v.limits.Keys;
      assert v.limits.Keys - rest == {};
      while rest != {}
        invariant rest <= v.limits.Keys && blocked == BlockedFor(v, v.limits.Keys - rest)
        invariant Stored() == old(Stored()) && failing == old(failing)
      {
        var node :| node in rest;
        ghost var before := v.limits.Keys - rest;
        assert v.limits.Keys - (rest - {node}) == before + {node};
        rest := rest - {node};
        BlockedForStep(v, before, node);
        var more := BlockNode(v, node);
        blocked := blocked + more;
      }
      assert v.limits.Keys - {} == v.limits.Keys;
      var same := false;
      if last.Some? { same := SameSet(last.value, blocked); }
      if !same {
        if !works { failing := true; return false; }
        installed, failing, last := blocked, false, Some(blocked);
      }
      return true;
    }
  }

  // ----- the quota -----

  datatype Limit = Limit(limitBytes: int, exceeded: bool)

  /** The quota rows, and what one round could find out about usage and ports. */
  datatype Usage = Usage(used: map<string, int>, ports: map<string, int>)

  predicate Measured(rows: map<string, Limit>, v: Usage, node: string)
  {
    node in rows && rows[node].limitBytes > 0 && node in v.used
  }

  predicate Exhausted(rows: map<string, Limit>, v: Usage, node: string)
  {
    Measured(rows, v, node) && v.used[node] >= rows[node].limitBytes
  }

  /** The node has a quota, has used it up as far as is known, and listens on this port. */
  predicate Closes(rows: map<string, Limit>, v: Usage, node: string, port: nat)
  {
    && node in rows && 0 < rows[node].limitBytes && node in v.used && rows[node].limitBytes <= v.used[node]
    && node in v.ports && 0 < v.ports[node] && v.ports[node] == port
  }

  function PortOf(rows: map<string, Limit>, v: Usage, node: string): set<nat>
  {
    if Exhausted(rows, v, node) && node in v.ports && v.ports[node] > 0 then {v.ports[node]} else {}
  }

  /** The ports of the exhausted ones among these nodes. */
  function ClosedFor(rows: map<string, Limit>, v: Usage, nodes: set<string>): set<nat>
  {
    set n, p | n in nodes && p in PortOf(rows, v, n) :: p
  }

  function Closed(rows: map<string, Limit>, v: Usage): set<nat> { ClosedFor(rows, v, rows.Keys) }

  /** The flags of these nodes, where usage is known, say whether the quota is used up. */
  function FlaggedFor(rows: map<string, Limit>, v: Usage, nodes: set<string>): map<string, Limit>
  {
    map n | n in rows :: if n in nodes && Measured(rows, v, n) then rows[n].(exceeded := Exhausted(rows, v, n)) else rows[n]
  }

  function Flagged(rows: map<string, Limit>, v: Usage): map<string, Limit> { FlaggedFor(rows, v, rows.Keys) }

  /** A new limit keeps the exceeded flag of an existing row. */
  function Limited(rows: map<string, Limit>, node: string, bytes: int): map<string, Limit>
  {
    rows[node := Limit(bytes, if node in rows then rows[node].exceeded else false)]
  }

  class QuotaEnforcer {
    var rows: map<string, Limit>
    var last: Option<set<nat>>
    var installed: set<nat>

    constructor (rows: map<string, Limit>, installed: set<nat>)
      ensures this.rows == rows && Stored() == Gate(None, installed)
    {
      this.rows, last, this.installed := rows, None, installed;
    }

    function Stored(): Gate<nat>
      reads this
    {
      Gate(last, installed)
    }

    method SetLimit(node: string, bytes: int)
      modifies this
      ensures rows == Limited(old(rows), node, bytes) && Stored() == old(Stored())
    {
      if node in rows {
        rows := rows[node := rows[node].(limitBytes := bytes)];
      } else {
        rows := rows[node := Limit(bytes, false)];
      }
    }

    method MarkExceeded(node: string, exceeded: bool)
      modifies this
      ensures rows == (if node in old(rows) then old(rows)[node := old(rows)[node].(exceeded := exceeded)] else old(rows))
      ensures Stored() == old(Stored())
    {
      if node in rows { rows := rows[node := rows[node].(exceeded := exceeded)]; }
    }

    /** One round; if the limits cannot be read nothing happens. */
    method Check(v: Usage, limitsRead: bool, works: bool) returns (ok: bool)
      modifies this
      ensures rows == if limitsRead then Flagged(old(rows), v) else old(rows)
      ensures Stored() == if limitsRead then Settle(old(Stored()), Closed(old(rows), v), works) else old(Stored())
      ensures ok <==> limitsRead && (works || old(last) == Some(Closed(old(rows), v)))
    {
      if !limitsRead { return false; }
      var limits, blocked: set<nat> := rows, {};
      var rest := limits.Keys;
      while rest != {}
        invariant rest <= limits.Keys && blocked == ClosedFor(limits, v, limits.Keys - rest)
        invariant rows == FlaggedFor(limits, v, limits.Keys - rest)
        invariant Stored() == old(Stored())
      {
        var node :| node in rest;
        ghost var before := limits.Keys - rest;
        assert limits.Keys - (rest - {node}) == before + {node};
        rest := rest - {node};
        FlagStep(limits, v, before, node);
        assert ClosedFor(limits, v, before + {node}) == ClosedFor(limits, v, before) + PortOf(limits, v, node);
        var l := limits[node];
        if l.limitBytes <= 0 || node !in v.used { continue; }
        if v.used[node] >= l.limitBytes {
          if node in v.ports && v.ports[node] > 0 { blocked := blocked + {v.ports[node]}; }
          if !l.exceeded { MarkExceeded(node, true); }
        } else if l.exceeded {
          MarkExceeded(node, false);
        }
      }
      assert limits.Keys - {} == limits.Keys;
      var same := false;
      if last.Some? { same := SameSet(last.value, blocked); }
      if !same {
        if !works { return false; }
        installed, last := blocked, Some(blocked);
      }
      return true;
    }
  }

  lemma FlagStep(rows: map<string, Limit>, v: Usage, before: set<string>, node: string)
    requires node in rows && node !in before
    ensures var a := FlaggedFor(rows, v, before);
      && node in a && a[node] == rows[node]
      && FlaggedFor(rows, v, before + {node}) ==
         if Measured(rows, v, node) then a[node := a[node].(exceeded := Exhausted(rows, v, node))] else a
  {
  }

  /**
    After a round, a port is in the decision exactly when some measured node that uses it has used up its
    quota, the flags of the measured nodes say so, and raising a quota above the usage opens the port again
    unless another exhausted node uses it.
   */
  lemma QuotaIsRight(rows: map<string, Limit>, v: Usage, node: string, bytes: int, port: nat)
    ensures forall p: nat :: p in Closed(rows, v) <==> exists n :: Closes(rows, v, n, p)
    ensures Measured(rows, v, node) ==> Flagged(rows, v)[node].exceeded == (v.used[node] >= rows[node].limitBytes)
    ensures node in v.used && bytes > v.used[node] ==>
      (port in Closed(Limited(rows, node, bytes), v) <==> exists n :: n != node && Closes(rows, v, n, port))
    ensures bytes <= 0 ==> (port in Closed(Limited(rows, node, bytes), v) <==>
        exists n :: n != node && Closes(rows, v, n, port))
  {
    ClosedIs(rows, v);
    ClosedIs(Limited(rows, node, bytes), v);
    var raised := Limited(rows, node, bytes);
    assert forall n :: n != node ==> (Closes(raised, v, n, port) <==> Closes(rows, v, n, port));
  }

  /**
    What the rows keep: a round changes flags only, and only of nodes with a quota whose usage is known; a new
    limit changes that one limit, and starts without a flag if there was no row.
   */
  lemma RowsKeep(rows: map<string, Limit>, v: Usage, node: string, bytes: int)
    ensures var after, limited := Flagged(rows, v), Limited(rows, node, bytes);
      && after.Keys == rows.Keys && limited.Keys == rows.Keys + {node} && limited[node].limitBytes == bytes
      && limited[node].exceeded == (node in rows && rows[node].exceeded)
      && forall n :: n in rows ==>
          && after[n].limitBytes == rows[n].limitBytes && (n != node ==> limited[n] == rows[n])
          && (rows[n].limitBytes <= 0 || n !in v.used ==> after[n] == rows[n])
  {
  }

  lemma ClosedIs(rows: map<string, Limit>, v: Usage)
    ensures forall p: nat :: p in Closed(rows, v) <==> exists n :: Closes(rows, v, n, p)
  {
    forall p: nat, n | Closes(rows, v, n, p) ensures p in Closed(rows, v)
    {
      assert p in PortOf(rows, v, n);
    }
    forall p: nat | p in Closed(rows, v) ensures exists n :: Closes(rows, v, n, p)
    {
      var n :| n in rows.Keys && p in PortOf(rows, v, n);
      assert Closes(rows, v, n, p);
    }
  }
}

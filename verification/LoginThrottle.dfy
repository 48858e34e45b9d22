/** The login throttle: a pruned list of recent failures per address, and a lock (internal/manager/api/hardening.go). */
module LoginThrottle {
  import opened Names

  /** Failure times per address, and the end of each lock; times in nanoseconds. */
  datatype Table = Table(fails: map<string, seq<int>>, locked: map<string, int>)

  const WINDOW := 600_000_000_000
  const MAX_FAILS := 5
  const LOCK_FOR := 600_000_000_000

  function FailsOf(t: Table, ip: string): seq<int> { if ip in t.fails then t.fails[ip] else [] }

  /** The times less than one window before now, in order. */
  function Within(times: seq<int>, now: int): seq<int>
  {
    if times == [] then []
    else (if now - times[0] < WINDOW then [times[0]] else []) + Within(times[1..], now)
  }

  function Cleared(t: Table, ip: string): Table { Table(t.fails - {ip}, t.locked - {ip}) }

  predicate IsLocked(t: Table, ip: string, now: int) { ip in t.locked && now < t.locked[ip] }

  /** A lock seen to have ended is forgotten together with the failures. */
  function Looked(t: Table, ip: string, now: int): Table
  {
    if ip in t.locked && now >= t.locked[ip] then Cleared(t, ip) else t
  }

  /** A failure counted against these earlier ones. */
  function Counted(t: Table, ip: string, earlier: seq<int>, kept: seq<int>, now: int): Table
  {
    if |earlier| + 1 >= MAX_FAILS then Table(t.fails - {ip}, t.locked[ip := now + LOCK_FOR])
    else t.(fails := t.fails[ip := kept + [now]])
  }

  /** What Fail does: only the failures of the last window are kept and counted. */
  function Failed(t: Table, ip: string, now: int): Table
  {
    Counted(t, ip, Within(FailsOf(t, ip), now), Within(FailsOf(t, ip), now), now)
  }

  lemma {:induction false} WithinConcat(a: seq<int>, b: seq<int>, now: int)
    ensures Within(a + b, now) == Within(a, now) + Within(b, now)
    decreases |a|
  {
    if a == [] {
      assert a + b == b;
    } else {
      assert (a + b)[1..] == a[1..] + b;
      WithinConcat(a[1..], b, now);
    }
  }

  class Throttle {
    var fails: map<string, seq<int>>
    var locked: map<string, int>

    constructor ()
      ensures Stored() == Table(map[], map[])
    {
      fails, locked := map[], map[];
    }

    function Stored(): Table
      reads this
    {
      Table(fails, locked)
    }

    method Locked(ip: string, now: int) returns (r: bool)
      modifies this
      ensures r <==> IsLocked(old(Stored()), ip, now)
      ensures Stored() == Looked(old(Stored()), ip, now)
    {
      if ip in locked {
        if now < locked[ip] { return true; }
        locked := locked - {ip};
        fails := fails - {ip};
      }
      return false;
    }

    method Fail(ip: string, now: int)
      modifies this
      ensures Stored() == Failed(old(Stored()), ip, now)
    {
      var times := if ip in fails then fails[ip] else [];
      var keep: seq<int> := [];
      for i := 0 to |times|
        invariant keep == Within(times[..i], now)
        invariant Stored() == old(Stored())
      {
        assert times[..i + 1] == times[..i] + [times[i]];
        WithinConcat(times[..i], [times[i]], now);
        assert [times[i]][1..] == [];
        if now - times[i] < WINDOW { keep := keep + [times[i]]; }
      }
      assert times[..|times|] == times;
      keep := keep + [now];
      fails := fails[ip := keep];
      if |keep| >= MAX_FAILS {
        locked := locked[ip := now + LOCK_FOR];
        fails := fails - {ip};
        assert old(fails)[ip := keep] - {ip} == old(fails) - {ip};
      }
    }

    method Reset(ip: string)
      modifies this
      ensures Stored() == Cleared(old(Stored()), ip)
    {
      fails := fails - {ip};
      locked := locked - {ip};
    }
  }

  // ----- the same throttle with its whole history -----

  datatype Event = Look(ip: string, now: int) | Fail(ip: string, now: int) | Reset(ip: string, now: int)

  function Step(t: Table, e: Event): Table
  {
    match e
    case Look(ip, now) => Looked(t, ip, now)
    case Fail(ip, now) => Failed(t, ip, now)
    case Reset(ip, _) => Cleared(t, ip)
  }

  /** The reference: nothing is ever pruned, every failure since the last clearing is remembered. */
  function FullStep(t: Table, e: Event): Table
  {
    match e
    case Fail(ip, now) => Counted(t, ip, Within(FailsOf(t, ip), now), FailsOf(t, ip), now)
    case _ => Step(t, e)
  }

  function Run(t: Table, events: seq<Event>): Table
    decreases |events|
  {
    if events == [] then t else Run(Step(t, events[0]), events[1..])
  }

  function FullRun(t: Table, events: seq<Event>): Table
    decreases |events|
  {
    if events == [] then t else FullRun(FullStep(t, events[0]), events[1..])
  }

  /** The clock does not run backwards. */
  predicate Monotone(events: seq<Event>, from: int)
    decreases |events|
  {
    events == [] || (from <= events[0].now && Monotone(events[1..], events[0].now))
  }

  /** From time `now` on, both tables hold the same recent failures, and the pruned one fewer than MAX_FAILS. */
  ghost predicate Refines(t: Table, full: Table, now: int)
  {
    && t.locked == full.locked
    && (forall ip :: ip in t.fails <==> ip in full.fails)
    && (forall ip, later :: later >= now ==> Within(FailsOf(t, ip), later) == Within(FailsOf(full, ip), later))
    && (forall ip :: |FailsOf(t, ip)| < MAX_FAILS)
  }

  /** Pruning at one time loses nothing that counts at a later one. */
  lemma {:induction false} PruningIsSafe(times: seq<int>, now: int, later: int)
    requires now <= later
    ensures Within(Within(times, now), later) == Within(times, later)
    decreases |times|
  {
    if times != [] {
      PruningIsSafe(times[1..], now, later);
      if now - times[0] < WINDOW {
        assert ([times[0]] + Within(times[1..], now))[1..] == Within(times[1..], now);
      } else {
        assert Within(times, now) == Within(times[1..], now);
        assert Within(times, later) == Within(times[1..], later);
      }
    }
  }

  lemma FailRefines(t: Table, full: Table, ip: string, now: int)
    requires Refines(t, full, now)
    ensures Refines(Failed(t, ip, now), FullStep(full, Fail(ip, now)), now)
  {
    hide Within;
    var t', full' := Failed(t, ip, now), FullStep(full, Fail(ip, now));
    var times, all := FailsOf(t, ip), FailsOf(full, ip);
    assert Within(times, now) == Within(all, now);
    forall other, later | later >= now
      ensures Within(FailsOf(t', other), later) == Within(FailsOf(full', other), later)
    {
      assert Within(FailsOf(t, other), later) == Within(FailsOf(full, other), later);
      if other == ip {
        PruningIsSafe(times, now, later);
        WithinConcat(Within(times, now), [now], later);
        WithinConcat(all, [now], later);
      }
    }
    forall other ensures |FailsOf(t', other)| < MAX_FAILS
    {
      assert |FailsOf(t, other)| < MAX_FAILS;
    }
  }

  lemma ClearRefines(t: Table, full: Table, ip: string, now: int)
    requires Refines(t, full, now)
    ensures Refines(Cleared(t, ip), Cleared(full, ip), now)
  {
    hide Within;
    forall other, later | later >= now
      ensures Within(FailsOf(Cleared(t, ip), other), later) == Within(FailsOf(Cleared(full, ip), other), later)
      ensures |FailsOf(Cleared(t, ip), other)| < MAX_FAILS
    {
      assert Within(FailsOf(t, other), later) == Within(FailsOf(full, other), later);
      assert |FailsOf(t, other)| < MAX_FAILS;
    }
    forall other ensures |FailsOf(Cleared(t, ip), other)| < MAX_FAILS
    {
      assert |FailsOf(t, other)| < MAX_FAILS;
    }
  }

  lemma StepRefines(t: Table, full: Table, e: Event)
    requires Refines(t, full, e.now)
    ensures Refines(Step(t, e), FullStep(full, e), e.now)
  {
    hide Refines;
    match e {
      case Fail(ip, now) => FailRefines(t, full, ip, now);
      case Look(ip, now) => ClearRefines(t, full, ip, now); SameLocks(t, full, now);
      case Reset(ip, now) => ClearRefines(t, full, ip, now);
    }
  }

  lemma SameLocks(t: Table, full: Table, now: int)
    requires Refines(t, full, now)
    ensures t.locked == full.locked
  {
  }

  /**
    Over every sequence of looks, failures and resets under a clock that does not run backwards, the pruned
    table locks exactly when the full history does, with the same ends, and never holds MAX_FAILS failures.
   */
  lemma {:induction false} PrunedRefinesFull(t: Table, full: Table, events: seq<Event>, from: int)
    requires Refines(t, full, from) && Monotone(events, from)
    ensures Refines(Run(t, events), FullRun(full, events), LastTime(events, from))
    decreases |events|
  {
    if events != [] {
      var e := events[0];
      LaterRefines(t, full, from, e.now);
      StepRefines(t, full, e);
      hide Refines, Step, FullStep;
      PrunedRefinesFull(Step(t, e), FullStep(full, e), events[1..], e.now);
    }
  }

  lemma LaterRefines(t: Table, full: Table, from: int, now: int)
    requires Refines(t, full, from) && from <= now
    ensures Refines(t, full, now)
  {
  }

  lemma EmptyRefines(from: int)
    ensures Refines(Table(map[], map[]), Table(map[], map[]), from)
  {
  }

  /**
    A failure locks an address exactly when it is at least the MAX_FAILS-th within the window since the
    last clearing.
   */
  lemma LocksExactlyAtTheLimit(events: seq<Event>, from: int, ip: string, now: int)
    requires Monotone(events + [Fail(ip, now)], from)
    ensures var before := FullRun(Table(map[], map[]), events);
            var after := Failed(Run(Table(map[], map[]), events), ip, now);
            (ip in after.locked && ip !in after.fails && after.locked[ip] == now + LOCK_FOR) <==>
            |Within(FailsOf(before, ip), now)| + 1 >= MAX_FAILS
  {
    var empty := Table(map[], map[]);
    MonotonePrefix(events, Fail(ip, now), from);
    EmptyRefines(from);
    PrunedRefinesFull(empty, empty, events, from);
    LaterRefines(Run(empty, events), FullRun(empty, events), LastTime(events, from), now);
    hide Run, FullRun, Within;
    assert Within(FailsOf(Run(empty, events), ip), now) == Within(FailsOf(FullRun(empty, events), ip), now);
  }

  function LastTime(events: seq<Event>, from: int): int
    decreases |events|
  {
    if events == [] then from else LastTime(events[1..], events[0].now)
  }

  lemma {:induction false} MonotonePrefix(events: seq<Event>, last: Event, from: int)
    requires Monotone(events + [last], from)
    ensures Monotone(events, from) && LastTime(events, from) <= last.now
    decreases |events|
  {
    if events == [] {
      assert events + [last] == [last];
    } else {
      assert (events + [last])[1..] == events[1..] + [last];
      MonotonePrefix(events[1..], last, events[0].now);
    }
  }

  /** What happens to one address leaves every other address alone. */
  lemma OthersUnaffected(t: Table, e: Event, other: string, now: int)
    requires other != e.ip
    ensures FailsOf(Step(t, e), other) == FailsOf(t, other)
    ensures IsLocked(Step(t, e), other, now) <==> IsLocked(t, other, now)
  {
  }

  // ----- the answers, told from the history alone -----

  /**
    The failures of an address before the k-th event that lie less than ten minutes before `now`, counted
    back to the last event that cleared it.
   */
  function Recent(events: seq<Event>, k: nat, ip: string, now: int): nat
    requires k <= |events|
    decreases k, 0
  {
    if k == 0 || Clears(events, k - 1, ip) then 0
    else
      Recent(events, k - 1, ip, now) +
      if events[k - 1].Fail? && events[k - 1].ip == ip && now - events[k - 1].now < 600_000_000_000 then 1 else 0
  }

  /** The k-th event is the fifth failure of the address within ten minutes since it was last cleared. */
  predicate Fifth(events: seq<Event>, k: nat, ip: string)
    requires k < |events|
    decreases k, 1
  {
    events[k].Fail? && events[k].ip == ip && Recent(events, k, ip, events[k].now) >= 4
  }

  /** A fifth failure, a login, and the first look ten minutes or more after a fifth failure clear the address. */
  predicate Clears(events: seq<Event>, k: nat, ip: string)
    requires k < |events|
    decreases k, 3
  {
    events[k].ip == ip &&
    match events[k]
    case Fail(_, _) => Fifth(events, k, ip)
    case Reset(_, _) => true
    case Look(_, now) => LastFifth(events, k, ip).Some? && now - LastFifth(events, k, ip).value >= 600_000_000_000
  }

  /** The time of the last fifth failure, as long as neither a login nor such a look has cleared it. */
  function LastFifth(events: seq<Event>, k: nat, ip: string): Option<int>
    requires k <= |events|
    decreases k, 2
  {
    if k == 0 then None
    else if Fifth(events, k - 1, ip) then Some(events[k - 1].now)
    else if Clears(events, k - 1, ip) then None
    else LastFifth(events, k - 1, ip)
  }

  lemma {:induction false} FullRunLast(t: Table, events: seq<Event>)
    requires events != []
    ensures FullRun(t, events) == FullStep(FullRun(t, events[..|events| - 1]), events[|events| - 1])
    decreases |events|
  {
    hide FullStep;
    var n := |events| - 1;
    if n > 0 {
      FullRunLast(FullStep(t, events[0]), events[1..]);
      assert events[1..][..n - 1] == events[..n][1..];
    } else {
      assert events[..0] == [] && events[1..] == [];
    }
  }

  const NOTHING := Table(map[], map[])

  /** What one event does to the full table's failures and lock of an address. */
  lemma FullStepTells(full: Table, e: Event, ip: string, now: int)
    ensures var after := FullStep(full, e);
            var fifth := e == Fail(ip, e.now) && |Within(FailsOf(full, ip), e.now)| >= 4;
            var cleared := fifth || e == Reset(ip, e.now) ||
                           (e == Look(ip, e.now) && ip in full.locked && e.now >= full.locked[ip]);
      && |Within(FailsOf(after, ip), now)| ==
         (if cleared then 0
          else |Within(FailsOf(full, ip), now)| + if e == Fail(ip, e.now) && now - e.now < 600_000_000_000 then 1 else 0)
      && (ip in after.locked <==> fifth || (!cleared && ip in full.locked))
      && (ip in after.locked ==> after.locked[ip] == if fifth then e.now + 600_000_000_000 else full.locked[ip])
  {
    WithinConcat(FailsOf(full, ip), [e.now], now);
    assert Within([e.now], now) == if now - e.now < WINDOW then [e.now] else [] by { assert [e.now][1..] == []; }
    assert Within([], now) == [];
    hide Within;
  }

  lemma HistoryStep(events: seq<Event>, k: nat, ip: string, now: int)
    requires 0 < k <= |events|
    ensures var e := events[k - 1];
            var fifth, last := Fifth(events, k - 1, ip), LastFifth(events, k - 1, ip);
            var cleared := fifth || e == Reset(ip, e.now) ||
                           (e == Look(ip, e.now) && last.Some? && e.now >= last.value + 600_000_000_000);
      && (fifth <==> e == Fail(ip, e.now) && Recent(events, k - 1, ip, e.now) >= 4)
      && Recent(events, k, ip, now) ==
         (if cleared then 0
          else Recent(events, k - 1, ip, now) + if e == Fail(ip, e.now) && now - e.now < 600_000_000_000 then 1 else 0)
      && LastFifth(events, k, ip) == if fifth then Some(e.now) else if cleared then None else last
  {
  }

  /** The full table after the first k events holds just what the history says. */
  lemma {:induction false} HistoryTells(events: seq<Event>, k: nat, ip: string, now: int)
    requires k <= |events|
    ensures var full := FullRun(NOTHING, events[..k]);
      && |Within(FailsOf(full, ip), now)| == Recent(events, k, ip, now)
      && (ip in full.locked <==> LastFifth(events, k, ip).Some?)
      && (ip in full.locked ==> full.locked[ip] == LastFifth(events, k, ip).value + 600_000_000_000)
    decreases k
  {
    if k == 0 {
      assert events[..0] == [];
    } else {
      var e := events[k - 1];
      HistoryTells(events, k - 1, ip, now);
      HistoryTells(events, k - 1, ip, e.now);
      FullRunLast(NOTHING, events[..k]);
      assert events[..k][..k - 1] == events[..k - 1];
      hide FullRun, FullStep, Within, FailsOf, Recent, Fifth, Clears, LastFifth;
      FullStepTells(FullRun(NOTHING, events[..k - 1]), e, ip, now);
      HistoryStep(events, k, ip, now);
    }
  }

  /**
    Whatever has happened before, an address is answered to be locked exactly if one of its failures was the
    fifth within ten minutes since it was last cleared, no login of it has followed, and ten minutes have not
    passed since that failure.
   */
  lemma LockedIsExact(events: seq<Event>, from: int, ip: string, now: int)
    requires Monotone(events + [Look(ip, now)], from)
    ensures IsLocked(Run(NOTHING, events), ip, now) <==>
            exists i :: (0 <= i < |events| && Fifth(events, i, ip) && now < events[i].now + 600_000_000_000 &&
                         forall j :: i < j < |events| ==> !(events[j].Reset? && events[j].ip == ip))
  {
    MonotonePrefix(events, Look(ip, now), from);
    EmptyRefines(from);
    PrunedRefinesFull(NOTHING, NOTHING, events, from);
    SameLocks(Run(NOTHING, events), FullRun(NOTHING, events), LastTime(events, from));
    HistoryTells(events, |events|, ip, now);
    assert events[..|events|] == events;
    hide Run, FullRun, Refines;
    MonotoneTimes(events + [Look(ip, now)], from);
    assert forall i :: 0 <= i < |events| ==> (events + [Look(ip, now)])[i] == events[i];
    assert (events + [Look(ip, now)])[|events|] == Look(ip, now);
    FifthOrNone(events, |events|, ip, now);
  }

  lemma {:induction false} MonotoneTimes(events: seq<Event>, from: int)
    requires Monotone(events, from)
    ensures forall i, j :: 0 <= i <= j < |events| ==> from <= events[i].now <= events[j].now
    decreases |events|
  {
    if events != [] {
      MonotoneTimes(events[1..], events[0].now);
      assert forall i :: 0 < i < |events| ==> events[1..][i - 1] == events[i];
    }
  }

  lemma {:induction false} FifthOrNone(events: seq<Event>, k: nat, ip: string, now: int)
    requires k <= |events| && forall i :: 0 <= i < k ==> events[i].now <= now
    requires forall i, j :: 0 <= i <= j < k ==> events[i].now <= events[j].now
    ensures LastFifth(events, k, ip).Some? && now < LastFifth(events, k, ip).value + 600_000_000_000 <==>
            exists i :: (0 <= i < k && Fifth(events, i, ip) && now < events[i].now + 600_000_000_000 &&
                         forall j :: i < j < k ==> !(events[j].Reset? && events[j].ip == ip))
    ensures LastFifth(events, k, ip).Some? ==> exists i :: 0 <= i < k && events[i].now == LastFifth(events, k, ip).value
    decreases k
  {
    if k > 0 {
      FifthOrNone(events, k - 1, ip, now);
      hide Fifth;
    }
  }
}

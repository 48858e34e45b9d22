/**
  The traffic collector: a tick turns one reading of the kernel counters into deltas against the
  stored baselines and books them atomically (internal/traffic/collector.go).
 */
module Collector {
  import opened Names
  import opened Sums

  datatype Count = Count(bytes: nat, pkts: nat)

  const NO_COUNT := Count(0, 0)

  function AddCount(a: Count, b: Count): Count { Count(a.bytes + b.bytes, a.pkts + b.pkts) }

  type Snapshot = map<string, Count>

  datatype Baseline = Baseline(bytes: nat, pkts: nat, updatedMs: int)

  /** A row of totals or daily. */
  datatype Totals = Totals(rx: nat, tx: nat, rxPkts: nat, txPkts: nat)

  datatype Sample = Sample(rx: nat, tx: nat, durationMs: int)

  /** The agent's traffic tables; epoch is the row 'epoch' of meta, and the two-column keys are nested maps. */
  datatype Tables = Tables(
    counterState: map<string, Baseline>,
    epoch: Option<nat>,
    totals: map<Scope, Totals>,
    daily: map<string, map<Scope, Totals>>,
    samples: map<int, map<Scope, Sample>>)

  /** One scope's delta while a tick is running. */
  datatype Slot = Slot(rx: nat, tx: nat, rxPkts: nat, txPkts: nat, durationMs: int, valid: bool, seenRx: bool, seenTx: bool)
  {
    predicate AnyTraffic() { rx != 0 || tx != 0 || rxPkts != 0 || txPkts != 0 }

    function Booked(): Totals { Totals(rx, tx, rxPkts, txPkts) }
  }

  const NEW_SLOT := Slot(0, 0, 0, 0, 0, true, false, false)

  /** Everything a tick's differencing depends on. */
  datatype Round = Round(snap: Snapshot, state: map<string, Baseline>, tsMs: int, minMs: int, maxMs: int)

  /** What one counter contributes. */
  datatype Contribution = Contribution(bytes: nat, pkts: nat, durationMs: int, valid: bool)

  function Contribute(r: Round, name: string): Contribution
    requires name in r.snap
  {
    var v := r.snap[name];
    if name !in r.state then Contribution(v.bytes, v.pkts, 0, false)
    else
      var prev := r.state[name];
      var duration := Max(0, r.tsMs - prev.updatedMs);
      if v.bytes < prev.bytes then Contribution(v.bytes, v.pkts, duration, false)
      else Contribution(v.bytes - prev.bytes, Max(0, v.pkts - prev.pkts), duration, r.minMs <= duration <= r.maxMs)
  }

  function Accumulate(s: Slot, dir: Dir, c: Contribution): Slot
  {
    var t := if dir == Rx then s.(rx := s.rx + c.bytes, rxPkts := s.rxPkts + c.pkts, seenRx := true)
             else s.(tx := s.tx + c.bytes, txPkts := s.txPkts + c.pkts, seenTx := true);
    t.(durationMs := Max(s.durationMs, c.durationMs), valid := s.valid && c.valid)
  }

  // ----- the declarative meaning of a tick's deltas -----

  predicate Charged(name: string, scope: string, dir: Dir)
  {
    ParseCounterName(name).Some? && ParseCounterName(name).value.0 == scope && ParseCounterName(name).value.1 == dir
  }

  predicate InScope(name: string, scope: string) { Charged(name, scope, Rx) || Charged(name, scope, Tx) }

  ghost function BytesIn(r: Round, scope: string, dir: Dir): string -> int
  {
    n => if n in r.snap && Charged(n, scope, dir) then Contribute(r, n).bytes else 0
  }

  ghost function PktsIn(r: Round, scope: string, dir: Dir): string -> int
  {
    n => if n in r.snap && Charged(n, scope, dir) then Contribute(r, n).pkts else 0
  }

  ghost function DurationIn(r: Round, scope: string): string -> int
  {
    n => if n in r.snap && InScope(n, scope) then Contribute(r, n).durationMs else 0
  }

  lemma SumNat(s: set<string>, f: string -> int)
    requires forall n :: f(n) >= 0
    ensures SumSet(s, f) >= 0
  {
    SumMono(s, n => 0, f);
    SumZero(s);
  }

  lemma SumZero(s: set<string>)
    ensures SumSet(s, (n: string) => 0) == 0
  {
    SumSupport({}, s, (n: string) => 0);
  }

  ghost function Column(names: set<string>, f: string -> int): (r: nat)
    requires forall n :: f(n) >= 0
  {
    SumNat(names, f);
    SumSet(names, f)
  }

  /** Sums, maximum, conjunction and presence over the given counters of one scope; no order is involved. */
  ghost function SlotOf(r: Round, names: set<string>, scope: string): Slot
  {
    Slot(
      Column(names, BytesIn(r, scope, Rx)),
      Column(names, BytesIn(r, scope, Tx)),
      Column(names, PktsIn(r, scope, Rx)),
      Column(names, PktsIn(r, scope, Tx)),
      MaxSet(names, DurationIn(r, scope)),
      forall n :: n in names && n in r.snap && InScope(n, scope) ==> Contribute(r, n).valid,
      exists n :: n in names && Charged(n, scope, Rx),
      exists n :: n in names && Charged(n, scope, Tx))
  }

  ghost function ScopesOf(names: set<string>): set<Scope>
  {
    set n | n in names && ParseCounterName(n).Some? :: ParseCounterName(n).value.0
  }

  ghost function SlotsOf(r: Round, names: set<string>): map<Scope, Slot>
  {
    map s | s in ScopesOf(names) :: SlotOf(r, names, s)
  }

  lemma SumsStep(r: Round, names: set<string>, name: string, scope: string, d: Dir)
    requires name in r.snap && name !in names
    ensures Column(names + {name}, BytesIn(r, scope, d)) ==
            Column(names, BytesIn(r, scope, d)) + (if Charged(name, scope, d) then Contribute(r, name).bytes else 0)
    ensures Column(names + {name}, PktsIn(r, scope, d)) ==
            Column(names, PktsIn(r, scope, d)) + (if Charged(name, scope, d) then Contribute(r, name).pkts else 0)
  {
    SumInsert(names, name, BytesIn(r, scope, d));
    SumInsert(names, name, PktsIn(r, scope, d));
  }

  lemma DurationStep(r: Round, names: set<string>, name: string, scope: string)
    requires name in r.snap && name !in names
    ensures MaxSet(names + {name}, DurationIn(r, scope)) ==
            if InScope(name, scope) then Max(MaxSet(names, DurationIn(r, scope)), Contribute(r, name).durationMs)
            else MaxSet(names, DurationIn(r, scope))
  {
    MaxInsert(names, name, DurationIn(r, scope));
    MaxNonNegative(names, DurationIn(r, scope));
  }

  /** Reading one more counter changes its own scope's slot as Accumulate says, and no other slot. */
  lemma SlotStep(r: Round, names: set<string>, name: string, scope: string, dir: Dir)
    requires name in r.snap && name !in names && names <= r.snap.Keys
    ensures Charged(name, scope, dir) ==>
            SlotOf(r, names + {name}, scope) == Accumulate(SlotOf(r, names, scope), dir, Contribute(r, name))
    ensures !InScope(name, scope) ==> SlotOf(r, names + {name}, scope) == SlotOf(r, names, scope)
  {
    hide ParseCounterName, Contribute, Column, BytesIn, PktsIn, DurationIn;
    SumsStep(r, names, name, scope, Rx);
    SumsStep(r, names, name, scope, Tx);
    DurationStep(r, names, name, scope);
    FlagsStep(r, names, name, scope);
  }

  lemma FlagsStep(r: Round, names: set<string>, name: string, scope: string)
    requires name in r.snap && names <= r.snap.Keys
    ensures SlotOf(r, names + {name}, scope).valid ==
            (SlotOf(r, names, scope).valid && (InScope(name, scope) ==> Contribute(r, name).valid))
    ensures SlotOf(r, names + {name}, scope).seenRx == (SlotOf(r, names, scope).seenRx || Charged(name, scope, Rx))
    ensures SlotOf(r, names + {name}, scope).seenTx == (SlotOf(r, names, scope).seenTx || Charged(name, scope, Tx))
  {
  }

  lemma {:induction false} MaxNonNegative(s: set<string>, f: string -> int)
    ensures MaxSet(s, f) >= 0
    decreases s
  {
    if s != {} {
      var x :| x in s && MaxSet(s, f) == Max(f(x), MaxSet(s - {x}, f));
      MaxNonNegative(s - {x}, f);
      var fx, rest := f(x), MaxSet(s - {x}, f);
      assert Max(fx, rest) >= rest;
    }
  }

  lemma NoSlots(r: Round)
    ensures SlotsOf(r, {}) == map[]
  {
  }

  /** A scope none of whose counters has been read yet has the empty slot. */
  lemma EmptySlot(r: Round, names: set<string>, scope: Scope)
    requires names <= r.snap.Keys && scope !in ScopesOf(names)
    ensures SlotOf(r, names, scope) == NEW_SLOT
  {
    assert forall n :: n in names ==> !InScope(n, scope);
    SumSupport({}, names, BytesIn(r, scope, Rx));
    SumSupport({}, names, BytesIn(r, scope, Tx));
    SumSupport({}, names, PktsIn(r, scope, Rx));
    SumSupport({}, names, PktsIn(r, scope, Tx));
    MaxZero(names, DurationIn(r, scope));
  }

  lemma {:induction false} MaxZero(s: set<string>, f: string -> int)
    requires forall n :: n in s ==> f(n) == 0
    ensures MaxSet(s, f) == 0
    decreases s
  {
    if s != {} {
      var x :| x in s && MaxSet(s, f) == Max(f(x), MaxSet(s - {x}, f));
      MaxZero(s - {x}, f);
      var fx, rest := f(x), MaxSet(s - {x}, f);
      assert Max(fx, rest) == 0;
    }
  }

  // ----- booking -----

  const ZERO_TOTALS := Totals(0, 0, 0, 0)

  function Plus(a: Totals, b: Totals): Totals
  {
    Totals(a.rx + b.rx, a.tx + b.tx, a.rxPkts + b.rxPkts, a.txPkts + b.txPkts)
  }

  function Get(m: map<Scope, Totals>, s: Scope): Totals { if s in m then m[s] else ZERO_TOTALS }

  function Moved(deltas: map<Scope, Slot>): set<Scope>
  {
    set s | s in deltas && deltas[s].AnyTraffic()
  }

  function BookTotals(totals: map<Scope, Totals>, deltas: map<Scope, Slot>): map<Scope, Totals>
  {
    map s | s in totals.Keys + Moved(deltas) ::
      if s in Moved(deltas) then Plus(Get(totals, s), deltas[s].Booked()) else totals[s]
  }

  function Row<K, V>(table: map<K, map<Scope, V>>, k: K): map<Scope, V> { if k in table then table[k] else map[] }

  function BookDaily(daily: map<string, map<Scope, Totals>>, day: string, deltas: map<Scope, Slot>): map<string, map<Scope, Totals>>
  {
    if Moved(deltas) == {} then daily else daily[day := BookTotals(Row(daily, day), deltas)]
  }

  /** Both directions seen, every contribution trusted and a positive duration: only then a rate sample is written. */
  predicate Sampled(s: Slot) { s.valid && s.seenRx && s.seenTx && s.durationMs > 0 }

  function MergeSample(row: map<Scope, Sample>, scope: Scope, s: Slot): Sample
  {
    if scope in row then Sample(row[scope].rx + s.rx, row[scope].tx + s.tx, Max(row[scope].durationMs, s.durationMs))
    else Sample(s.rx, s.tx, s.durationMs)
  }

  function Rated(deltas: map<Scope, Slot>): set<Scope>
  {
    set s | s in deltas && Sampled(deltas[s])
  }

  function MergeRow(row: map<Scope, Sample>, deltas: map<Scope, Slot>): map<Scope, Sample>
  {
    map s | s in row.Keys + Rated(deltas) :: if s in Rated(deltas) then MergeSample(row, s, deltas[s]) else row[s]
  }

  function BookSamples(samples: map<int, map<Scope, Sample>>, ts: int, deltas: map<Scope, Slot>): map<int, map<Scope, Sample>>
  {
    if Rated(deltas) == {} then samples else samples[ts := MergeRow(Row(samples, ts), deltas)]
  }

  const SAMPLE_KEEP_SECONDS := 120

  function Prune(samples: map<int, map<Scope, Sample>>, ts: int): map<int, map<Scope, Sample>>
  {
    map t | t in samples && t >= ts - SAMPLE_KEEP_SECONDS :: samples[t]
  }

  function Rebase(snap: Snapshot, tsMs: int): map<string, Baseline>
  {
    map n | n in snap :: Baseline(snap[n].bytes, snap[n].pkts, tsMs)
  }

  /** The one transaction that ends an accepted tick. */
  function Commit(t: Tables, deltas: map<Scope, Slot>, snap: Snapshot, ts: int, tsMs: int, day: string, e: Option<nat>): Tables
  {
    Tables(Rebase(snap, tsMs), if e.Some? then e else t.epoch,
           BookTotals(t.totals, deltas), BookDaily(t.daily, day, deltas), Prune(BookSamples(t.samples, ts, deltas), ts))
  }

  // ----- one tick -----

  /** Rows written by older versions hold seconds; loading turns them into milliseconds. */
  function LoadState(rows: map<string, Baseline>): map<string, Baseline>
  {
    map n | n in rows ::
      if 0 < rows[n].updatedMs < 1_000_000_000_000 then rows[n].(updatedMs := rows[n].updatedMs * 1000) else rows[n]
  }

  /** The first epoch tag met while ranging over the names in this order. */
  function FirstEpoch(order: seq<string>): Option<nat>
  {
    if order == [] then None
    else if ParseEpochName(order[0]).Some? then ParseEpochName(order[0])
    else FirstEpoch(order[1..])
  }

  /** In any reading the collector takes the first epoch tag it meets, and none only if there is none. */
  lemma {:induction false} FirstEpochIsTheFirst(order: seq<string>)
    ensures FirstEpoch(order) == None <==> forall n :: n in order ==> ParseEpochName(n) == None
    ensures FirstEpoch(order).Some? ==> exists i :: 0 <= i < |order| && ParseEpochName(order[i]) == FirstEpoch(order)
                                          && forall j :: 0 <= j < i ==> ParseEpochName(order[j]) == None
    decreases |order|
  {
    hide ParseEpochName;
    if order != [] {
      FirstEpochIsTheFirst(order[1..]);
      assert forall n :: n in order <==> n == order[0] || n in order[1..];
      if ParseEpochName(order[0]) == None && FirstEpoch(order).Some? {
        var i :| 0 <= i < |order[1..]| && ParseEpochName(order[1..][i]) == FirstEpoch(order[1..])
                 && forall j :: 0 <= j < i ==> ParseEpochName(order[1..][j]) == None;
        assert order[i + 1] == order[1..][i];
        forall j | 0 <= j < i + 1 ensures ParseEpochName(order[j]) == None { assert j > 0 ==> order[j] == order[1..][j - 1]; }
      }
    }
  }

  predicate FreshRuleset(t: Tables, e: Option<nat>) { e.Some? && t.epoch.Some? && e != t.epoch }

  /** A snapshot of the known ruleset must still hold every counter that has a baseline. */
  predicate Accepts(t: Tables, snap: Snapshot, e: Option<nat>)
  {
    FreshRuleset(t, e) || t.counterState.Keys <= snap.Keys
  }

  function RoundOf(t: Tables, snap: Snapshot, e: Option<nat>, tsMs: int, interval: int): Round
  {
    var expected := Max(1, interval) * 1000;
    Round(snap, if FreshRuleset(t, e) then map[] else LoadState(t.counterState), tsMs, Max(200, expected / 4), expected * 3 + 500)
  }

  function SampleTs(tsMs: int, lastSampleTs: int): int
  {
    var wall := tsMs / 1000;
    if lastSampleTs != 0 && wall < lastSampleTs + 1 then lastSampleTs + 1 else wall
  }

  /** The tables after a tick; a failed reading, a rejected snapshot or a failed transaction changes nothing. */
  ghost function Ticked(t: Tables, reading: Option<Snapshot>, e: Option<nat>, tsMs: int, lastSampleTs: int, day: string,
                        interval: int, commits: bool): Tables
  {
    if reading.None? || !Accepts(t, reading.value, e) || !commits then t
    else
      var snap := reading.value;
      Commit(t, SlotsOf(RoundOf(t, snap, e, tsMs, interval), snap.Keys), snap, SampleTs(tsMs, lastSampleTs), tsMs, day, e)
  }

  /** The tables as a tick sees them: an epoch that cannot be read counts as none. */
  function SeenTables(t: Tables, metaRead: bool): Tables { if metaRead then t else t.(epoch := None) }

  /**
    The same when the recorded epoch or the baselines may not be readable; the baselines are needed
    unless the ruleset is fresh.
   */
  ghost function TickedWith(t: Tables, reading: Option<Snapshot>, e: Option<nat>, tsMs: int, lastSampleTs: int, day: string,
                            interval: int, metaRead: bool, stateRead: bool, commits: bool): Tables
  {
    var seen := SeenTables(t, metaRead);
    if !FreshRuleset(seen, e) && !stateRead then t
    else Ticked(seen, reading, e, tsMs, lastSampleTs, day, interval, commits).(
           epoch := if reading.Some? && Accepts(seen, reading.value, e) && commits && e.Some? then e else t.epoch)
  }

  lemma AllReadIsTicked(t: Tables, reading: Option<Snapshot>, e: Option<nat>, tsMs: int, lastSampleTs: int, day: string,
                        interval: int, commits: bool)
    ensures TickedWith(t, reading, e, tsMs, lastSampleTs, day, interval, true, true, commits) ==
            Ticked(t, reading, e, tsMs, lastSampleTs, day, interval, commits)
  {
    hide SlotsOf, BookTotals, BookDaily, BookSamples, Prune, Rebase, Accepts, FreshRuleset, RoundOf;
  }

  /** An enumeration of the keys of a map, each once: what Go's range statement yields. */
  predicate Enumerates(order: seq<string>, names: set<string>)
  {
    (set n | n in order) == names && forall i, j :: 0 <= i < j < |order| ==> order[i] != order[j]
  }

  lemma RoundReads(t: Tables, snap: Snapshot, e: Option<nat>, tsMs: int, interval: int)
    ensures RoundOf(t, snap, e, tsMs, interval).snap == snap
  {
  }

  class Collector {
    var counterState: map<string, Baseline>
    var epoch: Option<nat>
    var totals: map<Scope, Totals>
    var daily: map<string, map<Scope, Totals>>
    var samples: map<int, map<Scope, Sample>>
    var lastSampleTs: int
    const interval: int

    constructor (interval: int)
      ensures this.interval == interval && lastSampleTs == 0
      ensures Stored() == Tables(map[], None, map[], map[], map[])
    {
      this.interval := interval;
      counterState, epoch, totals, daily, samples := map[], None, map[], map[], map[];
      lastSampleTs := 0;
    }

    function Stored(): Tables
      reads this
    {
      Tables(counterState, epoch, totals, daily, samples)
    }

    /** The differencing loop, in whatever order the map is ranged over. */
    static method Difference(r: Round, order: seq<string>) returns (deltas: map<Scope, Slot>)
      requires Enumerates(order, r.snap.Keys)
      ensures deltas == SlotsOf(r, r.snap.Keys)
    {
      hide SlotsOf, Accumulate, Contribute, ParseCounterName, IsScope;
      deltas := map[];
      ghost var seen: set<string> := {};
      NoSlots(r);
      for i := 0 to |order|
        invariant seen == set n | n in order[..i]
        invariant deltas == SlotsOf(r, seen)
      {
        var name := order[i];
        assert name in r.snap.Keys && name !in seen;
        assert seen <= r.snap.Keys;
        match ParseCounterName(name) {
          case None =>
          case Some((scope, dir)) =>
            var slot := if scope in deltas then deltas[scope] else NEW_SLOT;
            deltas := deltas[scope := Accumulate(slot, dir, Contribute(r, name))];
        }
        SlotsStep(r, seen, name);
        seen := seen + {name};
        assert order[..i + 1] == order[..i] + [name];
      }
      assert order[..|order|] == order;
    }

    /** One round: read, difference, book everything in one transaction. */
    method Tick(reading: Option<Snapshot>, tagOrder: seq<string>, order: seq<string>, tsMs: nat, day: string,
                metaRead: bool, stateRead: bool, commits: bool)
      returns (ok: bool)
      requires reading.Some? ==> Enumerates(tagOrder, reading.value.Keys) && Enumerates(order, reading.value.Keys)
      modifies this
      ensures Stored() == TickedWith(old(Stored()), reading, FirstEpoch(tagOrder), tsMs, old(lastSampleTs), day,
          interval,
                                     metaRead, stateRead, commits)
      ensures var seen := SeenTables(old(Stored()), metaRead);
              ok <==> reading.Some? && (FreshRuleset(seen, FirstEpoch(tagOrder)) || stateRead)
                      && Accepts(seen, reading.value, FirstEpoch(tagOrder)) && commits
      ensures lastSampleTs == if ok then SampleTs(tsMs, old(lastSampleTs)) else old(lastSampleTs)
    {
      hide BookTotals, BookDaily, BookSamples, Prune, Rebase, RoundOf, SlotsOf, SampleTs;
      if reading.None? { return false; }
      var snap, e := reading.value, FirstEpoch(tagOrder);
      var ts := SampleTs(tsMs, lastSampleTs);
      var seen := SeenTables(Stored(), metaRead);
      if !FreshRuleset(seen, e) && !stateRead { return false; }
      if !Accepts(seen, snap, e) { return false; }
      var r := RoundOf(seen, snap, e, tsMs, interval);
      assert r.snap == snap by { RoundReads(seen, snap, e, tsMs, interval); }
      var deltas := Difference(r, order);
      if !commits { return false; }
      CommitTick(deltas, snap, ts, tsMs, day, e);
      lastSampleTs := ts;
      return true;
    }

    /** The committed transaction, scope by scope. */
    method CommitTick(deltas: map<Scope, Slot>, snap: Snapshot, ts: int, tsMs: int, day: string, e: Option<nat>)
      modifies this
      ensures Stored() == Commit(old(Stored()), deltas, snap, ts, tsMs, day, e)
      ensures lastSampleTs == old(lastSampleTs)
    {
      hide Plus, MergeSample, BookTotals, BookDaily, BookSamples, Prune, Rebase;
      BookNothing(deltas, totals, daily, day, samples, ts);
      var todo := deltas.Keys;
      ghost var done: set<Scope> := {};
      while todo != {}
        invariant done + todo == deltas.Keys && done !! todo
        invariant totals == BookTotals(old(totals), Only(deltas, done))
        invariant daily == BookDaily(old(daily), day, Only(deltas, done))
        invariant samples == BookSamples(old(samples), ts, Only(deltas, done))
        invariant counterState == old(counterState) && epoch == old(epoch) && lastSampleTs == old(lastSampleTs)
      {
        var scope :| scope in todo;
        var d := deltas[scope];
        if d.AnyTraffic() {
          daily := daily[day := Row(daily, day)[scope := Plus(Get(Row(daily, day), scope), d.Booked())]];
          totals := totals[scope := Plus(Get(totals, scope), d.Booked())];
        }
        if Sampled(d) {
          samples := samples[ts := Row(samples, ts)[scope := MergeSample(Row(samples, ts), scope, d)]];
        }
        OnlyTotals(deltas, done, scope, old(totals));
        OnlyDaily(deltas, done, scope, old(daily), day);
        OnlySamples(deltas, done, scope, old(samples), ts);
        done, todo := done + {scope}, todo - {scope};
      }
      assert Only(deltas, done) == deltas;
      counterState := Rebase(snap, tsMs);
      if e.Some? { epoch := e; }
      samples := Prune(samples, ts);
    }
  }

  ghost function Only(deltas: map<Scope, Slot>, done: set<Scope>): map<Scope, Slot>
  {
    map s | s in deltas && s in done :: deltas[s]
  }

  lemma BookNothing(deltas: map<Scope, Slot>, totals: map<Scope, Totals>, daily: map<string, map<Scope, Totals>>,
      day: string,
                    samples: map<int, map<Scope, Sample>>, ts: int)
    ensures BookTotals(totals, Only(deltas, {})) == totals
    ensures BookDaily(daily, day, Only(deltas, {})) == daily
    ensures BookSamples(samples, ts, Only(deltas, {})) == samples
  {
  }

  lemma OnlyTotals(deltas: map<Scope, Slot>, done: set<Scope>, scope: Scope, row: map<Scope, Totals>)
    requires scope in deltas && scope !in done
    ensures var d := deltas[scope];
            var t := BookTotals(row, Only(deltas, done));
            BookTotals(row, Only(deltas, done + {scope})) ==
            if d.AnyTraffic() then t[scope := Plus(Get(t, scope), d.Booked())] else t
  {
    hide Plus;
    MovedStep(deltas, done, scope);
  }

  lemma MovedStep(deltas: map<Scope, Slot>, done: set<Scope>, scope: Scope)
    requires scope in deltas && scope !in done
    ensures Moved(Only(deltas, done + {scope})) ==
            if deltas[scope].AnyTraffic() then Moved(Only(deltas, done)) + {scope} else Moved(Only(deltas, done))
    ensures Rated(Only(deltas, done + {scope})) ==
            if Sampled(deltas[scope]) then Rated(Only(deltas, done)) + {scope} else Rated(Only(deltas, done))
  {
  }

  lemma OnlyDaily(deltas: map<Scope, Slot>, done: set<Scope>, scope: Scope, daily: map<string, map<Scope, Totals>>,
      day: string)
    requires scope in deltas && scope !in done
    ensures var d := deltas[scope];
            var t := BookDaily(daily, day, Only(deltas, done));
            BookDaily(daily, day, Only(deltas, done + {scope})) ==
            if d.AnyTraffic() then t[day := Row(t, day)[scope := Plus(Get(Row(t, day), scope), d.Booked())]] else t
  {
    hide Plus, IsScope;
    MovedStep(deltas, done, scope);
    OnlyTotals(deltas, done, scope, Row(daily, day));
    if Moved(Only(deltas, done)) == {} {
      assert BookTotals(Row(daily, day), Only(deltas, done)) == Row(daily, day);
    }
  }

  lemma OnlySamples(deltas: map<Scope, Slot>, done: set<Scope>, scope: Scope, samples: map<int, map<Scope, Sample>>,
      ts: int)
    requires scope in deltas && scope !in done
    ensures var d := deltas[scope];
            var t := BookSamples(samples, ts, Only(deltas, done));
            BookSamples(samples, ts, Only(deltas, done + {scope})) ==
            if Sampled(d) then t[ts := Row(t, ts)[scope := MergeSample(Row(t, ts), scope, d)]] else t
  {
    hide Slot.AnyTraffic, IsScope, MergeRow, MergeSample;
    MovedStep(deltas, done, scope);
    var row, a, b := Row(samples, ts), Only(deltas, done), Only(deltas, done + {scope});
    if Rated(a) == {} { MergeNothing(row, a); }
    MergeOneMore(row, deltas, done, scope);
    assert Sampled(deltas[scope]) ==> Rated(b) != {};
    assert !Sampled(deltas[scope]) ==> (Rated(b) == {} <==> Rated(a) == {});
    hide Rated, Sampled, Only;
    if Sampled(deltas[scope]) && Rated(a) != {} {
      assert samples[ts := MergeRow(row, a)][ts := MergeRow(row, b)] == samples[ts := MergeRow(row, b)];
    }
  }

  lemma MergeNothing(row: map<Scope, Sample>, deltas: map<Scope, Slot>)
    requires Rated(deltas) == {}
    ensures MergeRow(row, deltas) == row
  {
    hide IsScope, Sampled, MergeSample;
  }

  lemma MergeOneMore(row: map<Scope, Sample>, deltas: map<Scope, Slot>, done: set<Scope>, scope: Scope)
    requires scope in deltas && scope !in done
    ensures var a := MergeRow(row, Only(deltas, done));
            MergeRow(row, Only(deltas, done + {scope})) ==
            if Sampled(deltas[scope]) then a[scope := MergeSample(a, scope, deltas[scope])] else a
  {
    hide IsScope, Sampled;
    MovedStep(deltas, done, scope);
  }

  /** The slots after one more counter, as the loop body computes them. */
  lemma SlotsStep(r: Round, names: set<string>, name: string)
    requires name in r.snap && name !in names && names <= r.snap.Keys
    ensures SlotsOf(r, names + {name}) ==
      match ParseCounterName(name)
      case Some((s, dir)) =>
        var slot := if s in SlotsOf(r, names) then SlotsOf(r, names)[s] else NEW_SLOT;
        SlotsOf(r, names)[s := Accumulate(slot, dir, Contribute(r, name))]
      case None => SlotsOf(r, names)
  {
    hide ParseCounterName, Contribute, SlotOf, Accumulate;
    var all := ScopesOf(names + {name});
    forall scope | scope in all
      ensures !InScope(name, scope) ==> SlotOf(r, names + {name}, scope) == SlotOf(r, names, scope)
    {
      SlotStep(r, names, name, scope, Rx);
    }
    match ParseCounterName(name) {
      case Some((s, dir)) =>
        assert all == ScopesOf(names) + {s};
        SlotStep(r, names, name, s, dir);
        if s !in ScopesOf(names) { EmptySlot(r, names, s); }
        assert forall scope :: scope in all && scope != s ==> !InScope(name, scope);
      case None =>
        assert all == ScopesOf(names);
    }
  }

  /** The counter had a baseline of this ruleset, has not gone back, and was read close to the expected interval. */
  predicate Trusted(t: Tables, snap: Snapshot, e: Option<nat>, tsMs: int, interval: int, n: string)
    requires n in snap
  {
    var expected := Max(1, interval) * 1000;
    && !FreshRuleset(t, e) && n in t.counterState && snap[n].bytes >= t.counterState[n].bytes
    && Max(200, expected / 4) <= tsMs - LoadState(t.counterState)[n].updatedMs <= expected * 3 + 500
  }

  /**
    A rate sample is written for a scope exactly when both of its directions were read and every one of its
    counters had a baseline of this ruleset, had not gone back, and was read at an interval close to the
    expected one; the test for a positive duration never decides.
   */
  lemma SampledIsTrusted(t: Tables, snap: Snapshot, e: Option<nat>, tsMs: int, interval: int, scope: Scope)
    ensures var r := RoundOf(t, snap, e, tsMs, interval);
      Sampled(SlotOf(r, snap.Keys, scope)) <==>
        && (exists n :: n in snap && Charged(n, scope, Rx)) && (exists n :: n in snap && Charged(n, scope, Tx))
        && forall n :: n in snap && InScope(n, scope) ==> Trusted(t, snap, e, tsMs, interval, n)
  {
    hide ParseCounterName, ParseEpochName, Column, BytesIn, PktsIn, IsScope, FreshRuleset, LoadState, RoundOf,
        Contribute, DurationIn,
      Charged;
    var r := RoundOf(t, snap, e, tsMs, interval);
    forall n | n in snap ensures r.snap == snap && (Contribute(r, n).valid <==> Trusted(t, snap, e, tsMs, interval, n))
    {
      ValidIsTrusted(t, snap, e, tsMs, interval, n);
    }
    RoundReads(t, snap, e, tsMs, interval);
    if n :| n in snap && Charged(n, scope, Rx) {
      if Contribute(r, n).valid { ValidTakesTime(t, snap, e, tsMs, interval, n, scope); }
    }
  }

  lemma ValidIsTrusted(t: Tables, snap: Snapshot, e: Option<nat>, tsMs: int, interval: int, n: string)
    requires n in snap
    ensures RoundOf(t, snap, e, tsMs, interval).snap == snap
    ensures Contribute(RoundOf(t, snap, e, tsMs, interval), n).valid <==> Trusted(t, snap, e, tsMs, interval, n)
  {
    hide FreshRuleset;
  }

  /** A trusted contribution took some time. */
  lemma ValidTakesTime(t: Tables, snap: Snapshot, e: Option<nat>, tsMs: int, interval: int, n: string, scope: Scope)
    requires n in snap && InScope(n, scope) && Contribute(RoundOf(t, snap, e, tsMs, interval), n).valid
    ensures MaxSet(snap.Keys, DurationIn(RoundOf(t, snap, e, tsMs, interval), scope)) > 0
  {
    hide FreshRuleset, ParseCounterName, IsScope;
    var r := RoundOf(t, snap, e, tsMs, interval);
    var f := DurationIn(r, scope);
    MaxRemove(snap.Keys, n, f);
    var own, rest := f(n), MaxSet(snap.Keys - {n}, f);
    assert own > 0;
  }

  // ----- where a tick books what it takes -----

  /** What a tick took for a scope: the growth of its row of totals. */
  ghost predicate Grows(before: Totals, after: Totals, total: Totals, total': Totals)
  {
    && after.rx - before.rx == total'.rx - total.rx && after.tx - before.tx == total'.tx - total.tx
    && after.rxPkts - before.rxPkts == total'.rxPkts - total.rxPkts
    && after.txPkts - before.txPkts == total'.txPkts - total.txPkts
  }

  /**
    An accepted tick adds to the row of its own day just what it adds to the totals, for every scope, and
    leaves every other day alone.
   */
  lemma TickBooksItsDay(t: Tables, snap: Snapshot, e: Option<nat>, tsMs: int, last: int, day: string, interval: int,
      scope: Scope)
    requires Accepts(t, snap, e)
    ensures var after := Ticked(t, Some(snap), e, tsMs, last, day, interval, true);
      && Grows(Get(Row(t.daily, day), scope), Get(Row(after.daily, day), scope), Get(t.totals, scope),
          Get(after.totals, scope))
      && forall other :: other != day ==> Row(after.daily, other) == Row(t.daily, other)
  {
    hide SlotsOf, RoundOf, Rebase, BookTotals, BookDaily, BookSamples, Prune, Accepts, SampleTs, IsScope, Grows, Get,
        Row;
    DayGrows(t.totals, t.daily, day, SlotsOf(RoundOf(t, snap, e, tsMs, interval), snap.Keys), scope);
  }

  lemma DayGrows(totals: map<Scope, Totals>, daily: map<string, map<Scope, Totals>>, day: string, deltas: map<Scope,
      Slot>,
                 scope: Scope)
    ensures var out := BookDaily(daily, day, deltas);
      && Grows(Get(Row(daily, day), scope), Get(Row(out, day), scope), Get(totals, scope),
          Get(BookTotals(totals, deltas), scope))
      && forall other :: other != day ==> Row(out, other) == Row(daily, other)
  {
    GrownCell(totals, deltas, scope);
    GrownCell(Row(daily, day), deltas, scope);
    hide BookTotals, Slot.AnyTraffic;
  }

  lemma GrownCell(row: map<Scope, Totals>, deltas: map<Scope, Slot>, scope: Scope)
    ensures Get(BookTotals(row, deltas), scope) ==
            if scope in Moved(deltas) then Plus(Get(row, scope), deltas[scope].Booked()) else Get(row, scope)
  {
    hide Plus, IsScope;
  }

  /** The second of a sample: that of the clock, or the one after the last sample if the clock is not past it. */
  function Second(tsMs: nat, last: int): int { if last != 0 && tsMs / 1000 <= last then last + 1 else tsMs / 1000 }

  function Rate(row: map<Scope, Sample>, scope: Scope): Sample { if scope in row then row[scope] else Sample(0, 0, 0) }

  /**
    The rate samples after an accepted tick: a sampled scope's sample of this second grows by what its totals
    grew by and lasts at least as long as its longest contribution, no other scope's sample of the second
    changes, and of the other seconds the last 120 stay.
   */
  lemma SamplesFollowTotals(t: Tables, snap: Snapshot, e: Option<nat>, tsMs: nat, last: int, day: string, interval: int,
                            scope: Scope)
    requires Accepts(t, snap, e)
    ensures var after := Ticked(t, Some(snap), e, tsMs, last, day, interval, true);
      var now, slot := Second(tsMs, last), SlotOf(RoundOf(t, snap, e, tsMs, interval), snap.Keys, scope);
      var old_, new_ := Rate(Row(t.samples, now), scope), Rate(Row(after.samples, now), scope);
      && (Sampled(slot) ==>
          && scope in Row(after.samples, now)
          && new_.rx - old_.rx == Get(after.totals, scope).rx - Get(t.totals, scope).rx
          && new_.tx - old_.tx == Get(after.totals, scope).tx - Get(t.totals, scope).tx
          && new_.durationMs == Max(old_.durationMs, slot.durationMs))
      && (!Sampled(slot) ==> new_ == old_ && (scope in Row(after.samples, now) <==> scope in Row(t.samples, now)))
      && forall k :: k != now ==>
          (k in after.samples <==> k in t.samples && k >= now - 120) && (k in after.samples ==> after.samples[k] == t.samples[k])
  {
    hide SlotOf, RoundOf, Rebase, BookDaily, Accepts, IsScope, ParseCounterName, Row;
    var r := RoundOf(t, snap, e, tsMs, interval);
    RoundReads(t, snap, e, tsMs, interval);
    var deltas, now := SlotsOf(r, snap.Keys), SampleTs(tsMs, last);
    assert now == Second(tsMs, last);
    SampledRow(t.samples, now, deltas);
    SampledScope(t.totals, Row(t.samples, now), deltas, scope);
    if scope !in ScopesOf(snap.Keys) { EmptySlot(r, snap.Keys, scope); }
    hide BookTotals, BookSamples, Prune, MergeRow, ScopesOf, SampleTs, Second;
  }

  lemma SampledRow(samples: map<int, map<Scope, Sample>>, now: int, deltas: map<Scope, Slot>)
    ensures var out := Prune(BookSamples(samples, now, deltas), now);
      && Row(out, now) == MergeRow(Row(samples, now), deltas)
      && forall k :: k != now ==> (k in out <==> k in samples && k >= now - 120) && (k in out ==> out[k] == samples[k])
  {
    hide MergeRow, Rated;
    if Rated(deltas) == {} { MergeNothing(Row(samples, now), deltas); }
  }

  /** One scope of a booked round: its row of totals and its sample. */
  lemma SampledScope(totals: map<Scope, Totals>, row: map<Scope, Sample>, deltas: map<Scope, Slot>, scope: Scope)
    ensures var slot := if scope in deltas then deltas[scope] else NEW_SLOT; var out := MergeRow(row, deltas);
      && (scope in deltas && Sampled(slot) ==>
          && scope in out
          && Rate(out, scope).rx - Rate(row, scope).rx
              == Get(BookTotals(totals, deltas), scope).rx - Get(totals, scope).rx
          && Rate(out, scope).tx - Rate(row, scope).tx
              == Get(BookTotals(totals, deltas), scope).tx - Get(totals, scope).tx
          && Rate(out, scope).durationMs == Max(Rate(row, scope).durationMs, slot.durationMs))
      && (!(scope in deltas && Sampled(slot)) ==>
          (scope in out <==> scope in row) && Rate(out, scope) == Rate(row, scope))
  {
    hide IsScope;
    GrownCell(totals, deltas, scope);
    hide BookTotals;
  }

  /** How long an interval a tick trusts, in milliseconds. */
  predicate Timely(elapsed: int, interval: int)
  {
    var expected := if interval < 1 then 1000 else interval * 1000;
    (if expected / 4 < 200 then 200 else expected / 4) <= elapsed <= 3 * expected + 500
  }

  /**
    Two accepted ticks, one after the other: the second writes a sample of a scope exactly when it sees both
    directions, the ruleset is the same, and every counter of the scope was in the first snapshot, has not
    gone back since, and was read again in time. A time below 10^12 was stored in seconds.
   */
  lemma SecondTickSamples(t: Tables, snap: Snapshot, e: Option<nat>, tsMs: int, last: int, day: string, interval: int,
                          snap': Snapshot, e': Option<nat>, tsMs': int, scope: Scope)
    requires Accepts(t, snap, e)
    ensures var between := Ticked(t, Some(snap), e, tsMs, last, day, interval, true);
      var known, stored := if e.Some? then e else t.epoch, if 0 < tsMs < 1_000_000_000_000 then tsMs * 1000 else tsMs;
      Sampled(SlotOf(RoundOf(between, snap', e', tsMs', interval), snap'.Keys, scope)) <==>
        && (exists n :: n in snap' && Charged(n, scope, Rx)) && (exists n :: n in snap' && Charged(n, scope, Tx))
        && forall n :: n in snap' && InScope(n, scope) ==>
             && !(e'.Some? && known.Some? && e' != known)
             && n in snap && snap'[n].bytes >= snap[n].bytes && Timely(tsMs' - stored, interval)
  {
    var between := Ticked(t, Some(snap), e, tsMs, last, day, interval, true);
    SampledIsTrusted(between, snap', e', tsMs', interval, scope);
    hide SlotsOf, SlotOf, RoundOf, BookTotals, BookDaily, BookSamples, Prune, Accepts, IsScope, Charged, InScope,
        Sampled;
    assert between.counterState == Rebase(snap, tsMs) && between.epoch == if e.Some? then e else t.epoch;
    forall n | n in snap' && InScope(n, scope)
      ensures Trusted(between, snap', e', tsMs', interval, n) <==>
              (var known, stored := if e.Some? then e else t.epoch, if 0 < tsMs < 1_000_000_000_000 then tsMs * 1000 else tsMs;
               && !(e'.Some? && known.Some? && e' != known)
               && n in snap && snap'[n].bytes >= snap[n].bytes && Timely(tsMs' - stored, interval))
    {
    }
  }
}

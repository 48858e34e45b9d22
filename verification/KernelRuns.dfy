/**
  The collector against the kernel: every run of traffic, counter resets, ruleset rebuilds, failed
  and partial readings. For each scope, direction and unit, what the kernel counted is split exactly
  into what is booked, what the next tick will book (Owed), and what is missed for good.
 */
module KernelRuns {
  import opened Names
  import opened Sums
  import opened Collector

  /** live: the counters of the installed ruleset; truth: all the kernel ever counted under each name. */
  datatype Kernel = Kernel(live: Snapshot, truth: Snapshot, tables: Tables)

  /** What a tick gets to read: nothing, or the live counters restricted to these names. */
  datatype Reading = Failed | Seen(names: set<string>)

  datatype Step =
    | Traffic(name: string, amount: Count)
    | Reset(names: set<string>)
    | Rebuild(names: set<string>)
    | Tick(reading: Reading, e: Option<nat>, tsMs: nat, lastSampleTs: int, day: string, interval: int, commits: bool)

  function CountOf(s: Snapshot, name: string): Count { if name in s then s[name] else NO_COUNT }

  function Restrict(s: Snapshot, names: set<string>): Snapshot { map n | n in s && n in names :: s[n] }

  predicate IsTag(name: string, e: nat) { ParseEpochName(name) == Some(e) }

  /** e is an epoch some tag among the names carries; None only if there is no tag at all. */
  ghost predicate PicksEpoch(e: Option<nat>, names: set<string>)
  {
    match e
    case Some(v) => exists n :: n in names && IsTag(n, v)
    case None => forall n :: n in names ==> ParseEpochName(n) == None
  }

  /** All epoch tags among the names agree. */
  ghost predicate OneTag(names: set<string>)
  {
    forall m, n :: m in names && n in names && ParseEpochName(m).Some? && ParseEpochName(n).Some? ==>
      ParseEpochName(m) == ParseEpochName(n)
  }

  function ReadingOf(k: Kernel, r: Reading): Option<Snapshot>
  {
    match r
    case Failed => None
    case Seen(names) => Some(Restrict(k.live, names))
  }

  ghost predicate Enabled(k: Kernel, s: Step)
  {
    match s
    case Traffic(name, _) => name in k.live
    case Reset(_) => true
    case Rebuild(_) => true
    case Tick(reading, e, _, _, _, _, _) => reading.Seen? ==> PicksEpoch(e, Restrict(k.live, reading.names).Keys)
  }

  ghost function Next(k: Kernel, s: Step): Kernel
  {
    match s
    case Traffic(name, amount) =>
      k.(live := k.live[name := AddCount(CountOf(k.live, name), amount)],
         truth := k.truth[name := AddCount(CountOf(k.truth, name), amount)])
    case Reset(names) =>
      k.(live := map n | n in k.live :: if n in names then NO_COUNT else k.live[n])
    case Rebuild(names) =>
      k.(live := map n | n in names :: NO_COUNT,
         truth := map n | n in k.truth.Keys + names :: CountOf(k.truth, n))
    case Tick(reading, e, tsMs, lastSampleTs, day, interval, commits) =>
      k.(tables := Ticked(k.tables, ReadingOf(k, reading), e, tsMs, lastSampleTs, day, interval, commits))
  }

  // ----- what the next tick will book -----

  /** The installed ruleset is the one the baselines belong to, as far as the tables can tell. */
  ghost predicate UsesBaselines(k: Kernel)
  {
    k.tables.epoch.None? || forall n :: n in k.live && ParseEpochName(n).Some? ==> ParseEpochName(n) == k.tables.epoch
  }

  ghost function Owed(k: Kernel, name: string): Count
  {
    var v := CountOf(k.live, name);
    if !UsesBaselines(k) || name !in k.tables.counterState then v
    else
      var base := k.tables.counterState[name];
      if v.bytes < base.bytes then v else Count(v.bytes - base.bytes, Max(0, v.pkts - base.pkts))
  }

  datatype Unit = Bytes | Pkts

  function Part(c: Count, u: Unit): nat { if u == Bytes then c.bytes else c.pkts }

  function Cell(t: Totals, dir: Dir, u: Unit): nat
  {
    match (dir, u)
    case (Rx, Bytes) => t.rx
    case (Tx, Bytes) => t.tx
    case (Rx, Pkts) => t.rxPkts
    case (Tx, Pkts) => t.txPkts
  }

  ghost function TruthIn(k: Kernel, scope: Scope, dir: Dir, u: Unit): string -> int
  {
    n => if Charged(n, scope, dir) then Part(CountOf(k.truth, n), u) else 0
  }

  ghost function OwedIn(k: Kernel, scope: Scope, dir: Dir, u: Unit): string -> int
  {
    n => if Charged(n, scope, dir) then Part(Owed(k, n), u) else 0
  }

  /** What the kernel counted for a scope in one direction, over all rulesets there ever were. */
  ghost function Counted(k: Kernel, scope: Scope, dir: Dir, u: Unit): int
  {
    SumSet(k.truth.Keys, TruthIn(k, scope, dir, u))
  }

  ghost function OwedTotal(k: Kernel, scope: Scope, dir: Dir, u: Unit): int
  {
    SumSet(k.truth.Keys, OwedIn(k, scope, dir, u))
  }

  ghost function Booked(k: Kernel, scope: Scope, dir: Dir, u: Unit): int
  {
    Cell(Get(k.tables.totals, scope), dir, u)
  }

  /** Counted by the kernel, and neither booked nor owed. */
  ghost function Missed(k: Kernel, scope: Scope, dir: Dir, u: Unit): int
  {
    Counted(k, scope, dir, u) - OwedTotal(k, scope, dir, u) - Booked(k, scope, dir, u)
  }

  // ----- the invariant -----

  /** The recorded epoch's tag has a baseline, so a snapshot without it is turned away. */
  ghost predicate EpochHasBaseline(t: Tables)
  {
    t.epoch.Some? ==> exists n :: n in t.counterState && ParseEpochName(n) == t.epoch
  }

  ghost predicate Inv(k: Kernel)
  {
    && OneTag(k.live.Keys)
    && k.live.Keys <= k.truth.Keys
    && EpochHasBaseline(k.tables)
    && (forall s: Scope, d, u :: Missed(k, s, d, u) >= 0)
  }

  // ----- one tick -----

  /** An accepted and committed tick. */
  ghost predicate Books(k: Kernel, s: Step)
    requires s.Tick?
  {
    s.reading.Seen? && Accepts(k.tables, ReadingOf(k, s.reading).value, s.e) && s.commits
  }

  ghost function RoundAt(k: Kernel, s: Step): Round
    requires s.Tick? && s.reading.Seen?
  {
    RoundOf(k.tables, ReadingOf(k, s.reading).value, s.e, s.tsMs, s.interval)
  }

  function Taken(r: Round, name: string): Count
  {
    if name in r.snap then Count(Contribute(r, name).bytes, Contribute(r, name).pkts) else NO_COUNT
  }

  /** An accepted tick differences against the baselines exactly when they belong to the installed ruleset. */
  lemma FreshnessIsRight(k: Kernel, s: Step)
    requires s.Tick? && Enabled(k, s) && Books(k, s)
    requires OneTag(k.live.Keys) && EpochHasBaseline(k.tables)
    ensures FreshRuleset(k.tables, s.e) == !UsesBaselines(k)
    ensures UsesBaselines(Next(k, s)) && EpochHasBaseline(Next(k, s).tables)
    ensures !FreshRuleset(k.tables, s.e) ==> k.tables.counterState.Keys <= ReadingOf(k, s.reading).value.Keys
  {
    hide ParseEpochName, SlotsOf, BookTotals, BookDaily, BookSamples, Prune;
    var snap := ReadingOf(k, s.reading).value;
    if s.e.Some? {
      var tag :| tag in snap && IsTag(tag, s.e.value);
      assert tag in k.live;
      assert tag in Rebase(snap, s.tsMs);
    }
  }

  /** An accepted tick takes all a counter it reads owes, and leaves the others owing what they did. */
  lemma TickTakesAll(k: Kernel, s: Step, name: string)
    requires s.Tick? && Enabled(k, s) && Books(k, s)
    requires OneTag(k.live.Keys) && EpochHasBaseline(k.tables)
    ensures name in RoundAt(k, s).snap ==>
        Owed(Next(k, s), name) == NO_COUNT && Taken(RoundAt(k, s), name) == Owed(k, name)
    ensures name !in RoundAt(k, s).snap ==>
        Owed(Next(k, s), name) == Owed(k, name) && Taken(RoundAt(k, s), name) == NO_COUNT
  {
    FreshnessIsRight(k, s);
    hide ParseEpochName, SlotsOf, BookTotals, BookDaily, BookSamples, Prune, UsesBaselines, PicksEpoch;
    var snap, after := ReadingOf(k, s.reading).value, Next(k, s);
    assert after.live == k.live && after.tables.counterState == Rebase(snap, s.tsMs);
    assert RoundAt(k, s).snap == snap;
    assert name in snap ==> snap[name] == CountOf(k.live, name);
  }

  /** What a counter owed before an accepted tick is what the tick takes from it plus what it owes afterwards. */
  lemma TickSplits(k: Kernel, s: Step, name: string)
    requires s.Tick? && Enabled(k, s) && Books(k, s)
    requires OneTag(k.live.Keys) && EpochHasBaseline(k.tables)
    ensures Owed(k, name).bytes == Taken(RoundAt(k, s), name).bytes + Owed(Next(k, s), name).bytes
    ensures Owed(k, name).pkts == Taken(RoundAt(k, s), name).pkts + Owed(Next(k, s), name).pkts
  {
    hide Owed, Taken, Next, RoundAt, Enabled, Books, OneTag, EpochHasBaseline;
    TickTakesAll(k, s, name);
  }

  ghost function TakenIn(r: Round, scope: Scope, dir: Dir, u: Unit): string -> int
  {
    n => if Charged(n, scope, dir) then Part(Taken(r, n), u) else 0
  }

  /** The slot of a scope is the sum of what was taken from its counters. */
  lemma SlotIsTaken(r: Round, scope: Scope, dir: Dir, u: Unit)
    ensures Cell(SlotOf(r, r.snap.Keys, scope).Booked(), dir, u) == SumSet(r.snap.Keys, TakenIn(r, scope, dir, u))
  {
    hide Contribute, ParseCounterName;
    SumCong(r.snap.Keys, TakenIn(r, scope, dir, u), if u == Bytes then BytesIn(r, scope, dir) else PktsIn(r, scope, dir));
  }

  lemma PlusCell(a: Totals, b: Totals, dir: Dir, u: Unit)
    ensures Cell(Plus(a, b), dir, u) == Cell(a, dir, u) + Cell(b, dir, u)
  {
  }

  /** Booking a round adds every scope's slot to its row, a scope without counters having an empty one. */
  lemma BookedCell(row: map<Scope, Totals>, r: Round, scope: Scope, dir: Dir, u: Unit)
    ensures Cell(Get(BookTotals(row, SlotsOf(r, r.snap.Keys)), scope), dir, u) ==
            Cell(Get(row, scope), dir, u) + Cell(SlotOf(r, r.snap.Keys, scope).Booked(), dir, u)
  {
    hide SlotOf, Plus;
    if scope in SlotsOf(r, r.snap.Keys) {
      PlusCell(Get(row, scope), SlotOf(r, r.snap.Keys, scope).Booked(), dir, u);
    } else {
      EmptySlot(r, r.snap.Keys, scope);
    }
  }

  /** The sum of what an accepted tick takes from the counters of a scope. */
  ghost function TakenTotal(k: Kernel, s: Step, scope: Scope, dir: Dir, u: Unit): int
    requires s.Tick? && s.reading.Seen?
  {
    SumSet(RoundAt(k, s).snap.Keys, TakenIn(RoundAt(k, s), scope, dir, u))
  }

  lemma TickTables(k: Kernel, s: Step)
    requires s.Tick? && Books(k, s)
    ensures var r := RoundAt(k, s); var t := Next(k, s).tables;
            && t.totals == BookTotals(k.tables.totals, SlotsOf(r, r.snap.Keys))
            && t.daily == BookDaily(k.tables.daily, s.day, SlotsOf(r, r.snap.Keys))
            && t.counterState == Rebase(r.snap, s.tsMs)
  {
    hide ParseCounterName, ParseEpochName, SlotsOf, BookTotals, BookDaily, BookSamples, Prune, Accepts, Rebase;
  }

  lemma TickBooks(k: Kernel, s: Step, scope: Scope, dir: Dir, u: Unit)
    requires s.Tick? && Books(k, s)
    ensures Booked(Next(k, s), scope, dir, u) == Booked(k, scope, dir, u) + TakenTotal(k, s, scope, dir, u)
    ensures TakenTotal(k, s, scope, dir, u) >= 0
  {
    TickTables(k, s);
    hide Next, RoundAt, SlotOf, SlotsOf, BookTotals, TakenIn, Cell, Get, Slot.Booked;
    var r := RoundAt(k, s);
    BookedCell(k.tables.totals, r, scope, dir, u);
    SlotIsTaken(r, scope, dir, u);
  }

  lemma TickOwes(k: Kernel, s: Step, scope: Scope, dir: Dir, u: Unit)
    requires s.Tick? && Enabled(k, s) && Books(k, s)
    requires OneTag(k.live.Keys) && EpochHasBaseline(k.tables) && k.live.Keys <= k.truth.Keys
    ensures OwedTotal(k, scope, dir, u) == TakenTotal(k, s, scope, dir, u) + OwedTotal(Next(k, s), scope, dir, u)
  {
    hide Owed, ParseCounterName, ParseEpochName, Contribute, Ticked;
    var r, after := RoundAt(k, s), Next(k, s);
    var taken := TakenIn(r, scope, dir, u);
    forall n ensures OwedIn(k, scope, dir, u)(n) == taken(n) + OwedIn(after, scope, dir, u)(n)
    {
      TickSplits(k, s, n);
    }
    SumPlus(k.truth.Keys, taken, OwedIn(after, scope, dir, u), OwedIn(k, scope, dir, u));
    SumSupport(r.snap.Keys, k.truth.Keys, taken);
  }

  /** No tick, whatever its outcome, changes what is missed. */
  lemma TickMissesNothing(k: Kernel, s: Step, scope: Scope, dir: Dir, u: Unit)
    requires s.Tick? && Enabled(k, s)
    requires OneTag(k.live.Keys) && EpochHasBaseline(k.tables) && k.live.Keys <= k.truth.Keys
    ensures Missed(Next(k, s), scope, dir, u) == Missed(k, scope, dir, u)
    ensures Booked(Next(k, s), scope, dir, u) >= Booked(k, scope, dir, u)
  {
    if Books(k, s) {
      hide Booked, OwedTotal, TakenTotal, Ticked;
      TickBooks(k, s, scope, dir, u);
      TickOwes(k, s, scope, dir, u);
      SumCong(k.truth.Keys, TruthIn(k, scope, dir, u), TruthIn(Next(k, s), scope, dir, u));
    } else {
      assert Next(k, s) == k;
    }
  }

  // ----- the kernel's own steps -----

  /** The counter has not been reset below its baseline since the last booking. */
  ghost predicate Unmasked(k: Kernel, name: string)
  {
    UsesBaselines(k) && name in k.tables.counterState ==>
      CountOf(k.live, name).bytes >= k.tables.counterState[name].bytes && CountOf(k.live, name).pkts >= k.tables.counterState[name].pkts
  }

  lemma TrafficOwed(k: Kernel, s: Step, name: string)
    requires s.Traffic? && Enabled(k, s)
    ensures name != s.name ==> Owed(Next(k, s), name) == Owed(k, name)
    ensures name == s.name ==> Owed(Next(k, s), name).bytes <= Owed(k, name).bytes + s.amount.bytes
    ensures name == s.name ==> Owed(Next(k, s), name).pkts <= Owed(k, name).pkts + s.amount.pkts
    ensures name == s.name && Unmasked(k, name) ==>
      Owed(Next(k, s), name) == Count(Owed(k, name).bytes + s.amount.bytes, Owed(k, name).pkts + s.amount.pkts)
  {
    hide ParseEpochName;
    assert Next(k, s).live.Keys == k.live.Keys;
    assert UsesBaselines(Next(k, s)) == UsesBaselines(k);
  }

  /** After a reset the counter climbs past its old baseline before any tick has seen it low. */
  ghost predicate Overtakes(k: Kernel, name: string, amount: Count)
  {
    && UsesBaselines(k) && name in k.tables.counterState
    && CountOf(k.live, name).bytes < k.tables.counterState[name].bytes <= CountOf(k.live, name).bytes + amount.bytes
  }

  function Min(a: int, b: int): int { if a < b then a else b }

  /**
    What traffic on one counter loses. Bytes: the old baseline, when the counter overtakes it. Packets: what
    overtaking hides of them under the old packet baseline, or, with bytes past their baseline and packets
    not, the packets that go into closing that gap.
   */
  ghost function TrafficLoss(k: Kernel, name: string, amount: Count, u: Unit): nat
  {
    if !UsesBaselines(k) || name !in k.tables.counterState then 0
    else
      var v, base := CountOf(k.live, name), k.tables.counterState[name];
      if Overtakes(k, name, amount) then (if u == Bytes then base.bytes else Min(v.pkts + amount.pkts, base.pkts))
      else if u == Pkts && v.bytes >= base.bytes && v.pkts < base.pkts then Min(amount.pkts, base.pkts - v.pkts)
      else 0
  }

  lemma TrafficOwedExactly(k: Kernel, s: Step, u: Unit)
    requires s.Traffic? && Enabled(k, s)
    ensures Part(Owed(Next(k, s), s.name), u)
        == Part(Owed(k, s.name), u) + Part(s.amount, u) - TrafficLoss(k, s.name, s.amount, u)
    ensures Unmasked(k, s.name) ==> TrafficLoss(k, s.name, s.amount, u) == 0
  {
    hide ParseEpochName;
    assert Next(k, s).live.Keys == k.live.Keys;
    assert UsesBaselines(Next(k, s)) == UsesBaselines(k);
  }

  /** Traffic loses exactly that from the scope its counter is charged to. */
  lemma OvertakingIsExact(k: Kernel, s: Step, scope: Scope, dir: Dir, u: Unit)
    requires s.Traffic? && Enabled(k, s) && k.live.Keys <= k.truth.Keys
    ensures Missed(Next(k, s), scope, dir, u) ==
            Missed(k, scope, dir, u) + if Charged(s.name, scope, dir) then TrafficLoss(k, s.name, s.amount, u) else 0
  {
    var after := Next(k, s);
    assert after.truth.Keys == k.truth.Keys;
    forall n ensures n != s.name ==> OwedIn(after, scope, dir, u)(n) == OwedIn(k, scope, dir, u)(n)
    {
      TrafficOwed(k, s, n);
    }
    TrafficOwedExactly(k, s, u);
    hide Owed, ParseCounterName, TrafficLoss;
    SumBump(k.truth.Keys, s.name, OwedIn(k, scope, dir, u), OwedIn(after, scope, dir, u));
    SumBump(k.truth.Keys, s.name, TruthIn(k, scope, dir, u), TruthIn(after, scope, dir, u));
  }

  ghost function OwedBy(k: Kernel, names: set<string>, scope: Scope, dir: Dir, u: Unit): int
  {
    SumSet(k.truth.Keys * names, OwedIn(k, scope, dir, u))
  }

  lemma OwedNonNegative(k: Kernel, names: set<string>, scope: Scope, dir: Dir, u: Unit)
    ensures SumSet(names, OwedIn(k, scope, dir, u)) >= 0
  {
    SumNat(names, OwedIn(k, scope, dir, u));
  }

  /** A reset loses exactly what the reset counters owed. */
  lemma ResetMissed(k: Kernel, s: Step, scope: Scope, dir: Dir, u: Unit)
    requires s.Reset? && k.live.Keys <= k.truth.Keys
    ensures Missed(Next(k, s), scope, dir, u) == Missed(k, scope, dir, u) + OwedBy(k, s.names, scope, dir, u)
  {
    var after := Next(k, s);
    var f, g := OwedIn(k, scope, dir, u), OwedIn(after, scope, dir, u);
    var lost := (n: string) => if n in s.names then f(n) else 0;
    forall n ensures f(n) == lost(n) + g(n)
    {
      ResetOwed(k, s, n);
    }
    SumPlus(k.truth.Keys, lost, g, f);
    SumSupport(k.truth.Keys * s.names, k.truth.Keys, lost);
    SumCong(k.truth.Keys * s.names, lost, f);
    SumCong(k.truth.Keys, TruthIn(k, scope, dir, u), TruthIn(after, scope, dir, u));
  }

  lemma ResetOwed(k: Kernel, s: Step, name: string)
    requires s.Reset?
    ensures Owed(Next(k, s), name) == if name in s.names then NO_COUNT else Owed(k, name)
  {
    hide ParseEpochName;
    assert Next(k, s).live.Keys == k.live.Keys;
  }

  lemma NothingOwedAfterRebuild(k: Kernel, s: Step, name: string)
    requires s.Rebuild?
    ensures Owed(Next(k, s), name) == NO_COUNT
  {
    hide ParseEpochName, UsesBaselines;
  }

  /** Replacing the ruleset loses exactly what was owed at that moment. */
  lemma RebuildMissed(k: Kernel, s: Step, scope: Scope, dir: Dir, u: Unit)
    requires s.Rebuild? && k.live.Keys <= k.truth.Keys
    ensures Missed(Next(k, s), scope, dir, u) == Missed(k, scope, dir, u) + OwedTotal(k, scope, dir, u)
  {
    hide ParseEpochName, ParseCounterName, IsScope;
    var after := Next(k, s);
    forall n ensures Owed(after, n) == NO_COUNT { NothingOwedAfterRebuild(k, s, n); }
    hide Owed;
    SumSupport({}, after.truth.Keys, OwedIn(after, scope, dir, u));
    SumSupport(k.truth.Keys, after.truth.Keys, TruthIn(after, scope, dir, u));
    SumCong(k.truth.Keys, TruthIn(k, scope, dir, u), TruthIn(after, scope, dir, u));
  }

  // ----- runs -----

  /** Rulesets are installed with a single epoch. */
  ghost predicate Tidy(s: Step) { s.Rebuild? ==> OneTag(s.names) }

  lemma StepKeepsInv(k: Kernel, s: Step)
    requires Inv(k) && Enabled(k, s) && Tidy(s)
    ensures Inv(Next(k, s))
  {
    var after := Next(k, s);
    assert OneTag(after.live.Keys) && after.live.Keys <= after.truth.Keys by { hide ParseEpochName; }
    assert EpochHasBaseline(after.tables) by {
      if s.Tick? && Books(k, s) { FreshnessIsRight(k, s); }
    }
    forall scope: Scope, dir, u ensures Missed(after, scope, dir, u) >= 0
    {
      MissedStep(k, s, scope, dir, u);
    }
  }

  /** What a step makes the collector lose for good of a scope. */
  ghost function StepLoss(k: Kernel, s: Step, scope: Scope, dir: Dir, u: Unit): int
  {
    match s
    case Tick(_, _, _, _, _, _, _) => 0
    case Traffic(name, amount) => if Charged(name, scope, dir) then TrafficLoss(k, name, amount, u) else 0
    case Reset(names) => OwedBy(k, names, scope, dir, u)
    case Rebuild(_) => OwedTotal(k, scope, dir, u)
  }

  /** Over any step, what is missed grows by exactly what the step loses. */
  lemma MissedStep(k: Kernel, s: Step, scope: Scope, dir: Dir, u: Unit)
    requires OneTag(k.live.Keys) && EpochHasBaseline(k.tables) && k.live.Keys <= k.truth.Keys && Enabled(k, s)
    ensures Missed(Next(k, s), scope, dir, u) == Missed(k, scope, dir, u) + StepLoss(k, s, scope, dir, u)
    ensures StepLoss(k, s, scope, dir, u) >= 0
    ensures s.Traffic? && Unmasked(k, s.name) ==> StepLoss(k, s, scope, dir, u) == 0
  {
    match s {
      case Tick(_, _, _, _, _, _, _) => TickMissesNothing(k, s, scope, dir, u);
      case Traffic(_, _) => OvertakingIsExact(k, s, scope, dir, u); TrafficOwedExactly(k, s, u);
      case Reset(names) => ResetMissed(k, s, scope, dir, u); OwedNonNegative(k, k.truth.Keys * names, scope, dir, u);
      case Rebuild(_) => RebuildMissed(k, s, scope, dir, u); OwedNonNegative(k, k.truth.Keys, scope, dir, u);
    }
  }

  /**
    A tick that cannot read the recorded epoch or the baselines books what it would have booked anyway, or
    nothing: a ruleset it fails to recognise as new lacks the baselined tag of the old one.
   */
  lemma UnreadTablesBookNothingElse(k: Kernel, s: Step, metaRead: bool, stateRead: bool)
    requires s.Tick? && Enabled(k, s) && OneTag(k.live.Keys) && EpochHasBaseline(k.tables)
    ensures var t := TickedWith(k.tables, ReadingOf(k, s.reading), s.e, s.tsMs, s.lastSampleTs, s.day, s.interval,
        metaRead, stateRead, s.commits);
            t == k.tables || t == Next(k, s).tables
  {
    hide SlotsOf, BookTotals, BookDaily, BookSamples, Prune, Rebase, ParseEpochName, RoundOf;
    if s.reading.Seen? && !metaRead && FreshRuleset(k.tables, s.e) {
      var snap := ReadingOf(k, s.reading).value;
      var tagged :| tagged in k.tables.counterState && ParseEpochName(tagged) == k.tables.epoch;
      var tag :| tag in snap && IsTag(tag, s.e.value);
      assert tag in k.live;
      assert tagged in snap ==> tagged in k.live;
      assert !Accepts(SeenTables(k.tables, false), snap, s.e);
    } else if s.reading.Seen? {
      SameRound(k, s, metaRead);
    }
  }

  lemma SameRound(k: Kernel, s: Step, metaRead: bool)
    requires s.Tick? && s.reading.Seen? && (metaRead || !FreshRuleset(k.tables, s.e))
    ensures var seen, snap := SeenTables(k.tables, metaRead), ReadingOf(k, s.reading).value;
      && Accepts(seen, snap, s.e) == Accepts(k.tables, snap, s.e)
      && RoundOf(seen, snap, s.e, s.tsMs, s.interval) == RoundOf(k.tables, snap, s.e, s.tsMs, s.interval)
  {
  }

  const FRESH := Kernel(map[], map[], Tables(map[], None, map[], map[], map[]))

  ghost function Run(k: Kernel, steps: seq<Step>): Kernel
    decreases |steps|
  {
    if steps == [] then k else Run(Next(k, steps[0]), steps[1..])
  }

  ghost predicate Possible(k: Kernel, steps: seq<Step>)
    decreases |steps|
  {
    steps == [] || (Enabled(k, steps[0]) && Possible(Next(k, steps[0]), steps[1..]))
  }

  ghost predicate AllTidy(steps: seq<Step>) { forall s :: s in steps ==> Tidy(s) }

  lemma {:induction false} RunKeepsInv(k: Kernel, steps: seq<Step>)
    requires Inv(k) && Possible(k, steps) && AllTidy(steps)
    ensures Inv(Run(k, steps))
    decreases |steps|
  {
    if steps != [] {
      StepKeepsInv(k, steps[0]);
      RunKeepsInv(Next(k, steps[0]), steps[1..]);
    }
  }

  lemma FreshInv()
    ensures Inv(FRESH)
  {
    forall s: Scope, d, u ensures Missed(FRESH, s, d, u) >= 0 {
      assert FRESH.truth.Keys == {};
    }
  }

  /** In every run, no scope is ever booked more than the kernel counted for it. */
  lemma {:induction false} NeverOverCounts(steps: seq<Step>, scope: Scope, dir: Dir, u: Unit)
    requires Possible(FRESH, steps) && AllTidy(steps)
    ensures Booked(Run(FRESH, steps), scope, dir, u) <= Counted(Run(FRESH, steps), scope, dir, u)
  {
    FreshInv();
    RunKeepsInv(FRESH, steps);
    var k := Run(FRESH, steps);
    assert Missed(k, scope, dir, u) >= 0;
    OwedNonNegative(k, k.truth.Keys, scope, dir, u);
  }

  /**
    While the kernel's true counts fit in 64 signed bits, so does every partial sum a tick forms: the old
    total plus what was taken from any part of the counters read.
   */
  lemma TickCannotOverflow(k: Kernel, s: Step, part: set<string>, scope: Scope, dir: Dir, u: Unit)
    requires Inv(k) && s.Tick? && Enabled(k, s) && Books(k, s)
    requires part <= RoundAt(k, s).snap.Keys && Counted(k, scope, dir, u) <= MAX_INT64
    ensures 0 <= SumSet(part, TakenIn(RoundAt(k, s), scope, dir, u))
    ensures Booked(k, scope, dir, u) + SumSet(part, TakenIn(RoundAt(k, s), scope, dir, u)) <= MAX_INT64
  {
    hide ParseEpochName, ParseCounterName, Ticked, Accepts, IsScope, Cell, Get, Contribute, Booked, OwedIn;
    var f, names := TakenIn(RoundAt(k, s), scope, dir, u), RoundAt(k, s).snap.Keys;
    TickOwes(k, s, scope, dir, u);
    OwedNonNegative(Next(k, s), k.truth.Keys, scope, dir, u);
    SumSplit(part, names, f);
    SumNat(part, f);
    SumNat(names - part, f);
    assert Missed(k, scope, dir, u) >= 0;
    assert Next(k, s).truth == k.truth;
  }

  /** What the steps of a run lose, step by step. */
  ghost function Losses(k: Kernel, steps: seq<Step>, scope: Scope, dir: Dir, u: Unit): int
    decreases |steps|
  {
    if steps == [] then 0 else StepLoss(k, steps[0], scope, dir, u) + Losses(Next(k, steps[0]), steps[1..], scope, dir, u)
  }

  /** In every run, bytes and packets alike, what is missed is what the steps lost. */
  lemma {:induction false} LossesAddUp(k: Kernel, steps: seq<Step>, scope: Scope, dir: Dir, u: Unit)
    requires Inv(k) && Possible(k, steps) && AllTidy(steps)
    ensures Missed(Run(k, steps), scope, dir, u) == Missed(k, scope, dir, u) + Losses(k, steps, scope, dir, u)
    decreases |steps|
  {
    if steps != [] {
      hide Missed, StepLoss, Next, Enabled;
      StepKeepsInv(k, steps[0]);
      MissedStep(k, steps[0], scope, dir, u);
      hide Inv;
      LossesAddUp(Next(k, steps[0]), steps[1..], scope, dir, u);
    }
  }

  /**
    Exactly, over every run from the start: what the kernel counted for a scope is what is booked, what the
    next full tick will book, and what the run's resets, rebuilds and overtaken baselines lost.
   */
  lemma {:induction false} CountedIsAccounted(steps: seq<Step>, scope: Scope, dir: Dir, u: Unit)
    requires Possible(FRESH, steps) && AllTidy(steps)
    ensures var k := Run(FRESH, steps);
            Counted(k, scope, dir, u) == Booked(k, scope, dir, u) + OwedTotal(k, scope, dir, u) + Losses(FRESH, steps, scope, dir, u)
  {
    FreshInv();
    FreshMissesNothing(scope, dir, u);
    LossesAddUp(FRESH, steps, scope, dir, u);
    hide Inv, Run, Losses, Counted, OwedTotal, Booked, Possible;
  }

  lemma FreshMissesNothing(scope: Scope, dir: Dir, u: Unit)
    ensures Missed(FRESH, scope, dir, u) == 0
  {
    assert FRESH.truth.Keys == {};
  }

  // ----- exactness -----

  /** The baselines belong to the installed ruleset and no counter has fallen below its own. */
  ghost predicate Settled(k: Kernel)
  {
    UsesBaselines(k) && forall n :: n in k.live && n in k.tables.counterState ==> Unmasked(k, n)
  }

  /** A tick that reads every live counter and is accepted. */
  ghost predicate ReadsAll(k: Kernel, s: Step)
  {
    s.Tick? && Enabled(k, s) && Books(k, s) && k.live.Keys <= s.reading.names
  }

  predicate Calm(s: Step) { s.Tick? || s.Traffic? }

  /** What the live counters show for a scope. */
  ghost function Shown(k: Kernel, scope: Scope, dir: Dir, u: Unit): int
  {
    SumSet(k.truth.Keys, ShownIn(k, scope, dir, u))
  }

  ghost function ShownIn(k: Kernel, scope: Scope, dir: Dir, u: Unit): string -> int
  {
    n => if Charged(n, scope, dir) then Part(CountOf(k.live, n), u) else 0
  }

  lemma FullTickSettles(k: Kernel, s: Step, scope: Scope, dir: Dir, u: Unit)
    requires Inv(k) && ReadsAll(k, s)
    ensures Settled(Next(k, s)) && OwedTotal(Next(k, s), scope, dir, u) == 0
  {
    var after := Next(k, s);
    FreshnessIsRight(k, s);
    TickTables(k, s);
    hide ParseEpochName, ParseCounterName, SlotsOf, BookTotals, BookDaily, Ticked, Accepts, IsScope, PicksEpoch,
        FreshRuleset;
    forall n ensures OwedIn(after, scope, dir, u)(n) == 0
    {
      TickTakesAll(k, s, n);
    }
    hide Owed;
    SumSupport({}, k.truth.Keys, OwedIn(after, scope, dir, u));
  }

  lemma CalmStep(k: Kernel, s: Step, scope: Scope, dir: Dir, u: Unit)
    requires Inv(k) && Settled(k) && Enabled(k, s) && Calm(s)
    ensures Inv(Next(k, s)) && Settled(Next(k, s))
    ensures Missed(Next(k, s), scope, dir, u) == Missed(k, scope, dir, u)
    ensures Counted(Next(k, s), scope, dir, u) - Counted(k, scope, dir, u)
        == Shown(Next(k, s), scope, dir, u) - Shown(k, scope, dir, u)
  {
    var after := Next(k, s);
    StepKeepsInv(k, s);
    MissedStep(k, s, scope, dir, u);
    hide Missed, StepLoss, Inv, IsScope, OwedTotal, Booked;
    if s.Traffic? {
      hide ParseEpochName, ParseCounterName;
      assert after.truth.Keys == k.truth.Keys && after.live.Keys == k.live.Keys;
      SumBump(k.truth.Keys, s.name, TruthIn(k, scope, dir, u), TruthIn(after, scope, dir, u));
      SumBump(k.truth.Keys, s.name, ShownIn(k, scope, dir, u), ShownIn(after, scope, dir, u));
    } else {
      SumCong(k.truth.Keys, TruthIn(k, scope, dir, u), TruthIn(after, scope, dir, u));
      SumCong(k.truth.Keys, ShownIn(k, scope, dir, u), ShownIn(after, scope, dir, u));
      if Books(k, s) {
        FreshnessIsRight(k, s);
        TickTables(k, s);
      }
    }
  }

  lemma {:induction false} CalmRun(k: Kernel, steps: seq<Step>, scope: Scope, dir: Dir, u: Unit)
    requires Inv(k) && Settled(k) && Possible(k, steps) && forall s :: s in steps ==> Calm(s)
    ensures Inv(Run(k, steps)) && Settled(Run(k, steps))
    ensures Missed(Run(k, steps), scope, dir, u) == Missed(k, scope, dir, u)
    ensures Counted(Run(k, steps), scope, dir, u) - Counted(k, scope, dir, u) ==
            Shown(Run(k, steps), scope, dir, u) - Shown(k, scope, dir, u)
    decreases |steps|
  {
    if steps != [] {
      hide Inv, Settled, Missed, Counted, Shown, Next, Enabled;
      CalmStep(k, steps[0], scope, dir, u);
      CalmRun(Next(k, steps[0]), steps[1..], scope, dir, u);
    }
  }

  /**
    Between two full accepted ticks with no reset or rebuild in between, the totals grow by exactly the
    difference of the two snapshots, however many failed, rejected or partial ticks fall between them.
   */
  lemma Telescoping(k: Kernel, first: Step, between: seq<Step>, last: Step, scope: Scope, dir: Dir, u: Unit)
    requires Inv(k) && ReadsAll(k, first)
    requires Possible(Next(k, first), between) && forall s :: s in between ==> Calm(s)
    requires ReadsAll(Run(Next(k, first), between), last)
    ensures var a := Next(k, first); var b := Next(Run(a, between), last);
            Booked(b, scope, dir, u) - Booked(a, scope, dir, u) == Shown(b, scope, dir, u) - Shown(a, scope, dir, u)
  {
    var a := Next(k, first);
    StepKeepsInv(k, first);
    FullTickSettles(k, first, scope, dir, u);
    CalmRun(a, between, scope, dir, u);
    CalmStep(Run(a, between), last, scope, dir, u);
    FullTickSettles(Run(a, between), last, scope, dir, u);
  }

  // ----- baselines and epochs -----

  /**
    Within one epoch no counter ever loses its baseline, and a snapshot without any tag is never booked
    over tagged baselines.
   */
  lemma BaselinesAreKept(k: Kernel, s: Step)
    requires s.Tick? && Enabled(k, s)
    ensures Next(k, s).tables.epoch == k.tables.epoch ==>
        k.tables.counterState.Keys <= Next(k, s).tables.counterState.Keys
    ensures (exists n :: n in k.tables.counterState && ParseEpochName(n).Some?) && s.e.None? ==> Next(k, s) == k
  {
    if Books(k, s) {
      hide ParseEpochName;
      TickTables(k, s);
      var snap := ReadingOf(k, s.reading).value;
      if n :| n in k.tables.counterState && ParseEpochName(n).Some? {
        assert s.e.None? ==> n in snap;
      }
    }
  }

  ghost function DayIn(t: Tables, scope: Scope, dir: Dir, u: Unit): string -> int
  {
    day => Cell(Get(Row(t.daily, day), scope), dir, u)
  }

  /** totals is the sum of daily over the days. */
  ghost predicate DailyAgrees(t: Tables, scope: Scope, dir: Dir, u: Unit)
  {
    Cell(Get(t.totals, scope), dir, u) == SumSet(t.daily.Keys, DayIn(t, scope, dir, u))
  }

  function SlotCell(deltas: map<Scope, Slot>, scope: Scope, dir: Dir, u: Unit): nat
  {
    if scope in deltas then Cell(deltas[scope].Booked(), dir, u) else 0
  }

  lemma BookCell(row: map<Scope, Totals>, deltas: map<Scope, Slot>, scope: Scope, dir: Dir, u: Unit)
    ensures Cell(Get(BookTotals(row, deltas), scope), dir, u)
        == Cell(Get(row, scope), dir, u) + SlotCell(deltas, scope, dir, u)
  {
  }

  lemma NothingMoved(deltas: map<Scope, Slot>, scope: Scope, dir: Dir, u: Unit)
    requires Moved(deltas) == {}
    ensures SlotCell(deltas, scope, dir, u) == 0
  {
    hide IsScope;
    assert scope in deltas ==> scope !in Moved(deltas);
  }

  /** Booking adds the slot to its day and leaves the other days alone. */
  lemma DayBooked(t: Tables, t': Tables, day: string, deltas: map<Scope, Slot>, scope: Scope, dir: Dir, u: Unit,
      d: string)
    requires t'.daily == BookDaily(t.daily, day, deltas)
    ensures DayIn(t', scope, dir, u)(d) == DayIn(t, scope, dir, u)(d) + if d == day then SlotCell(deltas, scope, dir, u) else 0
    ensures t'.daily.Keys == t.daily.Keys || t'.daily.Keys == t.daily.Keys + {day}
  {
    BookCell(Row(t.daily, day), deltas, scope, dir, u);
    hide BookTotals, IsScope, Cell, Get;
    if Moved(deltas) == {} { NothingMoved(deltas, scope, dir, u); }
  }

  lemma BookingKeepsDaily(t: Tables, t': Tables, day: string, deltas: map<Scope, Slot>, scope: Scope, dir: Dir, u: Unit)
    requires DailyAgrees(t, scope, dir, u)
    requires t'.totals == BookTotals(t.totals, deltas) && t'.daily == BookDaily(t.daily, day, deltas)
    ensures DailyAgrees(t', scope, dir, u)
  {
    var f, g := DayIn(t, scope, dir, u), DayIn(t', scope, dir, u);
    BookCell(t.totals, deltas, scope, dir, u);
    forall d ensures g(d) == f(d) + if d == day then SlotCell(deltas, scope, dir, u) else 0
    {
      DayBooked(t, t', day, deltas, scope, dir, u, d);
    }
    DayBooked(t, t', day, deltas, scope, dir, u, day);
    NoRowNoCell(t, day, scope, dir, u);
    NoRowNoCell(t', day, scope, dir, u);
    hide BookTotals, BookDaily, IsScope, Cell, Get, DayIn, SlotCell;
    SumsByDay(t.daily.Keys, t'.daily.Keys, day, f, g, SlotCell(deltas, scope, dir, u));
  }

  lemma NoRowNoCell(t: Tables, day: string, scope: Scope, dir: Dir, u: Unit)
    ensures day !in t.daily ==> DayIn(t, scope, dir, u)(day) == 0
  {
  }

  lemma SumsByDay(days: set<string>, days': set<string>, day: string, f: string -> int, g: string -> int, amount: int)
    requires days' == days || days' == days + {day}
    requires forall d :: g(d) == f(d) + if d == day then amount else 0
    requires (day !in days ==> f(day) == 0) && (day !in days' ==> g(day) == 0)
    ensures SumSet(days', g) == SumSet(days, f) + amount
  {
    if day in days {
      assert days' == days;
      SumBump(days, day, f, g);
    } else if day in days' {
      SumInsert(days, day, g);
      SumCong(days, f, g);
    } else {
      SumCong(days, f, g);
    }
  }

  /** In every run the two local ledgers agree, however often the clock moves the day back and forth. */
  lemma {:induction false} DailyAgreesInEveryRun(k: Kernel, steps: seq<Step>, scope: Scope, dir: Dir, u: Unit)
    requires DailyAgrees(k.tables, scope, dir, u) && Possible(k, steps)
    ensures DailyAgrees(Run(k, steps).tables, scope, dir, u)
    decreases |steps|
  {
    if steps != [] {
      var s, after := steps[0], Next(k, steps[0]);
      if s.Tick? && Books(k, s) {
        TickTables(k, s);
        BookingKeepsDaily(k.tables, after.tables, s.day, SlotsOf(RoundAt(k, s), RoundAt(k, s).snap.Keys), scope, dir, u);
      } else {
        assert after.tables == k.tables;
      }
      DailyAgreesInEveryRun(after, steps[1..], scope, dir, u);
    }
  }

  // ----- why a ruleset must carry a single epoch -----

  /** A tick over the whole ruleset that picks this tag. */
  function FullTick(names: set<string>, e: nat): Step { Tick(Seen(names), Some(e), 0, 0, "", 1, true) }

  /** Picking an epoch other than the recorded one books every live counter in full. */
  lemma FreshTickBooksAll(k: Kernel, e: nat, name: string, scope: Scope, dir: Dir, u: Unit)
    requires k.tables.epoch.Some? && k.tables.epoch != Some(e)
    requires name in k.live && Charged(name, scope, dir)
    ensures var s := FullTick(k.live.Keys, e);
            && Booked(Next(k, s), scope, dir, u) >= Booked(k, scope, dir, u) + Part(k.live[name], u)
            && Next(k, s).tables.epoch == Some(e)
  {
    var s := FullTick(k.live.Keys, e);
    var r := RoundAt(k, s);
    assert r.snap == k.live;
    TickBooks(k, s, scope, dir, u);
    var f := TakenIn(r, scope, dir, u);
    SumRemove(r.snap.Keys, name, f);
    SumNat(r.snap.Keys - {name}, f);
    assert f(name) == Part(k.live[name], u);
  }

  /** The run that charges one counter and then reads the ruleset twice, once under each tag. */
  function TwoReadings(name: string, names: set<string>, amount: nat, a: nat, b: nat): seq<Step>
  {
    [Traffic(name, Count(amount, amount)), FullTick(names, a), FullTick(names, b)]
  }

  lemma ThreeSteps(k: Kernel, x: Step, y: Step, z: Step)
    requires Enabled(k, x) && Enabled(Next(k, x), y) && Enabled(Next(Next(k, x), y), z)
    ensures Possible(k, [x, y, z]) && Run(k, [x, y, z]) == Next(Next(Next(k, x), y), z)
  {
    hide Enabled, Next;
    var a := Next(k, x);
    var b := Next(a, y);
    assert [x, y, z][1..] == [y, z] && [y, z][1..] == [z] && [z][1..] == [];
    assert Possible(Next(b, z), []) && Run(Next(b, z), []) == Next(b, z);
    assert Possible(b, [z]) && Run(b, [z]) == Next(b, z);
    assert Possible(a, [y, z]) && Run(a, [y, z]) == Run(b, [z]);
  }

  lemma TwoReadingsOverCount(k: Kernel, names: set<string>, name: string, scope: Scope, dir: Dir, a: nat, b: nat)
    requires k.live.Keys <= k.truth.Keys && k.live == map n | n in names :: NO_COUNT
    requires k.tables.epoch.Some? && k.tables.epoch != Some(a) && a != b
    requires name in names && Charged(name, scope, dir)
    requires (exists n :: n in names && IsTag(n, a)) && (exists n :: n in names && IsTag(n, b))
    ensures exists steps :: (Possible(k, steps) && AllTidy(steps) &&
                             Booked(Run(k, steps), scope, dir, Bytes) > Counted(Run(k, steps), scope, dir, Bytes))
  {
    hide ParseEpochName, ParseCounterName, Ticked, Accepts, IsScope, Cell, Get, Counted, Booked;
    var amount := Max(0, Counted(k, scope, dir, Bytes)) + 1;
    var steps := TwoReadings(name, names, amount, a, b);
    var k1 := Next(k, steps[0]);
    TrafficCounted(k, name, amount, scope, dir);
    assert k1.live.Keys == names && k1.live[name].bytes == amount && k1.tables == k.tables;
    assert Restrict(k1.live, names) == k1.live;
    FreshTickBooksAll(k1, a, name, scope, dir, Bytes);
    var k2 := Next(k1, steps[1]);
    assert k2.live == k1.live && k2.truth == k1.truth;
    FreshTickBooksAll(k2, b, name, scope, dir, Bytes);
    var k3 := Next(k2, steps[2]);
    assert Enabled(k, steps[0]) && Enabled(k1, steps[1]) && Enabled(k2, steps[2]);
    assert k3.truth == k1.truth;
    BookedIsNat(k1, scope, dir);
    SameTruthSameCount(k1, k3, scope, dir);
    hide Next, Enabled, PicksEpoch;
    ThreeSteps(k, steps[0], steps[1], steps[2]);
  }

  lemma TrafficCounted(k: Kernel, name: string, amount: nat, scope: Scope, dir: Dir)
    requires k.live.Keys <= k.truth.Keys && name in k.live && Charged(name, scope, dir)
    ensures Counted(Next(k, Traffic(name, Count(amount, amount))), scope, dir, Bytes)
        == Counted(k, scope, dir, Bytes) + amount
  {
    hide ParseCounterName, IsScope;
    var after := Next(k, Traffic(name, Count(amount, amount)));
    assert after.truth.Keys == k.truth.Keys;
    SumBump(k.truth.Keys, name, TruthIn(k, scope, dir, Bytes), TruthIn(after, scope, dir, Bytes));
  }

  lemma BookedIsNat(k: Kernel, scope: Scope, dir: Dir)
    ensures Booked(k, scope, dir, Bytes) >= 0
  {
  }

  lemma SameTruthSameCount(k: Kernel, after: Kernel, scope: Scope, dir: Dir)
    requires k.truth == after.truth
    ensures Counted(k, scope, dir, Bytes) == Counted(after, scope, dir, Bytes)
  {
    SumCong(k.truth.Keys, TruthIn(k, scope, dir, Bytes), TruthIn(after, scope, dir, Bytes));
  }

  ghost predicate SafeFrom(k: Kernel)
  {
    forall steps, scope: Scope, dir, u :: Possible(k, steps) && AllTidy(steps) ==>
      Booked(Run(k, steps), scope, dir, u) <= Counted(Run(k, steps), scope, dir, u)
  }

  /** No epoch is recorded and a counter with a baseline is not installed: every snapshot is turned away. */
  ghost predicate Stuck(k: Kernel) { k.tables.epoch.None? && !(k.tables.counterState.Keys <= k.live.Keys) }

  ghost predicate Guarded(k: Kernel)
  {
    Inv(k) || (Stuck(k) && k.live.Keys <= k.truth.Keys && forall s: Scope, d, u :: Missed(k, s, d, u) >= 0)
  }

  lemma StuckStep(k: Kernel, s: Step, scope: Scope, dir: Dir, u: Unit)
    requires Stuck(k) && k.live.Keys <= k.truth.Keys && Enabled(k, s) && Missed(k, scope, dir, u) >= 0
    ensures Missed(Next(k, s), scope, dir, u) >= 0
    ensures s.Tick? ==> Next(k, s) == k
  {
    match s {
      case Tick(_, _, _, _, _, _, _) =>
      case Traffic(_, _) => OvertakingIsExact(k, s, scope, dir, u);
      case Reset(names) => ResetMissed(k, s, scope, dir, u); OwedNonNegative(k, k.truth.Keys * names, scope, dir, u);
      case Rebuild(_) => RebuildMissed(k, s, scope, dir, u); OwedNonNegative(k, k.truth.Keys, scope, dir, u);
    }
  }

  lemma StepKeepsGuarded(k: Kernel, s: Step)
    requires Guarded(k) && Enabled(k, s) && Tidy(s)
    ensures Guarded(Next(k, s))
  {
    if Inv(k) {
      StepKeepsInv(k, s);
    } else {
      hide ParseEpochName, Ticked, Missed;
      var after := Next(k, s);
      forall scope: Scope, dir, u ensures Missed(after, scope, dir, u) >= 0 { StuckStep(k, s, scope, dir, u); }
      if s.Tick? { StuckStep(k, s, "system", Rx, Bytes); }
      assert after.tables == k.tables;
      assert s.Rebuild? ==> Inv(after);
    }
  }

  lemma {:induction false} RunKeepsGuarded(k: Kernel, steps: seq<Step>)
    requires Guarded(k) && Possible(k, steps) && AllTidy(steps)
    ensures Guarded(Run(k, steps))
    decreases |steps|
  {
    if steps != [] {
      StepKeepsGuarded(k, steps[0]);
      RunKeepsGuarded(Next(k, steps[0]), steps[1..]);
    }
  }

  lemma GuardedIsSafe(k: Kernel)
    requires Guarded(k)
    ensures SafeFrom(k)
  {
    hide Inv, Stuck, Counted, OwedTotal, Booked;
    forall steps, scope: Scope, dir, u | Possible(k, steps) && AllTidy(steps)
      ensures Booked(Run(k, steps), scope, dir, u) <= Counted(Run(k, steps), scope, dir, u)
    {
      RunKeepsGuarded(k, steps);
      var end := Run(k, steps);
      OwedTotalNonNegative(end, scope, dir, u);
      assert Missed(end, scope, dir, u) >= 0 by { GuardedMissed(end, scope, dir, u); }
    }
  }

  lemma GuardedMissed(k: Kernel, scope: Scope, dir: Dir, u: Unit)
    requires Guarded(k)
    ensures Missed(k, scope, dir, u) >= 0
  {
    hide Missed;
  }

  lemma OwedTotalNonNegative(k: Kernel, scope: Scope, dir: Dir, u: Unit)
    ensures OwedTotal(k, scope, dir, u) >= 0
  {
    OwedNonNegative(k, k.truth.Keys, scope, dir, u);
  }

  lemma RebuildIsGuarded(k: Kernel, names: set<string>)
    requires Inv(k)
    requires OneTag(names) || (k.tables.epoch.None? && !(k.tables.counterState.Keys <= names))
    ensures Guarded(Next(k, Rebuild(names)))
  {
    var s := Rebuild(names);
    if OneTag(names) {
      StepKeepsInv(k, s);
    } else {
      hide ParseEpochName, Missed;
      var after := Next(k, s);
      assert after.live.Keys == names;
      forall scope: Scope, dir, u ensures Missed(after, scope, dir, u) >= 0
      {
        RebuildMissed(k, s, scope, dir, u);
        OwedTotalNonNegative(k, scope, dir, u);
      }
    }
  }

  /**
    With nothing recorded yet, a first reading of a ruleset all of whose baselines are installed records
    a tag of it.
   */
  lemma FirstReading(k: Kernel, names: set<string>, e: nat)
    requires k.tables.epoch.None? && k.tables.counterState.Keys <= names
    requires k.live == (map n | n in names :: NO_COUNT) && exists n :: n in names && IsTag(n, e)
    ensures Enabled(k, FullTick(names, e)) && var t := Next(k, FullTick(names, e));
      t.live == k.live && t.truth == k.truth && t.tables.epoch == Some(e)
  {
    hide SlotsOf, BookTotals, BookDaily, BookSamples, Prune, Rebase, ParseEpochName;
    assert Restrict(k.live, names) == k.live && k.live.Keys == names;
  }

  lemma OneStepMore(k: Kernel, s: Step, scope: Scope, dir: Dir)
    requires Enabled(k, s) && Tidy(s)
    requires exists steps :: (Possible(Next(k, s), steps) && AllTidy(steps) &&
               Booked(Run(Next(k, s), steps), scope, dir, Bytes) > Counted(Run(Next(k, s), steps), scope, dir, Bytes))
    ensures !SafeFrom(k)
  {
    hide Enabled, Next, Booked, Counted, Tidy;
    var rest :| Possible(Next(k, s), rest) && AllTidy(rest) &&
      Booked(Run(Next(k, s), rest), scope, dir, Bytes) > Counted(Run(Next(k, s), rest), scope, dir, Bytes);
    var all := [s] + rest;
    assert all[0] == s && all[1..] == rest;
    assert Possible(k, all) && AllTidy(all) && Run(k, all) == Run(Next(k, s), rest);
  }

  lemma TwoTagsAreUnsafe(k: Kernel, names: set<string>)
    requires k.live.Keys <= k.truth.Keys && k.live == (map n | n in names :: NO_COUNT) && !OneTag(names)
    requires k.tables.epoch.Some? || k.tables.counterState.Keys <= names
    requires exists n :: n in names && ParseCounterName(n).Some?
    ensures !SafeFrom(k)
  {
    hide ParseEpochName, ParseCounterName, Booked, Counted, Ticked;
    var m, n :|
      m in names && n in names && ParseEpochName(m).Some? && ParseEpochName(n).Some? && ParseEpochName(m) != ParseEpochName(n);
    var x, y := ParseEpochName(m).value, ParseEpochName(n).value;
    assert IsTag(m, x) && IsTag(n, y);
    var name :| name in names && ParseCounterName(name).Some?;
    var scope, dir := ParseCounterName(name).value.0, ParseCounterName(name).value.1;
    if k.tables.epoch.Some? {
      var a, b := if k.tables.epoch != Some(x) then x else y, if k.tables.epoch != Some(x) then y else x;
      TwoReadingsOverCount(k, names, name, scope, dir, a, b);
    } else {
      FirstReading(k, names, y);
      TwoReadingsOverCount(Next(k, FullTick(names, y)), names, name, scope, dir, x, y);
      OneStepMore(k, FullTick(names, y), scope, dir);
    }
  }

  /**
    Installing a ruleset, over a recorded epoch or as the first one, is safe in every continuation exactly
    when its epoch tags agree, or nothing of it can ever be booked: with no epoch recorded and a counter with
    a baseline left out of it, every snapshot is turned away. With two tags, the order in which readings meet
    them can book the same bytes twice.
   */
  lemma SingleTagIsExact(k: Kernel, names: set<string>)
    requires Inv(k)
    requires exists n :: n in names && ParseCounterName(n).Some?
    ensures SafeFrom(Next(k, Rebuild(names))) <==>
            OneTag(names) || (k.tables.epoch.None? && !(k.tables.counterState.Keys <= names))
  {
    hide ParseEpochName, ParseCounterName, SafeFrom, Guarded;
    var after := Next(k, Rebuild(names));
    if OneTag(names) || (k.tables.epoch.None? && !(k.tables.counterState.Keys <= names)) {
      RebuildIsGuarded(k, names);
      GuardedIsSafe(after);
    } else {
      TwoTagsAreUnsafe(after, names);
    }
  }

  /**
    One recorded epoch, then a ruleset that still carries its tag beside a new one, is unsafe; so is a
    first ruleset with two tags.
   */
  lemma TwoTagsAreReached()
    ensures var one, two := {NftEpoch(1), NftSystem(Rx)}, {NftEpoch(1), NftEpoch(2), NftSystem(Rx)};
            var steps := [Rebuild(one), FullTick(one, 1)];
            && Possible(FRESH, steps) && AllTidy(steps) && !SafeFrom(Next(Run(FRESH, steps), Rebuild(two)))
            && !SafeFrom(Next(FRESH, Rebuild(two)))
  {
    hide ParseEpochName, ParseCounterName, SafeFrom, NftEpoch, NftSystem, Ticked, Accepts;
    var one, two := {NftEpoch(1), NftSystem(Rx)}, {NftEpoch(1), NftEpoch(2), NftSystem(Rx)};
    var s1, s2 := Rebuild(one), FullTick(one, 1);
    FirstRuleset();
    EpochNamesRoundTrip(2);
    var k1 := Next(FRESH, s1);
    var k2 := Next(k1, s2);
    FirstEpochIsRecorded(k1, one);
    FreshInv();
    StepKeepsInv(FRESH, s1);
    StepKeepsInv(k1, s2);
    TwoSteps(FRESH, s1, s2);
    assert NftSystem(Rx) in two;
    SingleTagIsExact(k2, two);
    SingleTagIsExact(FRESH, two);
  }

  lemma FirstRuleset()
    ensures var one := {NftEpoch(1), NftSystem(Rx)}; var k1 := Next(FRESH, Rebuild(one));
      && OneTag(one) && Enabled(k1, FullTick(one, 1)) && ParseEpochName(NftEpoch(1)) == Some(1)
      && ParseCounterName(NftSystem(Rx)) == Some(("system", Rx)) && ParseEpochName(NftSystem(Rx)).None?
  {
    hide ParseEpochName, ParseCounterName, NftEpoch, NftSystem;
    var one := {NftEpoch(1), NftSystem(Rx)};
    EpochNamesRoundTrip(1);
    SystemNamesRoundTrip(Rx, "");
    EpochIsNoCounter(NftSystem(Rx));
    var k1 := Next(FRESH, Rebuild(one));
    assert Restrict(k1.live, one) == k1.live && IsTag(NftEpoch(1), 1);
  }

  lemma FirstEpochIsRecorded(k: Kernel, names: set<string>)
    requires k.tables == FRESH.tables
    ensures Next(k, FullTick(names, 1)).tables.epoch == Some(1)
  {
    hide SlotsOf, BookTotals, BookDaily, BookSamples, Prune, Rebase;
  }

  lemma TwoSteps(k: Kernel, x: Step, y: Step)
    requires Enabled(k, x) && Enabled(Next(k, x), y)
    ensures Possible(k, [x, y]) && Run(k, [x, y]) == Next(Next(k, x), y)
  {
    hide Enabled, Next;
    var a := Next(k, x);
    assert [x, y][1..] == [y] && [y][1..] == [];
    assert Possible(Next(a, y), []) && Run(Next(a, y), []) == Next(a, y);
    assert Possible(a, [y]) && Run(a, [y]) == Next(a, y);
  }

  function OneByte(): Step { Traffic(NftSystem(Rx), Count(1, 1)) }

  /**
    Count, tick, reset, count: the byte counted last stands where the tick's baseline does, and no tick
    will ever book it.
   */
  lemma OvertakingIsReached()
    ensures var one := {NftEpoch(1), NftSystem(Rx)};
            var steps := [Rebuild(one), OneByte(), FullTick(one, 1)] + [Reset({NftSystem(Rx)})];
            Possible(FRESH, steps) && AllTidy(steps) && var k := Run(FRESH, steps);
            Enabled(k, OneByte()) && Overtakes(k, NftSystem(Rx), Count(1, 1)) &&
            Missed(Next(k, OneByte()), "system", Rx, Bytes) == Missed(k, "system", Rx, Bytes) + 1
  {
    var k3 := CountedAndRead();
    hide ParseEpochName, ParseCounterName, NftEpoch, NftSystem, Next, Enabled, Missed, Overtakes, TrafficLoss, OneTag;
    var one, s4 := {NftEpoch(1), NftSystem(Rx)}, Reset({NftSystem(Rx)});
    ResetHides(k3, NftSystem(Rx));
    RunOneStep(k3, s4);
    RunJoins(FRESH, [Rebuild(one), OneByte(), FullTick(one, 1)], [s4]);
    OvertakingIsExact(Next(k3, s4), OneByte(), "system", Rx, Bytes);
  }

  lemma RunOneStep(k: Kernel, s: Step)
    requires Enabled(k, s)
    ensures Possible(k, [s]) && Run(k, [s]) == Next(k, s)
  {
    hide Enabled, Next;
    assert [s][1..] == [];
    assert Possible(Next(k, s), []) && Run(Next(k, s), []) == Next(k, s);
  }

  lemma CountedAndRead() returns (k: Kernel)
    ensures var one := {NftEpoch(1), NftSystem(Rx)};
            var steps := [Rebuild(one), OneByte(), FullTick(one, 1)];
            && Possible(FRESH, steps) && Run(FRESH, steps) == k && OneTag(one)
            && k.live.Keys == one && k.truth.Keys == one && k.tables.epoch == Some(1)
            && NftSystem(Rx) in k.tables.counterState && k.tables.counterState[NftSystem(Rx)].bytes == 1
    ensures ParseEpochName(NftEpoch(1)) == Some(1) && ParseEpochName(NftSystem(Rx)).None?
    ensures ParseCounterName(NftSystem(Rx)) == Some(("system", Rx))
  {
    hide ParseEpochName, ParseCounterName, NftEpoch, NftSystem, Ticked, Accepts;
    var one := {NftEpoch(1), NftSystem(Rx)};
    FirstRuleset();
    var k1 := Next(FRESH, Rebuild(one));
    var k2 := Next(k1, OneByte());
    assert k2.live.Keys == k1.live.Keys == one;
    assert Restrict(k1.live, one) == k1.live && Restrict(k2.live, one) == k2.live;
    FirstByteIsBooked(k2, one);
    k := Next(k2, FullTick(one, 1));
    assert Enabled(k1, OneByte()) && Enabled(k2, FullTick(one, 1));
    hide Next, Enabled;
    ThreeSteps(FRESH, Rebuild(one), OneByte(), FullTick(one, 1));
  }

  lemma FirstByteIsBooked(k: Kernel, names: set<string>)
    requires k.tables == FRESH.tables && k.live.Keys == names
    ensures var t := Next(k, FullTick(names, 1)).tables; t.epoch == Some(1) && t.counterState == Rebase(k.live, 0)
  {
    hide SlotsOf, BookTotals, BookDaily, BookSamples, Prune, Rebase;
    assert Restrict(k.live, names) == k.live;
  }

  lemma {:induction false} RunJoins(k: Kernel, a: seq<Step>, b: seq<Step>)
    requires Possible(k, a) && Possible(Run(k, a), b)
    ensures Possible(k, a + b) && Run(k, a + b) == Run(Run(k, a), b)
    decreases |a|
  {
    if a == [] {
      assert a + b == b;
    } else {
      assert (a + b)[0] == a[0] && (a + b)[1..] == a[1..] + b;
      RunJoins(Next(k, a[0]), a[1..], b);
    }
  }

  /** After the reset of a counter with a baseline of one byte, the next byte overtakes that baseline. */
  lemma ResetHides(k: Kernel, name: string)
    requires name in k.live && name in k.tables.counterState && k.tables.counterState[name].bytes == 1
    requires k.live.Keys <= k.truth.Keys && k.tables.epoch == Some(1)
    requires forall n :: n in k.live && ParseEpochName(n).Some? ==> ParseEpochName(n) == Some(1)
    ensures Enabled(k, Reset({name})) && var k4 := Next(k, Reset({name}));
      && k4.live.Keys <= k4.truth.Keys && Enabled(k4, Traffic(name, Count(1, 1))) && Overtakes(k4, name, Count(1, 1))
      && TrafficLoss(k4, name, Count(1, 1), Bytes) == 1
  {
    hide ParseEpochName;
    assert Next(k, Reset({name})).live.Keys == k.live.Keys;
  }
}

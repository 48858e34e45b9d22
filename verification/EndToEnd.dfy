/**
  From the kernel's counters to the manager's ledger: the collector's runs and the synchronisation
  protocol of one machine, composed. The agent's totals are the collector's table.
 */
module EndToEnd {
  import opened Names
  import opened Ledger
  import opened TrafficSync
  import opened SyncProtocol
  import C = Collector
  import K = KernelRuns

  datatype System = System(kernel: K.Kernel, world: World)

  /** A step of the kernel other than a tick, a tick with its new totals, or a step of the protocol. */
  datatype Move = OfKernel(k: K.Step) | OfTick(t: K.Step) | OfSync(s: Step)

  /** The byte columns of the collector's totals, which is what computeDeltas selects. */
  function BytesOf(t: map<Scope, C.Totals>): map<Scope, Pair> { map s | s in t :: Pair(t[s].rx, t[s].tx) }

  /** One loop ticks and then computes deltas, so a tick never falls between the writes of computeDeltas. */
  ghost predicate May(y: System, m: Move)
  {
    match m
    case OfKernel(k) => !k.Tick? && K.Enabled(y.kernel, k) && K.Tidy(k)
    case OfTick(t) => t.Tick? && K.Enabled(y.kernel, t) && y.world.hand.Idle?
    case OfSync(s) => !s.Collect? && Enabled(y.world, s)
  }

  ghost function After(y: System, m: Move): System
    requires May(y, m)
  {
    match m
    case OfKernel(k) => y.(kernel := K.Next(y.kernel, k))
    case OfTick(t) =>
      var kernel := K.Next(y.kernel, t);
      System(kernel, Next(y.world, Collect(BytesOf(kernel.tables.totals))))
    case OfSync(s) => y.(world := Next(y.world, s))
  }

  ghost predicate Allowed(y: System, moves: seq<Move>)
    decreases |moves|
  {
    moves == [] || (May(y, moves[0]) && Allowed(After(y, moves[0]), moves[1..]))
  }

  ghost function Execute(y: System, moves: seq<Move>): System
    requires Allowed(y, moves)
    decreases |moves|
  {
    if moves == [] then y else Execute(After(y, moves[0]), moves[1..])
  }

  // ----- the protocol while totals only grow -----

  ghost predicate Grows(a: Agent, totals: map<Scope, Pair>)
  {
    forall s: Scope ::
      TotalOf(a, s).rx <= TotalOf(a.(totals := totals), s).rx && TotalOf(a, s).tx <= TotalOf(a.(totals := totals), s).tx
  }

  lemma StepKeepsNoShortfall(w: World, s: Step)
    requires NoShortfall(w.agent) && Enabled(w, s)
    requires s.Collect? ==> Grows(w.agent, s.totals)
    ensures NoShortfall(Next(w, s).agent)
  {
    hide IsScope, NodeOf, Outgoing, Ingest, SurplusOf, Shortfall, Increase, SeenIncrease, RowFor, Excess;
    var after := Next(w, s);
    forall t: Scope
      ensures BaseOf(after.agent, t).rx <= TotalOf(after.agent, t).rx
      ensures BaseOf(after.agent, t).tx <= TotalOf(after.agent, t).tx
    {
      assert BaseOf(w.agent, t).rx <= TotalOf(w.agent, t).rx && BaseOf(w.agent, t).tx <= TotalOf(w.agent, t).tx;
    }
  }

  /** The row in hand was computed over a baseline that is not zero but could not be read. */
  ghost predicate Overstates(w: World)
  {
    !w.hand.Idle? && !w.hand.read && !(BaseOf(w.agent, w.hand.scope).rx == 0 && BaseOf(w.agent, w.hand.scope).tx == 0)
  }

  /** No such row is inserted, and the agent does not die between a pending row and its baseline, which is stored. */
  ghost predicate Clean(w: World, s: Step)
  {
    !(s.Crash? && w.hand.HasRow?) && s != SetBaseline(false) && !(s.InsertRow? && Overstates(w))
  }

  ghost predicate AllZero(w: World) { forall s: Scope :: SurplusOf(w, s).rx == 0 && SurplusOf(w, s).tx == 0 }

  ghost predicate NoSurplus(w: World) { AllZero(w) && (w.hand.HasRow? ==> !Overstates(w)) }

  /** Over a baseline that was read, or is zero, the row in hand carries just the increase. */
  lemma NothingExcessive(w: World)
    requires HandFine(w) && !w.hand.Idle? && !Overstates(w)
    ensures Excess(w).rx == 0 && Excess(w).tx == 0
    ensures w.hand.row.amount.rx == Increase(w.agent, w.hand.scope).rx
    ensures w.hand.row.amount.tx == Increase(w.agent, w.hand.scope).tx
  {
  }

  lemma StepKeepsAllZero(w: World, s: Step)
    requires HandFine(w) && NoShortfall(w.agent) && AllZero(w) && Enabled(w, s) && Clean(w, s)
    ensures AllZero(Next(w, s))
  {
    hide IsScope, NodeOf, Outgoing, Ingest, Increase, Shortfall, SurplusOf, AddSurplus, HandFine, Excess, SeenIncrease;
    if s == SetBaseline(true) {
      NoShortfallIsZero(w, w, w.hand.scope);
      ZeroSurplus(w, Next(w, s), w.hand.scope, Shortfall(w.agent, w.hand.scope));
    } else if s.InsertRow? && !w.hand.read {
      NothingExcessive(w);
      ZeroSurplus(w, Next(w, s), w.hand.scope, Excess(w));
    } else {
      assert Next(w, s).surplus == w.surplus;
      forall t: Scope ensures SurplusOf(Next(w, s), t) == SurplusOf(w, t) { SameMapSameSurplus(w, Next(w, s), t); }
    }
  }

  lemma StepKeepsNoSurplus(w: World, s: Step)
    requires HandFine(w) && NoShortfall(w.agent) && NoSurplus(w) && Enabled(w, s) && Clean(w, s)
    ensures NoSurplus(Next(w, s))
  {
    StepKeepsAllZero(w, s);
    hide AllZero, Overstates, Next, HandFine, Enabled, NoShortfall;
    if Next(w, s).hand.HasRow? { StepKeepsStated(w, s); }
  }

  /** A row in hand stays as right, or as wrong, as it was when its baseline was read. */
  lemma StepKeepsStated(w: World, s: Step)
    requires Enabled(w, s) && Next(w, s).hand.HasRow?
    ensures w.hand.HasRow? || s.InsertRow?
    ensures Overstates(Next(w, s)) == Overstates(w) && Next(w, s).hand.scope == w.hand.scope
  {
    hide IsScope, NodeOf, Outgoing, Ingest, Increase, Shortfall, SurplusOf, AddSurplus, SeenIncrease, RowFor;
    assert Next(w, s).agent.base == w.agent.base;
  }

  lemma SameMapSameSurplus(w: World, e: World, t: Scope)
    requires w.surplus == e.surplus
    ensures SurplusOf(w, t) == SurplusOf(e, t)
  {
  }

  lemma BoundedHand(w: World)
    requires Bounded(w)
    ensures HandFine(w)
  {
  }

  /** With no total below its baseline, the manager holds at most the agent's total and the surplus. */
  lemma ManagerBelowTotal(w: World, s: Scope)
    requires Bounded(w) && NoShortfall(w.agent)
    ensures ManagerTotal(w, s).rx <= TotalOf(w.agent, s).rx + SurplusOf(w, s).rx
    ensures ManagerTotal(w, s).tx <= TotalOf(w.agent, s).tx + SurplusOf(w, s).tx
  {
    HeldBelowIssued(w, s);
    assert Covered(w, s);
    hide IsScope, NodeOf, Bounded, Shortfall, IssuedSum, ManagerTotal, SurplusOf;
  }

  // ----- the composed system -----

  ghost predicate Starting(y: System) { y.kernel == K.FRESH && Starts(y.world) }

  ghost predicate Linked(y: System)
  {
    && K.Inv(y.kernel) && Bounded(y.world) && NoShortfall(y.world.agent)
    && y.world.agent.totals == BytesOf(y.kernel.tables.totals)
  }

  lemma StartIsLinked(y: System)
    requires Starting(y)
    ensures Linked(y) && Sound(y.world) && Strong(y.world) && NoSurplus(y.world)
  {
    K.FreshInv();
    StartIsSound(y.world);
    assert BytesOf(map[]) == map[];
  }

  lemma TotalsAreBooked(y: System, s: Scope)
    requires y.world.agent.totals == BytesOf(y.kernel.tables.totals)
    ensures TotalOf(y.world.agent, s).rx == K.Booked(y.kernel, s, Rx, K.Bytes)
    ensures TotalOf(y.world.agent, s).tx == K.Booked(y.kernel, s, Tx, K.Bytes)
  {
  }

  lemma TickGrows(y: System, t: K.Step)
    requires Linked(y) && May(y, OfTick(t))
    ensures Grows(y.world.agent, BytesOf(K.Next(y.kernel, t).tables.totals))
  {
    hide Linked, Bounded, K.Next, K.Missed, IsScope, BytesOf, TotalOf, K.Booked, K.Enabled;
    assert K.Inv(y.kernel) && y.world.agent.totals == BytesOf(y.kernel.tables.totals) by { LinkedMeans(y); }
    var totals := BytesOf(K.Next(y.kernel, t).tables.totals);
    forall s: Scope
      ensures TotalOf(y.world.agent, s).rx <= TotalOf(y.world.agent.(totals := totals), s).rx
      ensures TotalOf(y.world.agent, s).tx <= TotalOf(y.world.agent.(totals := totals), s).tx
    {
      K.TickMissesNothing(y.kernel, t, s, Rx, K.Bytes);
      K.TickMissesNothing(y.kernel, t, s, Tx, K.Bytes);
      TotalsAreBooked(y, s);
      TotalsAreBooked(System(K.Next(y.kernel, t), y.world.(agent := y.world.agent.(totals := totals))), s);
    }
  }

  lemma LinkedMeans(y: System)
    requires Linked(y)
    ensures K.Inv(y.kernel) && Bounded(y.world) && NoShortfall(y.world.agent)
    ensures y.world.agent.totals == BytesOf(y.kernel.tables.totals)
  {
  }

  lemma MoveKeepsLinked(y: System, m: Move)
    requires Linked(y) && May(y, m)
    ensures Linked(After(y, m))
  {
    match m {
      case OfKernel(k) => KernelMoveKeepsLinked(y, k);
      case OfTick(t) => TickMoveKeepsLinked(y, t);
      case OfSync(s) => SyncMoveKeepsLinked(y, s);
    }
  }

  lemma KernelMoveKeepsLinked(y: System, k: K.Step)
    requires Linked(y) && May(y, OfKernel(k))
    ensures Linked(After(y, OfKernel(k)))
  {
    K.StepKeepsInv(y.kernel, k);
    hide K.Inv, Bounded, NoShortfall, K.Enabled, K.Tidy;
    assert K.Next(y.kernel, k).tables == y.kernel.tables;
  }

  lemma TickMoveKeepsLinked(y: System, t: K.Step)
    requires Linked(y) && May(y, OfTick(t))
    ensures Linked(After(y, OfTick(t)))
  {
    hide K.Inv, Bounded, NoShortfall, K.Enabled, K.Next, BytesOf, Grows;
    var totals := BytesOf(K.Next(y.kernel, t).tables.totals);
    TickGrows(y, t);
    assert K.Tidy(t);
    K.StepKeepsInv(y.kernel, t);
    StepKeepsBounded(y.world, Collect(totals));
    StepKeepsNoShortfall(y.world, Collect(totals));
  }

  lemma SyncMoveKeepsLinked(y: System, s: Step)
    requires Linked(y) && May(y, OfSync(s))
    ensures Linked(After(y, OfSync(s)))
  {
    hide K.Inv, Bounded, NoShortfall, Outgoing, Ingest, IsScope, Increase, SeenIncrease, RowFor;
    StepKeepsBounded(y.world, s);
    StepKeepsNoShortfall(y.world, s);
    assert Next(y.world, s).agent.totals == y.world.agent.totals;
  }

  lemma {:induction false} RunKeepsLinked(y: System, moves: seq<Move>)
    requires Linked(y) && Allowed(y, moves)
    ensures Linked(Execute(y, moves))
    decreases |moves|
  {
    hide Linked, May, After;
    if moves != [] {
      MoveKeepsLinked(y, moves[0]);
      RunKeepsLinked(After(y, moves[0]), moves[1..]);
    }
  }

  function BytesRxTx(d: Dir, p: Pair): int { if d == Rx then p.rx else p.tx }

  /**
    Whatever happens in the kernel, on the agent, in the network and at the manager, and whichever reads and
    writes fail, the manager never holds more bytes for a scope than the kernel counted for it, up to the
    surplus that crashes between a pending row and its baseline, lost baselines and unread ones leave behind.
   */
  lemma ManagerNeverExceedsKernel(y: System, moves: seq<Move>, s: Scope, d: Dir)
    requires Starting(y) && Allowed(y, moves)
    ensures var e := Execute(y, moves);
            BytesRxTx(d, ManagerTotal(e.world, s)) <= K.Counted(e.kernel, s, d, K.Bytes) + BytesRxTx(d, SurplusOf(e.world, s))
  {
    StartIsLinked(y);
    RunKeepsLinked(y, moves);
    LinkedBound(Execute(y, moves), s, d);
  }

  lemma LinkedBound(e: System, s: Scope, d: Dir)
    requires Linked(e)
    ensures BytesRxTx(d, ManagerTotal(e.world, s))
        <= K.Counted(e.kernel, s, d, K.Bytes) + BytesRxTx(d, SurplusOf(e.world, s))
  {
    hide Bounded, NoShortfall, K.Counted, K.OwedTotal, K.Booked, ManagerTotal, SurplusOf, TotalOf;
    ManagerBelowTotal(e.world, s);
    TotalsAreBooked(e, s);
    assert K.Missed(e.kernel, s, d, K.Bytes) >= 0;
    K.OwedNonNegative(e.kernel, e.kernel.truth.Keys, s, d, K.Bytes);
    assert K.OwedTotal(e.kernel, s, d, K.Bytes) >= 0 by { OwedTotalNonNegative(e.kernel, s, d); }
  }

  lemma OwedTotalNonNegative(k: K.Kernel, s: Scope, d: Dir)
    ensures K.OwedTotal(k, s, d, K.Bytes) >= 0
  {
    K.OwedNonNegative(k, k.truth.Keys, s, d, K.Bytes);
  }

  ghost predicate CleanRun(y: System, moves: seq<Move>)
    requires Allowed(y, moves)
    decreases |moves|
  {
    moves == [] || ((moves[0].OfSync? ==> Clean(y.world, moves[0].s)) && CleanRun(After(y, moves[0]), moves[1..]))
  }

  lemma MoveKeepsNoSurplus(y: System, m: Move)
    requires Linked(y) && NoSurplus(y.world) && May(y, m) && (m.OfSync? ==> Clean(y.world, m.s))
    ensures NoSurplus(After(y, m).world)
  {
    LinkedMeans(y);
    BoundedHand(y.world);
    hide Linked, Bounded, HandFine, K.Inv, NoShortfall, NoSurplus, K.Enabled, K.Next, Enabled, Next, BytesOf;
    match m {
      case OfKernel(_) =>
      case OfTick(t) => CollectEnabled(y, t); StepKeepsNoSurplus(y.world, Collect(BytesOf(K.Next(y.kernel, t).tables.totals)));
      case OfSync(s) => StepKeepsNoSurplus(y.world, s);
    }
  }

  lemma CollectEnabled(y: System, t: K.Step)
    requires May(y, OfTick(t))
    ensures Enabled(y.world, Collect(BytesOf(K.Next(y.kernel, t).tables.totals)))
  {
  }

  lemma {:induction false} CleanRunHasNoSurplus(y: System, moves: seq<Move>)
    requires Linked(y) && NoSurplus(y.world) && Allowed(y, moves) && CleanRun(y, moves)
    ensures NoSurplus(Execute(y, moves).world)
    decreases |moves|
  {
    hide Linked, May, After, NoSurplus, Clean;
    if moves != [] {
      MoveKeepsLinked(y, moves[0]);
      MoveKeepsNoSurplus(y, moves[0]);
      CleanRunHasNoSurplus(After(y, moves[0]), moves[1..]);
    }
  }

  /** Without those, the manager never holds more than the kernel counted, crashes elsewhere included. */
  lemma CleanManagerNeverExceedsKernel(y: System, moves: seq<Move>, s: Scope, d: Dir)
    requires Starting(y) && Allowed(y, moves) && CleanRun(y, moves)
    ensures BytesRxTx(d, ManagerTotal(Execute(y, moves).world, s)) <= K.Counted(Execute(y, moves).kernel, s, d, K.Bytes)
  {
    StartIsLinked(y);
    CleanRunHasNoSurplus(y, moves);
    ManagerNeverExceedsKernel(y, moves, s, d);
  }

  // ----- when the books meet -----

  ghost predicate OrderlyMoves(y: System, moves: seq<Move>)
    requires Allowed(y, moves)
    decreases |moves|
  {
    moves == [] || ((moves[0].OfSync? ==> Orderly(y.world, moves[0].s)) && OrderlyMoves(After(y, moves[0]), moves[1..]))
  }

  lemma MoveKeepsStrong(y: System, m: Move)
    requires Sound(y.world) && Strong(y.world) && May(y, m) && (m.OfSync? ==> Orderly(y.world, m.s))
    ensures Sound(After(y, m).world) && Strong(After(y, m).world)
  {
    hide Sound, Strong, K.Enabled, K.Next, Enabled, Next, BytesOf;
    match m {
      case OfKernel(_) =>
      case OfTick(t) =>
        var collect := Collect(BytesOf(K.Next(y.kernel, t).tables.totals));
        CollectEnabled(y, t);
        StepKeepsSound(y.world, collect);
        QuietKeepsStrong(y.world, collect);
      case OfSync(s) =>
        StepKeepsSound(y.world, s);
        StepKeepsStrong(y.world, s);
    }
  }

  lemma {:induction false} RunKeepsLinkedStrong(y: System, moves: seq<Move>)
    requires Linked(y) && Sound(y.world) && Strong(y.world) && Allowed(y, moves) && OrderlyMoves(y, moves)
    ensures Linked(Execute(y, moves)) && Sound(Execute(y, moves).world) && Strong(Execute(y, moves).world)
    decreases |moves|
  {
    hide Linked, May, After, Sound, Strong, Orderly;
    if moves != [] {
      MoveKeepsLinked(y, moves[0]);
      MoveKeepsStrong(y, moves[0]);
      RunKeepsLinkedStrong(After(y, moves[0]), moves[1..]);
    }
  }

  /** What the manager holds for a scope once one undisturbed round has run from here. */
  ghost function ManagerAfterRound(w: World, scopes: seq<Scope>, now: int, s: Scope): Pair
    requires Sound(w) && Strong(w) && w.hand.Idle? && NoShortfall(w.agent) && s in scopes
  {
    OneRoundCatchesUp(w, scopes, now, s);
    var mid := Run(w, ComputeSteps(w.agent, scopes, now));
    ManagerTotal(Run(mid, DrainSteps(mid)), s)
  }

  lemma ManagerAfterRoundIsTotal(w: World, scopes: seq<Scope>, now: int, s: Scope)
    requires Sound(w) && Strong(w) && w.hand.Idle? && NoShortfall(w.agent) && s in scopes
    ensures ManagerAfterRound(w, scopes, now, s).rx == TotalOf(w.agent, s).rx + SurplusOf(w, s).rx
    ensures ManagerAfterRound(w, scopes, now, s).tx == TotalOf(w.agent, s).tx + SurplusOf(w, s).tx
  {
    hide Sound, Strong, Possible, Run, DrainSteps, ComputeSteps, NoShortfall, ManagerTotal, TotalOf, SurplusOf;
    OneRoundCatchesUp(w, scopes, now, s);
  }

  /**
    What the kernel's own moves lose of a scope's bytes: resets, rebuilds and overtaken baselines; ticks
    and the protocol lose nothing.
   */
  ghost function MoveLoss(y: System, m: Move, s: Scope, d: Dir): int
  {
    if m.OfKernel? then K.StepLoss(y.kernel, m.k, s, d, K.Bytes) else 0
  }

  ghost function Losses(y: System, moves: seq<Move>, s: Scope, d: Dir): int
    requires Allowed(y, moves)
    decreases |moves|
  {
    if moves == [] then 0 else MoveLoss(y, moves[0], s, d) + Losses(After(y, moves[0]), moves[1..], s, d)
  }

  lemma MoveLosses(y: System, m: Move, s: Scope, d: Dir)
    requires Linked(y) && May(y, m)
    ensures K.Missed(After(y, m).kernel, s, d, K.Bytes) == K.Missed(y.kernel, s, d, K.Bytes) + MoveLoss(y, m, s, d)
    ensures MoveLoss(y, m, s, d) >= 0
  {
    LinkedMeans(y);
    hide Linked, Bounded, NoShortfall, K.Missed, K.StepLoss, K.Next, K.Enabled, Next, Enabled;
    match m {
      case OfKernel(k) => K.MissedStep(y.kernel, k, s, d, K.Bytes);
      case OfTick(t) => TickLosesNothing(y.kernel, t, s, d);
      case OfSync(_) =>
    }
  }

  lemma TickLosesNothing(k: K.Kernel, t: K.Step, s: Scope, d: Dir)
    requires K.Inv(k) && t.Tick? && K.Enabled(k, t)
    ensures K.Missed(K.Next(k, t), s, d, K.Bytes) == K.Missed(k, s, d, K.Bytes)
  {
    K.MissedStep(k, t, s, d, K.Bytes);
    assert K.StepLoss(k, t, s, d, K.Bytes) == 0;
  }

  lemma {:induction false} LossesAddUp(y: System, moves: seq<Move>, s: Scope, d: Dir)
    requires Linked(y) && Allowed(y, moves)
    ensures K.Missed(Execute(y, moves).kernel, s, d, K.Bytes)
        == K.Missed(y.kernel, s, d, K.Bytes) + Losses(y, moves, s, d)
    decreases |moves|
  {
    hide Linked, May, After, K.Missed, MoveLoss;
    if moves != [] {
      MoveKeepsLinked(y, moves[0]);
      MoveLosses(y, moves[0], s, d);
      LossesAddUp(After(y, moves[0]), moves[1..], s, d);
    }
  }

  /**
    End to end, exactly: after any orderly history, one tick that reads the whole ruleset followed by one
    undisturbed round leaves at the manager precisely what the kernel counted, less what the history's
    resets, rebuilds and overtaken baselines lost step by step, plus the surplus of its crashes between a
    row and its baseline.
   */
  lemma KernelReachesManager(y: System, moves: seq<Move>, full: K.Step, scopes: seq<Scope>, now: int, s: Scope, d: Dir)
    requires Starting(y) && Allowed(y, moves) && OrderlyMoves(y, moves)
    requires Execute(y, moves).world.hand.Idle? && K.ReadsAll(Execute(y, moves).kernel, full) && s in scopes
    ensures May(Execute(y, moves), OfTick(full)) && var e := After(Execute(y, moves), OfTick(full));
      && Sound(e.world) && Strong(e.world) && e.world.hand.Idle? && NoShortfall(e.world.agent)
      && BytesRxTx(d, ManagerAfterRound(e.world, scopes, now, s)) ==
         K.Counted(e.kernel, s, d, K.Bytes) - Losses(y, moves, s, d) + BytesRxTx(d, SurplusOf(e.world, s))
  {
    StartIsLinked(y);
    RunKeepsLinkedStrong(y, moves);
    LossesAddUp(y, moves, s, d);
    K.FreshMissesNothing(s, d, K.Bytes);
    FullTickReaches(Execute(y, moves), full, scopes, now, s, d);
  }

  /** A full tick and a round from here leave the kernel's count less what is missed so far, plus the surplus so far. */
  lemma FullTickReaches(y: System, full: K.Step, scopes: seq<Scope>, now: int, s: Scope, d: Dir)
    requires Linked(y) && Sound(y.world) && Strong(y.world) && y.world.hand.Idle? && K.ReadsAll(y.kernel, full)
    requires s in scopes
    ensures May(y, OfTick(full)) && var e := After(y, OfTick(full));
      && Sound(e.world) && Strong(e.world) && e.world.hand.Idle? && NoShortfall(e.world.agent)
      && e.world.surplus == y.world.surplus
      && BytesRxTx(d, ManagerAfterRound(e.world, scopes, now, s)) + K.Missed(y.kernel, s, d, K.Bytes)
         == K.Counted(e.kernel, s, d, K.Bytes) + BytesRxTx(d, SurplusOf(e.world, s))
  {
    LinkedMeans(y);
    K.FullTickSettles(y.kernel, full, s, d, K.Bytes);
    TickLosesNothing(y.kernel, full, s, d);
    assert May(y, OfTick(full));
    MoveKeepsLinked(y, OfTick(full));
    MoveKeepsStrong(y, OfTick(full));
    var e := After(y, OfTick(full));
    LinkedMeans(e);
    assert e.kernel == K.Next(y.kernel, full) && e.world.hand.Idle? && e.world.surplus == y.world.surplus;
    hide Linked, Bounded, Sound, Strong, K.Inv, NoShortfall, K.Next, After, May, K.ReadsAll, K.Counted, K.OwedTotal,
        K.Booked, TotalOf, SurplusOf,
      ManagerAfterRound, K.Settled;
    ManagerAfterRoundIsTotal(e.world, scopes, now, s);
    TotalsAreBooked(e, s);
  }

  /** No move of the history loses anything of the scope. */
  ghost predicate NothingLost(y: System, moves: seq<Move>, s: Scope, d: Dir)
    requires Allowed(y, moves)
    decreases |moves|
  {
    moves == [] || (MoveLoss(y, moves[0], s, d) == 0 && NothingLost(After(y, moves[0]), moves[1..], s, d))
  }

  lemma {:induction false} NothingLostMeans(y: System, moves: seq<Move>, s: Scope, d: Dir)
    requires Linked(y) && Allowed(y, moves)
    ensures Losses(y, moves, s, d) >= 0 && (Losses(y, moves, s, d) == 0 <==> NothingLost(y, moves, s, d))
    decreases |moves|
  {
    hide Linked, May, After, MoveLoss;
    if moves != [] {
      MoveKeepsLinked(y, moves[0]);
      MoveLosses(y, moves[0], s, d);
      NothingLostMeans(After(y, moves[0]), moves[1..], s, d);
    }
  }

  /**
    After a clean and orderly history, a full tick and a round make the manager's total equal to the kernel's
    count exactly if and only if no reset, rebuild or overtaken baseline in it lost anything.
   */
  lemma ExactlyTheKernel(y: System, moves: seq<Move>, full: K.Step, scopes: seq<Scope>, now: int, s: Scope, d: Dir)
    requires Starting(y) && Allowed(y, moves) && OrderlyMoves(y, moves) && CleanRun(y, moves)
    requires Execute(y, moves).world.hand.Idle? && K.ReadsAll(Execute(y, moves).kernel, full) && s in scopes
    ensures May(Execute(y, moves), OfTick(full)) && var e := After(Execute(y, moves), OfTick(full));
      && Sound(e.world) && Strong(e.world) && e.world.hand.Idle? && NoShortfall(e.world.agent)
      && (BytesRxTx(d, ManagerAfterRound(e.world, scopes, now, s)) == K.Counted(e.kernel, s, d, K.Bytes) <==>
          NothingLost(y, moves, s, d))
  {
    StartIsLinked(y);
    RunKeepsLinkedStrong(y, moves);
    CleanRunHasNoSurplus(y, moves);
    NothingLostMeans(y, moves, s, d);
    LossesAddUp(y, moves, s, d);
    K.FreshMissesNothing(s, d, K.Bytes);
    var before := Execute(y, moves);
    FullTickReaches(before, full, scopes, now, s, d);
    var e := After(before, OfTick(full));
    SameMapSameSurplus(before.world, e.world, s);
  }

  /** Traffic and ticks alone: once a ruleset is installed, nothing resets or replaces it. */
  predicate Undisturbed(m: Move) { m.OfKernel? ==> m.k.Traffic? }

  lemma UndisturbedMove(y: System, m: Move, s: Scope, d: Dir)
    requires Linked(y) && K.Settled(y.kernel) && May(y, m) && Undisturbed(m)
    ensures MoveLoss(y, m, s, d) == 0 && K.Settled(After(y, m).kernel)
  {
    LinkedMeans(y);
    match m {
      case OfKernel(k) =>
        K.MissedStep(y.kernel, k, s, d, K.Bytes);
        K.CalmStep(y.kernel, k, s, d, K.Bytes);
        SettledUnmasked(y.kernel, k.name);
      case OfTick(t) => K.CalmStep(y.kernel, t, s, d, K.Bytes);
      case OfSync(_) =>
    }
  }

  lemma SettledUnmasked(k: K.Kernel, name: string)
    requires K.Settled(k) && name in k.live
    ensures K.Unmasked(k, name)
  {
  }

  lemma {:induction false} UndisturbedLosesNothing(y: System, moves: seq<Move>, s: Scope, d: Dir)
    requires Linked(y) && K.Settled(y.kernel) && Allowed(y, moves) && forall m :: m in moves ==> Undisturbed(m)
    ensures NothingLost(y, moves, s, d)
    decreases |moves|
  {
    hide Linked, May, After, MoveLoss, K.Settled;
    if moves != [] {
      assert Undisturbed(moves[0]);
      UndisturbedMove(y, moves[0], s, d);
      MoveKeepsLinked(y, moves[0]);
      UndisturbedLosesNothing(After(y, moves[0]), moves[1..], s, d);
    }
  }

  /** Installing the first ruleset loses nothing, and nothing does after it while it is left alone. */
  lemma UndisturbedIsExact(y: System, names: set<string>, moves: seq<Move>, s: Scope, d: Dir)
    requires Starting(y) && Allowed(y, [OfKernel(K.Rebuild(names))] + moves) && forall m :: m in moves ==>
        Undisturbed(m)
    ensures NothingLost(y, [OfKernel(K.Rebuild(names))] + moves, s, d)
  {
    var first := OfKernel(K.Rebuild(names));
    var all := [first] + moves;
    assert all[0] == first && all[1..] == moves;
    StartIsLinked(y);
    MoveKeepsLinked(y, first);
    FirstRuleset(names, s, d);
    UndisturbedLosesNothing(After(y, first), moves, s, d);
  }

  /**
    So a clean, orderly and undisturbed history from the first ruleset on puts the kernel's count at the
    manager, byte for byte.
   */
  lemma UndisturbedReachesManager(y: System, names: set<string>, rest: seq<Move>, full: K.Step,
                                  scopes: seq<Scope>, now: int, s: Scope, d: Dir)
    requires var moves := [OfKernel(K.Rebuild(names))] + rest;
      && Starting(y) && Allowed(y, moves) && OrderlyMoves(y, moves) && CleanRun(y, moves)
      && (forall m :: m in rest ==> Undisturbed(m))
      && Execute(y, moves).world.hand.Idle? && K.ReadsAll(Execute(y, moves).kernel, full) && s in scopes
    ensures var moves := [OfKernel(K.Rebuild(names))] + rest;
      May(Execute(y, moves), OfTick(full)) && var e := After(Execute(y, moves), OfTick(full));
      && Sound(e.world) && Strong(e.world) && e.world.hand.Idle? && NoShortfall(e.world.agent)
      && BytesRxTx(d, ManagerAfterRound(e.world, scopes, now, s)) == K.Counted(e.kernel, s, d, K.Bytes)
  {
    hide Starting, Allowed, OrderlyMoves, CleanRun, Execute, K.ReadsAll, After, May, NothingLost, Sound, Strong,
        NoShortfall,
      ManagerAfterRound, K.Counted;
    UndisturbedIsExact(y, names, rest, s, d);
    ExactlyTheKernel(y, [OfKernel(K.Rebuild(names))] + rest, full, scopes, now, s, d);
  }

  lemma FirstRuleset(names: set<string>, s: Scope, d: Dir)
    ensures K.Settled(K.Next(K.FRESH, K.Rebuild(names))) && K.StepLoss(K.FRESH, K.Rebuild(names), s, d, K.Bytes) == 0
  {
    assert K.FRESH.truth.Keys == {};
  }

  // ----- what makes the manager count twice -----

  /** Orderly, clean, and every tick only raises the totals. */
  ghost predicate CarefulRun(w: World, steps: seq<Step>)
    requires Possible(w, steps)
    decreases |steps|
  {
    steps == [] ||
    (Clean(w, steps[0]) && Orderly(w, steps[0]) && (steps[0].Collect? ==> Grows(w.agent, steps[0].totals)) &&
     CarefulRun(Next(w, steps[0]), steps[1..]))
  }

  lemma {:induction false} CarefulRunStaysBelow(w: World, steps: seq<Step>, s: Scope)
    requires Bounded(w) && NoShortfall(w.agent) && AllZero(w) && Possible(w, steps) && CarefulRun(w, steps)
    ensures ManagerTotal(Run(w, steps), s).rx <= TotalOf(Run(w, steps).agent, s).rx
    ensures ManagerTotal(Run(w, steps), s).tx <= TotalOf(Run(w, steps).agent, s).tx
    decreases |steps|
  {
    BoundedHand(w);
    hide Bounded, HandFine, NoShortfall, Enabled, Next, Clean, Orderly, Grows, ManagerTotal, TotalOf;
    if steps == [] {
      ManagerBelowTotal(w, s);
    } else {
      hide AllZero;
      StepKeepsBounded(w, steps[0]);
      StepKeepsNoShortfall(w, steps[0]);
      StepKeepsAllZero(w, steps[0]);
      CarefulRunStaysBelow(Next(w, steps[0]), steps[1..], s);
    }
  }

  /** Some scope's total at the manager exceeds the agent's own. */
  ghost predicate OverCounts(w: World)
  {
    exists s: Scope :: (ManagerTotal(w, s).rx > TotalOf(w.agent, s).rx || ManagerTotal(w, s).tx > TotalOf(w.agent, s).tx)
  }

  /** The manager counts bytes twice in some careful continuation. */
  ghost predicate CanOverCount(w: World)
  {
    exists steps :: (Possible(w, steps) && CarefulRun(w, steps) && OverCounts(Run(w, steps)))
  }

  lemma NoSurplusNoOverCount(w: World)
    requires Bounded(w) && NoShortfall(w.agent) && AllZero(w)
    ensures !CanOverCount(w)
  {
    hide Bounded, NoShortfall, Possible, CarefulRun, Run, AllZero, ManagerTotal, TotalOf;
    forall steps | Possible(w, steps) && CarefulRun(w, steps) ensures !OverCounts(Run(w, steps))
    {
      forall s: Scope
        ensures ManagerTotal(Run(w, steps), s).rx <= TotalOf(Run(w, steps).agent, s).rx
        ensures ManagerTotal(Run(w, steps), s).tx <= TotalOf(Run(w, steps).agent, s).tx
      {
        CarefulRunStaysBelow(w, steps, s);
      }
    }
  }

  predicate Uneventful(s: Step) { !s.Crash? && !s.Collect? && s != SetBaseline(false) && (s.Reserve? ==> s.read) }

  lemma {:induction false} UneventfulIsCareful(w: World, steps: seq<Step>)
    requires Possible(w, steps) && OrderlyRun(w, steps) && forall s :: s in steps ==> Uneventful(s)
    requires !w.hand.Idle? ==> w.hand.read
    ensures CarefulRun(w, steps)
    decreases |steps|
  {
    if steps != [] {
      assert Uneventful(steps[0]);
      StaysRead(w, steps[0]);
      hide Enabled, Next, Orderly;
      UneventfulIsCareful(Next(w, steps[0]), steps[1..]);
    }
  }

  lemma StaysRead(w: World, s: Step)
    requires Enabled(w, s) && Uneventful(s) && (!w.hand.Idle? ==> w.hand.read)
    ensures Clean(w, s) && (!Next(w, s).hand.Idle? ==> Next(w, s).hand.read)
  {
    hide IsScope, NodeOf, Outgoing, Ingest, Increase, Shortfall, AddSurplus, SeenIncrease, RowFor, Acked;
  }

  lemma {:induction false} ComputeStepsUneventful(a: Agent, scopes: seq<Scope>, now: int)
    ensures forall s :: s in ComputeSteps(a, scopes, now) ==> Uneventful(s)
    decreases |scopes|
  {
    hide ComputeOne, Increase;
    if scopes != [] && ComputeOne(a, scopes[0], now).Some? {
      ComputeStepsUneventful(ComputeOne(a, scopes[0], now).value, scopes[1..], now);
    }
  }

  /** A round from a state with a surplus leaves the manager above the agent's total, by careful steps alone. */
  lemma SurplusOverCounts(w: World, s: Scope)
    requires Sound(w) && Strong(w) && w.hand.Idle? && NoShortfall(w.agent)
    requires (SurplusOf(w, s).rx > 0 || SurplusOf(w, s).tx > 0)
    ensures CanOverCount(w)
  {
    hide Sound, Strong, NoShortfall, Possible, CarefulRun, OrderlyRun, Run, Next, DrainSteps, ComputeSteps,
        ManagerTotal, TotalOf,
      SurplusOf;
    var compute := ComputeSteps(w.agent, [s], 0);
    OneRoundCatchesUp(w, [s], 0, s);
    ComputeAllIsRun(w, [s], 0);
    var mid := Run(w, compute);
    assert Exact(mid) by { SoundIsExact(mid); }
    hide Exact;
    DrainEmpties(mid);
    RunConcat(w, compute, DrainSteps(mid));
    RoundIsUneventful(w.agent, [s], 0, mid);
    UneventfulIsCareful(w, compute + DrainSteps(mid));
    var e := Run(mid, DrainSteps(mid));
    SameTotalSame(w, e, s);
    assert OverCounts(e);
  }

  lemma SameTotalSame(w: World, e: World, s: Scope)
    requires w.agent.totals == e.agent.totals
    ensures TotalOf(w.agent, s) == TotalOf(e.agent, s)
  {
  }

  lemma RoundIsUneventful(a: Agent, scopes: seq<Scope>, now: int, mid: World)
    ensures forall s :: s in ComputeSteps(a, scopes, now) + DrainSteps(mid) ==> Uneventful(s)
  {
    ComputeStepsUneventful(a, scopes, now);
    hide ComputeSteps, Outgoing;
  }

  lemma {:induction false} BurnIsUneventful(s: Scope, n: nat)
    ensures forall x :: x in BurnSteps(s, n) ==> Uneventful(x)
    decreases n
  {
    if n > 0 { BurnIsUneventful(s, n - 1); }
  }

  /** Careful steps before a state that can over-count. */
  lemma CarefulFirst(w: World, first: seq<Step>)
    requires Possible(w, first) && OrderlyRun(w, first) && CarefulRun(w, first) && CanOverCount(Run(w, first))
    ensures CanOverCount(w)
  {
    var rest :| Possible(Run(w, first), rest) && CarefulRun(Run(w, first), rest) && OverCounts(Run(Run(w, first), rest));
    hide OverCounts, OrderlyRun;
    CarefulConcat(w, first, rest);
    assert OverCounts(Run(w, first + rest));
  }

  lemma {:induction false} CarefulConcat(w: World, a: seq<Step>, b: seq<Step>)
    requires Possible(w, a) && Possible(Run(w, a), b) && CarefulRun(w, a) && CarefulRun(Run(w, a), b)
    ensures Possible(w, a + b) && CarefulRun(w, a + b) && Run(w, a + b) == Run(Run(w, a), b)
    decreases |a|
  {
    hide Enabled, Next, Orderly, Clean, Grows;
    if a == [] {
      assert a + b == b;
    } else {
      assert (a + b)[0] == a[0] && (a + b)[1..] == a[1..] + b;
      CarefulConcat(Next(w, a[0]), a[1..], b);
    }
  }

  // ----- a crash -----

  /**
    A crash, whether or not the restart can read its sequence, can make the manager count bytes twice in some
    careful continuation exactly when it falls between the insertion of a pending row and the writing of its
    baseline.
   */
  lemma CrashIsExact(w: World, loaded: bool)
    requires Sound(w) && Strong(w) && NoShortfall(w.agent) && NoSurplus(w)
    ensures w.hand.HasRow? <==> CanOverCount(Next(w, Crash(loaded)))
  {
    var after, crash := Next(w, Crash(loaded)), Crash(loaded);
    if w.hand.HasRow? {
      CrashCountsTwice(w, loaded);
    } else {
      assert Bounded(w) by { SoundIsExact(w); }
      BoundedHand(w);
      assert Clean(w, crash);
      hide Sound, Bounded, HandFine, NoShortfall, AllZero, Next, Clean, CanOverCount;
      StepKeepsBounded(w, crash);
      StepKeepsNoShortfall(w, crash);
      StepKeepsAllZero(w, crash);
      NoSurplusNoOverCount(after);
    }
  }

  lemma CrashLeavesSurplus(w: World, loaded: bool)
    requires HandFine(w) && w.hand.HasRow? && NoSurplus(w)
    ensures var after, s := Next(w, Crash(loaded)), w.hand.scope;
      && (SurplusOf(after, s).rx > 0 || SurplusOf(after, s).tx > 0) && Increase(after.agent, s) != ZERO_PAIR
      && after.hand.Idle? && after.issued == w.issued && after.books == w.books && after.conns == w.conns
      && after.machine == w.machine
      && after.agent == Restarted(w.agent, loaded)
  {
    NothingExcessive(w);
    hide IsScope, NodeOf, Excess;
    var s, after := w.hand.scope, Next(w, Crash(loaded));
    assert SurplusOf(w, s).rx == 0 && SurplusOf(w, s).tx == 0;
    assert after.agent.base == w.agent.base && after.agent.totals == w.agent.totals;
    SameIncrease(w.agent, after.agent, s);
    hide AllZero, Increase;
  }

  /** Drawing sequences up to the old one makes good whatever the restart fell behind. */
  lemma BurntIsSound(w: World, after: World, n: nat)
    requires Sound(w) && Strong(w) && Exact(after) && after.hand.Idle? && NoShortfall(after.agent)
    requires after.issued == w.issued && after.books == w.books && after.conns == w.conns && after.machine == w.machine
    requires after.agent.pending == w.agent.pending && after.agent.seqNo + n >= w.agent.seqNo
    ensures Sound(Burnt(after, n)) && Strong(Burnt(after, n)) && NoShortfall(Burnt(after, n).agent)
  {
    BurntIsExact(after, n);
    var b := Burnt(after, n);
    assert Fresh(b);
    assert PendingSet(b) == PendingSet(w);
    hide Exact;
    assert AckSafe(b) && InOrder(b);
    assert AcksTrue(b) by {
      forall c, a | 0 <= c < |b.conns| && a in b.conns[c].down ensures AckTrue(b, a) { assert AckTrue(w, a); }
    }
    forall s: Scope
      ensures BaseOf(b.agent, s).rx <= TotalOf(b.agent, s).rx && BaseOf(b.agent, s).tx <= TotalOf(b.agent, s).tx
    {
      assert BaseOf(b.agent, s) == BaseOf(after.agent, s) && TotalOf(b.agent, s) == TotalOf(after.agent, s);
    }
  }

  lemma CrashCountsTwice(w: World, loaded: bool)
    requires Sound(w) && Strong(w) && NoShortfall(w.agent) && NoSurplus(w) && w.hand.HasRow?
    ensures CanOverCount(Next(w, Crash(loaded)))
  {
    var after, s := Next(w, Crash(loaded)), w.hand.scope;
    assert Exact(w) && HandFine(w) by { SoundIsExact(w); }
    StepKeepsExact(w, Crash(loaded));
    StepKeepsNoShortfall(w, Crash(loaded));
    CrashLeavesSurplus(w, loaded);
    var n := if w.agent.seqNo > after.agent.seqNo then w.agent.seqNo - after.agent.seqNo else 0;
    hide Next, Exact, HandFine, NoShortfall, NoSurplus, Increase, SurplusOf, CanOverCount;
    BurntIsSound(w, after, n);
    hide Sound, Strong;
    Burning(after, s, n);
    var b := Burnt(after, n);
    SameMapSameSurplus(after, b, s);
    SurplusOverCounts(b, s);
    BurnIsUneventful(s, n);
    UneventfulIsCareful(after, BurnSteps(s, n));
    CarefulFirst(after, BurnSteps(s, n));
  }

  // ----- an unread baseline -----

  ghost predicate NoNegativeBase(a: Agent) { forall s: Scope :: BaseOf(a, s).rx >= 0 && BaseOf(a, s).tx >= 0 }

  lemma ExcessIsBase(w: World)
    requires HandFine(w) && w.hand.HasSequence? && !w.hand.read && NoShortfall(w.agent) && NoNegativeBase(w.agent)
    ensures Excess(w).rx == BaseOf(w.agent, w.hand.scope).rx && Excess(w).tx == BaseOf(w.agent, w.hand.scope).tx
  {
    var s := w.hand.scope;
    assert BaseOf(w.agent, s).rx <= TotalOf(w.agent, s).rx && BaseOf(w.agent, s).tx <= TotalOf(w.agent, s).tx;
    SeenSplits(w.agent, s, false);
    hide IsScope, SeenIncrease, Increase;
  }

  /**
    Inserting the row computed for a scope can make the manager count bytes twice in some careful
    continuation exactly when the scope's baseline could not be read and is not zero.
   */
  lemma UnreadBaselineIsExact(w: World, s: Scope, now: int, read: bool, saved: bool)
    requires Sound(w) && Strong(w) && NoShortfall(w.agent) && NoNegativeBase(w.agent) && NoSurplus(w)
    requires Enabled(w, Reserve(s, now, read, saved))
    ensures Enabled(Next(w, Reserve(s, now, read, saved)), InsertRow)
    ensures !read && BaseOf(w.agent, s) != ZERO_PAIR <==>
        CanOverCount(Next(Next(w, Reserve(s, now, read, saved)), InsertRow))
  {
    var draw := Reserve(s, now, read, saved);
    var a := Next(w, draw);
    DrawnFacts(w, draw);
    hide Enabled, Next, Sound, Strong, NoShortfall, NoNegativeBase, NoSurplus, CanOverCount;
    InsertedCanOverCount(a);
  }

  lemma DrawnFacts(w: World, draw: Step)
    requires Sound(w) && Strong(w) && NoShortfall(w.agent) && NoNegativeBase(w.agent) && NoSurplus(w)
    requires draw.Reserve? && Enabled(w, draw)
    ensures var a := Next(w, draw);
      && Sound(a) && Strong(a) && NoShortfall(a.agent) && NoNegativeBase(a.agent) && AllZero(a) && a.hand.HasSequence?
      && Enabled(a, InsertRow) && (Overstates(a) <==> !draw.read && BaseOf(w.agent, draw.scope) != ZERO_PAIR)
  {
    NextSequenceIsFree(w);
    assert Bounded(w) by { SoundIsExact(w); }
    BoundedHand(w);
    hide Bounded, HandFine, Strong, SeenIncrease, RowFor, IsScope, NodeOf;
    StepKeepsSound(w, draw);
    QuietKeepsStrong(w, draw);
    StepKeepsNoShortfall(w, draw);
    StepKeepsAllZero(w, draw);
    hide Sound, NoShortfall, AllZero;
    var a := Next(w, draw);
    assert a.agent.base == w.agent.base && a.agent.pending == w.agent.pending;
    forall t: Scope ensures BaseOf(a.agent, t) == BaseOf(w.agent, t) {}
  }

  lemma InsertedCanOverCount(a: World)
    requires Sound(a) && Strong(a) && NoShortfall(a.agent) && NoNegativeBase(a.agent) && AllZero(a)
    requires a.hand.HasSequence? && Enabled(a, InsertRow)
    ensures Overstates(a) <==> CanOverCount(Next(a, InsertRow))
  {
    var b := Next(a, InsertRow);
    assert Bounded(a) by { SoundIsExact(a); }
    BoundedHand(a);
    StepKeepsSound(a, InsertRow);
    StepKeepsNoShortfall(a, InsertRow);
    InsertKeepsStrong(a);
    assert Bounded(b) by { SoundIsExact(b); }
    if Overstates(a) {
      ExcessIsBase(a);
      InsertSurplus(a, a.hand.scope);
      hide Sound, Bounded, HandFine, Strong, NoShortfall, Next, CanOverCount, Excess, SurplusOf;
      assert AllZero(a) ==> SurplusOf(a, a.hand.scope).rx == 0 && SurplusOf(a, a.hand.scope).tx == 0;
      hide AllZero;
      RowHasScope(a);
      PositiveBase(a);
      FinishAndOverCount(b, a.hand.scope);
    } else {
      hide Sound, Bounded, HandFine, Strong, NoShortfall, Next, CanOverCount, AllZero, Overstates;
      StepKeepsAllZero(a, InsertRow);
      NoSurplusNoOverCount(b);
    }
  }

  lemma RowHasScope(a: World)
    requires Enabled(a, InsertRow)
    ensures Next(a, InsertRow).hand == HasRow(a.hand.scope, a.hand.row, a.hand.read)
  {
  }

  lemma PositiveBase(a: World)
    requires NoNegativeBase(a.agent) && Overstates(a)
    ensures BaseOf(a.agent, a.hand.scope).rx > 0 || BaseOf(a.agent, a.hand.scope).tx > 0
  {
  }

  /** With a surplus the row in hand can be finished, or given up, and a round over-counts. */
  lemma FinishAndOverCount(w: World, s: Scope)
    requires Sound(w) && Strong(w) && NoShortfall(w.agent) && (SurplusOf(w, s).rx > 0 || SurplusOf(w, s).tx > 0)
    ensures CanOverCount(w)
  {
    if w.hand.Idle? {
      SurplusOverCounts(w, s);
    } else {
      var last := if w.hand.HasRow? then SetBaseline(true) else InsertFails;
      Finished(w, last);
      FinishedSurplus(w, last, s);
      hide Sound, Strong, NoShortfall, SurplusOf, Next, Enabled, Orderly, Clean, CanOverCount;
      SurplusOverCounts(Next(w, last), s);
      OneCareful(w, last);
      CarefulFirst(w, [last]);
    }
  }

  lemma Finished(w: World, last: Step)
    requires Sound(w) && Strong(w) && NoShortfall(w.agent) && !w.hand.Idle?
    requires last == if w.hand.HasRow? then SetBaseline(true) else InsertFails
    ensures Enabled(w, last) && Clean(w, last) && Orderly(w, last) && !last.Collect? && Next(w, last).hand.Idle?
    ensures Sound(Next(w, last)) && Strong(Next(w, last)) && NoShortfall(Next(w, last).agent)
  {
    hide Sound, Strong, NoShortfall, Outgoing, Ingest, Increase, Shortfall, AddSurplus, IsScope, Resumes, Overstates;
    assert Enabled(w, last) && Clean(w, last) && Orderly(w, last) && Next(w, last).hand.Idle?;
    hide Next, Enabled;
    StepKeepsSound(w, last);
    QuietKeepsStrong(w, last);
    StepKeepsNoShortfall(w, last);
  }

  lemma OneCareful(w: World, s: Step)
    requires Enabled(w, s) && Orderly(w, s) && Clean(w, s) && !s.Collect?
    ensures Possible(w, [s]) && OrderlyRun(w, [s]) && CarefulRun(w, [s]) && Run(w, [s]) == Next(w, s)
  {
    hide Enabled, Orderly, Clean, Next;
    assert [s][1..] == [];
    var e := Next(w, s);
    assert Possible(e, []) && CarefulRun(e, []) && OrderlyRun(e, []) && Run(e, []) == e;
  }

  lemma FinishedSurplus(w: World, last: Step, s: Scope)
    requires Enabled(w, last) && (last == InsertFails || last == SetBaseline(true)) && NoShortfall(w.agent)
    ensures SurplusOf(Next(w, last), s).rx == SurplusOf(w, s).rx && SurplusOf(Next(w, last), s).tx == SurplusOf(w, s).tx
  {
    hide IsScope, NodeOf, Shortfall, NoShortfall, AddSurplus, SurplusOf;
    if last == InsertFails {
      SameMapSameSurplus(w, Next(w, last), s);
    } else {
      NoShortfallIsZero(w, w, w.hand.scope);
      ZeroSurplus(w, Next(w, last), w.hand.scope, Shortfall(w.agent, w.hand.scope));
      hide Next;
      assert SameSurplus(w, Next(w, last));
    }
  }

  // ----- over whole runs -----

  /** Orderly, and every tick only raises the totals. */
  ghost predicate GrowingRun(w: World, steps: seq<Step>)
    requires Possible(w, steps)
    decreases |steps|
  {
    steps == [] ||
    (Orderly(w, steps[0]) && (steps[0].Collect? ==> Grows(w.agent, steps[0].totals)) && GrowingRun(Next(w, steps[0]), steps[1..]))
  }

  ghost predicate CleanSteps(w: World, steps: seq<Step>)
    requires Possible(w, steps)
    decreases |steps|
  {
    steps == [] || (Clean(w, steps[0]) && CleanSteps(Next(w, steps[0]), steps[1..]))
  }

  ghost predicate SurplusNotNegative(w: World) { forall s: Scope :: SurplusOf(w, s).rx >= 0 && SurplusOf(w, s).tx >= 0 }

  /** What holds in every such run; an overstated row, once inserted, shows in the surplus. */
  ghost predicate Grown(w: World)
  {
    && Sound(w) && Strong(w) && NoShortfall(w.agent) && NoNegativeBase(w.agent) && SurplusNotNegative(w)
    && (w.hand.HasRow? && Overstates(w) ==> !AllZero(w))
  }

  lemma StepKeepsNoNegativeBase(w: World, s: Step)
    requires NoShortfall(w.agent) && NoNegativeBase(w.agent) && Enabled(w, s)
    ensures NoNegativeBase(Next(w, s).agent)
  {
    hide IsScope, NodeOf, Outgoing, Ingest, SurplusOf, Shortfall, Increase, SeenIncrease, RowFor, Excess;
    var after := Next(w, s);
    forall t: Scope ensures BaseOf(after.agent, t).rx >= 0 && BaseOf(after.agent, t).tx >= 0
    {
      assert BaseOf(w.agent, t).rx >= 0 && BaseOf(w.agent, t).tx >= 0;
      assert BaseOf(w.agent, t).rx <= TotalOf(w.agent, t).rx && BaseOf(w.agent, t).tx <= TotalOf(w.agent, t).tx;
    }
  }

  /** What a step adds to its scope's surplus, if anything. */
  ghost function Added(w: World, s: Step): Pair
    requires Enabled(w, s)
  {
    if (s.Crash? && w.hand.HasRow?) || s == SetBaseline(false) then Increase(w.agent, w.hand.scope)
    else if s.InsertRow? && !w.hand.read then Excess(w)
    else if s == SetBaseline(true) then Shortfall(w.agent, w.hand.scope)
    else ZERO_PAIR
  }

  lemma AddedSurplus(w: World, s: Step, t: Scope)
    requires Enabled(w, s)
    ensures var more := if !w.hand.Idle? && w.hand.scope == t then Added(w, s) else ZERO_PAIR;
      && SurplusOf(Next(w, s), t).rx == SurplusOf(w, t).rx + more.rx
      && SurplusOf(Next(w, s), t).tx == SurplusOf(w, t).tx + more.tx
  {
    hide IsScope, NodeOf, Outgoing, Ingest, Increase, Excess, Shortfall, SeenIncrease, RowFor, Acked;
  }

  /**
    What is added is never negative, and it is something exactly when the step is not clean or finishes
    what was not.
   */
  lemma AddedIsExact(w: World, s: Step)
    requires HandFine(w) && NoShortfall(w.agent) && NoNegativeBase(w.agent) && Enabled(w, s)
    ensures Added(w, s).rx >= 0 && Added(w, s).tx >= 0
    ensures Clean(w, s) ==> Added(w, s).rx == 0 && Added(w, s).tx == 0
    ensures !Clean(w, s) && !(w.hand.HasRow? && Overstates(w)) ==>
        !w.hand.Idle? && (Added(w, s).rx > 0 || Added(w, s).tx > 0)
  {
    hide IsScope, NodeOf, HandFine, NoShortfall, NoNegativeBase, BaseOf;
    if !w.hand.Idle? {
      NoShortfallIsZero(w, w, w.hand.scope);
      IncreaseNotNegative(w.agent, w.hand.scope);
      RowIsSomething(w);
      if !Overstates(w) {
        NothingExcessive(w);
      } else if w.hand.HasSequence? {
        ExcessIsBase(w);
        PositiveBase(w);
        BaseNotNegative(w.agent, w.hand.scope);
      }
    }
    hide Increase, Excess, Shortfall;
  }

  lemma IncreaseNotNegative(a: Agent, s: Scope)
    ensures Increase(a, s).rx >= 0 && Increase(a, s).tx >= 0
  {
  }

  lemma BaseNotNegative(a: Agent, s: Scope)
    requires NoNegativeBase(a)
    ensures BaseOf(a, s).rx >= 0 && BaseOf(a, s).tx >= 0
  {
  }

  lemma RowIsSomething(w: World)
    requires HandFine(w) && !w.hand.Idle?
    ensures w.hand.row.amount.rx > 0 || w.hand.row.amount.tx > 0
  {
  }

  /** Every step keeps the surplus or raises it, and leaves none exactly when there was none and the step is clean. */
  lemma SurplusStep(w: World, s: Step)
    requires HandFine(w) && NoShortfall(w.agent) && NoNegativeBase(w.agent) && SurplusNotNegative(w) && Enabled(w, s)
    requires w.hand.HasRow? && Overstates(w) ==> !AllZero(w)
    ensures SurplusNotNegative(Next(w, s))
    ensures AllZero(Next(w, s)) <==> AllZero(w) && Clean(w, s)
  {
    AddedIsExact(w, s);
    hide HandFine, NoShortfall, NoNegativeBase, Enabled, Next, Clean, Overstates, Added, SurplusOf, AllZero,
        SurplusNotNegative;
    forall t: Scope
      ensures SurplusOf(Next(w, s), t).rx >= SurplusOf(w, t).rx && SurplusOf(Next(w, s), t).tx >= SurplusOf(w, t).tx
    {
      AddedSurplus(w, s, t);
    }
    Raised(w, Next(w, s));
    if Clean(w, s) {
      forall t: Scope
        ensures SurplusOf(Next(w, s), t).rx == SurplusOf(w, t).rx && SurplusOf(Next(w, s), t).tx == SurplusOf(w, t).tx
      {
        AddedSurplus(w, s, t);
      }
      Unchanged(w, Next(w, s));
    } else if AllZero(w) {
      AddedSurplus(w, s, w.hand.scope);
      NotZero(w, Next(w, s), w.hand.scope);
    }
  }

  lemma Raised(w: World, e: World)
    requires SurplusNotNegative(w)
    requires forall t: Scope :: SurplusOf(e, t).rx >= SurplusOf(w, t).rx && SurplusOf(e, t).tx >= SurplusOf(w, t).tx
    ensures SurplusNotNegative(e) && (AllZero(e) ==> AllZero(w))
  {
    hide SurplusOf;
  }

  lemma Unchanged(w: World, e: World)
    requires forall t: Scope :: SurplusOf(e, t).rx == SurplusOf(w, t).rx && SurplusOf(e, t).tx == SurplusOf(w, t).tx
    ensures AllZero(e) <==> AllZero(w)
  {
    hide SurplusOf;
  }

  lemma NotZero(w: World, e: World, t: Scope)
    requires AllZero(w) && (SurplusOf(e, t).rx > SurplusOf(w, t).rx || SurplusOf(e, t).tx > SurplusOf(w, t).tx)
    ensures !AllZero(e)
  {
    hide SurplusOf;
  }

  lemma StepKeepsGrown(w: World, s: Step)
    requires Grown(w) && Enabled(w, s) && Orderly(w, s) && (s.Collect? ==> Grows(w.agent, s.totals))
    ensures Grown(Next(w, s)) && (AllZero(Next(w, s)) <==> AllZero(w) && Clean(w, s))
  {
    assert Bounded(w) by { SoundIsExact(w); }
    BoundedHand(w);
    hide Bounded, HandFine, Sound, Strong, NoShortfall, NoNegativeBase, SurplusNotNegative, AllZero, Next, Enabled,
        Overstates, Grows;
    SurplusStep(w, s);
    StepKeepsSound(w, s);
    StepKeepsStrong(w, s);
    StepKeepsNoShortfall(w, s);
    StepKeepsNoNegativeBase(w, s);
    if Next(w, s).hand.HasRow? { StepKeepsStated(w, s); }
  }

  lemma {:induction false} RunKeepsGrown(w: World, steps: seq<Step>)
    requires Grown(w) && Possible(w, steps) && GrowingRun(w, steps)
    ensures Grown(Run(w, steps)) && (AllZero(Run(w, steps)) <==> AllZero(w) && CleanSteps(w, steps))
    decreases |steps|
  {
    hide Grown, AllZero, Enabled, Next, Orderly, Clean, Grows;
    if steps != [] {
      StepKeepsGrown(w, steps[0]);
      RunKeepsGrown(Next(w, steps[0]), steps[1..]);
    }
  }

  lemma GrownCanOverCount(w: World)
    requires Grown(w)
    ensures CanOverCount(w) <==> !AllZero(w)
  {
    assert Bounded(w) by { SoundIsExact(w); }
    hide Bounded, Sound, Strong, NoShortfall, CanOverCount, SurplusOf, Overstates, NoNegativeBase;
    if AllZero(w) {
      NoSurplusNoOverCount(w);
    } else {
      var s: Scope :| !(SurplusOf(w, s).rx == 0 && SurplusOf(w, s).tx == 0);
      FinishAndOverCount(w, s);
    }
  }

  lemma StartIsGrown(w: World)
    requires Starts(w)
    ensures Grown(w) && AllZero(w)
  {
    StartIsSound(w);
    hide Sound, Strong;
  }

  /**
    Over every orderly run from the start in which totals only grow, with failing reads and writes and crashes
    anywhere: the manager can be made to count bytes twice by a careful continuation exactly when, in the run,
    the agent died between a row and its baseline, a baseline was not stored, or a row was inserted that had
    been computed over an unread baseline other than zero.
   */
  lemma OverCountIsExact(w: World, steps: seq<Step>)
    requires Starts(w) && Possible(w, steps) && GrowingRun(w, steps)
    ensures CanOverCount(Run(w, steps)) <==> !CleanSteps(w, steps)
  {
    StartIsGrown(w);
    hide Grown, AllZero, CanOverCount, CleanSteps, GrowingRun, Possible, Run, Starts;
    RunKeepsGrown(w, steps);
    GrownCanOverCount(Run(w, steps));
  }

  // ----- runs that reach the failing cases -----

  /** The first bytes counted wait for the agent, and nothing else has happened. */
  lemma FirstBytes(w: World, s1: Step)
    requires Starts(w) && s1 == Collect(map["system" := Pair(1, 0)])
    ensures Enabled(w, s1) && Orderly(w, s1) && Grows(w.agent, s1.totals) && Clean(w, s1)
    ensures Grown(Next(w, s1)) && AllZero(Next(w, s1))
    ensures Next(w, s1).hand.Idle? && Increase(Next(w, s1).agent, "system") == Pair(1, 0)
  {
    StartIsGrown(w);
    assert Increase(Next(w, s1).agent, "system") == Pair(1, 0);
    assert Enabled(w, s1) && Orderly(w, s1) && Grows(w.agent, s1.totals) && Clean(w, s1);
    hide Starts, Grown, AllZero, Increase, Grows, Next, Enabled, Orderly, Clean;
    StepKeepsGrown(w, s1);
  }

  /**
    From the start, a tick, a sequence and a row reach a state in which a crash makes a careful
    continuation count the bytes twice.
   */
  lemma DoubleCountIsReached(w: World)
    requires Starts(w)
    ensures var before := [Collect(map["system" := Pair(1, 0)])] + [Reserve("system", 0, true, true), InsertRow];
      Possible(w, before) && OrderlyRun(w, before) && CanOverCount(Next(Run(w, before), Crash(true)))
  {
    var s1, s2, s3 := Collect(map["system" := Pair(1, 0)]), Reserve("system", 0, true, true), InsertRow;
    FirstBytes(w, s1);
    var a := Next(w, s1);
    GrownMeans(a);
    DrawnFacts(a, s2);
    var b := Next(a, s2);
    InsertedFacts(b);
    hide Sound, Strong, NoShortfall, NoNegativeBase, NoSurplus, AllZero, Grown, Next, Possible, OrderlyRun, Run,
        Enabled, Orderly, Starts,
      Increase, CanOverCount, Overstates;
    RunTwo(a, s2, s3);
    RunCons(w, s1, [s2, s3]);
    CrashIsExact(Next(b, s3), true);
  }

  lemma GrownMeans(w: World)
    requires Grown(w) && AllZero(w) && w.hand.Idle? && Increase(w.agent, "system") == Pair(1, 0)
    ensures Sound(w) && Strong(w) && NoShortfall(w.agent) && NoNegativeBase(w.agent) && NoSurplus(w)
    ensures forall now, saved ::
      Enabled(w, Reserve("system", now, true, saved)) && Orderly(w, Reserve("system", now, true, saved))
  {
    hide Sound, Strong, NoShortfall, NoNegativeBase, Increase;
  }

  lemma InsertedFacts(b: World)
    requires Sound(b) && Strong(b) && NoShortfall(b.agent) && AllZero(b) && b.hand.HasSequence? && !Overstates(b)
    requires Enabled(b, InsertRow)
    ensures var c := Next(b, InsertRow);
      Orderly(b, InsertRow) && Sound(c) && Strong(c) && NoShortfall(c.agent) && NoSurplus(c) && c.hand.HasRow?
  {
    assert Bounded(b) by { SoundIsExact(b); }
    BoundedHand(b);
    RowHasScope(b);
    hide Bounded, HandFine, Sound, Strong, NoShortfall, AllZero, Next, Enabled, Overstates;
    StepKeepsSound(b, InsertRow);
    InsertKeepsStrong(b);
    StepKeepsNoShortfall(b, InsertRow);
    StepKeepsAllZero(b, InsertRow);
    StepKeepsStated(b, InsertRow);
  }

  /**
    From the start, one clean round over the first byte counted reaches a baseline which, if it cannot
    be read, is sent over again.
   */
  lemma UnreadIsReached(w: World)
    requires Starts(w)
    ensures exists before ::
        (Possible(w, before) && OrderlyRun(w, before) &&
        var m := Run(w, before); var draw := Reserve("system", 0, false, true);
      Enabled(m, draw) && Enabled(Next(m, draw), InsertRow) && CanOverCount(Next(Next(m, draw), InsertRow)))
  {
    var s1 := Collect(map["system" := Pair(1, 0)]);
    FirstBytes(w, s1);
    var a := Next(w, s1);
    GrownMeans(a);
    hide Grown, AllZero, Next, Possible, OrderlyRun, Run, Enabled, Orderly, Starts, Increase, CanOverCount;
    var steps, m := FirstRound(a);
    RunCons(w, s1, steps);
    UnreadBaselineIsExact(m, "system", 0, false, true);
    assert Run(w, [s1] + steps) == m;
  }

  lemma FirstRound(a: World) returns (steps: seq<Step>, m: World)
    requires Grown(a) && AllZero(a) && a.hand.Idle? && Increase(a.agent, "system") == Pair(1, 0)
    ensures Possible(a, steps) && OrderlyRun(a, steps) && m == Run(a, steps)
    ensures Sound(m) && Strong(m) && NoShortfall(m.agent) && NoNegativeBase(m.agent) && NoSurplus(m)
    ensures BaseOf(m.agent, "system") != ZERO_PAIR && Enabled(m, Reserve("system", 0, false, true))
  {
    hide Sound, Strong, NoShortfall, NoNegativeBase, AllZero, Next, Possible, OrderlyRun, Run, Enabled, Orderly,
        Increase,
      ComputeSteps, Level, CarefulRun, GrowingRun, CleanSteps, SameSurplus;
    steps := ComputeSteps(a.agent, ["system"], 0);
    ComputeAllIsRun(a, ["system"], 0);
    m := Run(a, steps);
    ComputeStepsUneventful(a.agent, ["system"], 0);
    UneventfulIsCareful(a, steps);
    CarefulIsClean(a, steps);
    RunKeepsGrown(a, steps);
    RoundedFacts(a, m);
  }

  lemma {:induction false} CarefulIsClean(w: World, steps: seq<Step>)
    requires Possible(w, steps) && CarefulRun(w, steps)
    ensures GrowingRun(w, steps) && CleanSteps(w, steps)
    decreases |steps|
  {
    hide Enabled, Next, Clean, Orderly, Grows;
    if steps != [] { CarefulIsClean(Next(w, steps[0]), steps[1..]); }
  }

  lemma RoundedFacts(a: World, m: World)
    requires NoNegativeBase(a.agent) && NoNegativeBase(m.agent) && Increase(a.agent, "system") == Pair(1, 0)
    requires m.agent.totals == a.agent.totals && m.hand.Idle? && Level(m.agent, "system")
    ensures BaseOf(m.agent, "system") != ZERO_PAIR && Enabled(m, Reserve("system", 0, false, true))
  {
    assert TotalOf(m.agent, "system") == TotalOf(a.agent, "system");
    assert BaseOf(a.agent, "system").rx >= 0;
  }
}

/**
  The whole synchronisation protocol of one machine: agent, lossy connections, manager. Crashes fall
  between any two of the agent's writes, each of its reads and writes may fail, connections lose what they
  carry, deliveries may fail.
 */
module SyncProtocol {
  import opened Names
  import opened Sums
  import opened Ledger
  import opened TrafficSync

  /** One WebSocket connection: deltas on their way up, acks on their way down, both in order. */
  datatype Conn = Conn(up: seq<Delta>, down: seq<Ack>)

  /** How far computeDeltas has come with the scope it is working on, and whether it could read the scope's baseline. */
  datatype Hand = Idle | HasSequence(scope: Scope, row: Row, read: bool) | HasRow(scope: Scope, row: Row, read: bool)

  /**
    issued collects every delta ever written to traffic_pending; surplus collects, per scope, what was
    issued without the baseline moving up by as much.
   */
  datatype World = World(
    machine: string,
    agent: Agent,
    hand: Hand,
    conns: seq<Conn>,
    books: Books,
    issued: set<Delta>,
    surplus: map<Scope, Pair>)

  datatype Step =
    | Collect(totals: map<Scope, Pair>)
    | Reserve(scope: Scope, now: int, read: bool, saved: bool)
    | InsertRow
    | InsertFails
    | SetBaseline(stored: bool)
    | Crash(loaded: bool)
    | Connect
    | Flush(c: nat, sent: nat)
    | Lose(c: nat, keepUp: nat, keepDown: nat)
    | Deliver(c: nat, day: string, fault: Fault, ackQueued: bool)
    | Receive(c: nat, deleted: bool)
    | OtherMachine(d: Delta, day: string, fault: Fault)
    | Scramble(c: nat, queue: seq<Delta>)

  ghost function SurplusOf(w: World, s: Scope): Pair { if s in w.surplus then w.surplus[s] else ZERO_PAIR }

  ghost function AddSurplus(w: World, s: Scope, p: Pair): map<Scope, Pair>
  {
    w.surplus[s := AddPair(SurplusOf(w, s), p)]
  }

  /** How far a total has fallen below its baseline. */
  function Shortfall(a: Agent, s: Scope): Pair
  {
    Pair(Max(0, BaseOf(a, s).rx - TotalOf(a, s).rx), Max(0, BaseOf(a, s).tx - TotalOf(a, s).tx))
  }

  /** What the row in hand carries beyond the increase over the baseline. */
  ghost function Excess(w: World): Pair
    requires !w.hand.Idle?
  {
    var inc := Increase(w.agent, w.hand.scope);
    Pair(w.hand.row.amount.rx - inc.rx, w.hand.row.amount.tx - inc.tx)
  }

  ghost predicate Enabled(w: World, s: Step)
  {
    match s
    case Collect(_) => w.hand.Idle?
    case Reserve(scope, _, read, _) => w.hand.Idle? && SeenIncrease(w.agent, scope, read) != ZERO_PAIR
    case InsertRow => w.hand.HasSequence? && w.agent.seqNo !in w.agent.pending
    case InsertFails => w.hand.HasSequence?
    case SetBaseline(_) => w.hand.HasRow?
    case Crash(_) => true
    case Connect => true
    case Flush(c, sent) => w.hand.Idle? && c < |w.conns| && sent <= |Outgoing(w.machine, w.agent.pending)|
    case Lose(c, up, down) => c < |w.conns| && up <= |w.conns[c].up| && down <= |w.conns[c].down|
    case Deliver(c, _, _, _) => c < |w.conns| && w.conns[c].up != []
    case Receive(c, _) => c < |w.conns| && w.conns[c].down != []
    case OtherMachine(d, _, _) => d.machine != w.machine
    case Scramble(c, up) => c < |w.conns| && forall d :: d in up ==> d in w.issued
  }

  function AckFor(b: Books, d: Delta, fault: Fault): Ack
  {
    Ack(d.machine, d.sequence, Outcomes(b, d, fault) != Error)
  }

  ghost function Next(w: World, s: Step): World
    requires Enabled(w, s)
  {
    match s
    case Collect(totals) => w.(agent := w.agent.(totals := totals))
    case Reserve(scope, now, read, saved) =>
      w.(agent := Reserved(w.agent, saved), hand := HasSequence(scope, RowFor(w.agent, scope, now, read), read))
    case InsertRow =>
      w.(agent := Inserted(w.agent, w.hand.row), hand := HasRow(w.hand.scope, w.hand.row, w.hand.read),
         issued := w.issued + {Delta(w.machine, w.agent.seqNo, w.hand.row)},
         surplus := if w.hand.read then w.surplus else AddSurplus(w, w.hand.scope, Excess(w)))
    case InsertFails => w.(hand := Idle)
    case SetBaseline(stored) =>
      if stored then
        w.(agent := Rebased(w.agent, w.hand.scope), hand := Idle,
           surplus := AddSurplus(w, w.hand.scope, Shortfall(w.agent, w.hand.scope)))
      else
        w.(hand := Idle, surplus := AddSurplus(w, w.hand.scope, Increase(w.agent, w.hand.scope)))
    case Crash(loaded) =>
      w.(agent := Restarted(w.agent, loaded), hand := Idle,
         surplus := if w.hand.HasRow? then AddSurplus(w, w.hand.scope, Increase(w.agent, w.hand.scope)) else w.surplus)
    case Connect => w.(conns := w.conns + [Conn([], [])])
    case Flush(c, sent) =>
      w.(conns := w.conns[c := w.conns[c].(up := w.conns[c].up + Outgoing(w.machine, w.agent.pending)[..sent])])
    case Lose(c, up, down) => w.(conns := w.conns[c := Conn(w.conns[c].up[..up], w.conns[c].down[..down])])
    case Deliver(c, day, fault, ackQueued) =>
      var d := w.conns[c].up[0];
      w.(books := Ingest(w.books, d, day, fault),
         conns := w.conns[c := Conn(w.conns[c].up[1..],
                                    if ackQueued then w.conns[c].down + [AckFor(w.books, d, fault)] else w.conns[c].down)])
    case Receive(c, deleted) =>
      w.(agent := if deleted then Acked(w.agent, w.machine, w.conns[c].down[0]) else w.agent,
         conns := w.conns[c := w.conns[c].(down := w.conns[c].down[1..])])
    case OtherMachine(d, day, fault) => w.(books := Ingest(w.books, d, day, fault))
    case Scramble(c, up) => w.(conns := w.conns[c := w.conns[c].(up := up)])
  }

  // ----- what holds whatever happens -----

  ghost function PendingSet(w: World): set<Delta>
  {
    set k | k in w.agent.pending :: Delta(w.machine, k, w.agent.pending[k])
  }

  ghost predicate IssuedFine(w: World)
  {
    && w.machine != ""
    && (forall d :: d in w.issued ==> d.machine == w.machine && d.row.amount.rx >= 0 && d.row.amount.tx >= 0)
    && HandFine(w)
  }

  /** The row in hand is still the one the totals and the baseline, as far as it was read, ask for. */
  ghost predicate HandFine(w: World)
  {
    !w.hand.Idle? ==>
      && w.hand.row.node == NodeOf(w.hand.scope)
      && w.hand.row.amount.rx == SeenIncrease(w.agent, w.hand.scope, w.hand.read).rx
      && w.hand.row.amount.tx == SeenIncrease(w.agent, w.hand.scope, w.hand.read).tx
      && (w.hand.row.amount.rx > 0 || w.hand.row.amount.tx > 0)
  }

  /** Pending rows, deltas under way and booked events of this machine were all issued as they are. */
  ghost predicate OnlyIssued(w: World)
  {
    && PendingSet(w) <= w.issued
    && (forall c, d :: 0 <= c < |w.conns| && d in w.conns[c].up ==> d in w.issued)
    && (forall d :: d in w.books.events && d.machine == w.machine ==> d in w.issued)
  }

  ghost function IssuedSum(w: World, s: Scope): Pair { SumFor(w.issued, (w.machine, NodeOf(s))) }

  /** How far a baseline still has to move for the row that is being written. */
  ghost function InHand(w: World, s: Scope): Pair
  {
    if w.hand.HasRow? && w.hand.scope == s then Increase(w.agent, s) else ZERO_PAIR
  }

  /** What a scope's deltas may come to: its baseline, its surplus and what is in hand. */
  ghost function Allowance(w: World, s: Scope): Pair
  {
    Pair(BaseOf(w.agent, s).rx + SurplusOf(w, s).rx + InHand(w, s).rx,
         BaseOf(w.agent, s).tx + SurplusOf(w, s).tx + InHand(w, s).tx)
  }

  ghost predicate Covered(w: World, s: Scope)
  {
    IssuedSum(w, s).rx <= Allowance(w, s).rx && IssuedSum(w, s).tx <= Allowance(w, s).tx
  }

  ghost predicate Bounded(w: World)
  {
    IssuedFine(w) && OnlyIssued(w) && Balanced(w.books) && forall s: Scope :: Covered(w, s)
  }

  // ----- what holds as long as no sequence is used twice -----

  /** What was issued for a scope is its baseline plus its surplus plus the row whose baseline is still to be set. */
  ghost predicate Accounted(w: World, s: Scope)
  {
    IssuedSum(w, s).rx == Allowance(w, s).rx && IssuedSum(w, s).tx == Allowance(w, s).tx
  }

  ghost predicate Exact(w: World) { Bounded(w) && Consistent(w.issued) && forall s: Scope :: Accounted(w, s) }

  /** The next sequence no delta or ack can carry yet. */
  ghost function Unused(w: World): nat { if w.hand.HasSequence? then w.agent.seqNo else w.agent.seqNo + 1 }

  ghost predicate Fresh(w: World) { forall d :: d in w.issued ==> d.sequence < Unused(w) }

  ghost predicate Sound(w: World) { Exact(w) && Fresh(w) }

  /** A restart takes up a sequence at or above every issued one. */
  ghost predicate Resumes(w: World, loaded: bool)
  {
    forall d :: d in w.issued ==> d.sequence <= Restarted(w.agent, loaded).seqNo
  }

  ghost predicate Steady(w: World, s: Step) { s.Crash? ==> Resumes(w, s.loaded) }

  lemma OutgoingFacts(w: World)
    ensures var out := Outgoing(w.machine, w.agent.pending);
      && |out| == |Ordered(w.agent.pending.Keys)|
      && (forall d :: d in out <==> d in PendingSet(w))
      && (forall i, j :: 0 <= i < j < |out| ==> out[i].sequence < out[j].sequence)
  {
    var keys, out := Ordered(w.agent.pending.Keys), Outgoing(w.machine, w.agent.pending);
    OrderedFacts(w.agent.pending.Keys);
    forall d | d in PendingSet(w) ensures d in out
    {
      var i :| 0 <= i < |keys| && keys[i] == d.sequence;
      assert out[i] == d;
    }
    forall d | d in out ensures d in PendingSet(w)
    {
      var i :| 0 <= i < |out| && out[i] == d;
      assert keys[i] in keys;
    }
  }

  lemma StepKeepsIssuedFine(w: World, s: Step)
    requires IssuedFine(w) && Enabled(w, s)
    ensures IssuedFine(Next(w, s))
  {
    hide IsScope, NodeOf, Outgoing, Ingest, SurplusOf, Shortfall, Excess;
    match s {
      case InsertRow =>
      case Reserve(_, _, _, _) =>
      case SetBaseline(_) =>
      case _ => hide SeenIncrease;
    }
  }

  lemma StepKeepsOnlyIssued(w: World, s: Step)
    requires OnlyIssued(w) && IssuedFine(w) && Enabled(w, s)
    ensures OnlyIssued(Next(w, s))
  {
    var after := Next(w, s);
    if s.Flush? { OutgoingFacts(w); }
    if s.Deliver? { assert w.conns[s.c].up[0] in w.conns[s.c].up; }
  }

  lemma ExcessOfRead(w: World)
    requires HandFine(w) && !w.hand.Idle?
    ensures w.hand.read ==> Excess(w).rx == 0 && Excess(w).tx == 0
    ensures w.hand.row.amount.rx >= 0 && w.hand.row.amount.tx >= 0 && w.hand.row.node == NodeOf(w.hand.scope)
  {
    hide NodeOf;
  }

  /** A row issued over again adds nothing to what was issued; a new one adds its amount. */
  lemma InsertSums(w: World, scope: Scope)
    requires HandFine(w) && Enabled(w, InsertRow)
    ensures var d, before, after := Delta(w.machine, w.agent.seqNo, w.hand.row), IssuedSum(w, scope),
        IssuedSum(Next(w, InsertRow), scope);
      && (d in w.issued || w.hand.scope != scope ==> after == before)
      && (d !in w.issued && w.hand.scope == scope ==> after == AddPair(before, w.hand.row.amount))
  {
    ExcessOfRead(w);
    hide NodeOf, HandFine, Increase, Excess;
    var d := Delta(w.machine, w.agent.seqNo, w.hand.row);
    if d in w.issued {
      assert w.issued + {d} == w.issued;
    } else {
      SumForInsert(w.issued, d, (w.machine, NodeOf(scope)));
      if NodeOf(w.hand.scope) == NodeOf(scope) { NodeOfInjective(w.hand.scope, scope); }
    }
  }

  lemma InsertSurplus(w: World, scope: Scope)
    requires HandFine(w) && Enabled(w, InsertRow)
    ensures var before, after := SurplusOf(w, scope), SurplusOf(Next(w, InsertRow), scope);
      && after.rx == before.rx + (if scope == w.hand.scope then Excess(w).rx else 0)
      && after.tx == before.tx + (if scope == w.hand.scope then Excess(w).tx else 0)
  {
    ExcessOfRead(w);
    hide NodeOf, HandFine, Increase, IsScope, Excess;
  }

  lemma InsertAllows(w: World, scope: Scope)
    requires HandFine(w) && Enabled(w, InsertRow)
    ensures var before, after := Allowance(w, scope), Allowance(Next(w, InsertRow), scope);
      && after.rx == before.rx + (if scope == w.hand.scope then w.hand.row.amount.rx else 0)
      && after.tx == before.tx + (if scope == w.hand.scope then w.hand.row.amount.tx else 0)
  {
    var after := Next(w, InsertRow);
    assert after.hand == HasRow(w.hand.scope, w.hand.row, w.hand.read);
    assert after.agent.base == w.agent.base && after.agent.totals == w.agent.totals;
    InsertSurplus(w, scope);
    SameIncrease(w.agent, after.agent, scope);
    hide NodeOf, HandFine, Increase, IsScope, Next, BaseOf, SurplusOf, Enabled;
  }

  lemma SameIncrease(a: Agent, b: Agent, s: Scope)
    requires a.totals == b.totals && a.base == b.base
    ensures Increase(a, s) == Increase(b, s) && BaseOf(a, s) == BaseOf(b, s)
  {
  }

  lemma IncreaseSplits(a: Agent, s: Scope)
    ensures Increase(a, s).rx + BaseOf(a, s).rx == TotalOf(a, s).rx + Shortfall(a, s).rx
    ensures Increase(a, s).tx + BaseOf(a, s).tx == TotalOf(a, s).tx + Shortfall(a, s).tx
  {
  }

  /** No other step changes what was issued or what may have been. */
  lemma StepKeepsAllowance(w: World, s: Step, scope: Scope)
    requires Enabled(w, s) && !s.InsertRow?
    ensures Next(w, s).issued == w.issued && Next(w, s).machine == w.machine
    ensures Allowance(Next(w, s), scope) == Allowance(w, scope)
  {
    match s {
      case SetBaseline(stored) => BaselineKeepsAllowance(w, stored, scope);
      case Crash(loaded) => CrashKeepsAllowance(w, loaded, scope);
      case InsertRow =>
      case _ => QuietAllowance(w, s, scope);
    }
  }

  lemma QuietAllowance(w: World, s: Step, scope: Scope)
    requires Enabled(w, s) && !s.InsertRow? && !s.SetBaseline? && !s.Crash?
    ensures Next(w, s).issued == w.issued && Next(w, s).machine == w.machine
    ensures Allowance(Next(w, s), scope) == Allowance(w, scope)
  {
    hide Increase, Ingest, Outgoing, RowFor, SeenIncrease, NodeOf, IsScope;
    var after := Next(w, s);
    assert after.issued == w.issued && after.surplus == w.surplus && after.agent.base == w.agent.base;
    assert InHand(after, scope) == InHand(w, scope) by {
      if w.hand.HasRow? {
        assert after.agent.totals == w.agent.totals;
        SameIncrease(w.agent, after.agent, scope);
      }
    }
  }

  lemma BaselineKeepsAllowance(w: World, stored: bool, scope: Scope)
    requires w.hand.HasRow?
    ensures Allowance(Next(w, SetBaseline(stored)), scope) == Allowance(w, scope)
  {
    hide NodeOf, Increase, Shortfall;
    IncreaseSplits(w.agent, scope);
    if w.hand.scope == scope {
      assert Allowance(Next(w, SetBaseline(true)), scope) == Allowance(w, scope);
      assert Allowance(Next(w, SetBaseline(false)), scope) == Allowance(w, scope);
    }
  }

  lemma CrashKeepsAllowance(w: World, loaded: bool, scope: Scope)
    ensures Allowance(Next(w, Crash(loaded)), scope) == Allowance(w, scope)
  {
    hide NodeOf, Increase;
  }

  lemma StepKeepsCovered(w: World, s: Step, scope: Scope)
    requires IssuedFine(w) && Enabled(w, s) && Covered(w, scope)
    ensures Covered(Next(w, s), scope)
    ensures Accounted(w, scope) && (s.InsertRow? ==> Fresh(w)) ==> Accounted(Next(w, s), scope)
  {
    if s.InsertRow? {
      ExcessOfRead(w);
      assert Fresh(w) ==> Delta(w.machine, w.agent.seqNo, w.hand.row) !in w.issued;
      hide Next, Enabled, IssuedSum, Allowance, IssuedFine, HandFine, Fresh, NodeOf, IsScope;
      InsertSums(w, scope);
      InsertAllows(w, scope);
    } else {
      hide NodeOf, SumFor, Next, Enabled, Allowance;
      StepKeepsAllowance(w, s, scope);
    }
  }

  lemma StepKeepsBooks(w: World, s: Step)
    requires IssuedFine(w) && OnlyIssued(w) && Balanced(w.books) && Enabled(w, s)
    ensures Balanced(Next(w, s).books)
  {
    if s.Deliver? { IngestKeepsBalance(w.books, w.conns[s.c].up[0], s.day, s.fault); }
    if s.OtherMachine? { IngestKeepsBalance(w.books, s.d, s.day, s.fault); }
    hide Balanced;
  }

  /**
    Over every step whatever: only what was issued is booked, and no more was issued than the baselines
    and the surplus say.
   */
  lemma StepKeepsBounded(w: World, s: Step)
    requires Bounded(w) && Enabled(w, s)
    ensures Bounded(Next(w, s))
  {
    StepKeepsIssuedFine(w, s);
    StepKeepsOnlyIssued(w, s);
    StepKeepsBooks(w, s);
    hide Balanced, IssuedFine, OnlyIssued, Enabled, Next, Fresh;
    forall scope: Scope ensures Covered(Next(w, s), scope) { StepKeepsCovered(w, s, scope); }
  }

  /** As long as a new row takes a new sequence, the account stays exact. */
  lemma StepKeepsExact(w: World, s: Step)
    requires Exact(w) && Enabled(w, s) && (s.InsertRow? ==> Fresh(w))
    ensures Exact(Next(w, s))
  {
    StepKeepsBounded(w, s);
    StepKeepsConsistent(w, s);
    hide Balanced, IssuedFine, OnlyIssued, Enabled, Next, Fresh, Covered;
    assert IssuedFine(w) && forall scope: Scope :: Covered(w, scope);
    forall scope: Scope ensures Accounted(Next(w, s), scope) { StepKeepsCovered(w, s, scope); }
  }

  lemma StepKeepsConsistent(w: World, s: Step)
    requires Consistent(w.issued) && Enabled(w, s) && (s.InsertRow? ==> Fresh(w))
    ensures Consistent(Next(w, s).issued)
  {
    hide Outgoing, Ingest, NodeOf, IsScope, Acked, Increase, SeenIncrease;
  }

  lemma StepKeepsFresh(w: World, s: Step)
    requires Fresh(w) && Enabled(w, s) && Steady(w, s)
    ensures Fresh(Next(w, s))
  {
    hide Outgoing, Ingest, NodeOf, IsScope, Increase, SeenIncrease, RowFor;
  }

  lemma StepKeepsSound(w: World, s: Step)
    requires Sound(w) && Enabled(w, s) && Steady(w, s)
    ensures Sound(Next(w, s))
  {
    hide Exact, Enabled, Next, Steady;
    StepKeepsExact(w, s);
    StepKeepsFresh(w, s);
  }

  ghost function Run(w: World, steps: seq<Step>): World
    requires Possible(w, steps)
    decreases |steps|
  {
    if steps == [] then w else Run(Next(w, steps[0]), steps[1..])
  }

  ghost predicate Possible(w: World, steps: seq<Step>)
    decreases |steps|
  {
    steps == [] || (Enabled(w, steps[0]) && Possible(Next(w, steps[0]), steps[1..]))
  }

  lemma {:induction false} RunKeepsBounded(w: World, steps: seq<Step>)
    requires Bounded(w) && Possible(w, steps)
    ensures Bounded(Run(w, steps))
    decreases |steps|
  {
    hide Bounded, Enabled, Next;
    if steps != [] {
      StepKeepsBounded(w, steps[0]);
      RunKeepsBounded(Next(w, steps[0]), steps[1..]);
    }
  }

  ghost predicate SteadyRun(w: World, steps: seq<Step>)
    requires Possible(w, steps)
    decreases |steps|
  {
    steps == [] || (Steady(w, steps[0]) && SteadyRun(Next(w, steps[0]), steps[1..]))
  }

  lemma {:induction false} RunKeepsSound(w: World, steps: seq<Step>)
    requires Sound(w) && Possible(w, steps) && SteadyRun(w, steps)
    ensures Sound(Run(w, steps))
    decreases |steps|
  {
    hide Sound, Enabled, Next, Steady;
    if steps != [] {
      StepKeepsSound(w, steps[0]);
      RunKeepsSound(Next(w, steps[0]), steps[1..]);
    }
  }

  /** Every sequence could be saved, and every restart could read it. */
  predicate SavesAndLoads(s: Step) { (s.Reserve? ==> s.saved) && (s.Crash? ==> s.loaded) }

  /** Then every restart resumes above what was issued. */
  lemma {:induction false} SavedRunIsSteady(w: World, steps: seq<Step>)
    requires Sound(w) && w.agent.savedSeq == w.agent.seqNo && Possible(w, steps) && forall s :: s in steps ==>
        SavesAndLoads(s)
    ensures SteadyRun(w, steps) && Run(w, steps).agent.savedSeq == Run(w, steps).agent.seqNo
    decreases |steps|
  {
    if steps != [] {
      assert SavesAndLoads(steps[0]);
      SavedStepIsSteady(w, steps[0]);
      hide Sound, Enabled, Next, Steady;
      StepKeepsSound(w, steps[0]);
      SavedRunIsSteady(Next(w, steps[0]), steps[1..]);
    }
  }

  lemma SavedStepIsSteady(w: World, s: Step)
    requires Sound(w) && w.agent.savedSeq == w.agent.seqNo && Enabled(w, s) && SavesAndLoads(s)
    ensures Steady(w, s) && Next(w, s).agent.savedSeq == Next(w, s).agent.seqNo
  {
    hide Exact, Outgoing, Ingest, NodeOf, IsScope, Increase, SeenIncrease, RowFor;
  }

  /** An agent that has never run, facing a manager that has heard nothing from it. */
  ghost predicate Starts(w: World)
  {
    && w.machine != "" && w.agent == Agent(map[], map[], 0, 0, map[]) && w.hand.Idle?
    && w.conns == [] && w.issued == {} && w.surplus == map[]
    && Balanced(w.books) && forall d :: d in w.books.events ==> d.machine != w.machine
  }

  lemma StartIsSound(w: World)
    requires Starts(w)
    ensures Sound(w) && Strong(w)
  {
  }

  /** The issued deltas the manager has booked. */
  ghost function HeldSet(w: World): set<Delta> { set d | d in w.issued && d in w.books.events }

  ghost function ManagerTotal(w: World, s: Scope): Pair { Balance(w.books.total, (w.machine, NodeOf(s))) }

  lemma HeldIsManagerTotal(w: World, s: Scope)
    requires Bounded(w)
    ensures ManagerTotal(w, s) == SumFor(HeldSet(w), (w.machine, NodeOf(s)))
  {
    hide NodeOf;
    var k := (w.machine, NodeOf(s));
    SumSupport(HeldSet(w), EventSet(w.books.events), RxFor(k));
    SumSupport(HeldSet(w), EventSet(w.books.events), TxFor(k));
  }

  /**
    Whatever the network loses, repeats or reorders, whichever reads and writes fail and wherever the agent
    crashes, the manager never holds more for a scope than was issued for it, and no more was issued than the
    baseline, the surplus and the row in hand come to: exactly that much if no restart falls behind.
   */
  lemma ManagerNeverExceedsIssued(w: World, steps: seq<Step>, s: Scope)
    requires Starts(w) && Possible(w, steps)
    ensures var e := Run(w, steps);
      && ManagerTotal(e, s).rx <= IssuedSum(e, s).rx <= BaseOf(e.agent, s).rx + SurplusOf(e, s).rx + InHand(e, s).rx
      && ManagerTotal(e, s).tx <= IssuedSum(e, s).tx <= BaseOf(e.agent, s).tx + SurplusOf(e, s).tx + InHand(e, s).tx
      && (SteadyRun(w, steps) ==> Accounted(e, s))
  {
    StartIsSound(w);
    RunKeepsBounded(w, steps);
    HeldBelowIssued(Run(w, steps), s);
    assert Covered(Run(w, steps), s);
    if SteadyRun(w, steps) { RunKeepsSound(w, steps); }
  }

  lemma HeldBelowIssued(w: World, s: Scope)
    requires Bounded(w)
    ensures ManagerTotal(w, s).rx <= IssuedSum(w, s).rx && ManagerTotal(w, s).tx <= IssuedSum(w, s).tx
  {
    var k := (w.machine, NodeOf(s));
    HeldIsManagerTotal(w, s);
    var rest := w.issued - HeldSet(w);
    SumSplit(HeldSet(w), w.issued, RxFor(k));
    SumSplit(HeldSet(w), w.issued, TxFor(k));
    SumSupport({}, rest, (d: Delta) => 0);
    SumMono(rest, (d: Delta) => 0, RxFor(k));
    SumMono(rest, (d: Delta) => 0, TxFor(k));
  }

  /** A step issues only deltas with sequences nobody has used before. */
  lemma StepIssuesFresh(w: World, s: Step)
    requires Fresh(w) && Enabled(w, s)
    ensures w.issued <= Next(w, s).issued
    ensures forall d, e :: d in w.issued && e in Next(w, s).issued && e !in w.issued ==> d.sequence < e.sequence
  {
  }

  lemma {:induction false} RunIssuesFresh(w: World, steps: seq<Step>)
    requires Sound(w) && Possible(w, steps) && SteadyRun(w, steps)
    ensures w.issued <= Run(w, steps).issued
    ensures forall d, e :: d in w.issued && e in Run(w, steps).issued && e !in w.issued ==> d.sequence < e.sequence
    decreases |steps|
  {
    if steps != [] {
      StepIssuesFresh(w, steps[0]);
      hide Exact, Fresh, Enabled, Next, Steady;
      StepKeepsSound(w, steps[0]);
      RunIssuesFresh(Next(w, steps[0]), steps[1..]);
    }
  }

  /**
    Sequences are never reused: over any run with crashes and restarts anywhere, each restart resuming at or
    above what was issued, whatever is issued later has a larger sequence than whatever was issued earlier.
    If the saves and loads succeed every restart does, and none exceeds the persisted sequence.
   */
  lemma SequencesNeverReused(w: World, before: seq<Step>, after: seq<Step>, d: Delta, e: Delta)
    requires Starts(w) && Possible(w, before) && Possible(Run(w, before), after)
    requires (SteadyRun(w, before) && SteadyRun(Run(w, before), after)) || forall s :: s in before + after ==>
        SavesAndLoads(s)
    requires d in Run(w, before).issued
    requires e in Run(Run(w, before), after).issued && e !in Run(w, before).issued
    ensures d.sequence < e.sequence
    ensures (forall s :: s in before + after ==> SavesAndLoads(s)) ==>
        e.sequence <= Run(Run(w, before), after).agent.savedSeq
  {
    StartIsSound(w);
    if forall s :: s in before + after ==> SavesAndLoads(s) {
      assert forall s :: s in before ==> s in before + after;
      assert forall s :: s in after ==> s in before + after;
      SavedRunIsSteady(w, before);
      RunKeepsSound(w, before);
      SavedRunIsSteady(Run(w, before), after);
    }
    RunKeepsSound(w, before);
    RunKeepsSound(Run(w, before), after);
    RunIssuesFresh(Run(w, before), after);
  }

  // ----- what first-in-first-out delivery adds -----

  /** Nothing leaves the pending table before the manager has booked it. */
  ghost predicate AckSafe(w: World)
  {
    forall d :: d in w.issued ==> d in PendingSet(w) || d in w.books.events
  }

  /** Ahead of any delta under way, everything issued earlier is booked or further ahead in the same queue. */
  ghost predicate InOrder(w: World)
  {
    forall c, i, d ::
      0 <= c < |w.conns| && 0 <= i < |w.conns[c].up| && d in w.issued && d.sequence < w.conns[c].up[i].sequence ==>
        d in w.books.events || d in w.conns[c].up[..i]
  }

  ghost predicate AckTrue(w: World, a: Ack)
  {
    a.machine == w.machine && a.accepted ==>
      && (exists d :: d in w.issued && d.sequence == a.sequence)
      && forall d :: d in w.issued && d.sequence <= a.sequence ==> d in w.books.events
  }

  ghost predicate AcksTrue(w: World)
  {
    forall c, a :: 0 <= c < |w.conns| && a in w.conns[c].down ==> AckTrue(w, a)
  }

  ghost predicate Strong(w: World) { AckSafe(w) && InOrder(w) && AcksTrue(w) }

  /**
    A failed ingest does no harm if the delta is already booked, or nothing newer stands behind it
    before its repetition.
   */
  ghost predicate Harmless(w: World, c: nat)
    requires c < |w.conns| && w.conns[c].up != []
  {
    var up := w.conns[c].up;
    up[0] in w.books.events || forall i :: 0 < i < |up| && up[i].sequence > up[0].sequence ==> up[0] in up[1..i]
  }

  /** The network keeps its order, no restart falls behind what was issued, and no ingest fails harmfully. */
  ghost predicate Orderly(w: World, s: Step)
    requires Enabled(w, s)
  {
    && !s.Scramble? && Steady(w, s)
    && (s.Deliver? ==> Outcomes(w.books, w.conns[s.c].up[0], s.fault) == Error ==> Harmless(w, s.c))
  }

  /** No booked event is lost, and what is newly issued has an unused sequence. */
  ghost predicate Advances(w: World, after: World)
  {
    && after.machine == w.machine && w.issued <= after.issued
    && (forall d :: d in w.books.events ==> d in after.books.events)
    && (forall d :: d in after.issued ==> d in w.issued || (d.sequence >= Unused(w) && d in PendingSet(after)))
  }

  lemma KeepsAckTrue(w: World, after: World, a: Ack)
    requires Advances(w, after) && Fresh(w) && AckTrue(w, a)
    ensures AckTrue(after, a)
  {
  }

  lemma KeepsAcksTrue(w: World, after: World)
    requires Advances(w, after) && Fresh(w) && AcksTrue(w)
    requires forall c, a :: 0 <= c < |after.conns| && a in after.conns[c].down ==> c < |w.conns| && a in w.conns[c].down
    ensures AcksTrue(after)
  {
    forall c, a | 0 <= c < |after.conns| && a in after.conns[c].down ensures AckTrue(after, a)
    {
      KeepsAckTrue(w, after, a);
    }
  }

  lemma KeepsInOrder(w: World, after: World)
    requires Advances(w, after) && InOrder(w) && OnlyIssued(w) && Fresh(w)
    requires forall c :: 0 <= c < |after.conns| && after.conns[c].up != [] ==>
        c < |w.conns| && after.conns[c].up <= w.conns[c].up
    ensures InOrder(after)
  {
    hide NodeOf, PendingSet;
    forall c, i, d | 0 <= c < |after.conns| && 0 <= i < |after.conns[c].up| && d in after.issued
                     && d.sequence < after.conns[c].up[i].sequence
      ensures d in after.books.events || d in after.conns[c].up[..i]
    {
      var x := w.conns[c].up[i];
      assert x == after.conns[c].up[i] && x in w.conns[c].up;
      assert after.conns[c].up[..i] == w.conns[c].up[..i];
    }
  }

  lemma KeepsAckSafe(w: World, after: World)
    requires Advances(w, after) && AckSafe(w)
    requires forall d :: d in w.issued && d in PendingSet(w) ==> d in PendingSet(after) || d in after.books.events
    ensures AckSafe(after)
  {
  }

  lemma InsertKeepsStrong(w: World)
    requires Sound(w) && Strong(w) && Enabled(w, InsertRow)
    ensures Strong(Next(w, InsertRow))
  {
    hide NodeOf, SumFor, Accounted, Balanced;
    var after := Next(w, InsertRow);
    var newest := Delta(w.machine, w.agent.seqNo, w.hand.row);
    assert w.agent.seqNo in after.agent.pending && newest in PendingSet(after);
    forall d | d in PendingSet(w) ensures d in PendingSet(after)
    {
      assert d in w.issued && d.sequence in after.agent.pending;
    }
    KeepsAckSafe(w, after);
    KeepsInOrder(w, after);
    KeepsAcksTrue(w, after);
  }

  /** Steps that neither issue nor touch a queue other than shortening it at the end. */
  lemma QuietKeepsStrong(w: World, s: Step)
    requires Sound(w) && Strong(w) && Enabled(w, s)
    requires s.Collect? || s.Reserve? || s.InsertFails? || s.SetBaseline? || s.Crash? || s.Connect? || s.Lose? ||
        s.OtherMachine?
    ensures Strong(Next(w, s))
  {
    hide NodeOf, SumFor, Accounted, Balanced, Increase, Outgoing, Acked;
    var after := Next(w, s);
    assert PendingSet(after) == PendingSet(w) && after.issued == w.issued;
    assert forall d :: d in w.books.events ==> d in after.books.events;
    KeepsAckSafe(w, after);
    KeepsInOrder(w, after);
    KeepsAcksTrue(w, after);
  }

  /** Appending a prefix of the pending rows, in sequence order, keeps a queue in order. */
  lemma FlushedQueueInOrder(w: World, c: nat, sent: nat)
    requires AckSafe(w) && InOrder(w) && Enabled(w, Flush(c, sent))
    ensures var up := w.conns[c].up + Outgoing(w.machine, w.agent.pending)[..sent];
            forall i, d :: 0 <= i < |up| && d in w.issued && d.sequence < up[i].sequence ==> d in w.books.events || d in up[..i]
  {
    hide Outgoing, PendingSet;
    OutgoingFacts(w);
    var out, up := Outgoing(w.machine, w.agent.pending), w.conns[c].up;
    var up' := up + out[..sent];
    forall i, d | 0 <= i < |up'| && d in w.issued && d.sequence < up'[i].sequence
      ensures d in w.books.events || d in up'[..i]
    {
      if i < |up| {
        assert up'[..i] == up[..i] && up'[i] == up[i];
      } else if d !in w.books.events {
        var j :| 0 <= j < |out| && out[j] == d;
        assert up'[i] == out[i - |up|] && j < i - |up|;
        assert up'[|up| + j] == d;
      }
    }
  }

  lemma FlushKeepsStrong(w: World, c: nat, sent: nat)
    requires Sound(w) && Strong(w) && Enabled(w, Flush(c, sent))
    ensures Strong(Next(w, Flush(c, sent)))
  {
    hide NodeOf, SumFor, Accounted, Outgoing, Balanced;
    var after := Next(w, Flush(c, sent));
    FlushedQueueInOrder(w, c, sent);
    forall b, i, d | 0 <= b < |after.conns| && 0 <= i < |after.conns[b].up| && d in after.issued
                     && d.sequence < after.conns[b].up[i].sequence
      ensures d in after.books.events || d in after.conns[b].up[..i]
    {
      if b != c { assert after.conns[b] == w.conns[b]; }
    }
    assert PendingSet(after) == PendingSet(w);
    KeepsAckSafe(w, after);
    KeepsAcksTrue(w, after);
  }

  lemma ReceiveKeepsStrong(w: World, c: nat, deleted: bool)
    requires Sound(w) && Strong(w) && Enabled(w, Receive(c, deleted))
    ensures Strong(Next(w, Receive(c, deleted)))
  {
    hide NodeOf, SumFor, Accounted, Balanced;
    var a, after := w.conns[c].down[0], Next(w, Receive(c, deleted));
    assert a in w.conns[c].down && AckTrue(w, a);
    forall d | d in w.issued && d in PendingSet(w) ensures d in PendingSet(after) || d in w.books.events
    {
      if a.machine == w.machine && a.accepted && d.sequence > a.sequence {
        assert d.sequence in after.agent.pending;
      }
    }
    assert PendingSet(after) <= PendingSet(w);
    KeepsAckSafe(w, after);
    KeepsInOrder(w, after);
    KeepsAcksTrue(w, after);
  }

  /** After a delivery without error the delta is booked. */
  lemma DeliveredIsBooked(w: World, d: Delta, day: string, fault: Fault)
    requires Exact(w) && d in w.issued
    ensures Outcomes(w.books, d, fault) != Error ==> d in Ingest(w.books, d, day, fault).events
    ensures Outcomes(w.books, d, fault) == Error ==> Ingest(w.books, d, day, fault) == w.books
    ensures forall e :: e in w.books.events ==> e in Ingest(w.books, d, day, fault).events
    ensures forall e :: e in Ingest(w.books, d, day, fault).events ==> e in w.books.events || e == d
    ensures fault.NoFault? ==> Outcomes(w.books, d, fault) != Error
  {
    if Outcomes(w.books, d, fault) == Duplicate {
      var i :| 0 <= i < |w.books.events| && w.books.events[i].machine == d.machine && w.books.events[i].sequence == d.sequence;
      assert w.books.events[i] in w.books.events;
    }
  }

  lemma DeliverKeepsStrong(w: World, c: nat, day: string, fault: Fault, ackQueued: bool)
    requires Sound(w) && Strong(w) && Enabled(w, Deliver(c, day, fault, ackQueued))
    requires Orderly(w, Deliver(c, day, fault, ackQueued))
    ensures Strong(Next(w, Deliver(c, day, fault, ackQueued)))
  {
    hide NodeOf, SumFor, Accounted, Balanced, Ingest, Outcomes;
    var s := Deliver(c, day, fault, ackQueued);
    var after, up := Next(w, s), w.conns[c].up;
    assert up[0] in up;
    DeliveredIsBooked(w, up[0], day, fault);
    assert PendingSet(after) == PendingSet(w);
    KeepsAckSafe(w, after);
    forall b, i, d | 0 <= b < |after.conns| && 0 <= i < |after.conns[b].up| && d in after.issued
                     && d.sequence < after.conns[b].up[i].sequence
      ensures d in after.books.events || d in after.conns[b].up[..i]
    {
      if b == c {
        TailInOrder(w, after, c, i, d);
      } else {
        assert after.conns[b] == w.conns[b];
      }
    }
    forall b, a | 0 <= b < |after.conns| && a in after.conns[b].down ensures AckTrue(after, a)
    {
      if a in w.conns[b].down {
        KeepsAckTrue(w, after, a);
      } else {
        assert b == c && a == AckFor(w.books, up[0], fault);
        HeadAckTrue(w, after, c, fault);
      }
    }
  }

  /** The ack for a queue's head is true once the head is booked. */
  lemma HeadAckTrue(w: World, after: World, c: nat, fault: Fault)
    requires Sound(w) && Strong(w) && Advances(w, after) && after.issued == w.issued
    requires c < |w.conns| && w.conns[c].up != []
    requires Outcomes(w.books, w.conns[c].up[0], fault) != Error ==> w.conns[c].up[0] in after.books.events
    ensures AckTrue(after, AckFor(w.books, w.conns[c].up[0], fault))
  {
    hide NodeOf, SumFor, Accounted, Balanced, Outcomes, PendingSet;
    var head := w.conns[c].up[0];
    assert head in w.conns[c].up && head in w.issued;
    forall d | d in w.issued && d.sequence < head.sequence ensures d in w.books.events
    {
      assert w.conns[c].up[..0] == [];
    }
  }

  /** Taking the head off a queue keeps the order behind it if the head is now booked or its loss is harmless. */
  lemma TailInOrder(w: World, after: World, c: nat, i: nat, d: Delta)
    requires InOrder(w) && c < |w.conns| && 0 <= i < |w.conns[c].up| - 1
    requires after.issued == w.issued && forall e :: e in w.books.events ==> e in after.books.events
    requires c < |after.conns| && after.conns[c].up == w.conns[c].up[1..]
    requires w.conns[c].up[0] in after.books.events || Harmless(w, c)
    requires d in w.issued && d.sequence < after.conns[c].up[i].sequence
    ensures d in after.books.events || d in after.conns[c].up[..i]
  {
    var up := w.conns[c].up;
    assert up[1..][i] == up[i + 1] && up[1..][..i] == up[1..i + 1];
    assert up[..i + 1] == [up[0]] + up[1..i + 1];
    assert d in w.books.events || d in up[..i + 1];
  }

  lemma StepKeepsStrong(w: World, s: Step)
    requires Sound(w) && Strong(w) && Enabled(w, s) && Orderly(w, s)
    ensures Strong(Next(w, s))
  {
    match s {
      case InsertRow => InsertKeepsStrong(w);
      case Flush(c, sent) => FlushKeepsStrong(w, c, sent);
      case Receive(c, deleted) => ReceiveKeepsStrong(w, c, deleted);
      case Deliver(c, day, fault, ackQueued) => DeliverKeepsStrong(w, c, day, fault, ackQueued);
      case _ => QuietKeepsStrong(w, s);
    }
  }

  ghost predicate OrderlyRun(w: World, steps: seq<Step>)
    requires Possible(w, steps)
    decreases |steps|
  {
    steps == [] || (Orderly(w, steps[0]) && OrderlyRun(Next(w, steps[0]), steps[1..]))
  }

  lemma {:induction false} RunKeepsStrong(w: World, steps: seq<Step>)
    requires Sound(w) && Strong(w) && Possible(w, steps) && OrderlyRun(w, steps)
    ensures Sound(Run(w, steps)) && Strong(Run(w, steps))
    decreases |steps|
  {
    if steps != [] {
      StepKeepsSound(w, steps[0]);
      StepKeepsStrong(w, steps[0]);
      RunKeepsStrong(Next(w, steps[0]), steps[1..]);
    }
  }

  /** In every orderly run an ack removes only what the manager holds. */
  lemma AcksAreSafe(w: World, steps: seq<Step>)
    requires Starts(w) && Possible(w, steps) && OrderlyRun(w, steps)
    ensures AckSafe(Run(w, steps))
  {
    StartIsSound(w);
    RunKeepsStrong(w, steps);
  }

  ghost function UnheldPending(w: World, s: Scope): Pair
  {
    SumFor(PendingSet(w) - HeldSet(w), (w.machine, NodeOf(s)))
  }

  ghost predicate Conserved(w: World, s: Scope)
  {
    && BaseOf(w.agent, s).rx + SurplusOf(w, s).rx + InHand(w, s).rx == ManagerTotal(w, s).rx + UnheldPending(w, s).rx
    && BaseOf(w.agent, s).tx + SurplusOf(w, s).tx + InHand(w, s).tx == ManagerTotal(w, s).tx + UnheldPending(w, s).tx
  }

  /**
    Conservation: in every orderly run, what a scope's baseline stands for, plus its surplus, is at the
    manager or in pending rows the manager has not booked.
   */
  lemma TrafficIsConserved(w: World, steps: seq<Step>, s: Scope)
    requires Starts(w) && Possible(w, steps) && OrderlyRun(w, steps)
    ensures Conserved(Run(w, steps), s)
  {
    StartIsSound(w);
    RunKeepsStrong(w, steps);
    StrongConserves(Run(w, steps), s);
  }

  lemma StrongConserves(w: World, s: Scope)
    requires Sound(w) && Strong(w)
    ensures Conserved(w, s)
  {
    var k := (w.machine, NodeOf(s));
    assert Accounted(w, s);
    HeldIsManagerTotal(w, s);
    assert w.issued - HeldSet(w) == PendingSet(w) - HeldSet(w);
    SumSplit(HeldSet(w), w.issued, RxFor(k));
    SumSplit(HeldSet(w), w.issued, TxFor(k));
  }

  // ----- runs, put together -----

  lemma {:induction false} RunConcat(w: World, a: seq<Step>, b: seq<Step>)
    requires Possible(w, a) && Possible(Run(w, a), b)
    ensures Possible(w, a + b) && Run(w, a + b) == Run(Run(w, a), b)
    ensures OrderlyRun(w, a) && OrderlyRun(Run(w, a), b) ==> OrderlyRun(w, a + b)
    decreases |a|
  {
    if a == [] {
      assert a + b == b;
    } else {
      assert (a + b)[1..] == a[1..] + b;
      RunConcat(Next(w, a[0]), a[1..], b);
    }
  }

  function Deliveries(c: nat, n: nat): seq<Step> { seq(n, _ => Deliver(c, "", NoFault, true)) }

  function Receipts(c: nat, n: nat): seq<Step> { seq(n, _ => Receive(c, true)) }

  lemma RunCons(w: World, s: Step, rest: seq<Step>)
    requires Enabled(w, s) && Possible(Next(w, s), rest)
    ensures Possible(w, [s] + rest) && Run(w, [s] + rest) == Run(Next(w, s), rest)
    ensures Orderly(w, s) && OrderlyRun(Next(w, s), rest) ==> OrderlyRun(w, [s] + rest)
  {
    hide Enabled, Orderly;
    assert ([s] + rest)[1..] == rest;
  }

  function AcksFor(machine: string, ds: seq<Delta>): seq<Ack>
  {
    seq(|ds|, i requires 0 <= i < |ds| => Ack(machine, ds[i].sequence, true))
  }

  /** From w to e, the first n deltas of connection c have been booked and acked, and nothing else has happened. */
  ghost predicate Delivered(w: World, e: World, c: nat, n: nat)
    requires c < |w.conns| && n <= |w.conns[c].up|
  {
    var up := w.conns[c].up;
    && e.agent == w.agent && e.hand == w.hand && e.issued == w.issued
    && e.machine == w.machine && e.surplus == w.surplus && |e.conns| == |w.conns|
    && e.conns[c].up == up[n..] && e.conns[c].down == w.conns[c].down + AcksFor(w.machine, up[..n])
    && (forall d :: d in e.books.events <==> d in w.books.events || d in up[..n])
  }

  lemma HeadIsIssued(w: World, c: nat)
    requires Exact(w) && c < |w.conns| && w.conns[c].up != []
    ensures w.conns[c].up[0] in w.issued && w.conns[c].up[0].machine == w.machine
  {
    assert w.conns[c].up[0] in w.conns[c].up;
  }

  lemma DeliverOne(w: World, c: nat)
    requires Exact(w) && c < |w.conns| && w.conns[c].up != []
    ensures var s := Deliver(c, "", NoFault, true);
            Enabled(w, s) && Orderly(w, s) && Exact(Next(w, s)) && Delivered(w, Next(w, s), c, 1)
  {
    var s := Deliver(c, "", NoFault, true);
    StepKeepsExact(w, s);
    HeadIsIssued(w, c);
    DeliveredIsBooked(w, w.conns[c].up[0], "", NoFault);
    hide Exact, Ingest, Outcomes;
    assert w.conns[c].up[..1] == [w.conns[c].up[0]];
  }

  lemma DeliveredCompose(w: World, mid: World, e: World, c: nat, n: nat)
    requires c < |w.conns| && 1 + n <= |w.conns[c].up|
    requires Delivered(w, mid, c, 1) && n <= |mid.conns[c].up| && Delivered(mid, e, c, n)
    ensures Delivered(w, e, c, 1 + n)
  {
    var up := w.conns[c].up;
    assert up[1..][n..] == up[1 + n..];
    assert up[..1 + n] == up[..1] + up[1..][..n];
    assert AcksFor(w.machine, up[..1 + n]) == AcksFor(w.machine, up[..1]) + AcksFor(w.machine, up[1..][..n]);
  }

  lemma DeliveredNone(w: World, c: nat)
    requires c < |w.conns|
    ensures Delivered(w, w, c, 0) && Possible(w, Deliveries(c, 0)) && OrderlyRun(w, Deliveries(c, 0))
    ensures Run(w, Deliveries(c, 0)) == w
  {
  }

  lemma DeliveredShortens(w: World, e: World, c: nat)
    requires c < |w.conns| && w.conns[c].up != [] && Delivered(w, e, c, 1)
    ensures c < |e.conns| && |e.conns[c].up| == |w.conns[c].up| - 1
  {
  }

  /** Delivering the first n deltas of a queue books exactly those and queues an ack for each. */
  lemma {:induction false} DeliverMany(w: World, c: nat, n: nat)
    requires Exact(w) && c < |w.conns| && n <= |w.conns[c].up|
    ensures Possible(w, Deliveries(c, n)) && OrderlyRun(w, Deliveries(c, n))
    ensures Exact(Run(w, Deliveries(c, n))) && Delivered(w, Run(w, Deliveries(c, n)), c, n)
    decreases n
  {
    hide Exact, Enabled, Next, Orderly, Delivered;
    if n == 0 {
      DeliveredNone(w, c);
    } else {
      var s := Deliver(c, "", NoFault, true);
      DeliverOne(w, c);
      DeliveredShortens(w, Next(w, s), c);
      DeliverMany(Next(w, s), c, n - 1);
      RunCons(w, s, Deliveries(c, n - 1));
      assert [s] + Deliveries(c, n - 1) == Deliveries(c, n);
      DeliveredCompose(w, Next(w, s), Run(w, Deliveries(c, n)), c, n - 1);
    }
  }

  predicate AcksRow(w: World, a: Ack) { a.machine == w.machine && a.accepted }

  /** Receiving n acks leaves only rows above every accepted one. */
  lemma {:induction false} ReceiveMany(w: World, c: nat, n: nat)
    requires Exact(w) && c < |w.conns| && n <= |w.conns[c].down|
    ensures Possible(w, Receipts(c, n)) && OrderlyRun(w, Receipts(c, n))
    ensures var e := Run(w, Receipts(c, n));
      && Exact(e) && e.agent.seqNo == w.agent.seqNo && e.agent.savedSeq == w.agent.savedSeq && e.books == w.books
      && e.issued == w.issued && e.machine == w.machine && e.hand == w.hand
      && e.surplus == w.surplus && e.agent.base == w.agent.base && e.agent.totals == w.agent.totals
      && (forall k :: k in e.agent.pending ==> k in w.agent.pending)
      && (forall k, i :: k in e.agent.pending && 0 <= i < n && AcksRow(w, w.conns[c].down[i]) ==>
          k > w.conns[c].down[i].sequence)
    decreases n
  {
    if n > 0 {
      var next, down := Next(w, Receive(c, true)), w.conns[c].down;
      StepKeepsExact(w, Receive(c, true));
      ReceiveMany(next, c, n - 1);
      assert Receipts(c, n)[1..] == Receipts(c, n - 1);
      assert forall i :: 0 < i < n ==> down[i] == next.conns[c].down[i - 1];
    }
  }

  /**
    A failed ingest is harmless exactly when every orderly continuation still acks only booked deltas.
    Otherwise delivering what stands behind it and returning the acks deletes the failed row unbooked.
   */
  lemma FailedIngestIsExact(w: World, s: Step)
    requires Sound(w) && Strong(w) && s.Deliver? && Enabled(w, s)
    requires Outcomes(w.books, w.conns[s.c].up[0], s.fault) == Error
    ensures Harmless(w, s.c) <==>
            forall steps :: Possible(Next(w, s), steps) && OrderlyRun(Next(w, s), steps) ==> AckSafe(Run(Next(w, s), steps))
  {
    var after := Next(w, s);
    StepKeepsSound(w, s);
    if Harmless(w, s.c) {
      StepKeepsStrong(w, s);
      forall steps | Possible(after, steps) && OrderlyRun(after, steps) ensures AckSafe(Run(after, steps))
      {
        RunKeepsStrong(after, steps);
      }
    } else {
      HarmfulIngestLoses(w, s);
    }
  }

  lemma HarmfulIngestLoses(w: World, s: Step)
    requires Sound(w) && s.Deliver? && Enabled(w, s)
    requires Outcomes(w.books, w.conns[s.c].up[0], s.fault) == Error && !Harmless(w, s.c)
    ensures exists steps :: (Possible(Next(w, s), steps) && OrderlyRun(Next(w, s), steps) &&
        !AckSafe(Run(Next(w, s), steps)))
  {
    FailedFacts(w, s);
    var up := w.conns[s.c].up;
    var i :| 0 < i < |up| && up[i].sequence > up[0].sequence && up[0] !in up[1..i];
    hide Next, Enabled, Sound, Exact, OrderlyRun, Possible, Run, Harmless, Outcomes, AckSafe;
    var steps := RestLoses(Next(w, s), s.c, up, i);
  }

  /** Delivering the rest of the queue up to a newer delta, and returning all acks. */
  lemma RestLoses(after: World, c: nat, up: seq<Delta>, i: nat) returns (steps: seq<Step>)
    requires Exact(after) && c < |after.conns| && up != [] && after.conns[c].up == up[1..]
    requires up[0] in after.issued && up[0] !in after.books.events
    requires 0 < i < |up| && up[i].sequence > up[0].sequence && up[0] !in up[1..i]
    ensures Possible(after, steps) && OrderlyRun(after, steps) && !AckSafe(Run(after, steps))
  {
    hide Next, Enabled, Exact, OrderlyRun, Orderly, Possible, Run;
    DeliverMany(after, c, i);
    var a := Run(after, Deliveries(c, i));
    var n := |a.conns[c].down|;
    ReceiveMany(a, c, n);
    var b := Run(a, Receipts(c, n));
    RunConcat(after, Deliveries(c, i), Receipts(c, n));
    LostForGood(up, i, after, a, b, c, n);
    steps := Deliveries(c, i) + Receipts(c, n);
  }

  lemma FailedFacts(w: World, s: Step)
    requires Sound(w) && s.Deliver? && Enabled(w, s) && !Harmless(w, s.c)
    requires Outcomes(w.books, w.conns[s.c].up[0], s.fault) == Error
    ensures var after, up := Next(w, s), w.conns[s.c].up;
      && Exact(after) && s.c < |after.conns| && after.conns[s.c].up == up[1..] && after.books == w.books
      && up[0] in after.issued && up[0] !in after.books.events
  {
    StepKeepsExact(w, s);
    HeadIsIssued(w, s.c);
    hide Exact, Fresh, Outcomes;
  }

  lemma LostForGood(up: seq<Delta>, i: nat, after: World, a: World, b: World, c: nat, n: nat)
    requires 0 < i < |up| && up[i].sequence > up[0].sequence && up[0] !in up[1..i]
    requires c < |after.conns| && after.conns[c].up == up[1..] && up[0] in after.issued && up[0] !in after.books.events
    requires Delivered(after, a, c, i) && n == |a.conns[c].down|
    requires b.books == a.books && b.issued == a.issued
    requires forall k, j :: k in b.agent.pending && 0 <= j < n && AcksRow(a, a.conns[c].down[j]) ==>
        k > a.conns[c].down[j].sequence
    ensures !AckSafe(b)
  {
    assert up[1..][..i] == up[1..i] + [up[i]];
    assert up[0] !in b.books.events;
    var j := |after.conns[c].down| + i - 1;
    assert a.conns[c].down[j] == AcksFor(after.machine, up[1..][..i])[i - 1];
    assert a.conns[c].down[j] == Ack(after.machine, up[i].sequence, true);
    assert AcksRow(a, a.conns[c].down[j]);
    assert up[0].sequence !in b.agent.pending;
    assert up[0] !in PendingSet(b);
  }

  // ----- the agent's methods as runs, and catching up -----

  /** The protocol steps computeDeltas goes through when nothing interrupts it. */
  function ComputeSteps(a: Agent, scopes: seq<Scope>, now: int): seq<Step>
    decreases |scopes|
  {
    if scopes == [] then []
    else match ComputeOne(a, scopes[0], now)
      case None => []
      case Some(b) =>
        (if Increase(a, scopes[0]) == ZERO_PAIR then [] else [Reserve(scopes[0], now, true, true), InsertRow, SetBaseline(true)])
        + ComputeSteps(b, scopes[1..], now)
  }

  /** No total has fallen below its baseline. */
  ghost predicate NoShortfall(a: Agent)
  {
    forall s: Scope :: BaseOf(a, s).rx <= TotalOf(a, s).rx && BaseOf(a, s).tx <= TotalOf(a, s).tx
  }

  lemma RunThree(w: World, x: Step, y: Step, z: Step)
    requires Enabled(w, x) && Enabled(Next(w, x), y) && Enabled(Next(Next(w, x), y), z)
    requires Orderly(w, x) && Orderly(Next(w, x), y) && Orderly(Next(Next(w, x), y), z)
    ensures Possible(w, [x, y, z]) && OrderlyRun(w, [x, y, z]) && Run(w, [x, y, z]) == Next(Next(Next(w, x), y), z)
  {
    hide Enabled, Orderly, Next;
    var a := Next(w, x);
    var b := Next(a, y);
    assert Possible(Next(b, z), []);
    RunCons(b, z, []);
    RunCons(a, y, [z] + []);
    RunCons(w, x, [y] + ([z] + []));
    assert [x] + ([y] + ([z] + [])) == [x, y, z];
  }

  /** There is something to send for the scope, and no row stands in the way of its sequence. */
  ghost predicate CanWork(w: World, s: Scope)
  {
    w.hand.Idle? && Increase(w.agent, s) != ZERO_PAIR && w.agent.seqNo + 1 !in w.agent.pending
  }

  /** Working off one scope: what the three writes leave behind. */
  ghost function WorkedOff(w: World, s: Scope, now: int): World
    requires CanWork(w, s)
  {
    Next(Next(Next(w, Reserve(s, now, true, true)), InsertRow), SetBaseline(true))
  }

  lemma WorkedOffIsSound(w: World, s: Scope, now: int)
    requires Sound(w) && CanWork(w, s)
    ensures Sound(WorkedOff(w, s, now))
  {
    hide Sound, Increase;
    StepKeepsSound(w, Reserve(s, now, true, true));
    StepKeepsSound(Next(w, Reserve(s, now, true, true)), InsertRow);
    StepKeepsSound(Next(Next(w, Reserve(s, now, true, true)), InsertRow), SetBaseline(true));
  }

  /** From w to e only the agent's own tables have moved, and no surplus has arisen. */
  ghost predicate Computed(w: World, e: World)
  {
    && Sound(e) && e.hand.Idle? && e.machine == w.machine && e.conns == w.conns && e.books == w.books
    && e.agent.totals == w.agent.totals && NoShortfall(e.agent)
    && SameSurplus(w, e)
  }

  lemma NextSequenceIsFree(w: World)
    requires Sound(w) && w.hand.Idle?
    ensures w.agent.seqNo + 1 !in w.agent.pending
  {
    hide NodeOf, SumFor, Accounted, Balanced;
    forall k | k in w.agent.pending ensures k <= w.agent.seqNo
    {
      assert Delta(w.machine, k, w.agent.pending[k]) in PendingSet(w);
    }
  }

  /** Working off a scope moves its baseline up to its total and no other. */
  lemma WorkedOffBaselines(w: World, s: Scope, now: int, t: Scope)
    requires CanWork(w, s)
    ensures var e := WorkedOff(w, s, now);
      && e.agent.totals == w.agent.totals && e.hand.Idle? && e.machine == w.machine && e.conns == w.conns
      && e.books == w.books
      && BaseOf(e.agent, t) == if t == s then TotalOf(w.agent, s) else BaseOf(w.agent, t)
  {
    hide NodeOf, Increase, Shortfall;
  }

  lemma NoShortfallIsZero(w: World, b: World, s: Scope)
    requires NoShortfall(w.agent) && b.agent.base == w.agent.base && b.agent.totals == w.agent.totals
    ensures Shortfall(b.agent, s).rx == 0 && Shortfall(b.agent, s).tx == 0
  {
    assert BaseOf(b.agent, s) == BaseOf(w.agent, s) && TotalOf(b.agent, s) == TotalOf(w.agent, s);
  }

  ghost predicate SameSurplus(w: World, e: World)
  {
    forall s: Scope :: SurplusOf(e, s).rx == SurplusOf(w, s).rx && SurplusOf(e, s).tx == SurplusOf(w, s).tx
  }

  lemma AddNothing(a: Pair, p: Pair)
    requires p.rx == 0 && p.tx == 0
    ensures AddPair(a, p).rx == a.rx && AddPair(a, p).tx == a.tx
  {
  }

  lemma ZeroSurplus(b: World, e: World, s: Scope, p: Pair)
    requires p.rx == 0 && p.tx == 0
    requires e.surplus == AddSurplus(b, s, p)
    ensures SameSurplus(b, e)
  {
    hide IsScope, AddPair;
    AddNothing(SurplusOf(b, s), p);
    var q := AddPair(SurplusOf(b, s), p);
    assert e.surplus == b.surplus[s := q];
    hide AddSurplus;
  }

  lemma WorkedOffSurplus(w: World, s: Scope, now: int)
    requires CanWork(w, s) && NoShortfall(w.agent)
    ensures SameSurplus(w, WorkedOff(w, s, now))
  {
    hide NodeOf, Increase, RowFor, SurplusOf, Shortfall, AddSurplus, SameSurplus;
    var b := Next(Next(w, Reserve(s, now, true, true)), InsertRow);
    NoShortfallIsZero(w, b, s);
    assert WorkedOff(w, s, now).surplus == AddSurplus(b, s, Shortfall(b.agent, s));
    ZeroSurplus(b, WorkedOff(w, s, now), s, Shortfall(b.agent, s));
    SurplusCong(w, b, WorkedOff(w, s, now));
  }

  lemma SurplusCong(w: World, b: World, e: World)
    requires w.surplus == b.surplus && SameSurplus(b, e)
    ensures SameSurplus(w, e)
  {
    forall s: Scope ensures SurplusOf(e, s).rx == SurplusOf(w, s).rx && SurplusOf(e, s).tx == SurplusOf(w, s).tx
    {
      assert SurplusOf(b, s) == SurplusOf(w, s);
    }
  }

  lemma WorkedOffIsComputed(w: World, s: Scope, now: int)
    requires Sound(w) && CanWork(w, s) && NoShortfall(w.agent)
    ensures Computed(w, WorkedOff(w, s, now))
  {
    hide Sound, Increase, WorkedOff, SameSurplus;
    WorkedOffIsSound(w, s, now);
    WorkedOffSurplus(w, s, now);
    forall t: Scope
      ensures BaseOf(WorkedOff(w, s, now).agent, t).rx <= TotalOf(WorkedOff(w, s, now).agent, t).rx
      ensures BaseOf(WorkedOff(w, s, now).agent, t).tx <= TotalOf(WorkedOff(w, s, now).agent, t).tx
    {
      WorkedOffBaselines(w, s, now, t);
    }
    WorkedOffBaselines(w, s, now, s);
  }

  lemma WorkedOffAgent(w: World, s: Scope, now: int)
    requires CanWork(w, s)
    ensures WorkedOff(w, s, now).agent == Rebased(Inserted(Reserved(w.agent, true), RowFor(w.agent, s, now, true)), s)
  {
    hide NodeOf, Increase, Shortfall, RowFor, SurplusOf, Reserved, Inserted, Rebased;
  }

  lemma WorkingOffIsRun(w: World, s: Scope, now: int)
    requires CanWork(w, s)
    ensures var steps := [Reserve(s, now, true, true), InsertRow, SetBaseline(true)];
            Possible(w, steps) && OrderlyRun(w, steps) && Run(w, steps) == WorkedOff(w, s, now)
  {
    hide NodeOf, Increase, Run, Possible, OrderlyRun, Shortfall, RowFor, SurplusOf, Inserted, Rebased;
    RunThree(w, Reserve(s, now, true, true), InsertRow, SetBaseline(true));
  }

  /** Three uninterrupted protocol steps are one scope of computeDeltas. */
  lemma ComputeOneIsRun(w: World, s: Scope, now: int)
    requires Sound(w) && CanWork(w, s)
    ensures ComputeOne(w.agent, s, now) == Some(WorkedOff(w, s, now).agent)
  {
    hide Sound, NodeOf, Increase, WorkedOff, Reserved, Inserted, Rebased, RowFor;
    NextSequenceIsFree(w);
    WorkedOffAgent(w, s, now);
  }

  lemma ComputedTrans(w: World, mid: World, e: World)
    requires Computed(w, mid) && Computed(mid, e)
    ensures Computed(w, e)
  {
    hide Sound, NoShortfall;
  }

  /** Uninterrupted, computeDeltas is a run of the protocol that brings every scope it visits level with its total. */
  lemma {:induction false} ComputeAllIsRun(w: World, scopes: seq<Scope>, now: int)
    requires Sound(w) && w.hand.Idle? && NoShortfall(w.agent)
    ensures var steps := ComputeSteps(w.agent, scopes, now);
      && Possible(w, steps) && OrderlyRun(w, steps)
      && ComputeAll(w.agent, scopes, now) == (Run(w, steps).agent, true)
      && Computed(w, Run(w, steps))
      && (forall s :: s in scopes ==> Level(Run(w, steps).agent, s))
      && (forall s: Scope :: Level(w.agent, s) ==> Level(Run(w, steps).agent, s))
    decreases |scopes|
  {
    hide Sound, NoShortfall, Increase, WorkedOff, Possible, OrderlyRun, Run, Level;
    if scopes == [] {
      EmptyRun(w);
    } else {
      var s, rest := scopes[0], scopes[1..];
      if Increase(w.agent, s) == ZERO_PAIR {
        NoIncreaseIsLevel(w.agent, s);
        ComputeAllIsRun(w, rest, now);
        assert [] + ComputeSteps(w.agent, rest, now) == ComputeSteps(w.agent, rest, now);
      } else {
        NextSequenceIsFree(w);
        var mid := WorkedOff(w, s, now);
        ComputeOneIsRun(w, s, now);
        WorkingOffIsRun(w, s, now);
        WorkedOffIsComputed(w, s, now);
        WorkedOffLevels(w, s, now);
        ComputeAllIsRun(mid, rest, now);
        var steps := [Reserve(s, now, true, true), InsertRow, SetBaseline(true)];
        RunConcat(w, steps, ComputeSteps(mid.agent, rest, now));
        ComputedTrans(w, mid, Run(mid, ComputeSteps(mid.agent, rest, now)));
      }
    }
  }

  /** A scope's baseline stands exactly at its total. */
  predicate Level(a: Agent, s: Scope) { BaseOf(a, s).rx == TotalOf(a, s).rx && BaseOf(a, s).tx == TotalOf(a, s).tx }

  lemma NoIncreaseIsLevel(a: Agent, s: Scope)
    requires NoShortfall(a) && Increase(a, s) == ZERO_PAIR
    ensures Level(a, s)
  {
  }

  lemma EmptyRun(w: World)
    requires Sound(w) && w.hand.Idle? && NoShortfall(w.agent)
    ensures Possible(w, []) && OrderlyRun(w, []) && Run(w, []) == w && Computed(w, w)
  {
  }

  lemma WorkedOffLevels(w: World, s: Scope, now: int)
    requires CanWork(w, s)
    ensures Level(WorkedOff(w, s, now).agent, s)
    ensures forall t: Scope :: Level(w.agent, t) ==> Level(WorkedOff(w, s, now).agent, t)
  {
    forall t: Scope
      ensures Level(WorkedOff(w, s, now).agent, s)
      ensures Level(w.agent, t) ==> Level(WorkedOff(w, s, now).agent, t)
    {
      WorkedOffBaselines(w, s, now, s);
      WorkedOffBaselines(w, s, now, t);
      hide WorkedOff;
    }
    WorkedOffBaselines(w, s, now, s);
  }

  /** A new connection on which one whole flush arrives and every ack comes back. */
  ghost function DrainSteps(w: World): seq<Step>
  {
    var c := |w.conns|;
    [Connect, Flush(c, |Outgoing(w.machine, w.agent.pending)|)]
    + (Deliveries(c, |Outgoing(w.machine, w.agent.pending)|) + Receipts(c, |Outgoing(w.machine, w.agent.pending)|))
  }

  /** The connection just opened carries exactly the pending rows, in order. */
  ghost function Flushed(w: World): World
    requires w.hand.Idle?
  {
    Next(Next(w, Connect), Flush(|w.conns|, |Outgoing(w.machine, w.agent.pending)|))
  }

  lemma FlushedFacts(w: World)
    requires Exact(w) && w.hand.Idle?
    ensures var out := Outgoing(w.machine, w.agent.pending);
      && Possible(w, [Connect, Flush(|w.conns|, |out|)]) && OrderlyRun(w, [Connect, Flush(|w.conns|, |out|)])
      && Run(w, [Connect, Flush(|w.conns|, |out|)]) == Flushed(w)
      && Flushed(w).conns == w.conns + [Conn(out, [])] && Flushed(w).agent == w.agent && Flushed(w).surplus == w.surplus
      && Exact(Flushed(w)) && Flushed(w).hand == w.hand && Flushed(w).machine == w.machine
      && Flushed(w).issued == w.issued && Flushed(w).books == w.books
  {
    hide Exact, Outgoing, Possible, OrderlyRun, Run;
    var out := Outgoing(w.machine, w.agent.pending);
    var mid := Next(w, Connect);
    StepKeepsExact(w, Connect);
    StepKeepsExact(mid, Flush(|w.conns|, |out|));
    RunTwo(w, Connect, Flush(|w.conns|, |out|));
    assert [] + out[..|out|] == out;
  }

  lemma RunTwo(w: World, x: Step, y: Step)
    requires Enabled(w, x) && Enabled(Next(w, x), y)
    requires Orderly(w, x) && Orderly(Next(w, x), y)
    ensures Possible(w, [x, y]) && OrderlyRun(w, [x, y]) && Run(w, [x, y]) == Next(Next(w, x), y)
  {
    hide Enabled, Orderly, Next;
    var a := Next(w, x);
    assert Possible(Next(a, y), []);
    RunCons(a, y, []);
    RunCons(w, x, [y] + []);
    assert [x] + ([y] + []) == [x, y];
  }

  /** One undisturbed exchange empties the pending table. */
  lemma DrainEmpties(w: World)
    requires Exact(w) && w.hand.Idle?
    ensures Possible(w, DrainSteps(w)) && OrderlyRun(w, DrainSteps(w))
    ensures var e := Run(w, DrainSteps(w));
      && e.agent.pending == map[] && e.agent.base == w.agent.base && e.agent.totals == w.agent.totals
      && e.surplus == w.surplus && e.hand.Idle? && e.machine == w.machine
      && Exact(e) && e.issued == w.issued && e.agent.seqNo == w.agent.seqNo && e.agent.savedSeq == w.agent.savedSeq
      && forall d :: d in w.books.events || d in PendingSet(w) ==> d in e.books.events
  {
    hide Exact, Outgoing, Possible, OrderlyRun, Run, Next, Enabled, Orderly, PendingSet;
    var c, out, first := |w.conns|, Outgoing(w.machine, w.agent.pending), Flushed(w);
    FlushedFacts(w);
    OutgoingFacts(w);
    DeliverMany(first, c, |out|);
    var a := Run(first, Deliveries(c, |out|));
    assert out[..|out|] == out && a.conns[c].down == AcksFor(w.machine, out);
    ReceiveMany(a, c, |out|);
    var e := Run(a, Receipts(c, |out|));
    RunConcat(first, Deliveries(c, |out|), Receipts(c, |out|));
    RunConcat(w, [Connect, Flush(c, |out|)], Deliveries(c, |out|) + Receipts(c, |out|));
    AllAcked(w, a, e, c);
  }

  lemma AllAcked(w: World, a: World, e: World, c: nat)
    requires var out := Outgoing(w.machine, w.agent.pending);
      && a.agent == w.agent && a.machine == w.machine && c < |a.conns| && a.conns[c].down == AcksFor(w.machine, out)
      && (forall k :: k in e.agent.pending ==> k in a.agent.pending)
      && forall k, i :: k in e.agent.pending && 0 <= i < |out| && AcksRow(a, a.conns[c].down[i]) ==>
          k > a.conns[c].down[i].sequence
    ensures e.agent.pending == map[]
  {
    hide Outgoing;
    var out := Outgoing(w.machine, w.agent.pending);
    OutgoingFacts(w);
    forall k | k in w.agent.pending
      ensures exists i :: 0 <= i < |out| && AcksRow(a, a.conns[c].down[i]) && a.conns[c].down[i].sequence == k
    {
      var d := Delta(w.machine, k, w.agent.pending[k]);
      assert d in PendingSet(w);
      var i :| 0 <= i < |out| && out[i] == d;
      assert a.conns[c].down[i] == Ack(w.machine, k, true);
      assert AcksRow(a, a.conns[c].down[i]);
    }
  }

  /**
    Catching up: from any state an orderly run can reach, one undisturbed round (computeDeltas over the
    totals, one flush, all deliveries and acks) empties the pending table, and then the manager's total
    of every scope visited is the agent's own total plus the surplus earlier crashes left.
   */
  lemma OneRoundCatchesUp(w: World, scopes: seq<Scope>, now: int, s: Scope)
    requires Sound(w) && Strong(w) && w.hand.Idle? && NoShortfall(w.agent) && s in scopes
    ensures var compute := ComputeSteps(w.agent, scopes, now);
            Possible(w, compute) && var mid := Run(w, compute);
            Possible(mid, DrainSteps(mid)) && var e := Run(mid, DrainSteps(mid));
            && e.agent.pending == map[] && e.agent.totals == w.agent.totals
            && ManagerTotal(e, s).rx == TotalOf(w.agent, s).rx + SurplusOf(w, s).rx
            && ManagerTotal(e, s).tx == TotalOf(w.agent, s).tx + SurplusOf(w, s).tx
  {
    hide Sound, Strong, Possible, OrderlyRun, Run, DrainSteps, NodeOf, ComputeSteps, NoShortfall;
    var compute := ComputeSteps(w.agent, scopes, now);
    ComputeAllIsRun(w, scopes, now);
    var mid := Run(w, compute);
    RunKeepsStrong(w, compute);
    DrainEmpties(mid);
    RunKeepsStrong(mid, DrainSteps(mid));
    var e := Run(mid, DrainSteps(mid));
    StrongConserves(e, s);
    assert PendingSet(e) == {};
  }

  // ----- a run that reaches a harmful failure -----

  const NODE_ONE: Scope := NodeScope("1")

  const TWO_TOTALS: map<Scope, Pair> := map["system" := Pair(1, 0), NODE_ONE := Pair(1, 0)]

  lemma TwoRows(w: World)
    requires Starts(w)
    ensures var a := Next(w, Collect(TWO_TOTALS)).agent;
            var b := ComputeAll(a, ["system", NODE_ONE], 0).0;
            NoShortfall(a) && 1 in b.pending && 2 in b.pending
  {
    var a, scopes := w.agent.(totals := TWO_TOTALS), ["system", NODE_ONE];
    assert NODE_ONE[0] == 'n' && "system"[0] == 's';
    hide NodeOf, NodeScope, IsScope;
    var a1 := ComputeOne(a, "system", 0).value;
    assert BaseOf(a1, NODE_ONE) == ZERO_PAIR && a1.seqNo == 1;
    var a2 := ComputeOne(a1, NODE_ONE, 0).value;
    assert scopes[1..] == [NODE_ONE] && scopes[1..][1..] == [];
    assert ComputeAll(a1, [NODE_ONE], 0) == ComputeAll(a2, [], 0) == (a2, true);
  }

  /** With two rows on a connection and none booked, a failed ingest of the first does harm. */
  lemma TwoRowsAreHarmful(w: World)
    requires Sound(w) && w.hand.Idle? && w.conns == [] && (forall d :: d in w.books.events ==> d.machine != w.machine)
    requires 1 in w.agent.pending && 2 in w.agent.pending
    ensures var m := Flushed(w); |m.conns| == 1 && m.conns[0].up != [] && !Harmless(m, 0)
  {
    FlushedFacts(w);
    FlushedBooks(w);
    TwoOutgoing(w);
    hide Outgoing, Sound, Flushed, PendingSet;
    var out, m := Outgoing(w.machine, w.agent.pending), Flushed(w);
    assert m.conns[0].up == out && m.conns[0].up[1].sequence > out[0].sequence;
    assert out[1..1] == [];
  }

  lemma TwoOutgoing(w: World)
    requires 1 in w.agent.pending && 2 in w.agent.pending
    ensures var out := Outgoing(w.machine, w.agent.pending);
            |out| >= 2 && out[1].sequence > out[0].sequence && out[0].machine == w.machine
  {
    OutgoingFacts(w);
    hide Outgoing;
    var out := Outgoing(w.machine, w.agent.pending);
    var x, y := Delta(w.machine, 1, w.agent.pending[1]), Delta(w.machine, 2, w.agent.pending[2]);
    assert x in PendingSet(w) && y in PendingSet(w);
    var i :| 0 <= i < |out| && out[i] == x;
    var j :| 0 <= j < |out| && out[j] == y;
    assert out[0] in PendingSet(w);
  }

  lemma FlushedBooks(w: World)
    requires w.hand.Idle?
    ensures Flushed(w).books == w.books
  {
    hide Outgoing;
  }

  /** From the start, one orderly round over two scopes reaches a connection whose first ingest fails harmfully. */
  lemma HarmfulIngestIsReached(w: World)
    requires Starts(w)
    ensures exists steps :: (Possible(w, steps) && OrderlyRun(w, steps) && var m := Run(w, steps);
      |m.conns| == 1 && m.conns[0].up != [] && !Harmless(m, 0) && Outcomes(m.books, m.conns[0].up[0], AtInsert) == Error)
  {
    StartIsSound(w);
    var s := Collect(TWO_TOTALS);
    var a := Next(w, s);
    StepKeepsSound(w, s);
    TwoRows(w);
    assert Enabled(w, s) && Orderly(w, s) && a.hand.Idle? && a.conns == [] && a.books == w.books && a.machine == w.machine;
    hide Sound, Possible, OrderlyRun, Run, NoShortfall, Harmless, Starts, Next, Enabled, Orderly, ComputeAll;
    var steps := TwoRowsFlushed(a);
    RunCons(w, s, steps);
    assert Run(w, [s] + steps) == Run(a, steps);
  }

  lemma SoundIsExact(w: World)
    requires Sound(w)
    ensures Exact(w)
  {
  }

  lemma TwoRowsFlushed(a: World) returns (steps: seq<Step>)
    requires Sound(a) && a.hand.Idle? && a.conns == [] && NoShortfall(a.agent) && a.machine != ""
    requires forall d :: d in a.books.events ==> d.machine != a.machine
    requires var b := ComputeAll(a.agent, ["system", NODE_ONE], 0).0; 1 in b.pending && 2 in b.pending
    ensures Possible(a, steps) && OrderlyRun(a, steps) && var m := Run(a, steps);
      |m.conns| == 1 && m.conns[0].up != [] && !Harmless(m, 0) && Outcomes(m.books, m.conns[0].up[0], AtInsert) == Error
  {
    hide Sound, Possible, OrderlyRun, Run, NoShortfall, ComputeSteps, Outgoing, Flushed, ComputeAll, Harmless,
        SameSurplus;
    var compute := ComputeSteps(a.agent, ["system", NODE_ONE], 0);
    ComputeAllIsRun(a, ["system", NODE_ONE], 0);
    var b := Run(a, compute);
    TwoRowsAreHarmful(b);
    assert Exact(b) by { SoundIsExact(b); }
    FlushedFacts(b);
    var flush := [Connect, Flush(0, |Outgoing(b.machine, b.agent.pending)|)];
    RunConcat(a, compute, flush);
    steps := compute + flush;
  }

  // ----- a restart that falls behind -----

  /** Sequences that are drawn but not used, because their rows cannot be inserted. */
  function BurnSteps(s: Scope, n: nat): seq<Step>
  {
    if n == 0 then [] else [Reserve(s, 0, true, true), InsertFails] + BurnSteps(s, n - 1)
  }

  ghost function Burnt(w: World, n: nat): World
  {
    if n == 0 then w else w.(agent := w.agent.(seqNo := w.agent.seqNo + n, savedSeq := w.agent.seqNo + n))
  }

  lemma BurnOne(w: World, s: Scope)
    requires w.hand.Idle? && Increase(w.agent, s) != ZERO_PAIR
    ensures var steps := [Reserve(s, 0, true, true), InsertFails];
            Possible(w, steps) && OrderlyRun(w, steps) && Run(w, steps) == Burnt(w, 1)
  {
    hide Increase, NodeOf, Possible, OrderlyRun, Run, RowFor;
    RunTwo(w, Reserve(s, 0, true, true), InsertFails);
  }

  lemma {:induction false} Burning(w: World, s: Scope, n: nat)
    requires w.hand.Idle? && Increase(w.agent, s) != ZERO_PAIR
    ensures Possible(w, BurnSteps(s, n)) && OrderlyRun(w, BurnSteps(s, n)) && Run(w, BurnSteps(s, n)) == Burnt(w, n)
    decreases n
  {
    if n > 0 {
      BurnOne(w, s);
      var mid := Burnt(w, 1);
      SameIncrease(w.agent, mid.agent, s);
      Burning(mid, s, n - 1);
      hide Possible, OrderlyRun, Run, Increase;
      RunConcat(w, [Reserve(s, 0, true, true), InsertFails], BurnSteps(s, n - 1));
    }
  }

  /** A delta that carries a given sequence or a larger one, and no issued one is in between. */
  lemma {:induction false} LeastAbove(ds: set<Delta>, n: int) returns (d: Delta)
    requires exists x :: x in ds && x.sequence > n
    ensures d in ds && d.sequence > n && forall x :: x in ds && x.sequence > n ==> d.sequence <= x.sequence
    decreases ds
  {
    d :| d in ds && d.sequence > n;
    var rest := ds - {d};
    if exists x :: x in rest && x.sequence > n {
      var e := LeastAbove(rest, n);
      assert forall x :: x in ds ==> x == d || x in rest;
      if e.sequence < d.sequence { d := e; }
    }
  }

  lemma OneOutgoing(machine: string, m: nat, r: Row)
    ensures Outgoing(machine, map[m := r]) == [Delta(machine, m, r)]
  {
    var keys := {m};
    assert map[m := r].Keys == keys;
    OrderedFacts(keys);
    assert Least(keys) == m && keys - {m} == {};
    assert Ordered(keys) == [m];
  }

  lemma LastReplaced(conns: seq<Conn>, x: Conn, y: Conn)
    ensures (conns + [x])[|conns|] == x && (conns + [x])[|conns| := y] == conns + [y]
  {
  }

  lemma FlushedAlone(w: World, m: nat, r: Row)
    requires w.hand.Idle? && w.agent.pending == map[m := r]
    ensures var c, d := |w.conns|, Delta(w.machine, m, r); var a := Next(w, Connect);
      && Enabled(w, Connect) && Enabled(a, Flush(c, 1))
      && Next(a, Flush(c, 1)) == w.(conns := w.conns + [Conn([d], [])])
  {
    OneOutgoing(w.machine, m, r);
    hide Outgoing;
    var d := Delta(w.machine, m, r);
    assert [d][..1] == [d] && [] + [d] == [d];
    LastReplaced(w.conns, Conn([], []), Conn([d], []));
  }

  lemma DuplicateAcked(w: World, conns: seq<Conn>, d: Delta)
    requires w.machine != "" && d.machine == w.machine && Holds(w.books.events, w.machine, d.sequence)
    requires w.conns == conns + [Conn([d], [])]
    ensures var s, ack := Deliver(|conns|, "", NoFault, true), Ack(w.machine, d.sequence, true);
            Enabled(w, s) && Next(w, s) == w.(conns := conns + [Conn([], [ack])])
  {
    assert [d][1..] == [] && [] + [Ack(w.machine, d.sequence, true)] == [Ack(w.machine, d.sequence, true)];
    LastReplaced(conns, Conn([d], []), Conn([], [Ack(w.machine, d.sequence, true)]));
    hide Holds;
  }

  lemma AckDeletes(w: World, conns: seq<Conn>, m: nat, r: Row)
    requires w.conns == conns + [Conn([], [Ack(w.machine, m, true)])] && w.agent.pending == map[m := r]
    ensures var s := Receive(|conns|, true);
            Enabled(w, s) && Next(w, s) == w.(agent := w.agent.(pending := map[]), conns := conns + [Conn([], [])])
  {
    var ack := Ack(w.machine, m, true);
    assert [ack][1..] == [];
    LastReplaced(conns, Conn([], [ack]), Conn([], []));
    assert Acked(w.agent, w.machine, ack).pending == map[];
  }

  /**
    A lone pending row under a sequence the manager holds already is shipped, acked and deleted, and
    booked nowhere.
   */
  lemma DuplicateIsDropped(w: World, m: nat, r: Row) returns (steps: seq<Step>)
    requires w.hand.Idle? && w.agent.pending == map[m := r] && w.machine != "" && Holds(w.books.events, w.machine, m)
    ensures Possible(w, steps) && OrderlyRun(w, steps)
    ensures Run(w, steps) == w.(agent := w.agent.(pending := map[]), conns := w.conns + [Conn([], [])])
  {
    var c, d := |w.conns|, Delta(w.machine, m, r);
    var s1, s2, s3, s4 := Connect, Flush(c, 1), Deliver(c, "", NoFault, true), Receive(c, true);
    FlushedAlone(w, m, r);
    var b := Next(Next(w, s1), s2);
    DuplicateAcked(b, w.conns, d);
    var e := Next(b, s3);
    AckDeletes(e, w.conns, m, r);
    assert Orderly(w, s1) && Orderly(Next(w, s1), s2) && Orderly(e, s4);
    assert Outcomes(b.books, d, NoFault) == Duplicate && b.conns[c].up[0] == d && Orderly(b, s3);
    hide Next, Enabled, Orderly, Possible, OrderlyRun, Run, Holds;
    RunTwo(w, s1, s2);
    RunTwo(b, s3, s4);
    steps := [s1, s2] + [s3, s4];
    RunConcat(w, [s1, s2], [s3, s4]);
  }

  /** Bytes of the scope are gone: they are behind its baseline, and neither pending nor at the manager. */
  ghost predicate BytesGone(w: World, s: Scope)
  {
    && w.hand.Idle? && w.agent.pending == map[] && !AckSafe(w)
    && ManagerTotal(w, s).rx < BaseOf(w.agent, s).rx + SurplusOf(w, s).rx
  }

  lemma AllHeld(w: World, s: Scope)
    requires Exact(w) && w.hand.Idle? && forall d :: d in w.issued ==> d in w.books.events
    ensures ManagerTotal(w, s).rx == BaseOf(w.agent, s).rx + SurplusOf(w, s).rx
  {
    hide NodeOf, SumFor, Balanced, OnlyIssued;
    HeldIsManagerTotal(w, s);
    assert HeldSet(w) == w.issued;
    assert Accounted(w, s);
  }

  lemma MoreToSend(a: Agent, t: map<Scope, Pair>)
    requires t == a.totals["system" := Pair(Max(TotalOf(a, "system").rx, BaseOf(a, "system").rx) + 1,
        TotalOf(a, "system").tx)]
    ensures var b := a.(totals := t);
            Increase(b, "system").rx > 0 && TotalOf(b, "system").rx > BaseOf(b, "system").rx && Shortfall(b, "system").rx == 0
  {
  }

  /** With everything booked and a restart below a booked sequence, the next delta that draws it is lost. */
  lemma ReusedIsLost(w: World, d: Delta) returns (steps: seq<Step>)
    requires Exact(w) && w.hand.Idle? && w.agent.pending == map[] && w.agent.seqNo + 1 == d.sequence && d in w.issued
    requires forall x :: x in w.issued ==> x in w.books.events
    requires Increase(w.agent, "system").rx > 0 && TotalOf(w.agent, "system").rx > BaseOf(w.agent, "system").rx
    requires Shortfall(w.agent, "system").rx == 0
    ensures Possible(w, steps) && OrderlyRun(w, steps) && BytesGone(Run(w, steps), "system")
  {
    AllHeld(w, "system");
    var draw := Reserve("system", d.row.start + 1, true, true);
    var m, r := w.agent.seqNo + 1, RowFor(w.agent, "system", d.row.start + 1, true);
    var x := Delta(w.machine, m, r);
    assert x != d && d.machine == w.machine;
    assert x !in w.books.events by { NeverBooked(w, d, x); }
    var a, b, e := Reused(w, draw);
    hide Exact, Increase, RowFor, Shortfall, Possible, OrderlyRun, Run, Next, Enabled, Orderly, ManagerTotal, BaseOf,
        TotalOf, SurplusOf;
    assert Holds(e.books.events, e.machine, m) by { BookedHolds(w.books.events, d); }
    var rest := DuplicateIsDropped(e, m, r);
    RunThree(w, draw, InsertRow, SetBaseline(true));
    RunConcat(w, [draw, InsertRow, SetBaseline(true)], rest);
    steps := [draw, InsertRow, SetBaseline(true)] + rest;
    var f := Run(w, steps);
    assert f == e.(agent := e.agent.(pending := map[]), conns := e.conns + [Conn([], [])]);
    GoneAtTheEnd(w, e, f, x);
  }

  lemma BookedHolds(events: seq<Delta>, d: Delta)
    requires d in events
    ensures Holds(events, d.machine, d.sequence)
  {
    var i :| 0 <= i < |events| && events[i] == d;
  }

  lemma NeverBooked(w: World, d: Delta, x: Delta)
    requires Exact(w) && d in w.issued && x.machine == w.machine && x.sequence == d.sequence && x != d
    ensures x !in w.books.events
  {
    hide SumFor, Accounted, Covered, Balanced;
  }

  /** The three writes for the reused sequence. */
  lemma Reused(w: World, draw: Step) returns (a: World, b: World, e: World)
    requires draw.Reserve? && draw.scope == "system" && draw.read && draw.saved
    requires w.hand.Idle? && w.agent.pending == map[] && Increase(w.agent, "system").rx > 0
    ensures Enabled(w, draw) && a == Next(w, draw) && Enabled(a, InsertRow) && b == Next(a, InsertRow)
    ensures Enabled(b, SetBaseline(true)) && e == Next(b, SetBaseline(true))
    ensures Orderly(w, draw) && Orderly(a, InsertRow) && Orderly(b, SetBaseline(true))
    ensures var m, r := w.agent.seqNo + 1, RowFor(w.agent, "system", draw.now, true);
      && e.machine == w.machine && e.books == w.books && e.hand.Idle? && e.agent.pending == map[m := r]
      && e.issued == w.issued + {Delta(w.machine, m, r)}
    ensures BaseOf(e.agent, "system") == TotalOf(w.agent, "system")
    ensures SurplusOf(e, "system").rx == SurplusOf(w, "system").rx + Shortfall(w.agent, "system").rx
  {
    hide Next, Enabled, Increase, RowFor, Shortfall, BaseOf, TotalOf, SurplusOf, IsScope, Outcomes, Harmless, Resumes;
    var r := RowFor(w.agent, "system", draw.now, true);
    DrawnAndInserted(w, draw, r);
    a := Next(w, draw);
    b := Next(a, InsertRow);
    BaselineSet(b, "system");
    e := Next(b, SetBaseline(true));
    SameBasics(w, b, "system");
  }

  lemma DrawnAndInserted(w: World, draw: Step, r: Row)
    requires draw.Reserve? && draw.scope == "system" && draw.read && draw.saved
    requires w.hand.Idle? && w.agent.pending == map[] && Increase(w.agent, "system").rx > 0
    requires r == RowFor(w.agent, "system", draw.now, true)
    ensures Enabled(w, draw) && var a := Next(w, draw); Enabled(a, InsertRow) && var b := Next(a, InsertRow);
      && b == World(w.machine,
          w.agent.(seqNo := w.agent.seqNo + 1, savedSeq := w.agent.seqNo + 1, pending := map[w.agent.seqNo + 1 := r]),
                    HasRow("system", r, true), w.conns, w.books, w.issued + {Delta(w.machine, w.agent.seqNo + 1, r)}, w.surplus)
  {
    assert Increase(w.agent, "system") != ZERO_PAIR;
    hide NodeOf, Increase, RowFor, IsScope;
    var a := Next(w, draw);
    assert a == w.(agent := Reserved(w.agent, true), hand := HasSequence("system", r, true));
    assert map[][w.agent.seqNo + 1 := r] == map[w.agent.seqNo + 1 := r];
  }

  lemma SameBasics(w: World, b: World, s: Scope)
    requires w.agent.totals == b.agent.totals && w.agent.base == b.agent.base && w.surplus == b.surplus
    ensures Shortfall(w.agent, s) == Shortfall(b.agent, s) && TotalOf(w.agent, s) == TotalOf(b.agent, s)
    ensures SurplusOf(w, s) == SurplusOf(b, s) && BaseOf(w.agent, s) == BaseOf(b.agent, s)
  {
  }

  lemma BaselineSet(w: World, s: Scope)
    requires w.hand.HasRow? && w.hand.scope == s
    ensures Enabled(w, SetBaseline(true)) && var e := Next(w, SetBaseline(true));
      && e.machine == w.machine && e.books == w.books && e.hand.Idle? && e.issued == w.issued
      && e.agent.pending == w.agent.pending
      && BaseOf(e.agent, s) == TotalOf(w.agent, s)
      && SurplusOf(e, s).rx == SurplusOf(w, s).rx + Shortfall(w.agent, s).rx
  {
    hide Shortfall, IsScope;
  }

  lemma GoneAtTheEnd(w: World, e: World, f: World, x: Delta)
    requires e.machine == w.machine && e.books == w.books && e.hand.Idle? && x in e.issued && x !in w.books.events
    requires f == e.(agent := e.agent.(pending := map[]), conns := f.conns)
    requires BaseOf(e.agent, "system") == TotalOf(w.agent, "system")
    requires TotalOf(w.agent, "system").rx > BaseOf(w.agent, "system").rx
    requires SurplusOf(e, "system").rx == SurplusOf(w, "system").rx
    requires ManagerTotal(w, "system").rx == BaseOf(w.agent, "system").rx + SurplusOf(w, "system").rx
    ensures BytesGone(f, "system")
  {
    hide NodeOf;
    assert BaseOf(f.agent, "system") == BaseOf(e.agent, "system") && SurplusOf(f, "system") == SurplusOf(e, "system");
    assert ManagerTotal(f, "system") == ManagerTotal(w, "system");
    assert PendingSet(f) == {};
  }

  /**
    A restart below an issued sequence has an orderly continuation that draws that sequence again and
    loses the bytes.
   */
  lemma FallenBehindLoses(w: World) returns (steps: seq<Step>)
    requires Exact(w) && AckSafe(w) && w.hand.Idle? && exists d :: d in w.issued && d.sequence > w.agent.seqNo
    ensures Possible(w, steps) && OrderlyRun(w, steps) && BytesGone(Run(w, steps), "system")
  {
    var a := Drained(w);
    var d := LeastAbove(a.issued, a.agent.seqNo);
    var totals := a.agent.totals["system" := Pair(Max(TotalOf(a.agent, "system").rx, BaseOf(a.agent, "system").rx) + 1,
                                                  TotalOf(a.agent, "system").tx)];
    var collect, n := Collect(totals), d.sequence - 1 - a.agent.seqNo;
    MoreToSend(a.agent, totals);
    var b := Next(a, collect);
    StepKeepsExact(a, collect);
    assert Enabled(a, collect) && Orderly(a, collect);
    assert b.issued == a.issued && b.books == a.books && b.agent == a.agent.(totals := totals);
    assert b.hand.Idle? && Increase(b.agent, "system").rx > 0;
    hide Exact, AckSafe, Possible, OrderlyRun, Run, Increase, Next, Enabled, Orderly, BytesGone, DrainSteps, TotalOf,
        BaseOf;
    Burning(b, "system", n);
    var c := Burnt(b, n);
    BurntIsExact(b, n);
    var rest := ReusedIsLost(c, d);
    RunConcat(b, BurnSteps("system", n), rest);
    RunCons(a, collect, BurnSteps("system", n) + rest);
    RunConcat(w, DrainSteps(w), [collect] + (BurnSteps("system", n) + rest));
    steps := DrainSteps(w) + ([collect] + (BurnSteps("system", n) + rest));
  }

  lemma Drained(w: World) returns (a: World)
    requires Exact(w) && AckSafe(w) && w.hand.Idle?
    ensures Possible(w, DrainSteps(w)) && OrderlyRun(w, DrainSteps(w)) && a == Run(w, DrainSteps(w))
    ensures Exact(a) && a.hand.Idle? && a.agent.pending == map[] && a.agent.seqNo == w.agent.seqNo
    ensures a.issued == w.issued
    ensures forall x :: x in a.issued ==> x in a.books.events
  {
    hide Exact, Possible, OrderlyRun, Run, DrainSteps;
    DrainEmpties(w);
    a := Run(w, DrainSteps(w));
  }

  lemma BurntIsExact(w: World, n: nat)
    requires Exact(w) && w.hand.Idle?
    ensures var c := Burnt(w, n);
      && Exact(c) && c.hand.Idle? && c.agent.pending == w.agent.pending && c.agent.seqNo == w.agent.seqNo + n
      && c.issued == w.issued && c.books == w.books
      && Increase(c.agent, "system") == Increase(w.agent, "system")
      && TotalOf(c.agent, "system") == TotalOf(w.agent, "system")
      && BaseOf(c.agent, "system") == BaseOf(w.agent, "system")
      && Shortfall(c.agent, "system") == Shortfall(w.agent, "system")
  {
    hide NodeOf, SumFor, Balanced, IsScope;
    var c := Burnt(w, n);
    assert PendingSet(c) == PendingSet(w);
    assert IssuedFine(c) && OnlyIssued(c);
    forall s: Scope ensures Covered(c, s) && Accounted(c, s)
    {
      assert Covered(w, s) && Accounted(w, s);
    }
  }

  /**
    A restart keeps the acks safe and the traffic conserved in every orderly continuation exactly when it
    resumes at or above every issued sequence; otherwise a continuation uses one a second time, and what
    that delta carries is acknowledged as a duplicate, deleted, and booked nowhere.
   */
  lemma LostSaveIsExact(w: World, loaded: bool)
    requires Sound(w) && Strong(w)
    ensures Resumes(w, loaded) <==>
            forall steps :: Possible(Next(w, Crash(loaded)), steps) && OrderlyRun(Next(w, Crash(loaded)), steps) ==>
              AckSafe(Run(Next(w, Crash(loaded)), steps)) && forall s: Scope :: Conserved(Run(Next(w, Crash(loaded)), steps), s)
  {
    var crash := Crash(loaded);
    var after := Next(w, crash);
    if Resumes(w, loaded) {
      StepKeepsSound(w, crash);
      StepKeepsStrong(w, crash);
      forall steps | Possible(after, steps) && OrderlyRun(after, steps)
        ensures AckSafe(Run(after, steps)) && forall s: Scope :: Conserved(Run(after, steps), s)
      {
        RunKeepsStrong(after, steps);
        hide Conserved;
        forall s: Scope ensures Conserved(Run(after, steps), s) { StrongConserves(Run(after, steps), s); }
      }
    } else {
      var steps := LostSaveLosesBytes(w, loaded);
    }
  }

  /**
    So after a row has been inserted it hangs on whether its sequence was saved; a later one that is
    saved makes good an earlier one.
   */
  lemma SaveDecides(w: World, draw: Step)
    requires Sound(w) && draw.Reserve? && Enabled(w, draw)
    ensures Enabled(Next(w, draw), InsertRow)
    ensures Resumes(Next(Next(w, draw), InsertRow), true) <==> draw.saved || w.agent.savedSeq > w.agent.seqNo
  {
    NextSequenceIsFree(w);
    hide Exact, NodeOf, IsScope, SeenIncrease, Increase, RowFor;
    var a := Next(w, draw);
    var b := Next(a, InsertRow);
    assert Delta(w.machine, w.agent.seqNo + 1, a.hand.row) in b.issued;
  }

  lemma LostSaveLosesBytes(w: World, loaded: bool) returns (steps: seq<Step>)
    requires Sound(w) && Strong(w) && !Resumes(w, loaded)
    ensures Possible(Next(w, Crash(loaded)), steps) && OrderlyRun(Next(w, Crash(loaded)), steps)
    ensures BytesGone(Run(Next(w, Crash(loaded)), steps), "system")
  {
    var after := Next(w, Crash(loaded));
    StepKeepsExact(w, Crash(loaded));
    assert after.issued == w.issued && after.books == w.books && PendingSet(after) == PendingSet(w);
    assert AckSafe(after) && after.hand.Idle?;
    var d :| d in w.issued && d.sequence > after.agent.seqNo;
    hide Exact, Fresh, Possible, OrderlyRun, Run, Next, AckSafe, BytesGone;
    steps := FallenBehindLoses(after);
  }

  lemma UnsavedRow(w: World)
    requires Starts(w)
    ensures var s1, s2 := Collect(map["system" := Pair(1, 0)]), Reserve("system", 0, true, false);
      Enabled(w, s1) && var a := Next(w, s1); Enabled(a, s2) && var b := Next(a, s2);
      Enabled(b, InsertRow) && var c := Next(b, InsertRow);
      Enabled(c, SetBaseline(true)) && var e := Next(c, SetBaseline(true));
      && Orderly(w, s1) && Orderly(a, s2) && Orderly(b, InsertRow) && Orderly(c, SetBaseline(true))
      && e.hand.Idle? && e.agent.savedSeq == 0 && exists d :: d in e.issued && d.sequence == 1
  {
    var s1, s2 := Collect(map["system" := Pair(1, 0)]), Reserve("system", 0, true, false);
    var a := Next(w, s1);
    assert Increase(a.agent, "system") == Pair(1, 0);
    hide Increase, NodeOf, IsScope;
    var b := Next(a, s2);
    assert a.agent.pending == map[] && b.agent.seqNo == 1 && b.agent.savedSeq == 0;
    assert b.hand.HasSequence? && b.hand.scope == "system";
    hide RowFor, SeenIncrease, Shortfall;
    InsertedOne(b);
  }

  lemma InsertedOne(b: World)
    requires b.hand.HasSequence? && b.agent.seqNo !in b.agent.pending
    ensures Enabled(b, InsertRow) && var c := Next(b, InsertRow);
      Enabled(c, SetBaseline(true)) && var e := Next(c, SetBaseline(true));
      && e.hand.Idle? && e.agent.savedSeq == b.agent.savedSeq && Delta(b.machine, b.agent.seqNo, b.hand.row) in e.issued
  {
    hide Increase, Shortfall, SurplusOf, AddPair, IsScope;
  }

  /**
    From the start, an orderly run reaches a restart that falls behind: a sequence is drawn and not saved, its
    row is inserted, delivered, acked and deleted, and the agent dies. In a continuation the next row draws
    the same sequence, and its bytes are gone.
   */
  lemma LostSaveIsReached(w: World)
    requires Starts(w)
    ensures exists before, after :: (Possible(w, before) && OrderlyRun(w, before) && var m := Run(w, before);
      && Reserve("system", 0, true, false) in before && m.agent.pending == map[] && !Resumes(m, true)
      && Possible(Next(m, Crash(true)), after) && OrderlyRun(Next(m, Crash(true)), after)
      && BytesGone(Run(Next(m, Crash(true)), after), "system"))
  {
    hide Possible, OrderlyRun, Run, Next, Enabled, Orderly, BytesGone, Exact, Fresh, Strong, Starts, DrainSteps;
    var first, e, d := UnsavedRound(w);
    DrainEmpties(e);
    RunConcat(w, first, DrainSteps(e));
    var m := Run(e, DrainSteps(e));
    RunKeepsStrong(e, DrainSteps(e));
    assert !Resumes(m, true) by { assert d in m.issued; }
    var after := LostSaveLosesBytes(m, true);
    assert Reserve("system", 0, true, false) in first + DrainSteps(e);
    assert Run(w, first + DrainSteps(e)) == m;
  }

  lemma UnsavedRound(w: World) returns (first: seq<Step>, e: World, d: Delta)
    requires Starts(w)
    ensures Possible(w, first) && OrderlyRun(w, first) && e == Run(w, first)
    ensures Reserve("system", 0, true, false) in first
    ensures Sound(e) && Strong(e) && e.hand.Idle? && e.agent.savedSeq == 0 && d in e.issued && d.sequence == 1
  {
    var s1, s2, s3, s4 := Collect(map["system" := Pair(1, 0)]), Reserve("system", 0, true, false), InsertRow, SetBaseline(true);
    UnsavedRow(w);
    StartIsSound(w);
    hide Possible, OrderlyRun, Run, Next, Enabled, Orderly, Sound, Strong, Starts;
    var a := Next(w, s1);
    e := Next(Next(Next(a, s2), s3), s4);
    d :| d in e.issued && d.sequence == 1;
    RunThree(a, s2, s3, s4);
    RunCons(w, s1, [s2, s3, s4]);
    first := [s1] + [s2, s3, s4];
    RunKeepsStrong(w, first);
    assert first[1] == s2;
  }

  // ----- the agent's method with every outcome, as a run -----

  /** The protocol steps of one scope of computeDeltas. */
  function StepsFor(a: Agent, s: Scope, now: int, io: Io): seq<Step>
  {
    if SeenIncrease(a, s, io.read) == ZERO_PAIR then []
    else
      [Reserve(s, now, io.read, io.saved)] +
      if a.seqNo + 1 in a.pending then [InsertFails] else [InsertRow, SetBaseline(io.stored)]
  }

  function ComputeStepsWith(a: Agent, scopes: seq<Scope>, now: int, ios: seq<Io>): seq<Step>
    requires |ios| == |scopes|
    decreases |scopes|
  {
    if scopes == [] then []
    else
      StepsFor(a, scopes[0], now, ios[0]) +
      match ComputeOneWith(a, scopes[0], now, ios[0])
      case None => []
      case Some(b) => ComputeStepsWith(b, scopes[1..], now, ios[1..])
  }

  lemma ScopeIsRun(w: World, s: Scope, now: int, io: Io)
    requires w.hand.Idle?
    ensures var steps := StepsFor(w.agent, s, now, io);
      && Possible(w, steps) && OrderlyRun(w, steps) && Run(w, steps).hand.Idle?
      && Run(w, steps).agent == if ComputeOneWith(w.agent, s, now, io).Some? then ComputeOneWith(w.agent, s, now, io).value
                                else Reserved(w.agent, io.saved)
  {
    hide NodeOf, IsScope, SeenIncrease, Shortfall, Increase;
    var draw := Reserve(s, now, io.read, io.saved);
    if SeenIncrease(w.agent, s, io.read) == ZERO_PAIR {
      assert Possible(w, []);
    } else if w.agent.seqNo + 1 in w.agent.pending {
      hide Possible, OrderlyRun, Run;
      assert [draw] + [InsertFails] == [draw, InsertFails];
      RunTwo(w, draw, InsertFails);
    } else {
      hide Possible, OrderlyRun, Run;
      assert [draw] + [InsertRow, SetBaseline(io.stored)] == [draw, InsertRow, SetBaseline(io.stored)];
      RunThree(w, draw, InsertRow, SetBaseline(io.stored));
    }
  }

  /**
    Whatever its reads and writes answer, computeDeltas, when nothing else interrupts it, is an orderly
    run of the protocol.
   */
  lemma {:induction false} ComputeAllWithIsRun(w: World, scopes: seq<Scope>, now: int, ios: seq<Io>)
    requires w.hand.Idle? && |ios| == |scopes|
    ensures var steps := ComputeStepsWith(w.agent, scopes, now, ios);
            Possible(w, steps) && OrderlyRun(w, steps) && Run(w, steps).hand.Idle? &&
            Run(w, steps).agent == ComputeAllWith(w.agent, scopes, now, ios).0
    decreases |scopes|
  {
    hide ComputeOneWith, StepsFor, Reserved;
    if scopes == [] {
      assert Possible(w, []);
    } else {
      var first := StepsFor(w.agent, scopes[0], now, ios[0]);
      ScopeIsRun(w, scopes[0], now, ios[0]);
      hide Possible, OrderlyRun, Run;
      var mid := Run(w, first);
      if ComputeOneWith(w.agent, scopes[0], now, ios[0]).Some? {
        ComputeAllWithIsRun(mid, scopes[1..], now, ios[1..]);
        RunConcat(w, first, ComputeStepsWith(mid.agent, scopes[1..], now, ios[1..]));
      } else {
        assert first + [] == first;
      }
    }
  }

  // ----- what an issued row tells -----

  /** A step of the run drew this row's sequence: for its node, and at the one time the row bears. */
  ghost predicate DrawnIn(steps: seq<Step>, row: Row)
  {
    exists i :: 0 <= i < |steps| && steps[i].Reserve? && row.node == NodeOf(steps[i].scope) && row.start == row.end == steps[i].now
  }

  lemma DrawnLater(steps: seq<Step>, row: Row)
    requires steps != [] && DrawnIn(steps[1..], row)
    ensures DrawnIn(steps, row)
  {
    var i :| 0 <= i < |steps[1..]| && steps[1..][i].Reserve? && row.node == NodeOf(steps[1..][i].scope)
              && row.start == row.end == steps[1..][i].now;
    assert steps[i + 1] == steps[1..][i];
  }

  /** Every delta a run issues bears the node and the time of the step that drew its sequence, unless it was in hand. */
  lemma {:induction false} RowsTellTheirDraw(w: World, steps: seq<Step>)
    requires Possible(w, steps)
    ensures forall d :: d in Run(w, steps).issued && d !in w.issued ==>
              d.machine == w.machine && (DrawnIn(steps, d.row) || (!w.hand.Idle? && d.row == w.hand.row))
    decreases |steps|
  {
    if steps != [] {
      var s, rest := steps[0], steps[1..];
      var next := Next(w, s);
      RowsTellTheirDraw(next, rest);
      OneDraw(w, s);
      forall d | d in Run(w, steps).issued && d !in w.issued
        ensures d.machine == w.machine && (DrawnIn(steps, d.row) || (!w.hand.Idle? && d.row == w.hand.row))
      {
        if d !in next.issued && DrawnIn(rest, d.row) {
          DrawnLater(steps, d.row);
        } else if s.Reserve? {
          assert steps[0] == s;
        }
      }
    }
  }

  lemma OneDraw(w: World, s: Step)
    requires Enabled(w, s)
    ensures var next := Next(w, s);
      && next.machine == w.machine
      && (forall d :: d in next.issued && d !in w.issued ==>
          d.machine == w.machine && !w.hand.Idle? && d.row == w.hand.row)
      && (!next.hand.Idle? ==>
          (s.Reserve? && next.hand.row.node == NodeOf(s.scope) && next.hand.row.start == s.now == next.hand.row.end)
                               || (!w.hand.Idle? && next.hand.row == w.hand.row))
  {
    hide NodeOf, IsScope, SeenIncrease, Increase, AddSurplus, Ingest, Outgoing, Acked, AckFor;
  }

  /** The sequence drawn first after a restart: one past the saved one, or 1 if that could not be read. */
  lemma RestartDrawsFrom(w: World, loaded: bool, s: Step)
    requires s.Reserve? && Enabled(Next(w, Crash(loaded)), s)
    ensures Next(Next(w, Crash(loaded)), s).agent.seqNo == if loaded then w.agent.savedSeq + 1 else 1
    ensures Next(Next(w, Crash(loaded)), s).agent.savedSeq ==
            if !s.saved then w.agent.savedSeq else if loaded then w.agent.savedSeq + 1 else 1
  {
  }
}

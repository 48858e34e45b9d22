/**
  The agent's side of the traffic synchronisation: deltas against persisted baselines, a persisted
  sequence, the pending table and cumulative acks (internal/agent/trafsync/trafsync.go).
 */
module TrafficSync {
  import opened Names
  import opened Sums
  import opened Ledger

  /** totals, the sync_base rows of meta, the sequence in memory and in meta (0 if absent), and traffic_pending. */
  datatype Agent = Agent(
    totals: map<Scope, Pair>,
    base: map<Scope, Pair>,
    seqNo: nat,
    savedSeq: nat,
    pending: map<nat, Row>)

  datatype Ack = Ack(machine: string, sequence: int, accepted: bool)

  function BaseOf(a: Agent, s: Scope): Pair { if s in a.base then a.base[s] else ZERO_PAIR }

  function TotalOf(a: Agent, s: Scope): Pair { if s in a.totals then a.totals[s] else ZERO_PAIR }

  /** The increase over the baseline; a total below its baseline counts as no increase. */
  function Increase(a: Agent, s: Scope): Pair
  {
    Pair(Max(0, TotalOf(a, s).rx - BaseOf(a, s).rx), Max(0, TotalOf(a, s).tx - BaseOf(a, s).tx))
  }

  /** What computeDeltas takes for the increase: a baseline that cannot be read counts as zero. */
  function SeenIncrease(a: Agent, s: Scope, read: bool): Pair
  {
    if read then Increase(a, s) else Pair(Max(0, TotalOf(a, s).rx), Max(0, TotalOf(a, s).tx))
  }

  function RowFor(a: Agent, s: Scope, now: int, read: bool): Row { Row(NodeOf(s), SeenIncrease(a, s, read), now, now) }

  /** The next sequence, in memory and, unless saving it fails, in meta. */
  function Reserved(a: Agent, saved: bool): Agent
  {
    a.(seqNo := a.seqNo + 1, savedSeq := if saved then a.seqNo + 1 else a.savedSeq)
  }

  function Inserted(a: Agent, row: Row): Agent { a.(pending := a.pending[a.seqNo := row]) }

  function Rebased(a: Agent, s: Scope): Agent { a.(base := a.base[s := TotalOf(a, s)]) }

  function Acked(a: Agent, machine: string, ack: Ack): Agent
  {
    if ack.machine != machine || !ack.accepted then a
    else a.(pending := map k | k in a.pending && k > ack.sequence :: a.pending[k])
  }

  /** A restart takes up the sequence from meta; if it cannot be read, from zero. */
  function Restarted(a: Agent, loaded: bool): Agent { a.(seqNo := if loaded then a.savedSeq else 0) }

  /** One scope of computeDeltas; None if the pending row cannot be inserted. */
  function ComputeOne(a: Agent, s: Scope, now: int): Option<Agent>
  {
    if Increase(a, s) == ZERO_PAIR then Some(a)
    else if a.seqNo + 1 in a.pending then None
    else Some(Rebased(Inserted(Reserved(a, true), RowFor(a, s, now, true)), s))
  }

  /** All of computeDeltas, scope by scope; it stops at the first row that cannot be inserted. */
  function ComputeAll(a: Agent, scopes: seq<Scope>, now: int): (r: (Agent, bool))
    decreases |scopes|
  {
    if scopes == [] then (a, true)
    else match ComputeOne(a, scopes[0], now)
      case None => (Reserved(a, true), false)
      case Some(b) => ComputeAll(b, scopes[1..], now)
  }

  // ----- the errors the agent ignores -----

  /**
    Whether the baseline could be read, the sequence saved and the new baseline stored; none of the
    three is checked.
   */
  datatype Io = Io(read: bool, saved: bool, stored: bool)

  const ALL_GOOD := Io(true, true, true)

  function ComputeOneWith(a: Agent, s: Scope, now: int, io: Io): Option<Agent>
  {
    if SeenIncrease(a, s, io.read) == ZERO_PAIR then Some(a)
    else if a.seqNo + 1 in a.pending then None
    else
      var b := Inserted(Reserved(a, io.saved), RowFor(a, s, now, io.read));
      Some(if io.stored then Rebased(b, s) else b)
  }

  /** computeDeltas with these outcomes scope by scope. */
  function ComputeAllWith(a: Agent, scopes: seq<Scope>, now: int, ios: seq<Io>): (r: (Agent, bool))
    requires |ios| == |scopes|
    decreases |scopes|
  {
    if scopes == [] then (a, true)
    else match ComputeOneWith(a, scopes[0], now, ios[0])
      case None => (Reserved(a, ios[0].saved), false)
      case Some(b) => ComputeAllWith(b, scopes[1..], now, ios[1..])
  }

  lemma GoodStep(a: Agent, s: Scope, now: int)
    ensures ComputeOneWith(a, s, now, ALL_GOOD) == ComputeOne(a, s, now)
  {
    hide NodeOf, IsScope, Inserted, Rebased;
  }

  /** Without such errors it is the computation the protocol is about. */
  lemma {:induction false} GoodIsComputeAll(a: Agent, scopes: seq<Scope>, now: int, ios: seq<Io>)
    requires |ios| == |scopes| && forall i :: 0 <= i < |ios| ==> ios[i] == ALL_GOOD
    ensures ComputeAllWith(a, scopes, now, ios) == ComputeAll(a, scopes, now)
    decreases |scopes|
  {
    hide ComputeOne, ComputeOneWith, Reserved, IsScope;
    if scopes != [] {
      GoodStep(a, scopes[0], now);
      if ComputeOne(a, scopes[0], now).Some? {
        GoodIsComputeAll(ComputeOne(a, scopes[0], now).value, scopes[1..], now, ios[1..]);
      }
    }
  }

  /** Unread, a baseline between zero and its total is sent over again. */
  lemma SeenSplits(a: Agent, s: Scope, read: bool)
    requires 0 <= BaseOf(a, s).rx <= TotalOf(a, s).rx && 0 <= BaseOf(a, s).tx <= TotalOf(a, s).tx
    ensures SeenIncrease(a, s, read).rx == Increase(a, s).rx + if read then 0 else BaseOf(a, s).rx
    ensures SeenIncrease(a, s, read).tx == Increase(a, s).tx + if read then 0 else BaseOf(a, s).tx
  {
    hide IsScope;
  }

  // ----- rows in sequence order -----

  ghost predicate IsLeast(keys: set<nat>, m: nat) { m in keys && forall k :: k in keys ==> m <= k }

  lemma {:induction false} LeastExists(keys: set<nat>)
    requires keys != {}
    ensures exists m :: IsLeast(keys, m)
    decreases keys
  {
    var x :| x in keys;
    if keys == {x} {
      assert IsLeast(keys, x);
    } else {
      LeastExists(keys - {x});
      var m :| IsLeast(keys - {x}, m);
      var least := if x < m then x else m;
      assert forall k :: k in keys ==> k == x || k in keys - {x};
      assert IsLeast(keys, least);
    }
  }

  ghost function Least(keys: set<nat>): (m: nat)
    requires keys != {}
    ensures IsLeast(keys, m)
  {
    LeastExists(keys);
    var m :| IsLeast(keys, m);
    m
  }

  ghost function Ordered(keys: set<nat>): seq<nat>
    decreases keys
  {
    if keys == {} then [] else [Least(keys)] + Ordered(keys - {Least(keys)})
  }

  ghost function Messages(machine: string, pending: map<nat, Row>, order: seq<nat>): seq<Delta>
    requires forall k :: k in order ==> k in pending
  {
    seq(|order|, i requires 0 <= i < |order| => assert order[i] in order; Delta(machine, order[i], pending[order[i]]))
  }

  /** ORDER BY sequence lists every row once, in ascending order. */
  lemma {:induction false} OrderedFacts(keys: set<nat>)
    ensures forall k :: k in Ordered(keys) <==> k in keys
    ensures forall i, j :: 0 <= i < j < |Ordered(keys)| ==> Ordered(keys)[i] < Ordered(keys)[j]
    decreases keys
  {
    if keys != {} {
      var rest := keys - {Least(keys)};
      OrderedFacts(rest);
      forall i, j | 0 <= i < j < |Ordered(keys)| ensures Ordered(keys)[i] < Ordered(keys)[j]
      {
        assert Ordered(keys)[j] == Ordered(rest)[j - 1];
        assert Ordered(rest)[j - 1] in Ordered(rest);
        assert i > 0 ==> Ordered(keys)[i] == Ordered(rest)[i - 1];
      }
    }
  }

  ghost function Outgoing(machine: string, pending: map<nat, Row>): seq<Delta>
  {
    OrderedFacts(pending.Keys);
    Messages(machine, pending, Ordered(pending.Keys))
  }

  class Sync {
    const machine: string
    var totals: map<Scope, Pair>
    var base: map<Scope, Pair>
    var seqNo: nat
    var savedSeq: nat
    var pending: map<nat, Row>

    /** A first start, or a restart over the tables an earlier process left. */
    constructor (machine: string, stored: Agent, loaded: bool)
      ensures this.machine == machine && State() == Restarted(stored, loaded)
    {
      this.machine := machine;
      totals, base, savedSeq, pending := stored.totals, stored.base, stored.savedSeq, stored.pending;
      seqNo := 0;
      if loaded { seqNo := stored.savedSeq; }
    }

    function State(): Agent
      reads this
    {
      Agent(totals, base, seqNo, savedSeq, pending)
    }

    /** Turns the growth of the totals into pending rows, one fresh sequence per scope. */
    method ComputeDeltas(scopes: seq<Scope>, now: int, ios: seq<Io>) returns (ok: bool)
      requires |ios| == |scopes|
      modifies this
      ensures (State(), ok) == ComputeAllWith(old(State()), scopes, now, ios)
    {
      hide IsScope, NodeOf;
      var i := 0;
      while i < |scopes|
        invariant 0 <= i <= |scopes|
        invariant ComputeAllWith(State(), scopes[i..], now, ios[i..]) == ComputeAllWith(old(State()), scopes, now, ios)
      {
        assert scopes[i..][1..] == scopes[i + 1..] && ios[i..][1..] == ios[i + 1..];
        var done := ComputeDelta(scopes[i], now, ios[i]);
        if !done { return false; }
        i := i + 1;
      }
      return true;
    }

    /** One scope; false if its row cannot be inserted. */
    method ComputeDelta(s: Scope, now: int, io: Io) returns (ok: bool)
      modifies this
      ensures ok <==> ComputeOneWith(old(State()), s, now, io).Some?
      ensures State() == if ok then ComputeOneWith(old(State()), s, now, io).value else Reserved(old(State()), io.saved)
    {
      hide IsScope, NodeOf;
      var sv := if s in totals then totals[s] else ZERO_PAIR;
      var b := if s in base && io.read then base[s] else ZERO_PAIR;
      var deltaRx, deltaTx := sv.rx - b.rx, sv.tx - b.tx;
      if deltaRx < 0 { deltaRx := 0; }
      if deltaTx < 0 { deltaTx := 0; }
      assert Pair(deltaRx, deltaTx) == SeenIncrease(State(), s, io.read);
      if deltaRx == 0 && deltaTx == 0 { return true; }
      seqNo := seqNo + 1;
      if io.saved { savedSeq := seqNo; }
      if seqNo in pending { return false; }
      pending := pending[seqNo := Row(NodeOf(s), Pair(deltaRx, deltaTx), now, now)];
      if io.stored { base := base[s := sv]; }
      return true;
    }

    /** SELECT ... ORDER BY sequence. */
    method SelectOrdered() returns (items: seq<nat>)
      ensures items == Ordered(pending.Keys)
    {
      items := [];
      var todo := pending.Keys;
      while todo != {}
        invariant items + Ordered(todo) == Ordered(pending.Keys)
        decreases todo
      {
        LeastExists(todo);
        var k :| k in todo && forall j :: j in todo ==> k <= j;
        assert IsLeast(todo, k) && k == Least(todo);
        items := items + [k];
        todo := todo - {k};
      }
    }

    /** Sends the pending rows in sequence order; the connection takes the first `capacity` of them. */
    method FlushPending(capacity: nat) returns (sent: seq<Delta>, ok: bool)
      ensures var all := Outgoing(machine, pending);
              if |all| <= capacity then sent == all && ok else sent == all[..capacity] && !ok
    {
      sent := [];
      var items := SelectOrdered();
      OrderedFacts(pending.Keys);
      for i := 0 to |items|
        invariant i <= capacity
        invariant sent == Outgoing(machine, pending)[..i]
      {
        if i == capacity { return sent, false; }
        assert items[i] in items;
        sent := sent + [Delta(machine, items[i], pending[items[i]])];
      }
      return sent, true;
    }

    /** Deletes what the ack covers; if the deletion fails nothing changes. */
    method OnAck(ack: Ack, deleted: bool)
      modifies this
      ensures State() == if deleted then Acked(old(State()), machine, ack) else old(State())
    {
      if ack.machine != machine || !ack.accepted { return; }
      if deleted { pending := map k | k in pending && k > ack.sequence :: pending[k]; }
    }
  }

  /** With no pending row above the sequence in use, computeDeltas never fails. */
  lemma {:induction false} ComputeAllSucceeds(a: Agent, scopes: seq<Scope>, now: int)
    requires forall k :: k in a.pending ==> k <= a.seqNo
    ensures ComputeAll(a, scopes, now).1
    decreases |scopes|
  {
    if scopes != [] {
      var b := ComputeOne(a, scopes[0], now).value;
      ComputeAllSucceeds(b, scopes[1..], now);
    }
  }
}

/**
  The manager's traffic ledgers: one transaction per traffic_delta, deduplicated on
  UNIQUE(machine_id, sequence) (internal/manager/traffic/traffic.go).
 */
module Ledger {
  import opened Sums

  datatype Pair = Pair(rx: int, tx: int)

  const ZERO_PAIR := Pair(0, 0)

  function AddPair(a: Pair, b: Pair): Pair { Pair(a.rx + b.rx, a.tx + b.tx) }

  /** What a delta carries besides its machine and sequence. */
  datatype Row = Row(node: string, amount: Pair, start: int, end: int)

  datatype Delta = Delta(machine: string, sequence: int, row: Row)

  /** traffic_events in insertion order, traffic_total, and traffic_daily by day. */
  datatype Books = Books(
    events: seq<Delta>,
    total: map<(string, string), Pair>,
    daily: map<string, map<(string, string), Pair>>)

  /** Where the transaction fails, if it does. */
  datatype Fault = NoFault | AtBegin | AtInsert | AtTotal | AtDaily | AtCommit

  /** What IngestDelta reports: new data, a duplicate, or an error. */
  datatype Outcome = Accepted | Duplicate | Error

  function Balance(m: map<(string, string), Pair>, k: (string, string)): Pair { if k in m then m[k] else ZERO_PAIR }

  function DayOf(b: Books, day: string): map<(string, string), Pair> { if day in b.daily then b.daily[day] else map[] }

  predicate Holds(events: seq<Delta>, machine: string, sequence: int)
  {
    exists i :: 0 <= i < |events| && events[i].machine == machine && events[i].sequence == sequence
  }

  function Key(d: Delta): (string, string) { (d.machine, d.row.node) }

  function Credit(m: map<(string, string), Pair>, d: Delta): map<(string, string), Pair>
  {
    m[Key(d) := AddPair(Balance(m, Key(d)), d.row.amount)]
  }

  function Outcomes(b: Books, d: Delta, fault: Fault): Outcome
  {
    if d.machine == "" || fault.AtBegin? || fault.AtInsert? then Error
    else if Holds(b.events, d.machine, d.sequence) then Duplicate
    else if fault.NoFault? then Accepted
    else Error
  }

  /** The ledgers after one delivery. */
  function Ingest(b: Books, d: Delta, day: string, fault: Fault): Books
  {
    if Outcomes(b, d, fault) != Accepted then b
    else Books(b.events + [d], Credit(b.total, d), b.daily[day := Credit(DayOf(b, day), d)])
  }

  class ManagerDb {
    var events: seq<Delta>
    var total: map<(string, string), Pair>
    var daily: map<string, map<(string, string), Pair>>

    constructor ()
      ensures Stored() == Books([], map[], map[])
    {
      events, total, daily := [], map[], map[];
    }

    function Stored(): Books
      reads this
    {
      Books(events, total, daily)
    }

    /** The unique index's lookup. */
    method Lookup(machine: string, sequence: int) returns (found: bool)
      ensures found <==> Holds(events, machine, sequence)
    {
      for i := 0 to |events|
        invariant forall j :: 0 <= j < i ==> !(events[j].machine == machine && events[j].sequence == sequence)
      {
        if events[i].machine == machine && events[i].sequence == sequence { return true; }
      }
      return false;
    }

    /** One delivery: every statement works on the transaction's own copy, and only the commit publishes it. */
    method IngestDelta(d: Delta, day: string, fault: Fault) returns (outcome: Outcome)
      modifies this
      ensures outcome == Outcomes(old(Stored()), d, fault)
      ensures Stored() == Ingest(old(Stored()), d, day, fault)
    {
      if d.machine == "" || fault.AtBegin? { return Error; }
      var txEvents, txTotal, txDaily := events, total, daily;
      if fault.AtInsert? { return Error; }
      var duplicate := Lookup(d.machine, d.sequence);
      if duplicate { return Duplicate; }
      txEvents := txEvents + [d];
      if fault.AtTotal? { return Error; }
      txTotal := Credit(txTotal, d);
      if fault.AtDaily? { return Error; }
      txDaily := txDaily[day := Credit(if day in txDaily then txDaily[day] else map[], d)];
      if fault.AtCommit? { return Error; }
      events, total, daily := txEvents, txTotal, txDaily;
      return Accepted;
    }
  }

  // ----- what the ledgers mean -----

  predicate NoRepeats(events: seq<Delta>)
  {
    forall i, j :: 0 <= i < j < |events| ==> (events[i].machine, events[i].sequence) != (events[j].machine, events[j].sequence)
  }

  ghost function EventSet(events: seq<Delta>): set<Delta> { set d | d in events }

  ghost function RxFor(k: (string, string)): Delta -> int { d => if Key(d) == k then d.row.amount.rx else 0 }

  ghost function TxFor(k: (string, string)): Delta -> int { d => if Key(d) == k then d.row.amount.tx else 0 }

  /** The sum of a set of deltas for one machine and node. */
  ghost function SumFor(ds: set<Delta>, k: (string, string)): Pair
  {
    Pair(SumSet(ds, RxFor(k)), SumSet(ds, TxFor(k)))
  }

  ghost function DayRx(b: Books, k: (string, string)): string -> int { day => Balance(DayOf(b, day), k).rx }

  ghost function DayTx(b: Books, k: (string, string)): string -> int { day => Balance(DayOf(b, day), k).tx }

  ghost function DaySum(b: Books, k: (string, string)): Pair
  {
    Pair(SumSet(b.daily.Keys, DayRx(b, k)), SumSet(b.daily.Keys, DayTx(b, k)))
  }

  /** Both ledgers equal the sum over the stored events, and no event is stored twice. */
  ghost predicate Balanced(b: Books)
  {
    && NoRepeats(b.events)
    && (forall k :: Balance(b.total, k) == SumFor(EventSet(b.events), k))
    && (forall k :: DaySum(b, k) == SumFor(EventSet(b.events), k))
  }

  lemma SumForInsert(ds: set<Delta>, d: Delta, k: (string, string))
    requires d !in ds
    ensures SumFor(ds + {d}, k) == if Key(d) == k then AddPair(SumFor(ds, k), d.row.amount) else SumFor(ds, k)
  {
    SumInsert(ds, d, RxFor(k));
    SumInsert(ds, d, TxFor(k));
  }

  lemma CreditDaySum(b: Books, b': Books, d: Delta, day: string, k: (string, string))
    requires b'.daily == b.daily[day := Credit(DayOf(b, day), d)]
    ensures DaySum(b', k) == if Key(d) == k then AddPair(DaySum(b, k), d.row.amount) else DaySum(b, k)
  {
    if day in b.daily {
      assert b'.daily.Keys == b.daily.Keys;
      SumBump(b.daily.Keys, day, DayRx(b, k), DayRx(b', k));
      SumBump(b.daily.Keys, day, DayTx(b, k), DayTx(b', k));
    } else {
      assert b'.daily.Keys == b.daily.Keys + {day};
      SumInsert(b.daily.Keys, day, DayRx(b', k));
      SumInsert(b.daily.Keys, day, DayTx(b', k));
      SumCong(b.daily.Keys, DayRx(b, k), DayRx(b', k));
      SumCong(b.daily.Keys, DayTx(b, k), DayTx(b', k));
    }
  }

  lemma NewEvent(b: Books, d: Delta)
    requires NoRepeats(b.events) && !Holds(b.events, d.machine, d.sequence)
    ensures d !in EventSet(b.events) && EventSet(b.events + [d]) == EventSet(b.events) + {d} && NoRepeats(b.events + [d])
  {
  }

  /** Every delivery, new, repeated or failing, keeps both ledgers equal to the distinct events. */
  lemma IngestKeepsBalance(b: Books, d: Delta, day: string, fault: Fault)
    requires Balanced(b)
    ensures Balanced(Ingest(b, d, day, fault))
  {
    if Outcomes(b, d, fault) == Accepted {
      var b' := Ingest(b, d, day, fault);
      NewEvent(b, d);
      hide NoRepeats, Ingest, EventSet, SumFor, DaySum, Holds;
      forall k
        ensures Balance(b'.total, k) == SumFor(EventSet(b'.events), k)
        ensures DaySum(b', k) == SumFor(EventSet(b'.events), k)
      {
        SumForInsert(EventSet(b.events), d, k);
        CreditDaySum(b, b', d, day, k);
      }
    }
  }

  /** A delivery from one machine leaves every other machine's balances alone. */
  lemma IngestFrame(b: Books, d: Delta, day: string, fault: Fault, k: (string, string))
    requires k.0 != d.machine
    ensures Balance(Ingest(b, d, day, fault).total, k) == Balance(b.total, k)
    ensures forall other :: Balance(DayOf(Ingest(b, d, day, fault), other), k) == Balance(DayOf(b, other), k)
  {
  }

  // ----- deliveries in any order, with repeats -----

  const OPENED := Books([], map[], map[])

  function IngestAll(b: Books, ds: seq<Delta>, days: seq<string>): Books
    requires |days| == |ds|
    decreases |ds|
  {
    if ds == [] then b else IngestAll(Ingest(b, ds[0], days[0], NoFault), ds[1..], days[1..])
  }

  /** Repeats carry the payload of the first: the agent resends stored rows unchanged. */
  predicate Consistent(ds: set<Delta>)
  {
    forall x, y :: x in ds && y in ds && x.machine == y.machine && x.sequence == y.sequence ==> x == y
  }

  lemma DeliveredOnce(b: Books, d: Delta, day: string, all: set<Delta>)
    requires Consistent(all) && d in all && EventSet(b.events) <= all && d.machine != ""
    ensures EventSet(Ingest(b, d, day, NoFault).events) == EventSet(b.events) + {d}
  {
    hide Credit;
    if Holds(b.events, d.machine, d.sequence) {
      var i :| 0 <= i < |b.events| && b.events[i].machine == d.machine && b.events[i].sequence == d.sequence;
      assert b.events[i] in EventSet(b.events);
    }
  }

  lemma {:induction false} IngestAllEvents(b: Books, ds: seq<Delta>, days: seq<string>)
    requires |days| == |ds| && Balanced(b)
    requires Consistent(EventSet(b.events) + EventSet(ds))
    requires forall d :: d in ds ==> d.machine != ""
    ensures Balanced(IngestAll(b, ds, days))
    ensures EventSet(IngestAll(b, ds, days).events) == EventSet(b.events) + EventSet(ds)
    decreases |ds|
  {
    if ds != [] {
      var d := ds[0];
      var b' := Ingest(b, d, days[0], NoFault);
      IngestKeepsBalance(b, d, days[0], NoFault);
      assert EventSet(ds) == {d} + EventSet(ds[1..]);
      DeliveredOnce(b, d, days[0], EventSet(b.events) + EventSet(ds));
      hide Ingest, Balanced, Consistent, EventSet;
      assert EventSet(b.events) + EventSet(ds) == EventSet(b'.events) + EventSet(ds[1..]);
      IngestAllEvents(b', ds[1..], days[1..]);
    }
  }

  /**
    Whatever the order, the repetitions and the days of delivery, the balances are the sum over the
    distinct deltas.
   */
  lemma {:induction false} DeliveryOrderIrrelevant(ds: seq<Delta>, days: seq<string>, k: (string, string))
    requires |days| == |ds| && Consistent(EventSet(ds)) && forall d :: d in ds ==> d.machine != ""
    ensures Balance(IngestAll(OPENED, ds, days).total, k) == SumFor(EventSet(ds), k)
    ensures DaySum(IngestAll(OPENED, ds, days), k) == SumFor(EventSet(ds), k)
  {
    assert EventSet(OPENED.events) + EventSet(ds) == EventSet(ds);
    IngestAllEvents(OPENED, ds, days);
  }

  // ----- one delivery, row by row -----

  /**
    A delivery enters the books exactly if its machine is named, no statement fails and its sequence is not
    stored yet. Then its machine and node are credited in total and under the day of the delivery, every
    other row of every table stays, and the delta becomes the last event; otherwise nothing changes.
   */
  lemma IngestCreditsItsDay(b: Books, d: Delta, day: string, fault: Fault)
    ensures var after := Ingest(b, d, day, fault);
      var enters := d.machine != "" && fault.NoFault? &&
                    forall e :: e in b.events ==> e.machine != d.machine || e.sequence != d.sequence;
      && (Outcomes(b, d, fault) == Accepted <==> enters)
      && (!enters ==> after == b)
      && (enters ==>
            && after.events == b.events + [d]
            && (forall k :: Balance(after.total, k) ==
                  if k == (d.machine, d.row.node) then AddPair(Balance(b.total, k), d.row.amount) else Balance(b.total, k))
            && (forall k :: Balance(DayOf(after, day), k) ==
                  if k == (d.machine, d.row.node) then AddPair(Balance(DayOf(b, day), k), d.row.amount)
                  else Balance(DayOf(b, day), k))
            && (forall other :: other != day ==> DayOf(after, other) == DayOf(b, other)))
  {
    if e :| e in b.events && e.machine == d.machine && e.sequence == d.sequence {
      var i :| 0 <= i < |b.events| && b.events[i] == e;
      assert Holds(b.events, d.machine, d.sequence);
    }
  }

  /**
    A repetition is told from an error: a stored sequence is a duplicate if the transaction gets as far
    as its first statement.
   */
  lemma DuplicateIsExact(b: Books, d: Delta, fault: Fault)
    ensures Outcomes(b, d, fault) == Duplicate <==>
            d.machine != "" && fault !in {AtBegin, AtInsert} &&
            exists e :: e in b.events && e.machine == d.machine && e.sequence == d.sequence
  {
    if e :| e in b.events && e.machine == d.machine && e.sequence == d.sequence {
      var i :| 0 <= i < |b.events| && b.events[i] == e;
      assert Holds(b.events, d.machine, d.sequence);
    }
  }

  // ----- the daily table over a run of deliveries -----

  /** The first delivery of its machine and sequence, from a machine that is named. */
  predicate IsFirst(ds: seq<Delta>, i: nat)
    requires i < |ds|
  {
    ds[i].machine != "" && forall j :: 0 <= j < i ==> ds[j].machine != ds[i].machine || ds[j].sequence != ds[i].sequence
  }

  /** What the first deliveries of a day bring a machine's node. */
  ghost function BroughtOn(ds: seq<Delta>, days: seq<string>, day: string, machine: string, node: string): Pair
    requires |days| == |ds|
    decreases |ds|
  {
    if ds == [] then ZERO_PAIR
    else
      var n := |ds| - 1;
      var before := BroughtOn(ds[..n], days[..n], day, machine, node);
      if days[n] == day && ds[n].machine == machine && ds[n].row.node == node && IsFirst(ds, n)
      then AddPair(before, ds[n].row.amount) else before
  }

  lemma {:induction false} IngestAllLast(b: Books, ds: seq<Delta>, days: seq<string>)
    requires |days| == |ds| && ds != []
    ensures var n := |ds| - 1;
            IngestAll(b, ds, days) == Ingest(IngestAll(b, ds[..n], days[..n]), ds[n], days[n], NoFault)
    decreases |ds|
  {
    hide Ingest;
    var n := |ds| - 1;
    if n > 0 {
      IngestAllLast(Ingest(b, ds[0], days[0], NoFault), ds[1..], days[1..]);
      assert ds[1..][..n - 1] == ds[..n][1..] && days[1..][..n - 1] == days[..n][1..];
    } else {
      assert ds[..0] == [] && days[..0] == [] && ds[1..] == [];
      assert IngestAll(b, ds[..0], days[..0]) == b;
    }
  }

  /** A sequence is stored once it has been delivered. */
  lemma {:induction false} StoredIsDelivered(ds: seq<Delta>, days: seq<string>, machine: string, sequence: int)
    requires |days| == |ds| && machine != ""
    ensures (exists e :: e in IngestAll(OPENED, ds, days).events && e.machine == machine && e.sequence == sequence) <==>
            (exists i :: 0 <= i < |ds| && ds[i].machine == machine && ds[i].sequence == sequence)
    decreases |ds|
  {
    if ds != [] {
      var n := |ds| - 1;
      var before := IngestAll(OPENED, ds[..n], days[..n]);
      IngestAllLast(OPENED, ds, days);
      StoredIsDelivered(ds[..n], days[..n], machine, sequence);
      IngestCreditsItsDay(before, ds[n], days[n], NoFault);
      hide Ingest, IngestAll, Outcomes;
      if i :| 0 <= i < n && ds[i].machine == machine && ds[i].sequence == sequence {
        assert ds[..n][i] == ds[i];
      }
      assert ds[n] in before.events + [ds[n]];
    }
  }

  /**
    Under any sequence of deliveries, a day's balance of a machine and node is the sum of the amounts first
    delivered on that day: repetitions count nowhere, on whatever day they come.
   */
  lemma {:induction false} DayHoldsItsDeliveries(ds: seq<Delta>, days: seq<string>, day: string, machine: string,
      node: string)
    requires |days| == |ds|
    ensures Balance(DayOf(IngestAll(OPENED, ds, days), day), (machine, node)) == BroughtOn(ds, days, day, machine, node)
    decreases |ds|
  {
    if ds != [] {
      var n := |ds| - 1;
      var d, before := ds[n], IngestAll(OPENED, ds[..n], days[..n]);
      IngestAllLast(OPENED, ds, days);
      DayHoldsItsDeliveries(ds[..n], days[..n], day, machine, node);
      IngestCreditsItsDay(before, d, days[n], NoFault);
      if d.machine != "" { FirstIsNew(ds, days); }
      hide Ingest, IngestAll, Outcomes;
    }
  }

  lemma FirstIsNew(ds: seq<Delta>, days: seq<string>)
    requires |days| == |ds| && ds != [] && ds[|ds| - 1].machine != ""
    ensures var n := |ds| - 1;
            IsFirst(ds, n) <==> forall e :: e in IngestAll(OPENED, ds[..n], days[..n]).events ==>
              e.machine != ds[n].machine || e.sequence != ds[n].sequence
  {
    var n := |ds| - 1;
    StoredIsDelivered(ds[..n], days[..n], ds[n].machine, ds[n].sequence);
    hide IngestAll;
    assert forall i :: 0 <= i < n ==> ds[..n][i] == ds[i];
  }
}

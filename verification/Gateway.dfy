/**
  The manager's connection table and its traffic branch: one live connection per machine, and every delta
  ingested before it is acked (internal/manager/gateway/gateway.go).
 */
module Gateway {
  import opened Names
  import opened Ledger
  import opened TrafficSync
  import opened SyncProtocol

  /** A connection: its machine, whether its done channel is closed, and the acks put on its write queue. */
  datatype Link = Link(machine: string, closed: bool, sent: seq<Ack>)

  /** Every connection there ever was, and the one each machine is reached by. */
  datatype Table = Table(links: map<nat, Link>, conns: map<string, nat>)

  function Close(links: map<nat, Link>, c: nat): map<nat, Link>
  {
    if c in links then links[c := links[c].(closed := true)] else links
  }

  /** A new connection replaces, and closes, an older one of its machine. */
  function Registered(t: Table, machine: string, c: nat): Table
  {
    Table((if machine in t.conns then Close(t.links, t.conns[machine]) else t.links)[c := Link(machine, false, [])],
          t.conns[machine := c])
  }

  predicate IsCurrent(t: Table, c: nat)
  {
    c in t.links && t.links[c].machine in t.conns && t.conns[t.links[c].machine] == c
  }

  /** A connection that ends is taken out of the table only if it is still the machine's own. */
  function Unregistered(t: Table, c: nat): Table
  {
    Table(Close(t.links, c), if IsCurrent(t, c) then t.conns - {t.links[c].machine} else t.conns)
  }

  /** Closing a channel that is closed already panics. */
  predicate ClosesTwice(t: Table, c: nat) { c in t.links && t.links[c].closed }

  class Server {
    var links: map<nat, Link>
    var conns: map<string, nat>

    constructor ()
      ensures Stored() == Table(map[], map[])
    {
      links, conns := map[], map[];
    }

    function Stored(): Table
      reads this
    {
      Table(links, conns)
    }

    method Register(machine: string, c: nat)
      requires c !in links
      modifies this
      ensures Stored() == Registered(old(Stored()), machine, c)
    {
      if machine in conns {
        var older := conns[machine];
        if older in links { links := links[older := links[older].(closed := true)]; }
        conns := conns - {machine};
        assert conns[machine := c] == old(conns)[machine := c];
      }
      links := links[c := Link(machine, false, [])];
      conns := conns[machine := c];
    }

    method Unregister(c: nat) returns (panics: bool)
      requires c in links
      modifies this
      ensures Stored() == Unregistered(old(Stored()), c)
      ensures panics <==> ClosesTwice(old(Stored()), c)
    {
      var machine := links[c].machine;
      if machine in conns && conns[machine] == c { conns := conns - {machine}; }
      panics := links[c].closed;
      links := links[c := links[c].(closed := true)];
    }

    /**
      The ack says what the ledger said, and goes out on the connection the delta came in by, if its
      queue has room.
     */
    method DispatchDelta(db: ManagerDb, c: nat, d: Delta, day: string, fault: Fault, room: bool)
      requires c in links
      modifies this, db
      ensures db.Stored() == Ingest(old(db.Stored()), d, day, fault)
      ensures conns == old(conns) && links.Keys == old(links).Keys
      ensures var acks := if room then [AckFor(old(db.Stored()), d, fault)] else [];
              links == old(links)[c := old(links)[c].(sent := old(links)[c].sent + acks)]
    {
      var outcome := db.IngestDelta(d, day, fault);
      var ack := Ack(d.machine, d.sequence, true);
      if outcome == Error { ack := Ack(d.machine, d.sequence, false); }
      var l := links[c];
      links := links[c := l.(sent := if room then l.sent + [ack] else l.sent)];
      assert l.sent + [] == l.sent;
    }

    /**
      The message goes to the machine's own connection; without one the machine is offline, and a full
      queue is an error.
     */
    method SendToMachine(machine: string, room: bool) returns (online: bool, queued: Option<nat>)
      ensures online <==> machine in conns && room
      ensures queued == if machine in conns && room then Some(conns[machine]) else None
    {
      if machine !in conns { return false, None; }
      if !room { return false, None; }
      return true, Some(conns[machine]);
    }
  }

  // ----- every order of connecting and disconnecting -----

  datatype Event = Register(machine: string, c: nat) | Unregister(c: nat)

  function Step(t: Table, e: Event): Table
  {
    match e
    case Register(machine, c) => Registered(t, machine, c)
    case Unregister(c) => Unregistered(t, c)
  }

  /** The table after a history of events. */
  function After(events: seq<Event>): Table
    decreases |events|
  {
    if events == [] then Table(map[], map[]) else Step(After(events[..|events| - 1]), events[|events| - 1])
  }

  /** Each connection registers once, and ends at most once, after that. */
  predicate WellFormed(events: seq<Event>)
  {
    && (forall i, j :: 0 <= i < j < |events| ==>
          events[i] != events[j] && !(events[i].Register? && events[j].Register? && events[i].c == events[j].c))
    && (forall j :: 0 <= j < |events| && events[j].Unregister? ==>
          exists i :: 0 <= i < j && events[i].Register? && events[i].c == events[j].c)
  }

  /** After its registration at i, the connection neither ended nor was followed by another of its machine. */
  predicate LatestAt(events: seq<Event>, i: int, machine: string, c: nat)
    requires 0 <= i < |events|
  {
    && events[i] == Register(machine, c)
    && forall j :: i < j < |events| ==>
        events[j] != Unregister(c) && !(events[j].Register? && events[j].machine == machine)
  }

  /** A registration later than i of the same machine. */
  predicate ReplacedAfter(events: seq<Event>, i: int, machine: string)
    requires 0 <= i < |events|
  {
    exists j :: i < j < |events| && events[j].Register? && events[j].machine == machine
  }

  lemma PrefixWellFormed(events: seq<Event>, n: nat)
    requires WellFormed(events) && n <= |events|
    ensures WellFormed(events[..n])
  {
    forall j | 0 <= j < n && events[j].Unregister?
      ensures exists i :: 0 <= i < j && events[..n][i].Register? && events[..n][i].c == events[..n][j].c
    {
      var i :| 0 <= i < j && events[i].Register? && events[i].c == events[j].c;
      assert events[..n][i] == events[i];
    }
  }

  lemma RegisteredOnce(events: seq<Event>, i: int, j: int)
    requires WellFormed(events) && 0 <= i < |events| && 0 <= j < |events|
    requires events[i].Register? && events[j].Register? && events[i].c == events[j].c
    ensures i == j
  {
  }

  /** What the table records of a registered connection: its machine, and that it is closed once replaced or ended. */
  ghost predicate Recorded(events: seq<Event>, i: int)
    requires 0 <= i < |events| && events[i].Register?
  {
    var t, e := After(events), events[i];
    && e.c in t.links && t.links[e.c].machine == e.machine
    && (LatestAt(events, i, e.machine, e.c) <==> !t.links[e.c].closed)
    && (LatestAt(events, i, e.machine, e.c) <==> e.machine in t.conns && t.conns[e.machine] == e.c)
  }

  /** Links and table entries stem from registrations. */
  ghost predicate Grounded(events: seq<Event>)
  {
    && (forall c :: c in After(events).links ==>
        exists i :: 0 <= i < |events| && events[i].Register? && events[i].c == c)
    && (forall m :: m in After(events).conns ==>
        exists i :: 0 <= i < |events| && events[i] == Register(m, After(events).conns[m]))
  }

  lemma {:induction false} HistoryIsRecorded(events: seq<Event>)
    requires WellFormed(events)
    ensures Grounded(events) && forall i :: 0 <= i < |events| && events[i].Register? ==> Recorded(events, i)
    decreases |events|
  {
    if events != [] {
      var n := |events| - 1;
      PrefixWellFormed(events, n);
      HistoryIsRecorded(events[..n]);
      StepGrounds(events);
      forall i | 0 <= i < |events| && events[i].Register? ensures Recorded(events, i)
      {
        if i < n { assert Recorded(events[..n], i); StepRecords(events, i); } else { NewRecorded(events); }
      }
    }
  }

  lemma StepGrounds(events: seq<Event>)
    requires events != [] && WellFormed(events) && Grounded(events[..|events| - 1])
    ensures Grounded(events)
  {
    var n := |events| - 1;
    var before, t, e := After(events[..n]), After(events), events[n];
    forall c | c in t.links ensures exists i :: 0 <= i < |events| && events[i].Register? && events[i].c == c
    {
      if c in before.links {
        var i :| 0 <= i < n && events[..n][i].Register? && events[..n][i].c == c;
        assert events[i].c == c;
      } else {
        assert events[n].c == c;
      }
    }
    forall m | m in t.conns ensures exists i :: 0 <= i < |events| && events[i] == Register(m, t.conns[m])
    {
      if e == Register(m, t.conns[m]) {
        assert events[n] == Register(m, t.conns[m]);
      } else {
        var i :| 0 <= i < n && events[..n][i] == Register(m, before.conns[m]);
        assert events[i] == Register(m, t.conns[m]);
      }
    }
  }

  lemma NewRecorded(events: seq<Event>)
    requires events != [] && events[|events| - 1].Register?
    ensures Recorded(events, |events| - 1)
  {
  }

  /** One more event keeps the record of an earlier connection. */
  lemma StepRecords(events: seq<Event>, i: int)
    requires WellFormed(events) && 0 <= i < |events| - 1 && events[i].Register?
    requires Grounded(events[..|events| - 1]) && Recorded(events[..|events| - 1], i)
    ensures Recorded(events, i)
  {
    var n := |events| - 1;
    var e, last := events[i], events[n];
    assert events[..n][i] == e;
    assert LatestAt(events, i, e.machine, e.c) <==>
           LatestAt(events[..n], i, e.machine, e.c) && last != Unregister(e.c) && !(last.Register? && last.machine == e.machine);
    assert last.Register? ==> last.c != e.c by { if last.Register? && last.c == e.c { RegisteredOnce(events, i, n); } }
    OneMachineEach(events[..n], i, events);
    hide WellFormed, LatestAt, Grounded;
    if last.Register? { RegisterRecords(events, i, After(events[..n])); } else { UnregisterRecords(events, i); }
  }

  /** A connection is in the table under no machine but its own. */
  lemma OneMachineEach(before: seq<Event>, i: int, events: seq<Event>)
    requires WellFormed(events) && before <= events && 0 <= i < |before| && before[i].Register? && Grounded(before)
    ensures forall m :: m in After(before).conns && After(before).conns[m] == before[i].c ==> m == before[i].machine
  {
    hide After;
    forall m | m in After(before).conns && After(before).conns[m] == before[i].c ensures m == before[i].machine
    {
      var j :| 0 <= j < |before| && before[j] == Register(m, before[i].c);
      assert events[j] == before[j] && events[i] == before[i];
      RegisteredOnce(events, i, j);
    }
  }

  lemma RegisterRecords(events: seq<Event>, i: int, t: Table)
    requires 0 <= i < |events| - 1 && events[i].Register? && events[|events| - 1].Register?
    requires events[|events| - 1].c != events[i].c && Recorded(events[..|events| - 1], i)
    requires t == After(events[..|events| - 1])
    requires forall m :: m in t.conns && t.conns[m] == events[i].c ==> m == events[i].machine
    requires LatestAt(events, i, events[i].machine, events[i].c) <==>
             LatestAt(events[..|events| - 1], i, events[i].machine, events[i].c) && events[|events| - 1].machine != events[i].machine
    ensures Recorded(events, i)
  {
    hide LatestAt;
    assert events[..|events| - 1][i] == events[i];
  }

  lemma UnregisterRecords(events: seq<Event>, i: int)
    requires 0 <= i < |events| - 1 && events[i].Register? && events[|events| - 1].Unregister?
    requires Recorded(events[..|events| - 1], i)
    requires LatestAt(events, i, events[i].machine, events[i].c) <==>
             LatestAt(events[..|events| - 1], i, events[i].machine, events[i].c) && events[|events| - 1].c != events[i].c
    ensures Recorded(events, i)
  {
    hide LatestAt;
    assert events[..|events| - 1][i] == events[i];
  }

  /**
    Whatever the order in which connections come and go, a machine is reached by the connection it
    registered last, for as long as that one has not ended; a late end of a replaced one changes nothing.
   */
  lemma {:induction false} OnlineIsLatest(events: seq<Event>, machine: string, c: nat)
    requires WellFormed(events)
    ensures machine in After(events).conns && After(events).conns[machine] == c <==>
            exists i :: 0 <= i < |events| && LatestAt(events, i, machine, c)
  {
    HistoryIsRecorded(events);
    var t := After(events);
    if machine in t.conns && t.conns[machine] == c {
      var i :| 0 <= i < |events| && events[i] == Register(machine, c);
      assert Recorded(events, i);
    }
    if i :| 0 <= i < |events| && LatestAt(events, i, machine, c) {
      assert Recorded(events, i);
    }
  }

  /** Ending a connection closes its channel a second time exactly when the machine has reconnected in the meantime. */
  lemma {:induction false} PanicsIfReplaced(events: seq<Event>, i: int, c: nat)
    requires WellFormed(events + [Unregister(c)])
    requires 0 <= i < |events| && events[i].Register? && events[i].c == c
    ensures ClosesTwice(After(events), c) <==> ReplacedAfter(events, i, events[i].machine)
  {
    var all := events + [Unregister(c)];
    PrefixWellFormed(all, |events|);
    assert all[..|events|] == events;
    HistoryIsRecorded(events);
    assert Recorded(events, i);
    forall j | i < j < |events| ensures events[j] != Unregister(c)
    {
      assert all[j] == events[j] && all[|events|] == Unregister(c);
    }
  }

  /** Two registrations of one machine are enough: when the first connection then ends, its channel is closed again. */
  lemma ReconnectingPanics(machine: string)
    ensures var events := [Register(machine, 1), Register(machine, 2)];
            WellFormed(events + [Unregister(1)]) && ClosesTwice(After(events), 1)
  {
    var events := [Register(machine, 1), Register(machine, 2)];
    var all := events + [Unregister(1)];
    assert all == [Register(machine, 1), Register(machine, 2), Unregister(1)];
    assert all[0].Register? && all[0].c == all[2].c;
    assert ReplacedAfter(events, 0, machine) by { assert events[1].Register?; }
    PanicsIfReplaced(events, 0, 1);
  }
}

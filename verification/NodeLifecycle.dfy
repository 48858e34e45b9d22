/**
  The manager's tasks and the node status machine they drive: handlers that set a pending status and
  dispatch, results that may be late, repeated or overlapping, and the timeout sweep
  (internal/manager/tasks, internal/manager/nodes, internal/manager/api/handlers_nodes.go).
 */
module NodeLifecycle {
  import opened Names

  datatype NodeStatus = Provisioning | Active | UpdatePending | DeletePending | CreateFailed | ConfigError | Disabled

  datatype Node = Node(status: NodeStatus, localId: int)

  datatype Kind = CreateNode | UpdateNode | DeleteNode | EnableNode | DisableNode | OtherTask

  datatype TaskStatus = Pending | Sent | Running | Success | Failed | Timeout

  datatype Task = Task(
    node: string, kind: Kind, status: TaskStatus, result: string, createdAt: int, sentAt: int, doneAt: int, attempts: nat)

  /** The tables nodes and tasks. */
  datatype Db = Db(nodes: map<string, Node>, tasks: map<string, Task>)

  predicate Live(t: Task) { t.status.Pending? || t.status.Sent? || t.status.Running? }

  predicate LiveIn(db: Db, id: string) { id in db.tasks && Live(db.tasks[id]) }

  /** The status a node waits in for a task of this kind. */
  function PendingOf(kind: Kind): Option<NodeStatus>
  {
    match kind
    case CreateNode => Some(Provisioning)
    case DeleteNode => Some(DeletePending)
    case OtherTask => None
    case _ => Some(UpdatePending)
  }

  predicate Waiting(s: NodeStatus) { s.Provisioning? || s.UpdatePending? || s.DeletePending? }

  // ----- single statements on the tables -----

  function Inserted(db: Db, id: string, node: string, kind: Kind, now: int): Db
  {
    db.(tasks := db.tasks[id := Task(node, kind, Pending, "", now, 0, 0, 0)])
  }

  function Marked(db: Db, id: string, now: int): Db
  {
    if id !in db.tasks || !db.tasks[id].status.Pending? then db
    else
      var t := db.tasks[id];
      db.(tasks := db.tasks[id := t.(status := Sent, sentAt := now, attempts := t.attempts + 1)])
  }

  function Completed(db: Db, id: string, status: TaskStatus, result: string, now: int): Db
  {
    if !LiveIn(db, id) then db else db.(tasks := db.tasks[id := db.tasks[id].(status := status, result := result, doneAt := now)])
  }

  predicate Stands(db: Db, node: string, status: NodeStatus) { node in db.nodes && db.nodes[node].status == status }

  function Shifted(db: Db, node: string, from: NodeStatus, to: NodeStatus): Db
  {
    if Stands(db, node, from) then db.(nodes := db.nodes[node := db.nodes[node].(status := to)]) else db
  }

  function Desired(db: Db, node: string): Db
  {
    if node in db.nodes then db.(nodes := db.nodes[node := db.nodes[node].(status := UpdatePending)]) else db
  }

  function Located(db: Db, node: string, localId: int): Db
  {
    if node in db.nodes then db.(nodes := db.nodes[node := Node(Active, localId)]) else db
  }

  function Removed(db: Db, node: string): Db { db.(nodes := db.nodes - {node}) }

  // ----- the callback -----

  /** The first word of s. */
  function Word(s: string): string { if s == "" || IsSpace(s[0]) then "" else [s[0]] + Word(s[1..]) }

  const ID_PREFIX := "node_id="

  /** The number of the first word node_id=N of the message that parses, 0 if there is none. */
  function ParseLocalID(message: string): int
    decreases |message|
  {
    if message == "" then 0
    else if IsSpace(message[0]) then ParseLocalID(message[1..])
    else
      var word := Word(message);
      WordLength(message);
      var value := if |word| >= |ID_PREFIX| && word[..|ID_PREFIX|] == ID_PREFIX then ParseInt(word[|ID_PREFIX|..]) else None;
      if value.Some? then value.value else ParseLocalID(message[|word|..])
  }

  lemma {:induction false} WordLength(s: string)
    ensures |Word(s)| <= |s| && Word(s) == s[..|Word(s)|]
    ensures s != "" && !IsSpace(s[0]) ==> |Word(s)| > 0
  {
    if s != "" && !IsSpace(s[0]) { WordLength(s[1..]); }
  }

  /** What the completion of a task does to its node. */
  function CallBack(db: Db, node: string, kind: Kind, outcome: TaskStatus, message: string): Db
  {
    if node == "" then db
    else match kind
      case CreateNode =>
        if outcome.Success? then
          if ParseLocalID(message) > 0 then Located(db, node, ParseLocalID(message)) else Shifted(db, node, Provisioning, Active)
        else Shifted(db, node, Provisioning, CreateFailed)
      case UpdateNode => Shifted(db, node, UpdatePending, if outcome.Success? then Active else ConfigError)
      case DeleteNode => if outcome.Success? then Removed(db, node) else Shifted(db, node, DeletePending, ConfigError)
      case EnableNode => Shifted(db, node, UpdatePending, if outcome.Success? then Active else ConfigError)
      case DisableNode => Shifted(db, node, UpdatePending, if outcome.Success? then Disabled else ConfigError)
      case OtherTask => db
  }

  /** The handler's repair after a dispatch that could not create its task; only two handlers have one. */
  function Repaired(db: Db, node: string, kind: Kind): Db
  {
    match kind
    case CreateNode => Shifted(db, node, Provisioning, CreateFailed)
    case UpdateNode => Shifted(db, node, UpdatePending, ConfigError)
    case _ => db
  }

  predicate Repairs(kind: Kind) { kind.CreateNode? || kind.UpdateNode? }

  // ----- the sweep -----

  predicate Expired(t: Task, now: int, timeout: int)
  {
    ((t.status.Sent? || t.status.Running?) && t.sentAt < now - timeout) || (t.status.Pending? && t.createdAt < now - 2 * timeout)
  }

  function ExpiredIds(db: Db, now: int, timeout: int): set<string>
  {
    set id | id in db.tasks && Expired(db.tasks[id], now, timeout)
  }

  function TimedOut(db: Db, id: string, now: int): Db
  {
    if !LiveIn(db, id) then db else db.(tasks := db.tasks[id := db.tasks[id].(status := Timeout, doneAt := now)])
  }

  function SweepOne(db: Db, id: string, now: int): Db
  {
    if !LiveIn(db, id) then db else CallBack(TimedOut(db, id, now), db.tasks[id].node, db.tasks[id].kind, Timeout, "")
  }

  function SweepAll(db: Db, ids: seq<string>, now: int): Db
    decreases |ids|
  {
    if ids == [] then db else SweepAll(SweepOne(db, ids[0], now), ids[1..], now)
  }

  predicate Lists(ids: seq<string>, of: set<string>)
  {
    (set id | id in ids) == of && forall i, j :: 0 <= i < j < |ids| ==> ids[i] != ids[j]
  }

  // ----- the imperative manager -----

  class Manager {
    var nodes: map<string, Node>
    var tasks: map<string, Task>

    constructor ()
      ensures Stored() == Db(map[], map[])
    {
      nodes, tasks := map[], map[];
    }

    function Stored(): Db
      reads this
    {
      Db(nodes, tasks)
    }

    method MarkSent(id: string, now: int)
      modifies this
      ensures Stored() == Marked(old(Stored()), id, now)
    {
      if id in tasks && tasks[id].status.Pending? {
        tasks := tasks[id := tasks[id].(status := Sent, sentAt := now, attempts := tasks[id].attempts + 1)];
      }
    }

    method Complete(id: string, status: TaskStatus, result: string, now: int)
      modifies this
      ensures Stored() == Completed(old(Stored()), id, status, result, now)
    {
      if id in tasks && Live(tasks[id]) {
        tasks := tasks[id := tasks[id].(status := status, result := result, doneAt := now)];
      }
    }

    method UpdateStatus(node: string, from: NodeStatus, to: NodeStatus) returns (ok: bool)
      modifies this
      ensures Stored() == Shifted(old(Stored()), node, from, to)
      ensures ok <==> Stands(old(Stored()), node, from)
    {
      ok := node in nodes && nodes[node].status == from;
      if ok { nodes := nodes[node := nodes[node].(status := to)]; }
    }

    /** Creates the task and, if the machine takes the message, marks it sent. */
    method Dispatch(id: string, node: string, kind: Kind, created: bool, online: bool, now: int) returns (ok: bool)
      modifies this
      ensures ok == created
      ensures Stored() == Dispatched(old(Stored()), id, node, kind, created, online, now)
    {
      if !created { return false; }
      tasks := tasks[id := Task(node, kind, Pending, "", now, 0, 0, 0)];
      if online { MarkSent(id, now); }
      return true;
    }

    method HandleCreateNode(node: string, id: string, created: bool, online: bool, now: int)
      requires node !in nodes
      modifies this
      ensures Stored() == Repairing(Dispatched(Placed(old(Stored()), node), id, node, CreateNode, created, online, now),
                                    node, CreateNode, created)
    {
      nodes := nodes[node := Node(Provisioning, 0)];
      var ok := Dispatch(id, node, CreateNode, created, online, now);
      if !ok { var _ := UpdateStatus(node, Provisioning, CreateFailed); }
    }

    method HandleUpdateNode(node: string, id: string, created: bool, online: bool, now: int) returns (found: bool)
      modifies this
      ensures found <==> node in old(nodes)
      ensures Stored() == if !found then old(Stored())
                          else Repairing(Dispatched(Desired(old(Stored()), node), id, node, UpdateNode, created, online, now),
                                         node, UpdateNode, created)
    {
      if node !in nodes { return false; }
      nodes := nodes[node := nodes[node].(status := UpdatePending)];
      var ok := Dispatch(id, node, UpdateNode, created, online, now);
      if !ok { var _ := UpdateStatus(node, UpdatePending, ConfigError); }
      return true;
    }

    method HandleDeleteNode(node: string, id: string, created: bool, online: bool, now: int) returns (found: bool)
      modifies this
      ensures found <==> node in old(nodes)
      ensures Stored() == if !found then old(Stored())
                          else Dispatched(Shifted(old(Stored()), node, old(nodes)[node].status, DeletePending),
                                          id, node, DeleteNode, created, online, now)
    {
      if node !in nodes { return false; }
      var ok := UpdateStatus(node, nodes[node].status, DeletePending);
      var _ := Dispatch(id, node, DeleteNode, created, online, now);
      return true;
    }

    /** Enable and disable; a restart of sing-box changes no status. */
    method NodeAction(node: string, kind: Kind, id: string, created: bool, online: bool, now: int) returns (found: bool)
      requires kind.EnableNode? || kind.DisableNode? || kind.OtherTask?
      modifies this
      ensures found <==> node in old(nodes)
      ensures Stored() == if !found then old(Stored())
                          else if kind.OtherTask? then Dispatched(old(Stored()), id, node, kind, created, online, now)
                          else Dispatched(Shifted(old(Stored()), node, old(nodes)[node].status, UpdatePending),
                                          id, node, kind, created, online, now)
    {
      if node !in nodes { return false; }
      if !kind.OtherTask? { var _ := UpdateStatus(node, nodes[node].status, UpdatePending); }
      var _ := Dispatch(id, node, kind, created, online, now);
      return true;
    }

    method HandleNodeTaskResult(node: string, kind: Kind, outcome: TaskStatus, message: string)
      modifies this
      ensures Stored() == CallBack(old(Stored()), node, kind, outcome, message)
    {
      if node == "" { return; }
      var ok: bool;
      match kind {
        case CreateNode =>
          if outcome.Success? {
            var localId := ParseLocalID(message);
            if localId > 0 {
              if node in nodes { nodes := nodes[node := Node(Active, localId)]; }
            } else {
              ok := UpdateStatus(node, Provisioning, Active);
            }
          } else {
            ok := UpdateStatus(node, Provisioning, CreateFailed);
          }
        case UpdateNode => ok := UpdateStatus(node, UpdatePending, if outcome.Success? then Active else ConfigError);
        case DeleteNode =>
          if outcome.Success? {
            nodes := nodes - {node};
          } else {
            ok := UpdateStatus(node, DeletePending, ConfigError);
          }
        case EnableNode => ok := UpdateStatus(node, UpdatePending, if outcome.Success? then Active else ConfigError);
        case DisableNode => ok := UpdateStatus(node, UpdatePending, if outcome.Success? then Disabled else ConfigError);
        case OtherTask =>
      }
    }

    method HandleTaskResult(id: string, success: bool, message: string, now: int)
      modifies this
      ensures Stored() == Reported(old(Stored()), id, success, message, now)
    {
      if id == "" { return; }
      Complete(id, if success then Success else Failed, message, now);
      if id in tasks {
        HandleNodeTaskResult(tasks[id].node, tasks[id].kind, if success then Success else Failed, message);
      }
    }

    method SweepTimeout(now: int, timeout: int) returns (ids: seq<string>)
      modifies this
      ensures Lists(ids, ExpiredIds(old(Stored()), now, timeout))
      ensures Stored() == SweepAll(old(Stored()), ids, now)
    {
      ids := SelectExpired(now, timeout);
      var i := 0;
      while i < |ids|
        invariant 0 <= i <= |ids|
        invariant SweepAll(Stored(), ids[i..], now) == SweepAll(old(Stored()), ids, now)
      {
        var id := ids[i];
        assert ids[i..][1..] == ids[i + 1..];
        if id in tasks && Live(tasks[id]) {
          var task := tasks[id];
          tasks := tasks[id := task.(status := Timeout, doneAt := now)];
          HandleNodeTaskResult(task.node, task.kind, Timeout, "");
        }
        i := i + 1;
      }
    }

    method SelectExpired(now: int, timeout: int) returns (ids: seq<string>)
      ensures Lists(ids, ExpiredIds(Stored(), now, timeout))
    {
      ids := [];
      var rest := ExpiredIds(Stored(), now, timeout);
      while rest != {}
        invariant rest <= ExpiredIds(Stored(), now, timeout)
        invariant Lists(ids, ExpiredIds(Stored(), now, timeout) - rest)
      {
        var id :| id in rest;
        assert id !in (set x | x in ids);
        assert (set x | x in ids + [id]) == (set x | x in ids) + {id};
        ids, rest := ids + [id], rest - {id};
      }
    }
  }

  function Placed(db: Db, node: string): Db { db.(nodes := db.nodes[node := Node(Provisioning, 0)]) }

  function Dispatched(db: Db, id: string, node: string, kind: Kind, created: bool, online: bool, now: int): Db
  {
    if !created then db
    else if online then Marked(Inserted(db, id, node, kind, now), id, now)
    else Inserted(db, id, node, kind, now)
  }

  function Repairing(db: Db, node: string, kind: Kind, created: bool): Db
  {
    if created then db else Repaired(db, node, kind)
  }

  function Reported(db: Db, id: string, success: bool, message: string, now: int): Db
  {
    if id == "" then db
    else
      var outcome := if success then Success else Failed;
      var after := Completed(db, id, outcome, message, now);
      if id in after.tasks then CallBack(after, after.tasks[id].node, after.tasks[id].kind, outcome, message) else after
  }

  // ----- the message a finished creation carries -----

  lemma {:induction false} WordOf(s: string, rest: string)
    requires forall c :: c in s ==> !IsSpace(c)
    requires rest == "" || IsSpace(rest[0])
    ensures Word(s + rest) == s
  {
    if s == "" {
      assert s + rest == rest;
    } else {
      assert (s + rest)[1..] == s[1..] + rest;
      WordOf(s[1..], rest);
    }
  }

  /** The agent's "node_id=N" gives back N, whatever words follow. */
  lemma LocalIdRoundTrip(n: nat, rest: string)
    requires 0 < n <= MAX_INT64
    requires rest == "" || IsSpace(rest[0])
    ensures ParseLocalID("node_id=" + Itoa(n) + rest) == n
  {
    var word := ID_PREFIX + Itoa(n);
    assert forall i :: 0 <= i < |Itoa(n)| ==> IsDigit(Itoa(n)[i]);
    assert forall c :: c in ID_PREFIX ==> !IsSpace(c);
    WordOf(word, rest);
    assert word[|ID_PREFIX|..] == Itoa(n) && word[..|ID_PREFIX|] == ID_PREFIX;
    AtoiItoa(n);
    assert IsDigit(Itoa(n)[0]);
    assert ParseInt(Itoa(n)) == Some(n);
    assert !IsSpace((word + rest)[0]) by { assert (word + rest)[0] == ID_PREFIX[0]; }
  }

  // ----- every interleaving of handlers, results and sweeps -----

  /** Work begun and not finished: a handler about to dispatch or to repair, or a completion about to be reported. */
  datatype Job =
    | Dispatching(node: string, kind: Kind)
    | Repair(node: string, kind: Kind)
    | Calling(node: string, kind: Kind, outcome: TaskStatus, message: string)

  datatype World = World(db: Db, jobs: map<nat, Job>)

  datatype Step =
    | BeginCreate(j: nat, node: string)
    | BeginUpdate(j: nat, node: string)
    | BeginDelete(j: nat, node: string, seen: NodeStatus)
    | BeginAction(j: nat, node: string, kind: Kind, seen: NodeStatus)
    | Insert(j: nat, id: string, now: int)
    | InsertFails(j: nat)
    | DoRepair(j: nat)
    | Mark(id: string, now: int)
    | Result(j: nat, id: string, success: bool, message: string, now: int)
    | Sweep(j: nat, id: string, now: int)
    | Report(j: nat)

  ghost predicate Enabled(w: World, s: Step)
  {
    match s
    case BeginCreate(j, node) => j !in w.jobs && node !in w.db.nodes && node != ""
    case BeginUpdate(j, _) => j !in w.jobs
    case BeginDelete(j, _, _) => j !in w.jobs
    case BeginAction(j, _, kind, _) => j !in w.jobs && (kind.EnableNode? || kind.DisableNode? || kind.OtherTask?)
    case Insert(j, id, _) => j in w.jobs && w.jobs[j].Dispatching? && id !in w.db.tasks
    case InsertFails(j) => j in w.jobs && w.jobs[j].Dispatching?
    case DoRepair(j) => j in w.jobs && w.jobs[j].Repair?
    case Mark(_, _) => true
    case Result(j, _, _, _, _) => j !in w.jobs
    case Sweep(j, _, _) => j !in w.jobs
    case Report(j) => j in w.jobs && w.jobs[j].Calling?
  }

  /** One step; delete, enable and disable move a node on only if it still has the status the handler saw. */
  function Next(w: World, s: Step): World
    requires Enabled(w, s)
  {
    match s
    case BeginCreate(j, node) => World(Placed(w.db, node), w.jobs[j := Dispatching(node, CreateNode)])
    case BeginUpdate(j, node) => World(Desired(w.db, node), w.jobs[j := Dispatching(node, UpdateNode)])
    case BeginDelete(j, node, seen) =>
      if !Stands(w.db, node, seen) then w
      else World(Shifted(w.db, node, seen, DeletePending), w.jobs[j := Dispatching(node, DeleteNode)])
    case BeginAction(j, node, kind, seen) =>
      World(if kind.OtherTask? then w.db else Shifted(w.db, node, seen, UpdatePending), w.jobs[j := Dispatching(node, kind)])
    case Insert(j, id, now) => World(Inserted(w.db, id, w.jobs[j].node, w.jobs[j].kind, now), w.jobs - {j})
    case InsertFails(j) =>
      w.(jobs := if Repairs(w.jobs[j].kind) then w.jobs[j := Repair(w.jobs[j].node, w.jobs[j].kind)] else w.jobs - {j})
    case DoRepair(j) => World(Repaired(w.db, w.jobs[j].node, w.jobs[j].kind), w.jobs - {j})
    case Mark(id, now) => w.(db := Marked(w.db, id, now))
    case Result(j, id, success, message, now) =>
      var outcome := if success then Success else Failed;
      if id == "" || id !in w.db.tasks then w
      else World(Completed(w.db, id, outcome, message, now),
                 w.jobs[j := Calling(w.db.tasks[id].node, w.db.tasks[id].kind, outcome, message)])
    case Sweep(j, id, now) =>
      if !LiveIn(w.db, id) then w
      else World(TimedOut(w.db, id, now), w.jobs[j := Calling(w.db.tasks[id].node, w.db.tasks[id].kind, Timeout, "")])
    case Report(j) => World(CallBack(w.db, w.jobs[j].node, w.jobs[j].kind, w.jobs[j].outcome, w.jobs[j].message), w.jobs - {j})
  }

  // ----- what covers a waiting node -----

  ghost predicate TaskCovers(db: Db, id: string, node: string)
    requires node in db.nodes
  {
    LiveIn(db, id) && db.tasks[id].node == node && PendingOf(db.tasks[id].kind) == Some(db.nodes[node].status)
  }

  /** A completion whose report moves its node on whatever the node's status. */
  predicate Overrides(job: Job)
  {
    job.Calling? && job.outcome.Success? && (job.kind.DeleteNode? || (job.kind.CreateNode? && ParseLocalID(job.message) > 0))
  }

  /** The job is of the kind the node waits for; in the wide sense, one whose report overrides will do as well. */
  ghost predicate JobCovers(w: World, j: nat, node: string, wide: bool)
    requires node in w.db.nodes
  {
    && j in w.jobs && w.jobs[j].node == node
    && (PendingOf(w.jobs[j].kind) == Some(w.db.nodes[node].status) || (wide && Overrides(w.jobs[j])))
  }

  ghost predicate Covered(w: World, node: string, wide: bool)
    requires node in w.db.nodes
  {
    (exists id :: TaskCovers(w.db, id, node)) || (exists j :: JobCovers(w, j, node, wide))
  }

  /** Nodes have names, and only handlers that repair have repairs to do. */
  ghost predicate Regular(w: World)
  {
    "" !in w.db.nodes && forall j :: j in w.jobs && w.jobs[j].Repair? ==> Repairs(w.jobs[j].kind)
  }

  ghost predicate AllCovered(w: World, wide: bool)
  {
    && Regular(w)
    && forall n :: n in w.db.nodes && Waiting(w.db.nodes[n].status) ==> Covered(w, n, wide)
  }

  /** Every node in a pending status has a live task of a matching type, or one about to be created or reported. */
  ghost predicate Inv(w: World) { AllCovered(w, false) }

  /** The guard of the one step that can strand a node: a failed task insertion in a handler that repairs nothing. */
  ghost predicate Orderly(w: World, s: Step)
    requires Enabled(w, s)
  {
    s.InsertFails? ==> var job := w.jobs[s.j];
      PendingOf(job.kind).Some? && !Repairs(job.kind) ==> !Stands(w.db, job.node, PendingOf(job.kind).value)
  }

  /** Handlers cover the node they put in a pending status, and uncover no other. */
  lemma BeginKeepsCovered(w: World, s: Step, wide: bool)
    requires AllCovered(w, wide) && Enabled(w, s)
    requires (s.BeginCreate? || s.BeginUpdate? || s.BeginDelete? || s.BeginAction?)
    ensures AllCovered(Next(w, s), wide)
  {
    hide Overrides;
    var after := Next(w, s);
    forall n | n in after.db.nodes && Waiting(after.db.nodes[n].status) ensures Covered(after, n, wide)
    {
      if n in w.db.nodes && w.db.nodes[n].status == after.db.nodes[n].status && Covered(w, n, wide) {
        if id :| TaskCovers(w.db, id, n) {
          assert TaskCovers(after.db, id, n);
        } else {
          var j :| JobCovers(w, j, n, wide);
          assert JobCovers(after, j, n, wide);
        }
      } else {
        assert JobCovers(after, s.j, n, wide);
      }
    }
  }

  /** A job that becomes a task, and a task that becomes a job, go on covering the node. */
  lemma HandOverKeepsCovered(w: World, s: Step, wide: bool)
    requires AllCovered(w, wide) && Enabled(w, s) && (s.Insert? || s.Mark? || s.Result? || s.Sweep?)
    ensures AllCovered(Next(w, s), wide)
  {
    hide ParseLocalID;
    var after := Next(w, s);
    assert after.db.nodes == w.db.nodes;
    forall n | n in after.db.nodes && Waiting(after.db.nodes[n].status) ensures Covered(after, n, wide)
    {
      if id :| TaskCovers(w.db, id, n) {
        if LiveIn(after.db, id) {
          assert TaskCovers(after.db, id, n);
        } else {
          assert JobCovers(after, s.j, n, wide);
        }
      } else {
        var j :| JobCovers(w, j, n, wide);
        if j in after.jobs {
          assert JobCovers(after, j, n, wide);
        } else {
          assert TaskCovers(after.db, s.id, n);
        }
      }
    }
  }

  /** Finishing a job takes its node out of the status it covered, or leaves another cover in place. */
  lemma FinishKeepsCovered(w: World, s: Step, wide: bool)
    requires AllCovered(w, wide) && Enabled(w, s) && Orderly(w, s) && (s.InsertFails? || s.DoRepair? || s.Report?)
    ensures AllCovered(Next(w, s), wide)
  {
    hide ParseLocalID;
    var after := Next(w, s);
    assert after.db.tasks == w.db.tasks;
    forall n | n in after.db.nodes && Waiting(after.db.nodes[n].status) ensures Covered(after, n, wide)
    {
      assert n in w.db.nodes && w.db.nodes[n].status == after.db.nodes[n].status;
      if id :| TaskCovers(w.db, id, n) {
        assert TaskCovers(after.db, id, n);
      } else {
        var j :| JobCovers(w, j, n, wide);
        assert JobCovers(after, j, n, wide);
      }
    }
  }

  lemma StepKeepsCovered(w: World, s: Step, wide: bool)
    requires AllCovered(w, wide) && Enabled(w, s) && Orderly(w, s)
    ensures AllCovered(Next(w, s), wide)
  {
    match s {
      case BeginCreate(_, _) => BeginKeepsCovered(w, s, wide);
      case BeginUpdate(_, _) => BeginKeepsCovered(w, s, wide);
      case BeginDelete(_, _, _) => BeginKeepsCovered(w, s, wide);
      case BeginAction(_, _, _, _) => BeginKeepsCovered(w, s, wide);
      case InsertFails(_) => FinishKeepsCovered(w, s, wide);
      case DoRepair(_) => FinishKeepsCovered(w, s, wide);
      case Report(_) => FinishKeepsCovered(w, s, wide);
      case _ => HandOverKeepsCovered(w, s, wide);
    }
  }

  /** Every step of an orderly run keeps every waiting node covered. */
  lemma StepKeepsInv(w: World, s: Step)
    requires Inv(w) && Enabled(w, s) && Orderly(w, s)
    ensures Inv(Next(w, s))
  {
    StepKeepsCovered(w, s, false);
  }

  ghost predicate Possible(w: World, steps: seq<Step>)
    decreases |steps|
  {
    steps == [] || (Enabled(w, steps[0]) && Possible(Next(w, steps[0]), steps[1..]))
  }

  ghost predicate OrderlyRun(w: World, steps: seq<Step>)
    requires Possible(w, steps)
    decreases |steps|
  {
    steps == [] || (Orderly(w, steps[0]) && OrderlyRun(Next(w, steps[0]), steps[1..]))
  }

  ghost function Run(w: World, steps: seq<Step>): World
    requires Possible(w, steps)
    decreases |steps|
  {
    if steps == [] then w else Run(Next(w, steps[0]), steps[1..])
  }

  lemma {:induction false} RunKeepsCovered(w: World, steps: seq<Step>, wide: bool)
    requires AllCovered(w, wide) && Possible(w, steps) && OrderlyRun(w, steps)
    ensures AllCovered(Run(w, steps), wide)
    decreases |steps|
  {
    hide AllCovered, Enabled, Next, Orderly;
    if steps != [] {
      StepKeepsCovered(w, steps[0], wide);
      RunKeepsCovered(Next(w, steps[0]), steps[1..], wide);
    }
  }

  /** No node waits for anything. */
  ghost predicate Settled(db: Db) { forall n :: n in db.nodes ==> !Waiting(db.nodes[n].status) }

  /** All tasks and all jobs have ended. */
  ghost predicate Ended(w: World) { w.jobs == map[] && forall id :: !LiveIn(w.db, id) }

  lemma RestIsSettled(w: World, wide: bool)
    requires AllCovered(w, wide) && Ended(w)
    ensures Settled(w.db)
  {
  }

  // ----- tasks only ever move forward -----

  function Rank(t: Task): nat
  {
    match t.status
    case Pending => 0
    case Sent => 1
    case Running => 2
    case _ => 3
  }

  /** A task keeps its node and kind, never moves back, and never changes again once it is finished. */
  lemma TasksMoveForward(w: World, s: Step, id: string)
    requires Enabled(w, s) && id in w.db.tasks
    ensures id in Next(w, s).db.tasks
    ensures var t, t' := w.db.tasks[id], Next(w, s).db.tasks[id];
      t'.node == t.node && t'.kind == t.kind && Rank(t) <= Rank(t') && (!Live(t) ==> t' == t)
  {
    hide ParseLocalID;
  }

  ghost predicate Ends(s: Step, id: string) { (s.Sweep? && s.id == id) || (s.Result? && s.id == id && id != "") }

  /** Without insertions, a task that is swept or reported on somewhere in the run is not live at its end. */
  lemma {:induction false} EndedStaysEnded(w: World, steps: seq<Step>, id: string)
    requires Possible(w, steps) && forall s :: s in steps ==> !s.Insert?
    requires LiveIn(w.db, id) ==> exists s :: s in steps && Ends(s, id)
    ensures !LiveIn(Run(w, steps).db, id)
    decreases |steps|
  {
    if steps != [] {
      var s, after := steps[0], Next(w, steps[0]);
      if id in w.db.tasks { TasksMoveForward(w, s, id); }
      assert !LiveIn(after.db, id) || (LiveIn(w.db, id) && !Ends(s, id)) by { hide ParseLocalID; }
      assert forall t :: t in steps <==> t == s || t in steps[1..];
      EndedStaysEnded(after, steps[1..], id);
    }
  }

  /**
    Convergence under interleaving: once every live task is swept or reported on, however sweeps, late and
    repeated results and their callbacks overlap, and the work in flight is done, no node is left waiting.
   */
  lemma NodesConverge(w: World, steps: seq<Step>)
    requires Inv(w) && Possible(w, steps) && OrderlyRun(w, steps)
    requires forall s :: s in steps ==> !s.Insert?
    requires forall id :: LiveIn(w.db, id) ==> exists s :: s in steps && Ends(s, id)
    requires Run(w, steps).jobs == map[]
    ensures Settled(Run(w, steps).db)
  {
    hide AllCovered, Settled, Possible, OrderlyRun, Run, LiveIn;
    RunKeepsCovered(w, steps, false);
    forall id ensures !LiveIn(Run(w, steps).db, id) { EndedStaysEnded(w, steps, id); }
    RestIsSettled(Run(w, steps), false);
  }

  // ----- the sweep as one piece -----

  ghost predicate Waits(db: Db, n: string) { n in db.nodes && Waiting(db.nodes[n].status) }

  ghost predicate Rescues(db: Db, id: string, n: string) { n in db.nodes && TaskCovers(db, id, n) && n != "" }

  /** Sweeping one live task settles exactly the node that waits for it. */
  lemma SweepOneSettles(db: Db, id: string, now: int, n: string)
    requires LiveIn(db, id)
    ensures Waits(SweepOne(db, id, now), n) <==> Waits(db, n) && !Rescues(db, id, n)
    ensures Waits(SweepOne(db, id, now), n) ==> SweepOne(db, id, now).nodes[n].status == db.nodes[n].status
    ensures forall other :: other != id ==> LiveIn(SweepOne(db, id, now), other) == LiveIn(db, other)
    ensures forall other :: other != id && other in db.tasks ==>
              other in SweepOne(db, id, now).tasks && SweepOne(db, id, now).tasks[other] == db.tasks[other]
    ensures !LiveIn(SweepOne(db, id, now), id)
  {
    hide ParseLocalID;
  }

  /** A sweep, in whatever order it visits its tasks, leaves waiting exactly the nodes none of those tasks covered. */
  lemma {:induction false} SweepSettlesExactly(db: Db, ids: seq<string>, now: int, n: string)
    requires forall id :: id in ids ==> LiveIn(db, id)
    requires forall i, j :: 0 <= i < j < |ids| ==> ids[i] != ids[j]
    ensures Waits(SweepAll(db, ids, now), n) <==> Waits(db, n) && forall id :: id in ids ==> !Rescues(db, id, n)
    decreases |ids|
  {
    hide SweepOne;
    if ids != [] {
      var id, rest, after := ids[0], ids[1..], SweepOne(db, ids[0], now);
      SweepOneSettles(db, id, now, n);
      forall other | other in rest
        ensures LiveIn(after, other)
        ensures Waits(after, n) ==> Rescues(after, other, n) == Rescues(db, other, n)
      {
        assert other != id && other in ids;
        SweepOneSettles(db, id, now, n);
      }
      SweepSettlesExactly(after, rest, now, n);
      assert forall x :: x in ids <==> x == id || x in rest;
    }
  }

  /**
    At time now, after any orderly history whose work is done, if no live task was created or sent within
    the last two timeouts, one sweep leaves no node in a pending status.
   */
  lemma SweepConverges(steps: seq<Step>, now: int, timeout: nat, ids: seq<string>)
    requires var start := World(Db(map[], map[]), map[]);
      && Possible(start, steps) && OrderlyRun(start, steps) && var db := Run(start, steps).db;
      && Run(start, steps).jobs == map[] && Lists(ids, ExpiredIds(db, now, timeout))
      && forall id :: LiveIn(db, id) ==>
          db.tasks[id].createdAt < now - 2 * timeout && db.tasks[id].sentAt < now - 2 * timeout
    ensures Settled(SweepAll(Run(World(Db(map[], map[]), map[]), steps).db, ids, now))
  {
    var start := World(Db(map[], map[]), map[]);
    RunKeepsCovered(start, steps, false);
    var w := Run(start, steps);
    forall n ensures !Waits(SweepAll(w.db, ids, now), n)
    {
      forall id | id in ids ensures LiveIn(w.db, id) { assert id in ExpiredIds(w.db, now, timeout); }
      SweepSettlesExactly(w.db, ids, now, n);
      if Waits(w.db, n) {
        var id :| TaskCovers(w.db, id, n);
        assert id in ExpiredIds(w.db, now, timeout) && id in ids;
        assert Rescues(w.db, id, n);
      }
    }
    hide SweepAll;
    forall n | n in SweepAll(w.db, ids, now).nodes ensures !Waiting(SweepAll(w.db, ids, now).nodes[n].status)
    {
      assert !Waits(SweepAll(w.db, ids, now), n);
    }
  }

  /**
    A sweep leaves alone every task that is finished, or pending for less than two timeouts, or sent
    less than one ago.
   */
  lemma {:induction false} SweepSparesRecent(db: Db, ids: seq<string>, now: int, timeout: int, id: string)
    requires (forall x :: x in ids ==> x in ExpiredIds(db, now, timeout)) || id !in ids
    requires id in db.tasks
    requires var t := db.tasks[id]; !Live(t) || (t.status.Pending? && t.createdAt >= now - 2 * timeout) ||
                                    (!t.status.Pending? && t.sentAt >= now - timeout)
    ensures id in SweepAll(db, ids, now).tasks && SweepAll(db, ids, now).tasks[id] == db.tasks[id]
    decreases |ids|
  {
    assert id !in ids;
    if ids != [] {
      hide ParseLocalID;
      assert ids[0] != id && id !in ids[1..];
      SweepSparesRecent(SweepOne(db, ids[0], now), ids[1..], now, timeout, id);
    }
  }

  // ----- exactly when every node converges -----

  /** However it goes on in order, once all tasks and jobs have ended no node waits. */
  ghost predicate Converges(w: World)
  {
    forall steps :: Possible(w, steps) && OrderlyRun(w, steps) && Ended(Run(w, steps)) ==> Settled(Run(w, steps).db)
  }

  /** A node that waits, with no live task or job that will move it on. */
  ghost predicate Abandoned(w: World, n: string)
  {
    Waits(w.db, n) && !Covered(w, n, true)
  }

  lemma RunStep(w: World, s: Step, rest: seq<Step>)
    requires Enabled(w, s) && Orderly(w, s) && Possible(Next(w, s), rest) && OrderlyRun(Next(w, s), rest)
    ensures Possible(w, [s] + rest) && OrderlyRun(w, [s] + rest) && Run(w, [s] + rest) == Run(Next(w, s), rest)
  {
    hide Enabled, Orderly, Next;
    assert ([s] + rest)[1..] == rest;
  }

  lemma {:induction false} NewJob(jobs: set<nat>) returns (j: nat)
    ensures forall x :: x in jobs ==> x < j
    decreases jobs
  {
    j := 0;
    if jobs != {} {
      var x :| x in jobs;
      var above := NewJob(jobs - {x});
      j := if x < above then above else x + 1;
      assert forall y :: y in jobs ==> y == x || y in jobs - {x};
    }
  }

  lemma {:induction false} NewId(ids: set<string>) returns (id: string)
    ensures forall x :: x in ids ==> |x| < |id|
    decreases ids
  {
    id := "x";
    if ids != {} {
      var x :| x in ids;
      var longer := NewId(ids - {x});
      id := if |x| < |longer| then longer else x + "x";
      assert forall y :: y in ids ==> y == x || y in ids - {x};
    }
  }

  function Unstarted(w: World): set<nat> { set j | j in w.jobs && w.jobs[j].Dispatching? }

  function LiveIds(w: World): set<string> { set id | id in w.db.tasks && Live(w.db.tasks[id]) }

  /** A step that brings the end nearer: insert what is to be dispatched, time out what is live, do what is left. */
  ghost predicate Winds(w: World, s: Step)
  {
    Enabled(w, s) &&
    (s.Insert? || (s.Sweep? && LiveIn(w.db, s.id)) || s.DoRepair? || (s.Report? && Unstarted(w) == {} && LiveIds(w) == {}))
  }

  /** Such a step moves no abandoned node on. */
  lemma WindingLeavesAbandoned(w: World, s: Step, n: string)
    requires Regular(w) && Abandoned(w, n) && Winds(w, s)
    ensures Regular(Next(w, s)) && Abandoned(Next(w, s), n) && Orderly(w, s)
  {
    hide ParseLocalID;
    var after := Next(w, s);
    assert forall j :: !JobCovers(w, j, n, true);
    assert forall id :: !TaskCovers(w.db, id, n);
    if s.Report? || s.DoRepair? || s.Insert? {
      assert !JobCovers(w, s.j, n, true);
    }
    if s.Sweep? { assert !TaskCovers(w.db, s.id, n); }
    assert Waits(after.db, n) && after.db.nodes[n].status == w.db.nodes[n].status;
    forall id ensures !TaskCovers(after.db, id, n)
    {
      assert !TaskCovers(w.db, id, n);
    }
    forall j ensures !JobCovers(after, j, n, true)
    {
      assert !JobCovers(w, j, n, true);
    }
  }

  lemma WindingEnds(w: World, s: Step)
    requires Winds(w, s)
    ensures var a := Next(w, s);
      || Unstarted(a) < Unstarted(w)
      || (Unstarted(a) == Unstarted(w) && LiveIds(a) < LiveIds(w))
      || (Unstarted(a) == Unstarted(w) && LiveIds(a) == LiveIds(w) && a.jobs.Keys < w.jobs.Keys)
  {
    hide ParseLocalID;
    var a := Next(w, s);
    match s {
      case Insert(j, _, _) => assert j in Unstarted(w) && j !in Unstarted(a);
      case Sweep(_, id, _) => assert id in LiveIds(w) && id !in LiveIds(a);
      case DoRepair(j) => assert j in w.jobs.Keys && j !in a.jobs.Keys;
      case Report(j) => assert j in w.jobs.Keys && j !in a.jobs.Keys;
    }
  }

  /** As long as anything has not ended there is such a step. */
  lemma SomethingWinds(w: World) returns (s: Step)
    requires !Ended(w)
    ensures Winds(w, s)
  {
    if Unstarted(w) != {} {
      var j :| j in Unstarted(w);
      var id := NewId(w.db.tasks.Keys);
      s := Insert(j, id, 0);
    } else if LiveIds(w) != {} {
      var id :| id in LiveIds(w);
      var j := NewJob(w.jobs.Keys);
      s := Sweep(j, id, 0);
    } else {
      assert forall id :: LiveIn(w.db, id) ==> id in LiveIds(w);
      assert w.jobs.Keys != {};
      var j :| j in w.jobs.Keys;
      assert j !in Unstarted(w);
      s := if w.jobs[j].Repair? then DoRepair(j) else Report(j);
    }
  }

  /** An abandoned node can be left waiting to the end. */
  lemma {:induction false} AbandonedToTheEnd(w: World, n: string) returns (steps: seq<Step>)
    requires Regular(w) && Abandoned(w, n)
    ensures Possible(w, steps) && OrderlyRun(w, steps) && Ended(Run(w, steps)) && Waits(Run(w, steps).db, n)
    decreases Unstarted(w), LiveIds(w), w.jobs.Keys
  {
    hide Abandoned, Regular, Winds, Ended, Next, Enabled, Orderly, Unstarted, LiveIds;
    if Ended(w) {
      steps := [];
      AbandonedWaits(w, n);
    } else {
      var s := SomethingWinds(w);
      WindsIsEnabled(w, s);
      WindingLeavesAbandoned(w, s, n);
      WindingEnds(w, s);
      var rest := AbandonedToTheEnd(Next(w, s), n);
      RunStep(w, s, rest);
      steps := [s] + rest;
    }
  }

  lemma AbandonedWaits(w: World, n: string)
    requires Abandoned(w, n)
    ensures Waits(w.db, n)
  {
  }

  lemma WindsIsEnabled(w: World, s: Step)
    requires Winds(w, s)
    ensures Enabled(w, s)
  {
  }

  /** From any state every node converges, over all orderly continuations, exactly when none is abandoned. */
  lemma ConvergenceIsExact(w: World)
    requires Regular(w)
    ensures Converges(w) <==> forall n :: !Abandoned(w, n)
  {
    hide Run, Possible, OrderlyRun, Ended, Settled;
    if n :| Abandoned(w, n) {
      var steps := AbandonedToTheEnd(w, n);
      WaitingIsUnsettled(Run(w, steps).db, n);
    } else {
      NoneAbandoned(w);
      forall steps | Possible(w, steps) && OrderlyRun(w, steps) && Ended(Run(w, steps)) ensures Settled(Run(w, steps).db)
      {
        RunKeepsCovered(w, steps, true);
        RestIsSettled(Run(w, steps), true);
      }
    }
  }

  lemma WaitingIsUnsettled(db: Db, n: string)
    requires Waits(db, n)
    ensures !Settled(db)
  {
  }

  lemma NoneAbandoned(w: World)
    requires Regular(w) && forall n :: !Abandoned(w, n)
    ensures AllCovered(w, true)
  {
    forall n | n in w.db.nodes && Waiting(w.db.nodes[n].status) ensures Covered(w, n, true)
    {
      assert !Abandoned(w, n);
    }
  }

  // ----- a manager that dies, a report that is lost, an insertion that fails -----

  /** There is a live task row of the kind the node's row waits for. */
  ghost predicate HasTask(db: Db, n: string)
    requires n in db.nodes
  {
    exists id :: TaskCovers(db, id, n)
  }

  /** What a manager that dies leaves behind: the rows, and none of the work in its memory. */
  function Restarted(w: World): World { World(w.db, map[]) }

  /**
    After a restart every node converges exactly when each row in a pending status finds a live task row of
    a matching kind; no work that was in memory counts.
   */
  lemma RestartIsExact(w: World)
    requires "" !in w.db.nodes
    ensures Converges(Restarted(w)) <==>
            forall n :: Waits(w.db, n) ==> HasTask(w.db, n)
  {
    var r := Restarted(w);
    ConvergenceIsExact(r);
    forall n ensures Abandoned(r, n) <==> Waits(w.db, n) && !HasTask(w.db, n)
    {
      if Waits(w.db, n) {
        assert forall j :: !JobCovers(r, j, n, true);
      }
    }
  }

  /** The job moves its own node on: the node waits, and for this kind of work, or is overridden by it. */
  ghost predicate MovesOn(w: World, j: nat)
    requires j in w.jobs
  {
    Waits(w.db, w.jobs[j].node) && JobCovers(w, j, w.jobs[j].node, true)
  }

  /** A live task of the kind the node waits for, or another job of that kind or one that overrides, will do it too. */
  ghost predicate OthersMoveOn(w: World, j: nat)
    requires j in w.jobs && w.jobs[j].node in w.db.nodes
  {
    (exists id :: TaskCovers(w.db, id, w.jobs[j].node)) || (exists i :: i != j && JobCovers(w, i, w.jobs[j].node, true))
  }

  /** One job that is never finished, as when reading its task or the status update of its report fails. */
  function Lost(w: World, j: nat): World { World(w.db, w.jobs - {j}) }

  /**
    Losing a job keeps every node converging exactly when the job does not move its node on, or
    something else will.
   */
  lemma LostJobIsExact(w: World, j: nat)
    requires AllCovered(w, true) && j in w.jobs
    ensures Converges(Lost(w, j)) <==> !MovesOn(w, j) || OthersMoveOn(w, j)
  {
    hide Overrides, Converges;
    var after, node := Lost(w, j), w.jobs[j].node;
    ConvergenceIsExact(after);
    forall n | n in w.db.nodes && Waiting(w.db.nodes[n].status) && (n != node || !MovesOn(w, j) || OthersMoveOn(w, j))
      ensures !Abandoned(after, n)
    {
      if id :| TaskCovers(w.db, id, n) {
        assert TaskCovers(after.db, id, n);
      } else {
        var i :| JobCovers(w, i, n, true) && i != j;
        assert JobCovers(after, i, n, true);
      }
    }
    if MovesOn(w, j) && !OthersMoveOn(w, j) {
      assert forall id :: !TaskCovers(after.db, id, node);
      assert forall i :: JobCovers(after, i, node, true) ==> i != j && JobCovers(w, i, node, true);
      assert Abandoned(after, node);
    }
  }

  /**
    A task insertion that fails keeps every node converging exactly when the handler repairs, its node
    does not wait for it, or something else will move the node on.
   */
  lemma FailedInsertIsExact(w: World, j: nat)
    requires AllCovered(w, true) && Enabled(w, InsertFails(j))
    ensures Converges(Next(w, InsertFails(j))) <==> Repairs(w.jobs[j].kind) || !MovesOn(w, j) || OthersMoveOn(w, j)
  {
    if Repairs(w.jobs[j].kind) {
      StepKeepsCovered(w, InsertFails(j), true);
      CoveredConverges(Next(w, InsertFails(j)));
    } else {
      LostJobIsExact(w, j);
    }
  }

  lemma CoveredConverges(w: World)
    requires AllCovered(w, true)
    ensures Converges(w)
  {
    hide Converges;
    ConvergenceIsExact(w);
    assert forall n :: !Abandoned(w, n);
  }

  const EMPTY := World(Db(map[], map[]), map[])

  lemma RunOne(w: World, s: Step)
    requires Enabled(w, s) && Orderly(w, s)
    ensures Possible(w, [s]) && OrderlyRun(w, [s]) && Run(w, [s]) == Next(w, s)
  {
    hide Enabled, Orderly, Next;
    assert [s][1..] == [];
    assert Possible(Next(w, s), []);
  }

  /** One node created and at work, its task done. */
  const DEPLOYED := World(Db(map["n" := Node(Active, 0)], map["t" := Task("n", CreateNode, Success, "", 0, 0, 0, 0)]), map[])

  function DeploySteps(): seq<Step>
  {
    [BeginCreate(0, "n")] + ([Insert(0, "t", 0)] + ([Result(0, "t", true, "", 0)] + [Report(0)]))
  }

  lemma DeploySteps4()
    ensures var s1, s2, s3, s4 := BeginCreate(0, "n"), Insert(0, "t", 0), Result(0, "t", true, "", 0), Report(0);
      var node, task := Node(Provisioning, 0), Task("n", CreateNode, Pending, "", 0, 0, 0, 0);
      var w1 := World(Db(map["n" := node], map[]), map[0 := Dispatching("n", CreateNode)]);
      var w2 := World(Db(map["n" := node], map["t" := task]), map[]);
      var w3 := World(Db(map["n" := node], map["t" := task.(status := Success)]), map[0 := Calling("n", CreateNode, Success, "")]);
      && Enabled(EMPTY, s1) && Next(EMPTY, s1) == w1 && Enabled(w1, s2) && Next(w1, s2) == w2
      && Enabled(w2, s3) && Next(w2, s3) == w3 && Enabled(w3, s4) && Next(w3, s4) == DEPLOYED
      && Orderly(EMPTY, s1) && Orderly(w1, s2) && Orderly(w2, s3) && Orderly(w3, s4)
  {
    assert ParseLocalID("") == 0;
    hide ParseLocalID;
  }

  lemma DeployedIsReached()
    ensures Possible(EMPTY, DeploySteps()) && OrderlyRun(EMPTY, DeploySteps()) && Run(EMPTY, DeploySteps()) == DEPLOYED
  {
    DeploySteps4();
    hide Run, Possible, OrderlyRun, Next, Enabled, Orderly;
    var s1, s2, s3, s4 := BeginCreate(0, "n"), Insert(0, "t", 0), Result(0, "t", true, "", 0), Report(0);
    var node, task := Node(Provisioning, 0), Task("n", CreateNode, Pending, "", 0, 0, 0, 0);
    var w1 := World(Db(map["n" := node], map[]), map[0 := Dispatching("n", CreateNode)]);
    var w2 := World(Db(map["n" := node], map["t" := task]), map[]);
    var w3 := World(Db(map["n" := node], map["t" := task.(status := Success)]), map[0 := Calling("n", CreateNode, Success, "")]);
    RunOne(w3, s4);
    RunStep(w2, s3, [s4]);
    RunStep(w1, s2, [s3] + [s4]);
    RunStep(EMPTY, s1, [s2] + ([s3] + [s4]));
  }

  /**
    A manager that dies between completing the task of its first node and reporting it leaves the node
    provisioning, with nothing in the database that would ever settle it.
   */
  lemma RestartCanStrand()
    ensures var steps := [BeginCreate(0, "n"), Insert(0, "t", 0), Result(0, "t", true, "", 0)];
            Possible(EMPTY, steps) && OrderlyRun(EMPTY, steps) && var w := Run(EMPTY, steps);
            && "t" in w.db.tasks && w.db.tasks["t"].status.Success? && "n" in w.db.nodes
            && w.db.nodes["n"].status.Provisioning?
            && w.jobs == map[0 := Calling("n", CreateNode, Success, "")]
            && !Converges(Restarted(w)) && Lost(w, 0) == Restarted(w)
  {
    DeploySteps4();
    hide Run, Possible, OrderlyRun, Next, Enabled, Orderly, Converges;
    var s1, s2, s3 := BeginCreate(0, "n"), Insert(0, "t", 0), Result(0, "t", true, "", 0);
    var node, task := Node(Provisioning, 0), Task("n", CreateNode, Pending, "", 0, 0, 0, 0);
    var w1 := World(Db(map["n" := node], map[]), map[0 := Dispatching("n", CreateNode)]);
    var w2 := World(Db(map["n" := node], map["t" := task]), map[]);
    var w3 := World(Db(map["n" := node], map["t" := task.(status := Success)]), map[0 := Calling("n", CreateNode, Success, "")]);
    RunOne(w2, s3);
    RunStep(w1, s2, [s3]);
    RunStep(EMPTY, s1, [s2] + [s3]);
    assert [s1] + ([s2] + [s3]) == [s1, s2, s3];
    RestartIsExact(w3);
    assert Waits(w3.db, "n") && !HasTask(w3.db, "n");
    assert w3.jobs - {0} == map[];
  }

  /** A node at work whose deletion finds no task inserted waits for good. */
  lemma FailedInsertCanStrand()
    ensures var begin := BeginDelete(1, "n", Active);
            Enabled(DEPLOYED, begin) && Orderly(DEPLOYED, begin) && !Converges(Next(Next(DEPLOYED, begin), InsertFails(1)))
  {
    hide Converges;
    var begun := Next(DEPLOYED, BeginDelete(1, "n", Active));
    assert begun == World(Db(map["n" := Node(DeletePending, 0)], DEPLOYED.db.tasks), map[1 := Dispatching("n", DeleteNode)]);
    var last := Next(begun, InsertFails(1));
    ConvergenceIsExact(last);
    assert Abandoned(last, "n") by {
      assert last.jobs == map[] && forall id :: !LiveIn(last.db, id);
    }
  }

  predicate Touches(s: Step, n: string)
  {
    (s.BeginCreate? || s.BeginUpdate? || s.BeginDelete? || s.BeginAction?) && s.node == n
  }

  /** A stranded node: waiting, with no live task or job of its own. */
  ghost predicate Stranded(w: World, n: string)
  {
    && Waits(w.db, n)
    && (forall id :: LiveIn(w.db, id) ==> w.db.tasks[id].node != n)
    && (forall j :: j in w.jobs ==> w.jobs[j].node != n)
  }

  /** Sweeps never free a stranded node: it waits until someone touches it or an old result is repeated. */
  lemma {:induction false} StrandedStays(w: World, steps: seq<Step>, n: string)
    requires Stranded(w, n) && Possible(w, steps)
    requires forall s :: s in steps ==> !Touches(s, n) && !s.Result?
    ensures Stranded(Run(w, steps), n) && Run(w, steps).db.nodes[n].status == w.db.nodes[n].status
    decreases |steps|
  {
    if steps != [] {
      assert !Touches(steps[0], n) && !steps[0].Result?;
      StrandedStep(w, steps[0], n);
      hide Next, Enabled, Stranded;
      StrandedStays(Next(w, steps[0]), steps[1..], n);
    }
  }

  lemma StrandedStep(w: World, s: Step, n: string)
    requires Stranded(w, n) && Enabled(w, s) && !Touches(s, n) && !s.Result?
    ensures Stranded(Next(w, s), n) && Next(w, s).db.nodes[n].status == w.db.nodes[n].status
  {
    hide ParseLocalID;
    var after := Next(w, s);
    if s.Report? || s.DoRepair? || s.Insert? || s.InsertFails? {
      assert w.jobs[s.j].node != n;
    }
    assert n in after.db.nodes && after.db.nodes[n] == w.db.nodes[n];
    forall id | LiveIn(after.db, id) ensures after.db.tasks[id].node != n
    {
      assert LiveIn(w.db, id) ==> w.db.tasks[id].node != n;
    }
  }

  // ----- what a callback may touch -----

  /**
    A completion changes a node exactly when the node waits for that kind of task, or the task is a
    creation that reports a local id, or a deletion that succeeded; every other node keeps its row.
   */
  lemma CallBackIsGuarded(db: Db, node: string, kind: Kind, outcome: TaskStatus, message: string)
    requires "" !in db.nodes && node in db.nodes
    ensures var after := CallBack(db, node, kind, outcome, message);
            after != db <==>
              || PendingOf(kind) == Some(db.nodes[node].status)
              || (kind.CreateNode? && outcome.Success? && ParseLocalID(message) > 0 &&
                  db.nodes[node] != Node(Active, ParseLocalID(message)))
              || (kind.DeleteNode? && outcome.Success?)
    ensures forall n :: n in db.nodes && n != node ==>
              n in CallBack(db, node, kind, outcome, message).nodes && CallBack(db, node, kind, outcome, message).nodes[n] == db.nodes[n]
  {
    hide ParseLocalID;
    var after := CallBack(db, node, kind, outcome, message);
    if node !in after.nodes {
      assert after.nodes != db.nodes;
    } else if after.nodes[node] == db.nodes[node] {
      assert after.nodes == db.nodes;
    }
  }

  /** What a node's owner may be told: it works, it is switched off, it is gone. */
  datatype Claim = Works | IsOff | IsGone

  predicate Claims(db: Db, n: string, claim: Claim)
  {
    match claim
    case Works => Stands(db, n, Active)
    case IsOff => Stands(db, n, Disabled)
    case IsGone => n !in db.nodes
  }

  /** The kinds of tasks whose success justifies the claim. */
  predicate Justifies(kind: Kind, claim: Claim)
  {
    match claim
    case Works => kind.CreateNode? || kind.UpdateNode? || kind.EnableNode?
    case IsOff => kind.DisableNode?
    case IsGone => kind.DeleteNode?
  }

  /** The success of such a task is about to be reported. */
  ghost predicate Bringing(w: World, n: string, claim: Claim)
  {
    exists j :: j in w.jobs && Brings(w.jobs[j], n, claim)
  }

  predicate Brings(job: Job, n: string, claim: Claim)
  {
    job.Calling? && job.node == n && Justifies(job.kind, claim) && job.outcome.Success?
  }

  /** The agent reports that it has carried out such a task of this node. */
  predicate Confirms(w: World, s: Step, n: string, claim: Claim)
  {
    s.Result? && s.success && s.id in w.db.tasks && w.db.tasks[s.id].node == n && Justifies(w.db.tasks[s.id].kind, claim)
  }

  ghost predicate Confirmed(w: World, steps: seq<Step>, n: string, claim: Claim)
    requires Possible(w, steps)
    decreases |steps|
  {
    steps != [] && (Confirms(w, steps[0], n, claim) || Confirmed(Next(w, steps[0]), steps[1..], n, claim))
  }

  lemma UnconfirmedStep(w: World, s: Step, n: string, claim: Claim)
    requires Enabled(w, s) && !Bringing(w, n, claim) && !Confirms(w, s, n, claim)
    ensures !Bringing(Next(w, s), n, claim) && (Claims(Next(w, s).db, n, claim) ==> Claims(w.db, n, claim))
  {
    hide ParseLocalID;
    assert forall j :: j in w.jobs ==> !Brings(w.jobs[j], n, claim);
  }

  /**
    No node is ever shown as working, switched off or deleted that was not before, except in a run in which
    the agent has confirmed a task of that node whose success means just that.
   */
  lemma {:induction false} ClaimsAreConfirmed(w: World, steps: seq<Step>, n: string, claim: Claim)
    requires Possible(w, steps) && !Bringing(w, n, claim)
    requires !Claims(w.db, n, claim) && Claims(Run(w, steps).db, n, claim)
    ensures Confirmed(w, steps, n, claim)
    decreases |steps|
  {
    if !Confirms(w, steps[0], n, claim) {
      UnconfirmedStep(w, steps[0], n, claim);
      hide Next, Enabled, Bringing, Confirms, Claims;
      ClaimsAreConfirmed(Next(w, steps[0]), steps[1..], n, claim);
    }
  }

  /**
    Reported on while it waits for that kind of task, a node shows what the task was for exactly when
    the task succeeded.
   */
  lemma SuccessIsShown(db: Db, node: string, kind: Kind, outcome: TaskStatus, message: string)
    requires "" !in db.nodes && node in db.nodes && PendingOf(kind) == Some(db.nodes[node].status)
    ensures var after := CallBack(db, node, kind, outcome, message);
      && (outcome.Success? <==> exists claim :: Justifies(kind, claim) && Claims(after, node, claim))
      && (!outcome.Success? ==> Stands(after, node, if kind.CreateNode? then CreateFailed else ConfigError))
      && (kind.CreateNode? && outcome.Success? && ParseLocalID(message) > 0 ==>
          after.nodes[node].localId == ParseLocalID(message))
  {
    hide ParseLocalID;
    var after := CallBack(db, node, kind, outcome, message);
    assert Justifies(kind, Works) || Justifies(kind, IsOff) || Justifies(kind, IsGone);
    if outcome.Success? {
      assert Claims(after, node, Works) || Claims(after, node, IsOff) || Claims(after, node, IsGone);
    }
  }

  // ----- the methods are runs of these steps -----

  lemma JobDone(jobs: map<nat, Job>, j: nat, job: Job)
    requires j !in jobs
    ensures jobs[j := job] - {j} == jobs
  {
  }

  /** The sweep's loop body is a sweep step followed, undisturbed, by its callback. */
  lemma SweepOneIsRun(w: World, j: nat, id: string, now: int)
    requires j !in w.jobs && LiveIn(w.db, id)
    ensures Next(Next(w, Sweep(j, id, now)), Report(j)) == World(SweepOne(w.db, id, now), w.jobs)
  {
    hide CallBack;
    JobDone(w.jobs, j, Calling(w.db.tasks[id].node, w.db.tasks[id].kind, Timeout, ""));
  }

  /** Handling a result is a result step followed by its callback. */
  lemma ReportedIsRun(w: World, j: nat, id: string, success: bool, message: string, now: int)
    requires j !in w.jobs && id in w.db.tasks && id != ""
    ensures Next(Next(w, Result(j, id, success, message, now)), Report(j))
        == World(Reported(w.db, id, success, message, now), w.jobs)
  {
    hide CallBack;
    JobDone(w.jobs, j, Calling(w.db.tasks[id].node, w.db.tasks[id].kind, if success then Success else Failed, message));
  }

  /**
    A handler's dispatch, with its repair if the task cannot be created, is what its job does when
    nothing interrupts it.
   */
  lemma DispatchIsRun(w: World, j: nat, id: string, node: string, kind: Kind, online: bool, now: int)
    requires j !in w.jobs && id !in w.db.tasks
    ensures var b := World(w.db, w.jobs[j := Dispatching(node, kind)]);
            var c := Next(b, Insert(j, id, now));
            (if online then Next(c, Mark(id, now)) else c) == World(Dispatched(w.db, id, node, kind, true, online, now), w.jobs)
  {
    JobDone(w.jobs, j, Dispatching(node, kind));
  }

  lemma FailedDispatchIsRun(w: World, j: nat, node: string, kind: Kind)
    requires j !in w.jobs
    ensures var b := World(w.db, w.jobs[j := Dispatching(node, kind)]);
            var c := Next(b, InsertFails(j));
            (if Repairs(kind) then Next(c, DoRepair(j)) else c) == World(Repairing(w.db, node, kind, false), w.jobs)
  {
    JobDone(w.jobs, j, Dispatching(node, kind));
    JobDone(w.jobs, j, Repair(node, kind));
  }

  // ----- what the rows of the task table tell -----

  /** The task's first end after position i: the sweep or the result that finished it, at this position. */
  ghost predicate EndedAt(past: seq<Step>, id: string, i: int, e: int)
  {
    0 <= i < e < |past| && Ends(past[e], id) && forall k :: i < k < e ==> !Ends(past[k], id)
  }

  /** Nothing has ended the task since position i. */
  ghost predicate Unended(past: seq<Step>, id: string, i: int)
  {
    0 <= i && forall k :: i < k < |past| ==> !Ends(past[k], id)
  }

  predicate Marks(s: Step, id: string) { s.Mark? && s.id == id }

  /** What has happened since the task was inserted at position i is what its row says. */
  ghost predicate RowTells(t: Task, id: string, past: seq<Step>, i: int)
  {
    match t.status
    case Pending =>
      && t.attempts == 0 && t.sentAt == 0 && t.doneAt == 0 && t.result == ""
      && Unended(past, id, i) && forall k :: i < k < |past| ==> !Marks(past[k], id)
    case Sent =>
      && t.attempts == 1 && t.doneAt == 0 && t.result == "" && Unended(past, id, i)
      && exists j :: i < j < |past| && past[j] == Mark(id, t.sentAt) && forall k :: i < k < j ==> !Marks(past[k], id)
    case Running => false
    case Timeout =>
      exists e :: EndedAt(past, id, i, e) && past[e].Sweep? && past[e].now == t.doneAt && t.result == ""
    case _ =>
      exists e :: EndedAt(past, id, i, e) && past[e].Result? && past[e].now == t.doneAt &&
                  past[e].success == t.status.Success? && past[e].message == t.result
  }

  /** The task was inserted once, at its creation time, and its row tells what happened to it since. */
  ghost predicate HasHistory(t: Task, id: string, past: seq<Step>)
  {
    exists i :: InsertedAt(past, id, i) && past[i].now == t.createdAt && RowTells(t, id, past, i)
  }

  ghost predicate InsertedAt(past: seq<Step>, id: string, i: int)
  {
    && 0 <= i < |past| && past[i].Insert? && past[i].id == id
    && forall k :: 0 <= k < |past| && k != i ==> !(past[k].Insert? && past[k].id == id)
  }

  ghost predicate Histories(db: Db, past: seq<Step>)
  {
    && (forall id :: id in db.tasks ==> HasHistory(db.tasks[id], id, past))
    && (forall k :: 0 <= k < |past| && past[k].Insert? ==> past[k].id in db.tasks)
  }

  /** A step that is not about the task, or comes too late for it, leaves its history as it is. */
  lemma HistoryKept(t: Task, id: string, past: seq<Step>, s: Step)
    requires HasHistory(t, id, past) && !(s.Insert? && s.id == id)
    requires t.status.Pending? ==> !Marks(s, id) && !Ends(s, id)
    requires t.status.Sent? ==> !Ends(s, id)
    ensures HasHistory(t, id, past + [s])
  {
    var i :| InsertedAt(past, id, i) && past[i].now == t.createdAt && RowTells(t, id, past, i);
    var longer := past + [s];
    assert InsertedAt(longer, id, i);
    assert RowTells(t, id, longer, i) by {
      if t.status.Sent? {
        var j :| i < j < |past| && past[j] == Mark(id, t.sentAt) && forall k :: i < k < j ==> !Marks(past[k], id);
        assert longer[j] == Mark(id, t.sentAt);
      } else if t.status.Timeout? {
        var e :| EndedAt(past, id, i, e) && past[e].Sweep? && past[e].now == t.doneAt;
        assert EndedAt(longer, id, i, e);
      } else if !t.status.Pending? {
        var e :| EndedAt(past, id, i, e) && past[e].Result? && past[e].now == t.doneAt &&
                 past[e].success == t.status.Success? && past[e].message == t.result;
        assert EndedAt(longer, id, i, e);
      }
    }
  }

  lemma HistoryMarked(t: Task, id: string, past: seq<Step>, now: int)
    requires HasHistory(t, id, past) && t.status.Pending?
    ensures HasHistory(t.(status := Sent, sentAt := now, attempts := t.attempts + 1), id, past + [Mark(id, now)])
  {
    var i :| InsertedAt(past, id, i) && past[i].now == t.createdAt && RowTells(t, id, past, i);
    var longer := past + [Mark(id, now)];
    assert InsertedAt(longer, id, i) && longer[|past|] == Mark(id, now);
  }

  lemma HistoryEnded(t: Task, id: string, past: seq<Step>, s: Step, ended: Task)
    requires HasHistory(t, id, past) && Live(t) && Ends(s, id)
    requires ended == if s.Sweep? then t.(status := Timeout, doneAt := s.now)
                      else t.(status := if s.success then Success else Failed, result := s.message, doneAt := s.now)
    ensures HasHistory(ended, id, past + [s])
  {
    var i :| InsertedAt(past, id, i) && past[i].now == t.createdAt && RowTells(t, id, past, i);
    var longer := past + [s];
    assert InsertedAt(longer, id, i);
    assert EndedAt(longer, id, i, |past|);
  }

  lemma HistoryBegins(past: seq<Step>, s: Step, node: string, kind: Kind)
    requires s.Insert? && forall k :: 0 <= k < |past| && past[k].Insert? ==> past[k].id != s.id
    ensures HasHistory(Task(node, kind, Pending, "", s.now, 0, 0, 0), s.id, past + [s])
  {
    assert InsertedAt(past + [s], s.id, |past|);
  }

  lemma StepKeepsHistories(w: World, past: seq<Step>, s: Step)
    requires Histories(w.db, past) && Enabled(w, s)
    ensures Histories(Next(w, s).db, past + [s])
  {
    hide HasHistory, ParseLocalID, CallBack;
    var after := Next(w, s);
    CallBackKeepsTasks(w, s);
    forall id | id in after.db.tasks ensures HasHistory(after.db.tasks[id], id, past + [s])
    {
      if id !in w.db.tasks {
        HistoryBegins(past, s, w.jobs[s.j].node, w.jobs[s.j].kind);
      } else if s.Mark? && s.id == id && w.db.tasks[id].status.Pending? {
        HistoryMarked(w.db.tasks[id], id, past, s.now);
      } else if Ends(s, id) && LiveIn(w.db, id) {
        HistoryEnded(w.db.tasks[id], id, past, s, after.db.tasks[id]);
      } else {
        HistoryKept(w.db.tasks[id], id, past, s);
      }
    }
  }

  lemma CallBackKeepsTasks(w: World, s: Step)
    requires Enabled(w, s)
    ensures s.Report? ==> Next(w, s).db.tasks == w.db.tasks
  {
    hide ParseLocalID;
  }

  lemma {:induction false} RunKeepsHistories(w: World, past: seq<Step>, steps: seq<Step>)
    requires Histories(w.db, past) && Possible(w, steps)
    ensures Histories(Run(w, steps).db, past + steps)
    decreases |steps|
  {
    hide Histories, Enabled, Next;
    if steps == [] {
      assert past + steps == past;
    } else {
      StepKeepsHistories(w, past, steps[0]);
      RunKeepsHistories(Next(w, steps[0]), past + [steps[0]], steps[1..]);
      assert past + [steps[0]] + steps[1..] == past + steps;
    }
  }

  /**
    Over every run from an empty database each task row tells its own history: inserted once, at created_at;
    sent by the first marking after that, at sent_at; finished by the first sweep or result, at done_at, with
    that result's message and success.
   */
  lemma RowsTellTheirHistory(steps: seq<Step>)
    requires Possible(EMPTY, steps)
    ensures Histories(Run(EMPTY, steps).db, steps)
  {
    RunKeepsHistories(EMPTY, [], steps);
    assert [] + steps == steps;
  }

  /**
    So in every run a sweep at time t selects a task exactly if nothing has ended it and either it was marked
    sent more than one timeout before t, or it has not been marked and was inserted more than two before t.
   */
  lemma SweepIsOnTime(steps: seq<Step>, id: string, t: int, timeout: int)
    requires Possible(EMPTY, steps)
    ensures id in ExpiredIds(Run(EMPTY, steps).db, t, timeout) <==>
            exists i :: InsertedAt(steps, id, i) && Unended(steps, id, i) &&
              if exists j :: i < j < |steps| && Marks(steps[j], id) then
                exists j :: i < j < |steps| && Marks(steps[j], id) && (forall k :: i < k < j ==> !Marks(steps[k], id)) &&
                            t > steps[j].now + timeout
              else t > steps[i].now + 2 * timeout
  {
    RowsTellTheirHistory(steps);
    var db := Run(EMPTY, steps).db;
    if id in db.tasks {
      var row := db.tasks[id];
      var i :| InsertedAt(steps, id, i) && steps[i].now == row.createdAt && RowTells(row, id, steps, i);
      SweptFromRow(row, id, steps, i, t, timeout);
      assert forall k :: InsertedAt(steps, id, k) ==> k == i;
    }
    hide RowTells, Run;
  }

  lemma SweptFromRow(row: Task, id: string, steps: seq<Step>, i: int, t: int, timeout: int)
    requires InsertedAt(steps, id, i) && steps[i].now == row.createdAt && RowTells(row, id, steps, i)
    ensures Expired(row, t, timeout) <==>
            Unended(steps, id, i) &&
              if exists j :: i < j < |steps| && Marks(steps[j], id) then
                exists j :: i < j < |steps| && Marks(steps[j], id) && (forall k :: i < k < j ==> !Marks(steps[k], id)) &&
                            t > steps[j].now + timeout
              else t > steps[i].now + 2 * timeout
  {
    if row.status.Sent? {
      var j :| i < j < |steps| && steps[j] == Mark(id, row.sentAt) && forall k :: i < k < j ==> !Marks(steps[k], id);
      assert Marks(steps[j], id);
    }
  }

  /**
    A dispatch in the caller's times: swept once one timeout has passed since it, or two if the machine
    was offline.
   */
  lemma DispatchedIsSweptOnTime(db: Db, id: string, node: string, kind: Kind, online: bool, now: int, t: int,
      timeout: int)
    requires id !in db.tasks
    ensures id in ExpiredIds(Dispatched(db, id, node, kind, true, online, now), t, timeout) <==>
            t > now + (if online then timeout else 2 * timeout)
  {
  }

  // ----- what becomes of a node a handler has touched -----

  /** The node's row once its handler has begun. */
  function Begun(db: Db, node: string, kind: Kind): Db
    requires node in db.nodes
  {
    match kind
    case CreateNode => Placed(db, node)
    case UpdateNode => Desired(db, node)
    case DeleteNode => Shifted(db, node, db.nodes[node].status, DeletePending)
    case OtherTask => db
    case _ => Shifted(db, node, db.nodes[node].status, UpdatePending)
  }

  /** The waiting status of each kind of task; a task of no known kind leaves the row alone. */
  function WaitingStatus(kind: Kind, was: NodeStatus): NodeStatus
  {
    match kind
    case CreateNode => Provisioning
    case DeleteNode => DeletePending
    case OtherTask => was
    case _ => UpdatePending
  }

  /** What a report makes of the node's status, if it leaves the row. */
  function ReportedStatus(kind: Kind, success: bool, was: NodeStatus): NodeStatus
  {
    match kind
    case CreateNode => if success then Active else CreateFailed
    case DisableNode => if success then Disabled else ConfigError
    case DeleteNode => ConfigError
    case OtherTask => was
    case _ => if success then Active else ConfigError
  }

  /** What a handler makes of the node's status when it cannot create the task. */
  function RepairedStatus(kind: Kind, waiting: NodeStatus): NodeStatus
  {
    match kind
    case CreateNode => CreateFailed
    case UpdateNode => ConfigError
    case _ => waiting
  }

  /**
    From the handler to the report, status by status: what the node waits in, what a success makes of it, what
    a failure or a timeout makes of it, and what a handler whose task cannot be created leaves.
   */
  lemma HandlersCompleteAsAsked(db: Db, node: string, kind: Kind, outcome: TaskStatus)
    requires node in db.nodes && node != ""
    ensures var begun := Begun(db, node, kind);
      var after, repaired := CallBack(begun, node, kind, outcome, ""), Repairing(begun, node, kind, false);
      var was, ok := db.nodes[node].status, outcome.Success?;
      && node in begun.nodes && begun.nodes[node].status == WaitingStatus(kind, was)
      && (outcome.Success? && kind.DeleteNode? <==> node !in after.nodes)
      && (node in after.nodes ==> after.nodes[node].status == ReportedStatus(kind, ok, was))
      && node in repaired.nodes && repaired.nodes[node].status == RepairedStatus(kind, begun.nodes[node].status)
  {
    assert ParseLocalID("") == 0;
    hide ParseLocalID;
  }

  /** The local id an agent reports with a creation is the one its node gets. */
  lemma CreationBringsItsId(db: Db, node: string, n: nat, rest: string)
    requires node in db.nodes && node != "" && 0 < n <= MAX_INT64 && (rest == "" || IsSpace(rest[0]))
    ensures var after := CallBack(db, node, CreateNode, Success, "node_id=" + Itoa(n) + rest);
            after == db.(nodes := db.nodes[node := Node(Active, n)])
  {
    LocalIdRoundTrip(n, rest);
    hide ParseLocalID;
  }

  // ----- which word of a message tells the id -----

  /** A word that tells a number. */
  predicate TellsId(word: string) { |word| >= 8 && word[..8] == "node_id=" && ParseInt(word[8..]).Some? }

  predicate IsWord(word: string) { word != "" && forall c :: c in word ==> !IsSpace(c) }

  /** Words with a blank between them. */
  function Sentence(words: seq<string>): string
  {
    if words == [] then "" else words[0] + (if |words| == 1 then "" else " " + Sentence(words[1..]))
  }

  lemma OneWord(word: string, rest: string)
    requires IsWord(word) && (rest == "" || IsSpace(rest[0]))
    ensures ParseLocalID(word + rest) == if TellsId(word) then ParseInt(word[8..]).value else ParseLocalID(rest)
  {
    WordOf(word, rest);
    var message := word + rest;
    assert message[0] == word[0] && message[|word|..] == rest;
    assert |ID_PREFIX| == 8 && (|word| >= 8 ==> (word[..8] == ID_PREFIX <==> word[..8] == "node_id="));
    hide IsSpace, ParseInt, Word;
  }

  /** The first word that tells a number decides, whatever the words before and after it; without one the id is 0. */
  lemma {:induction false} FirstIdWins(words: seq<string>, k: nat)
    requires forall i :: 0 <= i < |words| ==> IsWord(words[i])
    requires k <= |words| && (forall i :: 0 <= i < k ==> !TellsId(words[i])) && (k < |words| ==> TellsId(words[k]))
    ensures ParseLocalID(Sentence(words)) == if k < |words| then ParseInt(words[k][8..]).value else 0
    decreases |words|
  {
    hide IsSpace, ParseInt, TellsId;
    if words != [] {
      var rest := if |words| == 1 then "" else " " + Sentence(words[1..]);
      assert IsSpace(' ') by { BlankIsSpace(); }
      OneWord(words[0], rest);
      if k > 0 {
        FirstIdWins(words[1..], k - 1);
        if |words| > 1 {
          assert rest[1..] == Sentence(words[1..]) && rest[0] == ' ';
        } else {
          assert Sentence(words[1..]) == "";
        }
      }
    }
  }

  lemma BlankIsSpace()
    ensures IsSpace(' ')
  {
  }

  // ----- a node's local id -----

  /** A report that brings this node this id. */
  predicate BringsId(w: World, s: Step, n: string, localId: int)
  {
    && s.Report? && s.j in w.jobs && w.jobs[s.j].Calling? && w.jobs[s.j].node == n && w.jobs[s.j].kind == CreateNode
    && w.jobs[s.j].outcome == Success && ParseLocalID(w.jobs[s.j].message) == localId && localId > 0
  }

  /** A node starts without a local id, and only the report of its creation gives it one. */
  lemma LocalIdStep(w: World, s: Step, n: string)
    requires Enabled(w, s) && n in Next(w, s).db.nodes
    ensures var id := Next(w, s).db.nodes[n].localId;
            BringsId(w, s, n, id) || (if n in w.db.nodes then id == w.db.nodes[n].localId else id == 0)
  {
    hide ParseLocalID;
  }

  /** In every run the local id a node has is 0, the one it had, or one a report of its creation brought in the run. */
  lemma {:induction false} LocalIdsAreReported(w: World, steps: seq<Step>, n: string)
    requires Possible(w, steps) && n in Run(w, steps).db.nodes
    ensures var id := Run(w, steps).db.nodes[n].localId;
      id == 0 || (n in w.db.nodes && id == w.db.nodes[n].localId) ||
      exists i :: 0 <= i < |steps| && Possible(w, steps[..i]) && BringsId(Run(w, steps[..i]), steps[i], n, id)
    decreases |steps|
  {
    hide Next, Enabled, BringsId;
    if steps != [] {
      var s, rest := steps[0], steps[1..];
      var next := Next(w, s);
      LocalIdsAreReported(next, rest, n);
      var id := Run(w, steps).db.nodes[n].localId;
      if n in next.db.nodes && id == next.db.nodes[n].localId {
        LocalIdStep(w, s, n);
        assert steps[..0] == [] && steps[0] == s;
      } else if id != 0 {
        var i :| 0 <= i < |rest| && Possible(next, rest[..i]) && BringsId(Run(next, rest[..i]), rest[i], n, id);
        assert steps[..i + 1][1..] == rest[..i] && steps[..i + 1][0] == s && steps[i + 1] == rest[i];
      }
    }
  }
}

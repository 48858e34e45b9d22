/**
  The agent's configuration transaction: node edits write a candidate pair, and Apply checks, backs up,
  swaps, restarts, health-checks and rolls back (internal/agent/nodesvc/nodesvc.go).
 */
module NodeService {
  import opened Names
  import opened Sums
  import opened Inbound

  /** A file that holds JSON, or anything else. */
  datatype Text = Parsed(json: Json) | Malformed

  /** How an atomic write or rename ends: done, not done, or done with the directory sync reporting an error. */
  datatype Write = Done | NotDone | Unsynced

  /** config.json, nodes.json, their .candidate and .bak files, and the decoded state.json (empty if unreadable). */
  datatype Files = Files(
    conf: Option<Text>,
    nodes: Option<Text>,
    confCand: Option<Text>,
    nodesCand: Option<Text>,
    confBak: Option<Text>,
    nodesBak: Option<Text>,
    state: Node)

  // ----- reading and writing node lists -----

  function StoredList(list: seq<Node>): Text { Parsed(JArr(seq(|list|, i requires 0 <= i < |list| => JObj(list[i])))) }

  /** The list in a nodes file; a missing file is the empty list. */
  function Listing(file: Option<Text>): Option<seq<Node>>
  {
    match file
    case None => Some([])
    case Some(Parsed(JArr(items))) =>
      if AllObjects(items) then Some(seq(|items|, i requires 0 <= i < |items| => items[i].fields)) else None
    case _ => None
  }

  lemma ListingOfStored(list: seq<Node>)
    ensures Listing(Some(StoredList(list))) == Some(list)
  {
    assert AllObjects(StoredList(list).json.items);
    assert Listing(Some(StoredList(list))).value == list;
  }

  /** Reading before a change: what is there must be a valid list. */
  function LoadStrict(file: Option<Text>): Option<seq<Node>>
  {
    if Listing(file).Some? && ValidList(Listing(file).value) then Listing(file) else None
  }

  function Active(list: seq<Node>): seq<Node>
  {
    if list == [] then [] else (if Truthy(list[0], "disabled") then [] else [list[0]]) + Active(list[1..])
  }

  lemma {:induction false} ActiveConcat(a: seq<Node>, b: seq<Node>)
    ensures Active(a + b) == Active(a) + Active(b)
    decreases |a|
  {
    hide Truthy;
    if a == [] {
      assert a + b == b;
    } else {
      assert (a + b)[1..] == a[1..] + b;
      ActiveConcat(a[1..], b);
    }
  }

  lemma ActiveOne(n: Node)
    ensures Active([n]) == if Truthy(n, "disabled") then [] else [n]
  {
    hide Truthy;
    assert [n][1..] == [];
  }

  lemma HeadDiffers(list: seq<Node>, a: seq<Node>)
    requires ValidList(list) && list != [] && ValidList(a) && forall n :: n in a ==> n in list[1..]
    ensures forall j :: 0 <= j < |a| ==> IdOf(list[0]) != IdOf(a[j]) && PortOf(list[0]) != PortOf(a[j])
  {
    hide IdOf, PortOf, ValidId, ValidPort, ValidType;
    forall j | 0 <= j < |a| ensures IdOf(list[0]) != IdOf(a[j]) && PortOf(list[0]) != PortOf(a[j])
    {
      assert a[j] in list[1..];
      var k :| 0 <= k < |list[1..]| && list[1..][k] == a[j];
      assert list[k + 1] == a[j];
    }
  }

  /** The active nodes of a valid list are themselves a valid list. */
  lemma {:induction false} ActiveIsValid(list: seq<Node>)
    requires ValidList(list)
    ensures ValidList(Active(list)) && forall n :: n in Active(list) ==> n in list
    decreases |list|
  {
    hide Truthy, IdOf, PortOf, ValidId, ValidPort, ValidType;
    if list != [] {
      var rest := list[1..];
      assert forall i :: 0 <= i < |rest| ==> rest[i] == list[i + 1];
      ActiveIsValid(rest);
      if !Truthy(list[0], "disabled") {
        var a := Active(rest);
        HeadDiffers(list, a);
        assert Active(list) == [list[0]] + a;
      }
    }
  }

  // ----- ids -----

  function Cursor(state: Node): Int64
  {
    match ToInt(Field(state, "next_node_id"))
    case Some(i) => i
    case None => 0
  }

  function UsedMax(list: seq<Node>): (m: Int64)
    ensures m >= 0
  {
    if list == [] then 0
    else
      var rest := UsedMax(list[..|list| - 1]);
      match ToInt(Field(list[|list| - 1], "id"))
      case Some(i) => if i > rest then i else rest
      case None => rest
  }

  /** One past the largest id ever handed out or found, wrapping at 64 bits. */
  function NextId(state: Node, list: seq<Node>): Int64
  {
    var top := Max(Cursor(state), UsedMax(list));
    if top == MAX_INT64 then -MAX_INT64 - 1 else top + 1
  }

  lemma {:induction false} UsedMaxIsBound(list: seq<Node>, i: nat)
    requires i < |list| && ValidId(list[i])
    ensures IdOf(list[i]) <= UsedMax(list)
    decreases |list|
  {
    if i < |list| - 1 { UsedMaxIsBound(list[..|list| - 1], i); }
  }

  function SaveCursor(f: Files, nid: Int64, w: Write): Files
  {
    if w.NotDone? then f else f.(state := f.state["next_node_id" := JNum(nid)])
  }

  // ----- edits of the list -----

  const CERT_PEM := "/etc/sbx/certs/cert.pem"
  const KEY_PEM := "/etc/sbx/certs/key.pem"

  function WithCerts(n: Node): Node
  {
    if Str(n, "type") == "trojan" || Str(n, "type") == "anytls" then n["cert" := JStr(CERT_PEM)]["key" := JStr(KEY_PEM)] else n
  }

  function Numbered(n: Node, nid: Int64): Node
  {
    var m := n["id" := JNum(nid)];
    WithCerts(if Str(m, "name") == "" then m["name" := JStr(Str(m, "type") + "-" + IntText(nid))] else m)
  }

  predicate HasId(n: Node, id: string) { IDString(n) == id }

  predicate HasUuid(n: Node, uuid: string) { Str(n, "node_uuid") == uuid }

  /** The first position whose node satisfies p, or the length of the list. */
  function Find(list: seq<Node>, p: Node -> bool): (i: nat)
    ensures i <= |list| && (i < |list| ==> p(list[i])) && forall j :: 0 <= j < i ==> !p(list[j])
  {
    if list == [] then 0 else if p(list[0]) then 0 else 1 + Find(list[1..], p)
  }

  function ById(id: string): Node -> bool { n => HasId(n, id) }

  function ByUuid(uuid: string): Node -> bool { n => HasUuid(n, uuid) }

  function Without(list: seq<Node>, i: nat): seq<Node>
    requires i < |list|
  {
    list[..i] + list[i + 1..]
  }

  function Switched(n: Node, enabled: bool): Node { if enabled then n - {"disabled"} else n["disabled" := JBool(true)] }

  /** The replacement keeps the local id and, if set, the name it does not bring and the disabled mark. */
  function Replacement(older: Node, n: Node): Node
  {
    var a := n["id" := Field(older, "id")];
    var b := if Str(a, "name") == "" then a["name" := JStr(Str(older, "name"))] else a;
    WithCerts(if Truthy(older, "disabled") then b["disabled" := JBool(true)] else b)
  }

  // ----- the candidate pair -----

  function Put(file: Option<Text>, text: Text, w: Write): Option<Text> { if w.NotDone? then file else Some(text) }

  function RebuiltFrom(conf: Option<Text>, list: seq<Node>): Option<Json>
  {
    if conf.Some? && conf.value.Parsed? then Rebuild(conf.value.json, list) else None
  }

  /** Both candidates, or an error; the second is not attempted unless the first is fully done. */
  function Candidates(f: Files, list: seq<Node>, w1: Write, w2: Write): (Files, bool)
  {
    if !ValidList(list) || RebuiltFrom(f.conf, Active(list)).None? then (f, false)
    else
      var g := f.(confCand := Put(f.confCand, Parsed(RebuiltFrom(f.conf, Active(list)).value), w1));
      if !w1.Done? then (g, false) else (g.(nodesCand := Put(g.nodesCand, StoredList(list), w2)), w2.Done?)
  }

  // ----- operations -----

  function Added(f: Files, n: Node, saved: Write, w1: Write, w2: Write): (Files, Option<Int64>)
  {
    match LoadStrict(f.nodes)
    case None => (f, None)
    case Some(list) =>
      var nid := NextId(f.state, list);
      var g := SaveCursor(f, nid, saved);
      if !saved.Done? then (g, None)
      else
        var c := Candidates(g, list + [Numbered(n, nid)], w1, w2);
        (c.0, if c.1 then Some(nid) else None)
  }

  function Deleted(f: Files, id: string, w1: Write, w2: Write): (Files, bool)
  {
    match LoadStrict(f.nodes)
    case None => (f, false)
    case Some(list) =>
      var i := Find(list, ById(id));
      if i == |list| then (f, false) else Candidates(f, Without(list, i), w1, w2)
  }

  function Replaced(f: Files, uuid: string, n: Node, w1: Write, w2: Write): (Files, bool)
  {
    match LoadStrict(f.nodes)
    case None => (f, false)
    case Some(list) =>
      var i := Find(list, ByUuid(uuid));
      if i == |list| then (f, false) else Candidates(f, list[i := Replacement(list[i], n)], w1, w2)
  }

  function Toggled(f: Files, id: string, enabled: bool, w1: Write, w2: Write): (Files, bool)
  {
    match LoadStrict(f.nodes)
    case None => (f, false)
    case Some(list) =>
      var i := Find(list, ById(id));
      if i == |list| then (f, false) else Candidates(f, list[i := Switched(list[i], enabled)], w1, w2)
  }

  /** How copying a file over another ends; a copy that breaks off leaves a file that is no JSON. */
  datatype Copy = Copied | Untouched | Mangled

  /** How a rollback ends: its two copies, and whether its two removals work. */
  datatype Undo = Undo(conf: Copy, nodes: Copy, dropConf: bool, dropNodes: bool)

  const CLEAN_UNDO := Undo(Copied, Copied, true, true)

  /** What the world answers while Apply runs. */
  datatype Outcomes = Outcomes(
    check: bool, copyConf: bool, copyNodes: bool, swapConf: Write, swapNodes: Write, restart: bool, health: bool, undo: Undo)

  function Restored(live: Option<Text>, bak: Option<Text>, c: Copy): Option<Text>
  {
    if bak.None? || c.Untouched? then live else if c.Copied? then bak else Some(Malformed)
  }

  /** Back to the backups; the candidates are thrown away. */
  function RolledBack(f: Files, hasNodesBackup: bool, u: Undo): Files
  {
    f.(conf := Restored(f.conf, f.confBak, u.conf),
       nodes := if hasNodesBackup then Restored(f.nodes, f.nodesBak, u.nodes) else f.nodes,
       confCand := if u.dropConf then None else f.confCand,
       nodesCand := if u.dropNodes then None else f.nodesCand)
  }

  /** The files at the end of Apply, and its result. */
  function Applied(f: Files, o: Outcomes): (Files, int)
  {
    if f.confCand.None? || !o.check then (f, 1)
    else if f.conf.Some? && !o.copyConf then (f.(confBak := Some(Malformed)), 1)
    else
      var f1 := if f.conf.Some? then f.(confBak := f.conf) else f;
      if f1.nodes.Some? && !o.copyNodes then (f1.(nodesBak := Some(Malformed)), 1)
      else
        var f2 := if f1.nodes.Some? then f1.(nodesBak := f1.nodes) else f1;
        var f3 := if o.swapConf.NotDone? then f2 else f2.(conf := f2.confCand, confCand := None);
        if !o.swapConf.Done? then (RolledBack(f3, f.nodes.Some?, o.undo), 1)
        else
          var f4 := if f3.nodesCand.None? || o.swapNodes.NotDone? then f3 else f3.(nodes := f3.nodesCand, nodesCand := None);
          if f3.nodesCand.Some? && !o.swapNodes.Done? then (RolledBack(f4, f.nodes.Some?, o.undo), 1)
          else if !o.restart || !o.health then (RolledBack(f4, f.nodes.Some?, o.undo), 1)
          else (f4.(confBak := None, nodesBak := None, nodesCand := None), 0)
  }

  class Service {
    var conf: Option<Text>
    var nodes: Option<Text>
    var confCand: Option<Text>
    var nodesCand: Option<Text>
    var confBak: Option<Text>
    var nodesBak: Option<Text>
    var state: Node

    constructor (f: Files)
      ensures Stored() == f
    {
      conf, nodes, confCand, nodesCand := f.conf, f.nodes, f.confCand, f.nodesCand;
      confBak, nodesBak, state := f.confBak, f.nodesBak, f.state;
    }

    function Stored(): Files
      reads this
    {
      Files(conf, nodes, confCand, nodesCand, confBak, nodesBak, state)
    }

    method LoadToolNodesStrict() returns (list: Option<seq<Node>>)
      ensures list == LoadStrict(nodes)
    {
      list := Listing(nodes);
      if list.None? { return None; }
      var ok := ValidateNodes(list.value);
      if !ok { return None; }
    }

    method NextID(list: seq<Node>, saved: Write) returns (nid: Int64, ok: bool)
      modifies this
      ensures nid == NextId(old(state), list) && ok == saved.Done?
      ensures Stored() == SaveCursor(old(Stored()), nid, saved)
    {
      var usedMax: Int64 := 0;
      for i := 0 to |list|
        invariant usedMax == UsedMax(list[..i])
      {
        assert list[..i + 1][..i] == list[..i];
        match ToInt(Field(list[i], "id")) {
          case Some(id) => if id > usedMax { usedMax := id; }
          case None =>
        }
      }
      assert list[..|list|] == list;
      var top := Max(Cursor(state), usedMax);
      nid := if top == MAX_INT64 then -MAX_INT64 - 1 else top + 1;
      if !saved.NotDone? { state := state["next_node_id" := JNum(nid)]; }
      ok := saved.Done?;
    }

    method WriteCandidates(list: seq<Node>, w1: Write, w2: Write) returns (ok: bool)
      modifies this
      ensures (Stored(), ok) == Candidates(old(Stored()), list, w1, w2)
    {
      hide Rebuild, Truthy, ValidList;
      ok := ValidateNodes(list);
      if !ok { return false; }
      var active: seq<Node> := [];
      for i := 0 to |list|
        invariant active == Active(list[..i])
        invariant Stored() == old(Stored())
      {
        assert list[..i + 1] == list[..i] + [list[i]];
        ActiveConcat(list[..i], [list[i]]);
        ActiveOne(list[i]);
        if Truthy(list[i], "disabled") { continue; }
        active := active + [list[i]];
      }
      assert list[..|list|] == list;
      if conf.None? || conf.value.Malformed? { return false; }
      var cfg := RebuildConfig(conf.value.json, active);
      if cfg.None? { return false; }
      if !w1.NotDone? { confCand := Some(Parsed(cfg.value)); }
      if !w1.Done? { return false; }
      if !w2.NotDone? { nodesCand := Some(StoredList(list)); }
      return w2.Done?;
    }

    method AddNode(node: Node, saved: Write, w1: Write, w2: Write) returns (id: Option<Int64>)
      modifies this
      ensures (Stored(), id) == Added(old(Stored()), node, saved, w1, w2)
    {
      hide LoadStrict, Candidates, Numbered, NextId, SaveCursor;
      var loaded := LoadToolNodesStrict();
      if loaded.None? { return None; }
      var nid, ok := NextID(loaded.value, saved);
      if !ok { return None; }
      ok := WriteCandidates(loaded.value + [Numbered(node, nid)], w1, w2);
      return if ok then Some(nid) else None;
    }

    method IndexOf(list: seq<Node>, p: Node -> bool) returns (i: nat)
      ensures i == Find(list, p)
    {
      i := 0;
      while i < |list|
        invariant i <= |list| && forall j :: 0 <= j < i ==> !p(list[j])
      {
        if p(list[i]) { break; }
        i := i + 1;
      }
    }

    method RemoveNode(id: string, w1: Write, w2: Write) returns (ok: bool)
      modifies this
      ensures (Stored(), ok) == Deleted(old(Stored()), id, w1, w2)
    {
      hide LoadStrict, Candidates;
      var loaded := LoadToolNodesStrict();
      if loaded.None? { return false; }
      var i := IndexOf(loaded.value, ById(id));
      if i == |loaded.value| { return false; }
      ok := WriteCandidates(loaded.value[..i] + loaded.value[i + 1..], w1, w2);
    }

    method ReplaceNode(uuid: string, newNode: Node, w1: Write, w2: Write) returns (ok: bool)
      modifies this
      ensures (Stored(), ok) == Replaced(old(Stored()), uuid, newNode, w1, w2)
    {
      hide LoadStrict, Candidates, Replacement;
      var loaded := LoadToolNodesStrict();
      if loaded.None? { return false; }
      var i := IndexOf(loaded.value, ByUuid(uuid));
      if i == |loaded.value| { return false; }
      var n := TakeOver(loaded.value[i], newNode);
      ok := WriteCandidates(loaded.value[i := n], w1, w2);
    }

    /** The new definition takes over what belongs to the node's place. */
    method TakeOver(older: Node, newNode: Node) returns (n: Node)
      ensures n == Replacement(older, newNode)
    {
      hide Str, Truthy;
      n := newNode["id" := Field(older, "id")];
      if Str(n, "name") == "" { n := n["name" := JStr(Str(older, "name"))]; }
      if Truthy(older, "disabled") { n := n["disabled" := JBool(true)]; }
      if Str(n, "type") == "trojan" || Str(n, "type") == "anytls" {
        n := n["cert" := JStr(CERT_PEM)];
        n := n["key" := JStr(KEY_PEM)];
      }
    }

    method SetEnabled(id: string, enabled: bool, w1: Write, w2: Write) returns (ok: bool)
      modifies this
      ensures (Stored(), ok) == Toggled(old(Stored()), id, enabled, w1, w2)
    {
      hide LoadStrict, Candidates;
      var loaded := LoadToolNodesStrict();
      if loaded.None? { return false; }
      var i := IndexOf(loaded.value, ById(id));
      if i == |loaded.value| { return false; }
      var n := loaded.value[i];
      if enabled { n := n - {"disabled"}; } else { n := n["disabled" := JBool(true)]; }
      ok := WriteCandidates(loaded.value[i := n], w1, w2);
    }

    method Apply(o: Outcomes) returns (rc: int)
      modifies this
      ensures (Stored(), rc) == Applied(old(Stored()), o)
    {
      if confCand.None? { return 1; }
      if !o.check { return 1; }
      if conf.Some? {
        if !o.copyConf { confBak := Some(Malformed); return 1; }
        confBak := conf;
      }
      var hasNodesBackup := false;
      if nodes.Some? {
        if !o.copyNodes { nodesBak := Some(Malformed); return 1; }
        nodesBak := nodes;
        hasNodesBackup := true;
      }
      if !o.swapConf.NotDone? { conf, confCand := confCand, None; }
      if !o.swapConf.Done? {
        Rollback(hasNodesBackup, o.undo);
        return 1;
      }
      if nodesCand.Some? {
        if !o.swapNodes.NotDone? { nodes, nodesCand := nodesCand, None; }
        if !o.swapNodes.Done? {
          Rollback(hasNodesBackup, o.undo);
          return 1;
        }
      }
      if !o.restart || !o.health {
        Rollback(hasNodesBackup, o.undo);
        return 1;
      }
      confBak, nodesBak, nodesCand := None, None, None;
      return 0;
    }

    method CopyOver(live: Option<Text>, bak: Option<Text>, c: Copy) returns (file: Option<Text>)
      ensures file == Restored(live, bak, c)
    {
      file := live;
      if bak.Some? {
        match c {
          case Copied => file := bak;
          case Untouched =>
          case Mangled => file := Some(Malformed);
        }
      }
    }

    method Rollback(hasNodesBackup: bool, u: Undo)
      modifies this
      ensures Stored() == RolledBack(old(Stored()), hasNodesBackup, u)
    {
      conf := CopyOver(conf, confBak, u.conf);
      if hasNodesBackup { nodes := CopyOver(nodes, nodesBak, u.nodes); }
      if u.dropConf { confCand := None; }
      if u.dropNodes { nodesCand := None; }
    }
  }

  // ----- agreement -----

  /** The owned inbounds of a configuration are those of the enabled nodes of a valid node list. */
  predicate Matches(conf: Option<Text>, list: seq<Node>)
  {
    && conf.Some? && conf.value.Parsed? && conf.value.json.JObj? && ValidList(list)
    && Built(Active(list)).Some? && Section(conf.value.json, true) == Built(Active(list)).value
  }

  predicate Agrees(conf: Option<Text>, nodes: Option<Text>)
  {
    Listing(nodes).Some? && Matches(conf, Listing(nodes).value)
  }

  /** The live pair agrees, and so does a candidate pair if there is one that is not torn. */
  predicate Sane(f: Files, torn: bool)
  {
    && f.conf.Some? && f.nodes.Some? && Agrees(f.conf, f.nodes)
    && (f.confCand.Some? && !torn ==> f.nodesCand.Some? && Agrees(f.confCand, f.nodesCand))
  }

  predicate Inv(f: Files) { Sane(f, false) }

  /** Either both candidate writes take effect or neither does. */
  predicate Whole(w1: Write, w2: Write) { w1.NotDone? || (w1.Done? && !w2.NotDone?) }

  /**
    Whether the candidates are torn after writing this list: a write of just the first tears them, one
    of both mends them.
   */
  predicate TornBy(f: Files, torn: bool, list: seq<Node>, w1: Write, w2: Write)
  {
    if !ValidList(list) || RebuiltFrom(f.conf, Active(list)).None? || w1.NotDone? then torn else !Whole(w1, w2)
  }

  lemma RebuiltMatches(conf: Option<Text>, list: seq<Node>)
    requires ValidList(list) && RebuiltFrom(conf, Active(list)).Some?
    ensures Matches(Some(Parsed(RebuiltFrom(conf, Active(list)).value)), list)
  {
    ActiveIsValid(list);
    hide ValidList, Active, Section, Built;
    RebuildReplacesOnlyOwned(conf.value.json, Active(list));
    assert Rebuild(conf.value.json, Active(list)).value.JObj?;
    assert Built(Active(list)).Some?;
  }

  lemma CandidatesKeepSane(f: Files, torn: bool, list: seq<Node>, w1: Write, w2: Write)
    requires Sane(f, torn)
    ensures Sane(Candidates(f, list, w1, w2).0, TornBy(f, torn, list, w1, w2))
  {
    if ValidList(list) && RebuiltFrom(f.conf, Active(list)).Some? {
      RebuiltMatches(f.conf, list);
      ListingOfStored(list);
      hide Matches, Listing, RebuiltFrom, ValidList, StoredList;
    }
  }

  /** The rollback, should there be one, copies both files back. */
  predicate Restores(u: Undo) { u.conf.Copied? && u.nodes.Copied? }

  /**
    When nothing goes wrong Apply returns 0 and installs the pair; in every other case it returns 1 and,
    its rollback working, both live files stay.
   */
  lemma ApplyIsAtomic(f: Files, o: Outcomes)
    requires f.conf.Some? && f.nodes.Some?
    ensures var (g, rc) := Applied(f, o);
      && (rc == 0 <==> f.confCand.Some? && o.check && o.copyConf && o.copyNodes && o.swapConf.Done? &&
                       (f.nodesCand.Some? ==> o.swapNodes.Done?) && o.restart && o.health)
      && (rc == 0 ==> g.conf == f.confCand && g.nodes == (if f.nodesCand.Some? then f.nodesCand else f.nodes) &&
                      g.confCand.None? && g.nodesCand.None?)
      && (rc != 0 ==> rc == 1 && (Restores(o.undo) ==> g.conf == f.conf && g.nodes == f.nodes))
  {
  }

  // ----- Apply as its single writes -----

  /** One thing Apply does to the files: a copy, a rename or a removal. */
  datatype Act =
    | BackUpConf(c: Copy)
    | BackUpNodes(c: Copy)
    | SwapConf
    | SwapNodes
    | RestoreConf(c: Copy)
    | RestoreNodes(c: Copy)
    | DropConfCand
    | DropConfBak
    | DropNodesBak
    | DropNodesCand

  function Do(f: Files, a: Act): Files
  {
    match a
    case BackUpConf(c) => f.(confBak := Restored(f.confBak, f.conf, c))
    case BackUpNodes(c) => f.(nodesBak := Restored(f.nodesBak, f.nodes, c))
    case SwapConf => f.(conf := f.confCand, confCand := None)
    case SwapNodes => f.(nodes := f.nodesCand, nodesCand := None)
    case RestoreConf(c) => f.(conf := Restored(f.conf, f.confBak, c))
    case RestoreNodes(c) => f.(nodes := Restored(f.nodes, f.nodesBak, c))
    case DropConfCand => f.(confCand := None)
    case DropConfBak => f.(confBak := None)
    case DropNodesBak => f.(nodesBak := None)
    case DropNodesCand => f.(nodesCand := None)
  }

  function DoAll(f: Files, acts: seq<Act>): Files
    decreases |acts|
  {
    if acts == [] then f else Do(DoAll(f, acts[..|acts| - 1]), acts[|acts| - 1])
  }

  function If(b: bool, a: Act): seq<Act> { if b then [a] else [] }

  function UndoActs(hasNodesBackup: bool, u: Undo): seq<Act>
  {
    [RestoreConf(u.conf)] +
    (If(hasNodesBackup, RestoreNodes(u.nodes)) + (If(u.dropConf, DropConfCand) + If(u.dropNodes, DropNodesCand)))
  }

  /** What Apply does once its backups stand. */
  function SwapActs(f: Files, o: Outcomes): seq<Act>
  {
    if !o.swapConf.Done? then If(!o.swapConf.NotDone?, SwapConf) + UndoActs(f.nodes.Some?, o.undo)
    else [SwapConf] + (If(f.nodesCand.Some? && !o.swapNodes.NotDone?, SwapNodes) + EndActs(f, o))
  }

  function EndActs(f: Files, o: Outcomes): seq<Act>
  {
    if (f.nodesCand.Some? && !o.swapNodes.Done?) || !o.restart || !o.health then UndoActs(f.nodes.Some?, o.undo)
    else [DropConfBak] + ([DropNodesBak] + [DropNodesCand])
  }

  /** All that Apply does to the files, in order. */
  function Acts(f: Files, o: Outcomes): seq<Act>
  {
    if f.confCand.None? || !o.check then []
    else if f.conf.Some? && !o.copyConf then [BackUpConf(Mangled)]
    else If(f.conf.Some?, BackUpConf(Copied)) +
         if f.nodes.Some? && !o.copyNodes then [BackUpNodes(Mangled)]
         else If(f.nodes.Some?, BackUpNodes(Copied)) + SwapActs(f, o)
  }

  lemma {:induction false} DoAllJoins(f: Files, a: seq<Act>, b: seq<Act>)
    ensures DoAll(f, a + b) == DoAll(DoAll(f, a), b)
    decreases |b|
  {
    hide Do;
    if b == [] {
      assert a + b == a;
    } else {
      var n := |b| - 1;
      assert (a + b)[..|a + b| - 1] == a + b[..n];
      DoAllJoins(f, a, b[..n]);
    }
  }

  lemma IfTrue(a: Act)
    ensures If(true, a) == [a]
  {
  }

  lemma DoIf(f: Files, b: bool, a: Act, rest: seq<Act>)
    ensures DoAll(f, If(b, a) + rest) == DoAll(if b then Do(f, a) else f, rest)
  {
    DoAllJoins(f, If(b, a), rest);
    hide Do;
    assert [a][..0] == [] && DoAll(f, []) == f;
  }

  lemma DropsDone(f: Files, u: Undo)
    ensures DoAll(f, If(u.dropConf, DropConfCand) + If(u.dropNodes, DropNodesCand)) ==
            f.(confCand := if u.dropConf then None else f.confCand, nodesCand := if u.dropNodes then None else f.nodesCand)
  {
    var g := if u.dropConf then Do(f, DropConfCand) else f;
    DoIf(f, u.dropConf, DropConfCand, If(u.dropNodes, DropNodesCand));
    DoIf(g, u.dropNodes, DropNodesCand, []);
    assert If(u.dropNodes, DropNodesCand) + [] == If(u.dropNodes, DropNodesCand);
    assert forall h :: DoAll(h, []) == h;
    hide DoAll, If;
  }

  lemma UndoIsItsActs(f: Files, has: bool, u: Undo)
    ensures DoAll(f, UndoActs(has, u)) == RolledBack(f, has, u)
  {
    hide DoAll, If, Restored;
    var f1 := Do(f, RestoreConf(u.conf));
    var f2 := if has then Do(f1, RestoreNodes(u.nodes)) else f1;
    var drops := If(u.dropConf, DropConfCand) + If(u.dropNodes, DropNodesCand);
    IfTrue(RestoreConf(u.conf));
    DoIf(f, true, RestoreConf(u.conf), If(has, RestoreNodes(u.nodes)) + drops);
    DoIf(f1, has, RestoreNodes(u.nodes), drops);
    DropsDone(f2, u);
  }

  lemma CleanUp(f: Files)
    ensures DoAll(f, [DropConfBak] + ([DropNodesBak] + [DropNodesCand]))
        == f.(confBak := None, nodesBak := None, nodesCand := None)
  {
    var f1 := Do(f, DropConfBak);
    var f2 := Do(f1, DropNodesBak);
    DoIf(f, true, DropConfBak, [DropNodesBak] + [DropNodesCand]);
    DoIf(f1, true, DropNodesBak, [DropNodesCand]);
    DoIf(f2, true, DropNodesCand, []);
    assert [DropNodesCand] + [] == [DropNodesCand];
  }

  /** One after the other they are Apply. */
  lemma ApplyIsItsActs(f: Files, o: Outcomes)
    ensures DoAll(f, Acts(f, o)) == Applied(f, o).0
  {
    if f.confCand.None? || !o.check {
    } else if f.conf.Some? && !o.copyConf {
      OneAct(f, BackUpConf(Mangled));
    } else {
      BackUpsAreTheirActs(f, o);
    }
  }

  lemma OneAct(f: Files, a: Act)
    ensures DoAll(f, [a]) == Do(f, a)
  {
    assert [a][..0] == [] && DoAll(f, []) == f;
  }

  lemma BackUpsAreTheirActs(f: Files, o: Outcomes)
    requires f.confCand.Some? && o.check && (f.conf.Some? ==> o.copyConf)
    ensures DoAll(f, Acts(f, o)) == Applied(f, o).0
  {
    hide DoAll, UndoActs, RolledBack, If;
    var f1 := if f.conf.Some? then Do(f, BackUpConf(Copied)) else f;
    if f.nodes.Some? && !o.copyNodes {
      DoIf(f, f.conf.Some?, BackUpConf(Copied), [BackUpNodes(Mangled)]);
      OneAct(f1, BackUpNodes(Mangled));
    } else {
      var f2 := if f.nodes.Some? then Do(f1, BackUpNodes(Copied)) else f1;
      DoIf(f, f.conf.Some?, BackUpConf(Copied), If(f.nodes.Some?, BackUpNodes(Copied)) + SwapActs(f, o));
      DoIf(f1, f.nodes.Some?, BackUpNodes(Copied), SwapActs(f, o));
      SwapsAreTheirActs(f, f2, o);
      hide SwapActs;
    }
  }

  lemma SwapsAreTheirActs(f: Files, f2: Files, o: Outcomes)
    requires f2.nodes == f.nodes && f2.nodesCand == f.nodesCand
    ensures DoAll(f2, SwapActs(f, o)) ==
            var f3 := if o.swapConf.NotDone? then f2 else f2.(conf := f2.confCand, confCand := None);
            if !o.swapConf.Done? then RolledBack(f3, f.nodes.Some?, o.undo)
            else
              var f4 := if f3.nodesCand.None? || o.swapNodes.NotDone? then f3 else f3.(nodes := f3.nodesCand, nodesCand := None);
              if (f3.nodesCand.Some? && !o.swapNodes.Done?) || !o.restart || !o.health then RolledBack(f4, f.nodes.Some?, o.undo)
              else f4.(confBak := None, nodesBak := None, nodesCand := None)
  {
    hide UndoActs, RolledBack, DoAll;
    var f3 := if o.swapConf.NotDone? then f2 else Do(f2, SwapConf);
    if !o.swapConf.Done? {
      DoIf(f2, !o.swapConf.NotDone?, SwapConf, UndoActs(f.nodes.Some?, o.undo));
      UndoIsItsActs(f3, f.nodes.Some?, o.undo);
    } else {
      var b := f.nodesCand.Some? && !o.swapNodes.NotDone?;
      var f4 := if b then Do(f3, SwapNodes) else f3;
      DoIf(f2, true, SwapConf, If(b, SwapNodes) + EndActs(f, o));
      DoIf(f3, b, SwapNodes, EndActs(f, o));
      UndoIsItsActs(f4, f.nodes.Some?, o.undo);
      CleanUp(f4);
    }
  }

  predicate IsCopy(a: Act) { a.BackUpConf? || a.BackUpNodes? || a.RestoreConf? || a.RestoreNodes? }

  function Broken(a: Act): Act
    requires IsCopy(a)
  {
    a.(c := Mangled)
  }

  /** What an Apply that dies has done: so many of its acts, and possibly the first part of a copy. */
  function Cut(acts: seq<Act>, done: nat, inCopy: bool): seq<Act>
  {
    if done >= |acts| then acts
    else if inCopy && IsCopy(acts[done]) then acts[..done] + [Broken(acts[done])]
    else acts[..done]
  }

  /** The files an agent that dies inside Apply leaves behind. */
  function Interrupted(f: Files, o: Outcomes, done: nat, inCopy: bool): Files
  {
    DoAll(f, Cut(Acts(f, o), done, inCopy))
  }

  // ----- which files are live after some of the acts -----

  /** The place of an act in Apply. */
  function Rank(a: Act): nat
  {
    match a
    case BackUpConf(_) => 0
    case BackUpNodes(_) => 1
    case SwapConf => 2
    case SwapNodes => 3
    case RestoreConf(_) => 4
    case RestoreNodes(_) => 5
    case DropConfCand => 6
    case DropConfBak => 7
    case DropNodesBak => 8
    case DropNodesCand => 9
  }

  /** In order, and with both backups made before anything else. */
  predicate InPlace(acts: seq<Act>)
  {
    && (forall i, j :: 0 <= i < j < |acts| ==> Rank(acts[i]) < Rank(acts[j]))
    && (forall i :: 0 <= i < |acts| && Rank(acts[i]) >= 2 ==>
          i >= 2 && acts[0] == BackUpConf(Copied) && acts[1] == BackUpNodes(Copied))
  }

  predicate Ascending(acts: seq<Act>, low: nat, high: nat)
  {
    && (forall i :: 0 <= i < |acts| ==> low <= Rank(acts[i]) < high)
    && (forall i, j :: 0 <= i < j < |acts| ==> Rank(acts[i]) < Rank(acts[j]))
  }

  /** An act that may be left out, followed by later ones. */
  lemma IfAscends(b: bool, a: Act, rest: seq<Act>, low: nat, high: nat)
    requires Ascending(rest, low, high) && Rank(a) < low <= high
    ensures Ascending(If(b, a) + rest, Rank(a), high)
  {
    hide Rank;
  }

  lemma UndoAscends(hasNodesBackup: bool, u: Undo)
    ensures Ascending(UndoActs(hasNodesBackup, u), 4, 10)
  {
    hide Ascending, If;
    var drops := If(u.dropConf, DropConfCand) + If(u.dropNodes, DropNodesCand);
    DropsAscend(u);
    IfAscends(hasNodesBackup, RestoreNodes(u.nodes), drops, 6, 10);
    IfAscends(true, RestoreConf(u.conf), If(hasNodesBackup, RestoreNodes(u.nodes)) + drops, 5, 10);
    assert If(true, RestoreConf(u.conf)) == [RestoreConf(u.conf)] by { IfTrue(RestoreConf(u.conf)); }
  }

  lemma DropsAscend(u: Undo)
    ensures Ascending(If(u.dropConf, DropConfCand) + If(u.dropNodes, DropNodesCand), 6, 10)
  {
  }

  lemma EndAscends(f: Files, o: Outcomes)
    ensures Ascending(EndActs(f, o), 4, 10)
  {
    UndoAscends(f.nodes.Some?, o.undo);
    hide UndoActs;
  }

  lemma SwapsAscend(f: Files, o: Outcomes)
    ensures Ascending(SwapActs(f, o), 2, 10)
  {
    hide Ascending, If, EndActs, UndoActs;
    UndoAscends(f.nodes.Some?, o.undo);
    EndAscends(f, o);
    var b := f.nodesCand.Some? && !o.swapNodes.NotDone?;
    IfAscends(!o.swapConf.NotDone?, SwapConf, UndoActs(f.nodes.Some?, o.undo), 4, 10);
    IfAscends(b, SwapNodes, EndActs(f, o), 4, 10);
    IfAscends(true, SwapConf, If(b, SwapNodes) + EndActs(f, o), 3, 10);
    IfTrue(SwapConf);
  }

  lemma ActsInPlace(f: Files, o: Outcomes)
    requires f.conf.Some? && f.nodes.Some?
    ensures InPlace(Acts(f, o))
  {
    SwapsAscend(f, o);
    hide SwapActs;
    if f.confCand.Some? && o.check && o.copyConf && o.copyNodes {
      assert Acts(f, o) == [BackUpConf(Copied), BackUpNodes(Copied)] + SwapActs(f, o);
    }
  }

  lemma CutInPlace(acts: seq<Act>, done: nat, inCopy: bool)
    requires InPlace(acts)
    ensures InPlace(Cut(acts, done, inCopy))
  {
  }

  /** config.json has been replaced and not been copied back. */
  predicate NewConf(acts: seq<Act>) { SwapConf in acts && RestoreConf(Copied) !in acts }

  /** nodes.json has been replaced and not been copied back. */
  predicate NewNodes(acts: seq<Act>) { SwapNodes in acts && RestoreNodes(Copied) !in acts }

  /** No copy over a live file broke off. */
  predicate Unbroken(acts: seq<Act>) { RestoreConf(Mangled) !in acts && RestoreNodes(Mangled) !in acts }

  function LiveConf(f: Files, acts: seq<Act>): Option<Text>
  {
    if RestoreConf(Mangled) in acts then Some(Malformed) else if NewConf(acts) then f.confCand else f.conf
  }

  function LiveNodes(f: Files, acts: seq<Act>): Option<Text>
  {
    if RestoreNodes(Mangled) in acts then Some(Malformed) else if NewNodes(acts) then f.nodesCand else f.nodes
  }

  /** What the files other than the live ones look like while they still matter. */
  predicate Kept(f: Files, g: Files, acts: seq<Act>)
  {
    && (SwapConf !in acts ==> g.confCand == f.confCand || g.confCand.None?)
    && (SwapConf in acts ==> g.confCand.None?)
    && ((forall a :: a in acts ==> Rank(a) < 6) ==>
          && (SwapConf !in acts ==> g.confCand == f.confCand) && (SwapNodes !in acts ==> g.nodesCand == f.nodesCand)
          && (BackUpConf(Copied) in acts ==> g.confBak == f.conf)
          && (BackUpNodes(Copied) in acts ==> g.nodesBak == f.nodes))
  }

  lemma LastAct(acts: seq<Act>)
    requires acts != [] && InPlace(acts)
    ensures InPlace(acts[..|acts| - 1])
    ensures forall a :: a in acts <==> a in acts[..|acts| - 1] || a == acts[|acts| - 1]
    ensures forall a :: a in acts[..|acts| - 1] ==> Rank(a) < Rank(acts[|acts| - 1])
    ensures Rank(acts[|acts| - 1]) >= 2 ==>
        BackUpConf(Copied) in acts[..|acts| - 1] && BackUpNodes(Copied) in acts[..|acts| - 1]
  {
    var n := |acts| - 1;
    if Rank(acts[n]) >= 2 { assert acts[..n][0] == BackUpConf(Copied) && acts[..n][1] == BackUpNodes(Copied); }
  }

  lemma {:induction false} LiveFiles(f: Files, acts: seq<Act>)
    requires f.conf.Some? && f.nodes.Some? && InPlace(acts)
    ensures var g := DoAll(f, acts); g.conf == LiveConf(f, acts) && g.nodes == LiveNodes(f, acts) && Kept(f, g, acts)
    decreases |acts|
  {
    if acts != [] {
      var rest, a := acts[..|acts| - 1], acts[|acts| - 1];
      LastAct(acts);
      LiveFiles(f, rest);
      hide InPlace, Do, LiveConf, LiveNodes, Kept;
      OneMoreAct(f, DoAll(f, rest), rest, a, acts);
    }
  }

  lemma OneMoreAct(f: Files, g: Files, rest: seq<Act>, a: Act, acts: seq<Act>)
    requires f.conf.Some? && f.nodes.Some?
    requires forall b :: b in acts <==> b in rest || b == a
    requires forall b :: b in rest ==> Rank(b) < Rank(a)
    requires Rank(a) >= 2 ==> BackUpConf(Copied) in rest && BackUpNodes(Copied) in rest
    requires g.conf == LiveConf(f, rest) && g.nodes == LiveNodes(f, rest) && Kept(f, g, rest)
    ensures var h := Do(g, a); h.conf == LiveConf(f, acts) && h.nodes == LiveNodes(f, acts) && Kept(f, h, acts)
  {
    ConfAfter(f, g, rest, a, acts);
    NodesAfter(f, g, rest, a, acts);
    KeptAfter(f, g, rest, a, acts);
    hide Do, LiveConf, LiveNodes, Kept;
  }

  lemma ConfAfter(f: Files, g: Files, rest: seq<Act>, a: Act, acts: seq<Act>)
    requires f.conf.Some? && f.nodes.Some?
    requires forall b :: b in acts <==> b in rest || b == a
    requires forall b :: b in rest ==> Rank(b) < Rank(a)
    requires Rank(a) >= 2 ==> BackUpConf(Copied) in rest && BackUpNodes(Copied) in rest
    requires g.conf == LiveConf(f, rest) && g.nodes == LiveNodes(f, rest) && Kept(f, g, rest)
    ensures Do(g, a).conf == LiveConf(f, acts)
  {
    assert forall c :: RestoreConf(c) in acts <==> RestoreConf(c) in rest || RestoreConf(c) == a;
    match a {
      case SwapConf => assert forall c :: RestoreConf(c) !in rest;
      case RestoreConf(_) => assert forall c :: RestoreConf(c) !in rest;
      case _ => assert SwapConf in acts <==> SwapConf in rest;
    }
  }

  lemma NodesAfter(f: Files, g: Files, rest: seq<Act>, a: Act, acts: seq<Act>)
    requires f.conf.Some? && f.nodes.Some?
    requires forall b :: b in acts <==> b in rest || b == a
    requires forall b :: b in rest ==> Rank(b) < Rank(a)
    requires Rank(a) >= 2 ==> BackUpConf(Copied) in rest && BackUpNodes(Copied) in rest
    requires g.conf == LiveConf(f, rest) && g.nodes == LiveNodes(f, rest) && Kept(f, g, rest)
    ensures Do(g, a).nodes == LiveNodes(f, acts)
  {
    assert forall c :: RestoreNodes(c) in acts <==> RestoreNodes(c) in rest || RestoreNodes(c) == a;
    match a {
      case SwapNodes => assert forall c :: RestoreNodes(c) !in rest;
      case RestoreNodes(_) => assert forall c :: RestoreNodes(c) !in rest;
      case _ => assert SwapNodes in acts <==> SwapNodes in rest;
    }
  }

  lemma KeptAfter(f: Files, g: Files, rest: seq<Act>, a: Act, acts: seq<Act>)
    requires f.conf.Some? && f.nodes.Some?
    requires forall b :: b in acts <==> b in rest || b == a
    requires forall b :: b in rest ==> Rank(b) < Rank(a)
    requires Rank(a) >= 2 ==> BackUpConf(Copied) in rest && BackUpNodes(Copied) in rest
    requires g.conf == LiveConf(f, rest) && g.nodes == LiveNodes(f, rest) && Kept(f, g, rest)
    ensures Kept(f, Do(g, a), acts)
  {
    assert forall b :: b in rest ==> b in acts;
    if a.BackUpConf? {
      assert SwapConf !in rest && BackUpConf(Copied) !in rest && forall c :: RestoreConf(c) !in rest;
    }
    if a.BackUpNodes? {
      assert SwapNodes !in rest && BackUpNodes(Copied) !in rest && forall c :: RestoreNodes(c) !in rest;
    }
  }

  datatype Op =
    | Add(node: Node, saved: Write, w1: Write, w2: Write)
    | Remove(id: string, w1: Write, w2: Write)
    | Replace(uuid: string, node: Node, w1: Write, w2: Write)
    | Toggle(id: string, enabled: bool, w1: Write, w2: Write)
    | DoApply(o: Outcomes)
    | Die(o: Outcomes, done: nat, inCopy: bool)

  predicate Edits(op: Op) { !op.DoApply? && !op.Die? }

  function Perform(f: Files, op: Op): Files
  {
    match op
    case Add(n, saved, w1, w2) => Added(f, n, saved, w1, w2).0
    case Remove(id, w1, w2) => Deleted(f, id, w1, w2).0
    case Replace(uuid, n, w1, w2) => Replaced(f, uuid, n, w1, w2).0
    case Toggle(id, enabled, w1, w2) => Toggled(f, id, enabled, w1, w2).0
    case DoApply(o) => Applied(f, o).0
    case Die(o, done, inCopy) => Interrupted(f, o, done, inCopy)
  }

  /** The list an edit sets out to write; none if it stops before. */
  function Edited(f: Files, op: Op): Option<seq<Node>>
  {
    match LoadStrict(f.nodes)
    case None => None
    case Some(list) =>
      match op
      case Add(n, saved, _, _) => if saved.Done? then Some(list + [Numbered(n, NextId(f.state, list))]) else None
      case Remove(id, _, _) =>
        var i := Find(list, ById(id)); if i == |list| then None else Some(Without(list, i))
      case Replace(uuid, n, _, _) =>
        var i := Find(list, ByUuid(uuid)); if i == |list| then None else Some(list[i := Replacement(list[i], n)])
      case Toggle(id, enabled, _, _) =>
        var i := Find(list, ById(id)); if i == |list| then None else Some(list[i := Switched(list[i], enabled)])
      case DoApply(_) => None
      case Die(_, _, _) => None
  }

  /** Whether the candidates are torn after an operation. A rollback whose removals tear them counts. */
  predicate TornAfter(f: Files, torn: bool, op: Op)
  {
    if Edits(op) then
      if Edited(f, op).Some? then TornBy(f, torn, Edited(f, op).value, op.w1, op.w2) else torn
    else
      Perform(f, op).confCand.Some? && (torn || Perform(f, op).nodesCand != f.nodesCand)
  }

  /** The acts of an Apply, to its end or as far as it came. */
  function ActsOf(f: Files, op: Op): seq<Act>
    requires !Edits(op)
  {
    if op.DoApply? then Acts(f, op.o) else Cut(Acts(f, op.o), op.done, op.inCopy)
  }

  /**
    An Apply, successful, failed or cut short, leaves no broken live file and either both new ones or neither,
    unless the lists yield the same inbounds; from torn candidates it leaves neither.
   */
  predicate Orderly(f: Files, torn: bool, op: Op)
  {
    !Edits(op) ==>
      var acts := ActsOf(f, op);
      Unbroken(acts) && if torn then !NewConf(acts) && !NewNodes(acts) else NewConf(acts) == NewNodes(acts) || SameInbounds(f)
  }

  lemma ActsOfAreDone(f: Files, op: Op)
    requires !Edits(op) && f.conf.Some? && f.nodes.Some?
    ensures InPlace(ActsOf(f, op)) && Perform(f, op) == DoAll(f, ActsOf(f, op))
  {
    ActsInPlace(f, op.o);
    if op.DoApply? { ApplyIsItsActs(f, op.o); } else { CutInPlace(Acts(f, op.o), op.done, op.inCopy); }
    hide Acts, Applied, InPlace, DoAll;
  }

  lemma ApplyKeepsSane(f: Files, torn: bool, op: Op)
    requires !Edits(op) && Sane(f, torn) && Orderly(f, torn, op)
    ensures Sane(Perform(f, op), TornAfter(f, torn, op))
  {
    var acts := ActsOf(f, op);
    ActsOfAreDone(f, op);
    LiveFiles(f, acts);
    if f.confCand.None? { NoCandidateNoActs(f, op.o); }
    hide Agrees, Listing, Built, Active, InPlace, Acts, ActsOf, Perform, DoAll;
    if f.confCand.Some? && !torn { MixedPair(f.conf, f.nodes, f.confCand, f.nodesCand); }
  }

  /** Writing the candidates is all an edit does to the files, but for the id cursor. */
  lemma EditIsCandidates(f: Files, op: Op)
    requires Edits(op)
    ensures Edited(f, op).None? ==> Perform(f, op) == f.(state := Perform(f, op).state)
    ensures Edited(f, op).Some? ==> var g := f.(state := Perform(f, op).state);
              Perform(f, op) == Candidates(g, Edited(f, op).value, op.w1, op.w2).0
  {
    hide LoadStrict, Numbered, NextId, Find, Replacement, Switched, Without, RebuiltFrom, ValidList, Active, StoredList;
  }

  lemma PerformKeepsSane(f: Files, torn: bool, op: Op)
    requires Sane(f, torn) && Orderly(f, torn, op)
    ensures Sane(Perform(f, op), TornAfter(f, torn, op))
  {
    hide Sane, Candidates, LoadStrict, Edited, Perform, Orderly, TornBy;
    if !Edits(op) {
      ApplyKeepsSane(f, torn, op);
    } else {
      EditIsCandidates(f, op);
      var g := f.(state := Perform(f, op).state);
      CursorIsAside(f, g, torn);
      if Edited(f, op).Some? {
        CandidatesKeepSane(g, torn, Edited(f, op).value, op.w1, op.w2);
        TearingIsAside(f, g, torn, Edited(f, op).value, op.w1, op.w2);
      }
    }
  }

  lemma TearingIsAside(f: Files, g: Files, torn: bool, list: seq<Node>, w1: Write, w2: Write)
    requires g.conf == f.conf
    ensures TornBy(g, torn, list, w1, w2) == TornBy(f, torn, list, w1, w2)
  {
  }

  lemma CursorIsAside(f: Files, g: Files, torn: bool)
    requires g == f.(state := g.state) && Sane(f, torn)
    ensures Sane(g, torn)
  {
  }

  function Performed(f: Files, ops: seq<Op>): Files
    decreases |ops|
  {
    if ops == [] then f else Performed(Perform(f, ops[0]), ops[1..])
  }

  predicate OrderlyRun(f: Files, torn: bool, ops: seq<Op>)
    decreases |ops|
  {
    ops == [] || (Orderly(f, torn, ops[0]) && OrderlyRun(Perform(f, ops[0]), TornAfter(f, torn, ops[0]), ops[1..]))
  }

  /**
    Over every run of edits and applications, with every outcome of candidate writes, checks, backups, swaps,
    restarts, health checks, rollbacks and removals, and with the agent dying anywhere inside an Apply, the
    live configuration and node list agree, as long as each Apply leaves both live files new or neither.
   */
  lemma {:induction false} AgreementInEveryRun(f: Files, torn: bool, ops: seq<Op>)
    requires Sane(f, torn) && OrderlyRun(f, torn, ops)
    ensures Agrees(Performed(f, ops).conf, Performed(f, ops).nodes)
    decreases |ops|
  {
    hide Perform, Orderly, TornAfter, Agrees;
    if ops != [] {
      PerformKeepsSane(f, torn, ops[0]);
      AgreementInEveryRun(Perform(f, ops[0]), TornAfter(f, torn, ops[0]), ops[1..]);
    }
  }

  // ----- where agreement needs its hypotheses -----

  /** The new node list took effect before the failure. */
  predicate SwappedNodes(f: Files, o: Outcomes)
  {
    && f.confCand.Some? && o.check && o.copyConf && (f.nodes.Some? ==> o.copyNodes)
    && o.swapConf.Done? && f.nodesCand.Some? && !o.swapNodes.NotDone?
  }

  lemma EmptyMatches(conf: Option<Text>, list: seq<Node>)
    requires Matches(conf, []) && ValidList(list) && Built(Active(list)).Some?
    ensures Matches(conf, list) <==> Active(list) == []
  {
    assert Active([]) == [];
    hide ValidList, Active;
    BuiltLength(Active(list));
  }

  /**
    A failing Apply keeps the live pair in agreement exactly when nodes.json existed on entry, or its
    replacement had not taken effect, or the new list enables no node: a missing nodes.json is not restored.
   */
  lemma RollbackIsExact(f: Files, o: Outcomes)
    requires Agrees(f.conf, f.nodes) && f.nodesCand.Some? && Agrees(f.confCand, f.nodesCand)
    requires Applied(f, o).1 != 0 && Restores(o.undo)
    ensures Agrees(Applied(f, o).0.conf, Applied(f, o).0.nodes) <==>
            f.nodes.Some? || !SwappedNodes(f, o) || Active(Listing(f.nodesCand).value) == []
  {
    hide ValidList, Built, Section, Active;
    if f.nodes.None? {
      EmptyMatches(f.conf, Listing(f.nodesCand).value);
    }
    hide Matches, Listing;
  }

  /** The configuration took effect before the failure. */
  predicate SwappedConf(f: Files, o: Outcomes)
  {
    f.confCand.Some? && o.check && o.copyConf && (f.nodes.Some? ==> o.copyNodes) && !o.swapConf.NotDone?
  }

  /** Apply got as far as its backups, so a failure rolls back. */
  predicate BackedUp(f: Files, o: Outcomes) { f.confCand.Some? && o.check && o.copyConf && o.copyNodes }

  /** The candidate list yields the same inbounds as the live one. */
  predicate SameInbounds(f: Files)
  {
    && Listing(f.nodes).Some? && Listing(f.nodesCand).Some?
    && Built(Active(Listing(f.nodesCand).value)) == Built(Active(Listing(f.nodes).value))
  }

  /** Files of two agreeing pairs agree crosswise exactly when the pairs yield the same inbounds. */
  lemma MixedPair(c1: Option<Text>, n1: Option<Text>, c2: Option<Text>, n2: Option<Text>)
    requires Agrees(c1, n1) && Agrees(c2, n2)
    ensures Agrees(c1, n2) <==> Built(Active(Listing(n1).value)) == Built(Active(Listing(n2).value))
    ensures Agrees(c2, n1) <==> Built(Active(Listing(n1).value)) == Built(Active(Listing(n2).value))
  {
    hide ValidList, Built, Section, Active, Listing;
  }

  lemma MangledDisagrees(c: Option<Text>, n: Option<Text>)
    requires c == Some(Malformed) || n == Some(Malformed)
    ensures !Agrees(c, n)
  {
  }

  /**
    A failing Apply whose rollback may fail as well keeps agreement exactly when it did not get to roll back,
    or neither copy broke off and the files it left in place are both new or both old or yield the same
    inbounds.
   */
  lemma UndoIsExact(f: Files, o: Outcomes)
    requires Inv(f) && Applied(f, o).1 != 0
    ensures Agrees(Applied(f, o).0.conf, Applied(f, o).0.nodes) <==>
            !BackedUp(f, o) ||
            (!o.undo.conf.Mangled? && !o.undo.nodes.Mangled? &&
             ((SwappedConf(f, o) && o.undo.conf.Untouched?) == (SwappedNodes(f, o) && o.undo.nodes.Untouched?) ||
              SameInbounds(f)))
  {
    hide Agrees, Listing, Built, Active;
    var g := Applied(f, o).0;
    if BackedUp(f, o) {
      MixedPair(f.conf, f.nodes, f.confCand, f.nodesCand);
      AgreeingLists(f);
      if o.undo.conf.Mangled? || o.undo.nodes.Mangled? { MangledDisagrees(g.conf, g.nodes); }
    }
  }

  /**
    An agent that dies inside Apply, after any of its acts or in the middle of a copy, whatever the outcomes
    up to there, leaves files that agree exactly when no copy over a live file broke off and either both of
    the live files are new ones or neither is, or the lists yield the same inbounds. So with a working
    rollback it fails exactly between the two swaps, between the two copies back and inside them.
   */
  lemma InterruptionIsExact(f: Files, o: Outcomes, done: nat, inCopy: bool)
    requires Inv(f)
    ensures var acts, g := Cut(Acts(f, o), done, inCopy), Interrupted(f, o, done, inCopy);
            Agrees(g.conf, g.nodes) <==> Unbroken(acts) && (NewConf(acts) == NewNodes(acts) || SameInbounds(f))
  {
    var acts := Cut(Acts(f, o), done, inCopy);
    ActsInPlace(f, o);
    CutInPlace(Acts(f, o), done, inCopy);
    LiveFiles(f, acts);
    NoCandidateNoActs(f, o);
    hide Agrees, Listing, Built, Active, InPlace, Acts, Kept;
    if f.confCand.Some? { MixedPair(f.conf, f.nodes, f.confCand, f.nodesCand); AgreeingLists(f); }
    if !Unbroken(acts) { MangledDisagrees(LiveConf(f, acts), LiveNodes(f, acts)); }
  }

  lemma NoCandidateNoActs(f: Files, o: Outcomes)
    ensures f.confCand.None? ==> Acts(f, o) == []
  {
  }

  lemma AgreeingLists(f: Files)
    requires Agrees(f.conf, f.nodes) && Agrees(f.confCand, f.nodesCand)
    ensures Listing(f.nodes).Some? && Listing(f.nodesCand).Some?
  {
  }

  /** All answers are good. */
  const SMOOTH := Outcomes(true, true, true, Done, Done, true, true, CLEAN_UNDO)

  /** The node list that a later Apply would pair with the configuration candidate. */
  function PairedList(f: Files): Option<seq<Node>> { Listing(if f.nodesCand.Some? then f.nodesCand else f.nodes) }

  /**
    If only the first candidate is written, applying the pair afterwards leaves the live files in agreement
    exactly when the node list it is then paired with yields the same inbounds as the list just edited.
   */
  lemma HalfWrittenPairIsExact(f: Files, list: seq<Node>, w1: Write, w2: Write)
    requires Inv(f) && !Whole(w1, w2) && ValidList(list) && RebuiltFrom(f.conf, Active(list)).Some?
    requires PairedList(f).Some? && ValidList(PairedList(f).value)
    ensures var g := Applied(Candidates(f, list, w1, w2).0, SMOOTH).0;
            Agrees(g.conf, g.nodes) <==> Built(Active(PairedList(f).value)) == Built(Active(list))
  {
    RebuiltMatches(f.conf, list);
    ActiveBuilds(PairedList(f).value);
    hide ValidList, Active, Section, Listing, RebuiltFrom;
  }

  lemma {:induction false} ValidListBuilds(list: seq<Node>)
    requires ValidList(list)
    ensures Built(list).Some?
    decreases |list|
  {
    hide ValidNode, BuildInbound, IdOf, PortOf;
    if list != [] {
      assert list[0] in list && ValidNode(list[0]);
      ValidBuilds(list[0]);
      assert forall i :: 0 <= i < |list[1..]| ==> list[1..][i] == list[i + 1];
      ValidTail(list);
      ValidListBuilds(list[1..]);
    }
  }

  lemma ValidTail(list: seq<Node>)
    requires ValidList(list) && list != []
    ensures ValidList(list[1..])
  {
    hide ValidId, ValidPort, ValidType, IdOf, PortOf;
    assert forall i :: 0 <= i < |list[1..]| ==> list[1..][i] == list[i + 1];
  }

  lemma ActiveBuilds(list: seq<Node>)
    requires ValidList(list)
    ensures Built(Active(list)).Some?
  {
    ActiveIsValid(list);
    ValidListBuilds(Active(list));
  }

  // ----- what the edits do -----

  /** Adding a node extends the candidate list by it, and the owned inbounds by its inbound unless it is disabled. */
  lemma AddAppends(f: Files, n: Node, nid: Int64)
    requires Inv(f) && Added(f, n, Done, Done, Done).1 == Some(nid)
    ensures var g := Added(f, n, Done, Done, Done).0; var added := Numbered(n, nid);
      && Listing(g.nodesCand) == Some(Listing(f.nodes).value + [added])
      && g.confCand.Some? && g.confCand.value.Parsed? && BuildInbound(added).Some?
      && Section(g.confCand.value.json, true) ==
         Section(f.conf.value.json, true) + (if Truthy(added, "disabled") then [] else [BuildInbound(added).value])
      && Section(g.confCand.value.json, false) == Section(f.conf.value.json, false)
  {
    var list, added := LoadStrict(f.nodes).value, Numbered(n, nid);
    var longer := list + [added];
    ListingOfStored(longer);
    ActiveIsValid(longer);
    assert longer[|list|] == added && ValidNode(longer[|list|]);
    ValidBuilds(added);
    ActiveConcat(list, [added]);
    ActiveOne(added);
    BuiltConcat(Active(list), Active([added]));
    BuiltOne(added);
    hide ValidList, Numbered, Active, Built, Section, BuildInbound, StoredList, Listing;
    RebuildReplacesOnlyOwned(f.conf.value.json, Active(longer));
    assert Built([]) == Some([]);
  }

  /** Before 64 bits are exhausted, a new id exceeds every id in use and every id ever handed out. */
  lemma {:induction false} NextIdIsFresh(state: Node, list: seq<Node>)
    requires ValidList(list) && Cursor(state) < MAX_INT64 && UsedMax(list) < MAX_INT64
    ensures NextId(state, list) > Cursor(state) && NextId(state, list) > 0
    ensures forall i :: 0 <= i < |list| ==> NextId(state, list) > IdOf(list[i])
    ensures Cursor(state["next_node_id" := JNum(NextId(state, list))]) == NextId(state, list)
  {
    forall i | 0 <= i < |list| ensures NextId(state, list) > IdOf(list[i]) { UsedMaxIsBound(list, i); }
  }

  /** No id has been exhausted on the way. */
  predicate IdsLeft(f: Files)
  {
    LoadStrict(f.nodes).Some? ==> Cursor(f.state) < MAX_INT64 && UsedMax(LoadStrict(f.nodes).value) < MAX_INT64
  }

  predicate IdsLeftIn(f: Files, ops: seq<Op>)
    decreases |ops|
  {
    IdsLeft(f) && (ops != [] ==> IdsLeftIn(Perform(f, ops[0]), ops[1..]))
  }

  lemma {:induction false} ActsKeepState(f: Files, acts: seq<Act>)
    ensures DoAll(f, acts).state == f.state
    decreases |acts|
  {
    if acts != [] { ActsKeepState(f, acts[..|acts| - 1]); }
  }

  lemma CursorNeverFalls(f: Files, op: Op)
    requires IdsLeft(f)
    ensures Cursor(Perform(f, op).state) >= Cursor(f.state)
  {
    hide Numbered, RebuiltFrom, ValidList, StoredList, Active, Acts, DoAll;
    if op.Die? { ActsKeepState(f, Cut(Acts(f, op.o), op.done, op.inCopy)); }
    if op.Add? && LoadStrict(f.nodes).Some? { NextIdIsFresh(f.state, LoadStrict(f.nodes).value); }
  }

  lemma {:induction false} CursorNeverFallsInRuns(f: Files, ops: seq<Op>)
    requires IdsLeftIn(f, ops)
    ensures Cursor(Performed(f, ops).state) >= Cursor(f.state) && IdsLeft(Performed(f, ops))
    decreases |ops|
  {
    hide Perform, Cursor, IdsLeft;
    if ops != [] {
      CursorNeverFalls(f, ops[0]);
      CursorNeverFallsInRuns(Perform(f, ops[0]), ops[1..]);
    }
  }

  /** Ids are never recycled: whatever happens between two additions, removals included, the later id is larger. */
  lemma IdsAreNeverRecycled(f: Files, a: Op, between: seq<Op>, b: Op, first: Int64, second: Int64)
    requires a.Add? && b.Add? && IdsLeft(f)
    requires Added(f, a.node, a.saved, a.w1, a.w2).1 == Some(first)
    requires IdsLeftIn(Perform(f, a), between)
    requires Added(Performed(Perform(f, a), between), b.node, b.saved, b.w1, b.w2).1 == Some(second)
    ensures second > first
  {
    hide Numbered, RebuiltFrom, StoredList, Active, ValidList;
    var g := Performed(Perform(f, a), between);
    AddedCursor(f, a, first);
    CursorNeverFallsInRuns(Perform(f, a), between);
    AddedCursor(g, b, second);
  }

  /** A successful addition hands out an id above the cursor and moves the cursor to it. */
  lemma AddedCursor(f: Files, a: Op, nid: Int64)
    requires a.Add? && IdsLeft(f) && Added(f, a.node, a.saved, a.w1, a.w2).1 == Some(nid)
    ensures nid > Cursor(f.state) && Cursor(Perform(f, a).state) == nid
  {
    hide Numbered, RebuiltFrom, StoredList, Active, ValidList;
    NextIdIsFresh(f.state, LoadStrict(f.nodes).value);
  }

  /** Removing the node just appended gives the old list back. */
  lemma {:induction false} RemoveUndoesAdd(list: seq<Node>, n: Node)
    requires ValidList(list + [n])
    ensures Find(list + [n], ById(IDString(n))) == |list|
    ensures Without(list + [n], Find(list + [n], ById(IDString(n)))) == list
  {
    hide StrictInt, PortOf, ValidPort, ValidType;
    var all := list + [n];
    var i := Find(all, ById(IDString(n)));
    assert all[|list|] == n && ById(IDString(n))(n);
    assert ValidNode(all[|list|]);
    if i < |list| {
      assert all[i] == list[i] && ValidNode(all[i]);
      ManagedId(all[i]);
      ManagedId(n);
      ItoaInjective(IdOf(all[i]), IdOf(n));
    }
  }

  lemma SwitchedKeepsId(n: Node, enabled: bool, id: string)
    ensures ById(id)(Switched(n, enabled)) == ById(id)(n)
  {
  }

  /** Switching a node off takes just that node out of the active list. */
  lemma DisabledIsInactive(list: seq<Node>, i: nat)
    requires i < |list|
    ensures Active(list[i := Switched(list[i], false)]) == Active(list[..i]) + Active(list[i + 1..])
  {
    var off := Switched(list[i], false);
    ActiveOne(off);
    assert Truthy(off, "disabled");
    hide Active, Switched;
    assert list[i := off] == list[..i] + ([off] + list[i + 1..]);
    ActiveConcat(list[..i], [off] + list[i + 1..]);
    ActiveConcat([off], list[i + 1..]);
  }

  /** Enabling a node that was disabled gives the old list back, if it bore no mark before. */
  lemma EnableUndoesDisable(list: seq<Node>, id: string, i: nat)
    requires i == Find(list, ById(id)) && i < |list| && "disabled" !in list[i]
    ensures var off := list[i := Switched(list[i], false)];
            Find(off, ById(id)) == i && off[i := Switched(off[i], true)] == list
  {
    var n := list[i];
    var off := list[i := Switched(n, false)];
    SwitchedKeepsId(n, false, id);
    assert Switched(Switched(n, false), true) == n;
    hide ById, Switched;
    assert forall j :: 0 <= j < i ==> off[j] == list[j];
    assert ById(id)(off[i]);
  }

  /** A replacement stays the same local node: same id, hence same tag, and still disabled if it was. */
  lemma ReplacementKeepsIdentity(older: Node, n: Node)
    requires ValidId(older)
    ensures IDString(Replacement(older, n)) == IDString(older) && Str(Replacement(older, n), "type") == Str(n, "type")
    ensures Truthy(older, "disabled") ==> Truthy(Replacement(older, n), "disabled")
    ensures Str(Replacement(older, n), "name") == if Str(n, "name") != "" then Str(n, "name") else Str(older, "name")
  {
  }

  /** The types whose inbounds show the machine's self-signed certificate. */
  predicate SelfSigned(n: Node) { Given(n, "type") == "trojan" || Given(n, "type") == "anytls" }

  predicate HasCertificate(n: Node)
  {
    && "cert" in n && n["cert"] == JStr("/etc/sbx/certs/cert.pem") && "key" in n
    && n["key"] == JStr("/etc/sbx/certs/key.pem")
  }

  /** The keys a record gets beside its own: an id, a name if it has none, and the certificate of its type. */
  function KeysWith(n: Node): set<string>
  {
    n.Keys + {"id"} + (if Given(n, "name") == "" then {"name"} else {}) + if SelfSigned(n) then {"cert", "key"} else {}
  }

  /** The keys an edit may change. */
  function Touched(n: Node): set<string>
  {
    {"id"} + (if Given(n, "name") == "" then {"name"} else {}) + if SelfSigned(n) then {"cert", "key"} else {}
  }

  lemma NumberedLooks(n: Node, nid: Int64)
    ensures Given(n["id" := JNum(nid)], "name") == Given(n, "name")
    ensures Given(n["id" := JNum(nid)], "type") == Given(n, "type")
    ensures forall x :: Given(n["id" := JNum(nid)]["name" := JStr(x)], "type") == Given(n, "type")
    ensures SelfSigned(n) <==> Str(n, "type") == "trojan" || Str(n, "type") == "anytls"
  {
    GivenIsStr(n, "type");
  }

  /**
    The record of a new node, key by key: the new id, its own name or one made of its type and the id, the
    machine's certificate and key where its type needs them, and everything else as it came.
   */
  lemma AddedRecord(n: Node, nid: Int64)
    ensures var out := Numbered(n, nid);
      && out.Keys == KeysWith(n) && out["id"] == JNum(nid)
      && (Given(n, "name") == "" ==> out["name"] == JStr(Given(n, "type") + "-" + IntText(nid)))
      && (SelfSigned(n) ==> HasCertificate(out))
      && forall k :: k in n && k !in Touched(n) ==> out[k] == n[k]
  {
    NumberedLooks(n, nid);
    var m := n["id" := JNum(nid)];
    GivenIsStr(n, "type");
    GivenIsStr(m, "name");
    GivenIsStr(m, "type");
    GivenIsStr(m["name" := JStr(Str(m, "type") + "-" + IntText(nid))], "type");
    hide Given, Str, SelfSigned, IntText;
  }

  /**
    The record of a replaced node, key by key: the older one's id, its name if the new record brings none,
    its disabled mark if it was disabled, the certificate of the new type, and everything else as it came.
   */
  lemma ReplacedRecord(older: Node, n: Node)
    requires "id" in older
    ensures var out := Replacement(older, n); var off := "disabled" in older && !Falsy(older["disabled"]);
      && out.Keys == KeysWith(n) + (if off then {"disabled"} else {}) && out["id"] == older["id"]
      && (Given(n, "name") == "" ==> out["name"] == JStr(Given(older, "name")))
      && (off ==> out["disabled"] == JBool(true)) && (SelfSigned(n) ==> HasCertificate(out))
      && forall k :: k in n && k !in Touched(n) && !(off && k == "disabled") ==> out[k] == n[k]
  {
    var c := WithoutCerts(older, n);
    CertsOf(c);
    hide Given, Falsy, WithCerts, HasCertificate, Replacement;
  }

  /** The replacement but for its certificate. */
  lemma WithoutCerts(older: Node, n: Node) returns (c: Node)
    requires "id" in older
    ensures Replacement(older, n) == WithCerts(c) && (SelfSigned(c) <==> SelfSigned(n))
    ensures var off := "disabled" in older && !Falsy(older["disabled"]);
      && c.Keys == n.Keys + {"id"} + (if Given(n, "name") == "" then {"name"} else {}) + (if off then {"disabled"} else {})
      && c["id"] == older["id"] && (Given(n, "name") == "" ==> c["name"] == JStr(Given(older, "name")))
      && (off ==> c["disabled"] == JBool(true))
      && forall k :: k in n && k != "id" && !(Given(n, "name") == "" && k == "name") && !(off && k == "disabled") ==>
          c[k] == n[k]
  {
    var a := n["id" := Field(older, "id")];
    var b := if Str(a, "name") == "" then a["name" := JStr(Str(older, "name"))] else a;
    c := if Truthy(older, "disabled") then b["disabled" := JBool(true)] else b;
    assert Truthy(older, "disabled") <==> "disabled" in older && !Falsy(older["disabled"]);
    GivenIsStr(a, "name");
    GivenIsStr(older, "name");
    assert Given(a, "name") == Given(n, "name") && Given(c, "type") == Given(n, "type");
    assert Replacement(older, n) == WithCerts(c);
    hide Given, Str, Truthy, Falsy, WithCerts, Replacement;
  }

  lemma CertsOf(n: Node)
    ensures var out := WithCerts(n);
      && out.Keys == n.Keys + (if SelfSigned(n) then {"cert", "key"} else {}) && (SelfSigned(n) ==> HasCertificate(out))
      && forall k :: k in n && !(SelfSigned(n) && k in {"cert", "key"}) ==> out[k] == n[k]
  {
    GivenIsStr(n, "type");
    hide Given, Str;
  }

  /** A replacement takes the place of the first node that carries this global id, and fails if there is none. */
  lemma ReplaceReplaces(f: Files, uuid: string, n: Node) returns (i: nat)
    requires LoadStrict(f.nodes).Some?
    ensures var list := LoadStrict(f.nodes).value;
      && (i < |list| <==> exists k :: 0 <= k < |list| && Given(list[k], "node_uuid") == uuid)
      && (i < |list| ==> Given(list[i], "node_uuid") == uuid && forall k :: 0 <= k < i ==>
          Given(list[k], "node_uuid") != uuid)
      && (Replaced(f, uuid, n, Done, Done).1 ==>
            i < |list| && Listing(Replaced(f, uuid, n, Done, Done).0.nodesCand) == Some(list[i := Replacement(list[i], n)]))
  {
    var list := LoadStrict(f.nodes).value;
    i := Find(list, ByUuid(uuid));
    forall k | 0 <= k < |list| ensures ByUuid(uuid)(list[k]) <==> Given(list[k], "node_uuid") == uuid
    {
      GivenIsStr(list[k], "node_uuid");
    }
    hide ByUuid, Given, Find, ValidList, StoredList, Replacement, RebuiltFrom;
    if i < |list| { ListingOfStored(list[i := Replacement(list[i], n)]); }
  }

  /** The largest of the cursor and the ids that can be read, and zero. */
  predicate IsTop(state: Node, list: seq<Node>, m: int)
  {
    && 0 <= m && ("next_node_id" in state && ToInt(state["next_node_id"]).Some? ==>
        ToInt(state["next_node_id"]).value <= m)
    && (forall n :: n in list && "id" in n && ToInt(n["id"]).Some? ==> ToInt(n["id"]).value <= m)
    && (m == 0 || ("next_node_id" in state && ToInt(state["next_node_id"]) == Some(m))
        || exists n :: n in list && "id" in n && ToInt(n["id"]) == Some(m))
  }

  lemma {:induction false} UsedMaxIsTop(list: seq<Node>)
    ensures IsTop(map[], list, UsedMax(list))
    decreases |list|
  {
    assert ToInt(JNull) == None;
    hide ToInt;
    if list != [] {
      UsedMaxIsTop(list[..|list| - 1]);
      assert list[|list| - 1] in list;
      assert forall n :: n in list <==> n in list[..|list| - 1] || n == list[|list| - 1];
    }
  }

  /** For every state and list: one past the top, and past the last 64-bit number the first one. */
  lemma NextIdIsOnePastTheTop(state: Node, list: seq<Node>) returns (m: int)
    ensures IsTop(state, list, m) && m <= 0x7FFF_FFFF_FFFF_FFFF
    ensures NextId(state, list) == if m == 0x7FFF_FFFF_FFFF_FFFF then -0x8000_0000_0000_0000 else m + 1
  {
    assert ToInt(JNull) == None;
    UsedMaxIsTop(list);
    hide ToInt, UsedMax;
    m := Max(Cursor(state), UsedMax(list));
  }

  /** Removing takes out the node with that id and no other. */
  lemma RemoveRemoves(f: Files, id: string)
    requires Inv(f) && Deleted(f, id, Done, Done).1
    ensures var list, after := Listing(f.nodes).value, Listing(Deleted(f, id, Done, Done).0.nodesCand);
      && after.Some? && |after.value| == |list| - 1
      && forall n :: n in after.value <==> n in list && !HasId(n, id)
  {
    var list := Listing(f.nodes).value;
    var i := Find(list, ById(id));
    ListingOfStored(Without(list, i));
    IdsDiffer(list, i, id);
    hide HasId, ValidList, Listing, StoredList, RebuiltFrom, Find, Without;
    WithoutKeepsOthers(list, i, id);
  }

  lemma WithoutKeepsOthers(list: seq<Node>, i: nat, id: string)
    requires i < |list| && HasId(list[i], id) && forall k :: 0 <= k < |list| && k != i ==> !HasId(list[k], id)
    ensures |Without(list, i)| == |list| - 1
    ensures forall n :: n in Without(list, i) <==> n in list && !HasId(n, id)
  {
    hide HasId;
    var after := Without(list, i);
    forall n | n in list && !HasId(n, id) ensures n in after
    {
      var k :| 0 <= k < |list| && list[k] == n;
      assert after[if k < i then k else k - 1] == n;
    }
    forall n | n in after ensures n in list && !HasId(n, id)
    {
      var k :| 0 <= k < |after| && after[k] == n;
      assert list[if k < i then k else k + 1] == n;
    }
  }

  lemma IdsDiffer(list: seq<Node>, i: nat, id: string)
    requires ValidList(list) && i < |list| && HasId(list[i], id)
    ensures forall k :: 0 <= k < |list| && k != i ==> !HasId(list[k], id)
  {
    hide StrictInt, PortOf, ValidPort, ValidType;
    forall k | 0 <= k < |list| && k != i ensures !HasId(list[k], id)
    {
      assert ValidNode(list[k]) && ValidNode(list[i]);
      ManagedId(list[k]);
      ManagedId(list[i]);
      if HasId(list[k], id) { ItoaInjective(IdOf(list[k]), IdOf(list[i])); }
    }
  }

  /** Switching a node changes that node's mark, as asked, and nothing else in the list. */
  lemma ToggleSetsTheMark(f: Files, id: string, enabled: bool)
    requires Inv(f) && Toggled(f, id, enabled, Done, Done).1
    ensures var list, after := Listing(f.nodes).value, Listing(Toggled(f, id, enabled, Done, Done).0.nodesCand);
      && after.Some? && |after.value| == |list|
      && (forall k :: 0 <= k < |list| ==>
            if HasId(list[k], id) then
              Truthy(after.value[k], "disabled") == !enabled && after.value[k] - {"disabled"} == list[k] - {"disabled"}
            else after.value[k] == list[k])
  {
    var list := Listing(f.nodes).value;
    var i := Find(list, ById(id));
    ListingOfStored(list[i := Switched(list[i], enabled)]);
    IdsDiffer(list, i, id);
    hide HasId, ValidList, Listing, StoredList, RebuiltFrom, Find;
    assert Switched(list[i], enabled) - {"disabled"} == list[i] - {"disabled"};
  }

  // ----- runs that reach the failing cases -----

  const FIRST_NODE: Node := map["type" := JStr("shadowsocks"), "port" := JNum(443)]

  const EMPTY_CONF := Some(Parsed(JObj(map[])))

  /** A machine with a configuration, and a nodes.json or none. */
  function Machine(nodes: Option<Text>): Files { Files(EMPTY_CONF, nodes, None, None, None, None, map[]) }

  lemma FirstNodeIsValid()
    ensures ValidList([Numbered(FIRST_NODE, 1)]) && Active([Numbered(FIRST_NODE, 1)]) == [Numbered(FIRST_NODE, 1)]
  {
    var n := Numbered(FIRST_NODE, 1);
    assert TYPES[1] == "shadowsocks" && Str(n, "type") == "shadowsocks";
    assert ValidType("shadowsocks");
    ActiveOne(n);
    assert !Truthy(n, "disabled");
  }

  lemma EmptyAgrees(nodes: Option<Text>)
    requires Listing(nodes) == Some([])
    ensures Agrees(EMPTY_CONF, nodes) && LoadStrict(nodes) == Some([])
  {
    assert Keep([], true) == [];
  }

  lemma FirstRebuild()
    ensures RebuiltFrom(EMPTY_CONF, [Numbered(FIRST_NODE, 1)]).Some?
  {
    FirstNodeIsValid();
    ValidListBuilds([Numbered(FIRST_NODE, 1)]);
    hide Built, Numbered, Keep;
  }

  /** The first node on a machine is written to both candidates, or to the first alone. */
  lemma FirstAdd(nodes: Option<Text>, w2: Write)
    requires Listing(nodes) == Some([])
    ensures var g := Added(Machine(nodes), FIRST_NODE, Done, Done, w2).0;
      && g == Candidates(Machine(nodes).(state := g.state), [Numbered(FIRST_NODE, 1)], Done, w2).0
  {
    EmptyAgrees(nodes);
    FirstId();
    hide Numbered, Candidates, LoadStrict, Listing, NextId;
    assert [] + [Numbered(FIRST_NODE, 1)] == [Numbered(FIRST_NODE, 1)];
  }

  lemma FirstId()
    ensures NextId(map[], []) == 1
  {
    assert Cursor(map[]) == 0 && UsedMax([]) == 0;
  }

  const FAILS_TO_RESTART := Outcomes(true, true, true, Done, Done, false, true, CLEAN_UNDO)

  /** On a machine without nodes.json, the first node's failing restart leaves the node listed and its inbound gone. */
  lemma RollbackCanDisagree()
    ensures var g := Added(Machine(None), FIRST_NODE, Done, Done, Done).0; var h := Applied(g, FAILS_TO_RESTART);
            h.1 == 1 && !Agrees(h.0.conf, h.0.nodes)
  {
    var one, g := [Numbered(FIRST_NODE, 1)], Added(Machine(None), FIRST_NODE, Done, Done, Done).0;
    FirstAdd(None, Done);
    FirstNodeIsValid();
    FirstRebuild();
    EmptyAgrees(None);
    RebuiltMatches(EMPTY_CONF, one);
    ListingOfStored(one);
    hide Numbered, RebuiltFrom, ValidList, Active, StoredList, Listing, Matches, Added;
    RollbackIsExact(g, FAILS_TO_RESTART);
  }

  /** With an empty nodes.json, a first node whose second candidate is not written disagrees after a smooth Apply. */
  lemma HalfWriteCanDisagree()
    ensures var none := Some(StoredList([]));
            var h := Applied(Added(Machine(none), FIRST_NODE, Done, Done, NotDone).0, SMOOTH);
            h.1 == 0 && !Agrees(h.0.conf, h.0.nodes)
  {
    var one, none := [Numbered(FIRST_NODE, 1)], Some(StoredList([]));
    ListingOfStored([]);
    FirstAdd(none, NotDone);
    FirstNodeIsValid();
    FirstRebuild();
    EmptyAgrees(none);
    FirstInbound();
    var f := Machine(none).(state := Added(Machine(none), FIRST_NODE, Done, Done, NotDone).0.state);
    hide Numbered, RebuiltFrom, ValidList, Active, StoredList, Listing, Matches, Added, Built;
    HalfWrittenPairIsExact(f, one, Done, NotDone);
  }

  const NO_NODES := Some(StoredList([]))

  /**
    The files after the first node has been added to an empty nodes.json: two agreeing pairs with
    different inbounds.
   */
  lemma FirstPair() returns (g: Files)
    ensures g == Added(Machine(NO_NODES), FIRST_NODE, Done, Done, Done).0
    ensures Inv(g) && g.confCand.Some? && g.nodesCand.Some? && !SameInbounds(g) && g.conf.Some? && g.nodes.Some?
  {
    g := Added(Machine(NO_NODES), FIRST_NODE, Done, Done, Done).0;
    ListingOfStored([]);
    FirstAdd(NO_NODES, Done);
    EmptyAgrees(NO_NODES);
    FirstInbound();
    hide Numbered, RebuiltFrom, ValidList, Active, StoredList, Listing, Matches, Added, Built, Candidates, Agrees;
    FirstCandidates(Machine(NO_NODES).(state := g.state));
  }

  lemma FirstCandidates(f: Files)
    requires f.conf == EMPTY_CONF
    ensures var g, one := Candidates(f, [Numbered(FIRST_NODE, 1)], Done, Done).0, [Numbered(FIRST_NODE, 1)];
      && g == f.(confCand := g.confCand, nodesCand := g.nodesCand) && g.confCand.Some? && g.nodesCand.Some?
      && Agrees(g.confCand, g.nodesCand) && Listing(g.nodesCand) == Some(one)
  {
    var one := [Numbered(FIRST_NODE, 1)];
    FirstNodeIsValid();
    FirstRebuild();
    RebuiltMatches(EMPTY_CONF, one);
    ListingOfStored(one);
    hide Numbered, RebuiltFrom, ValidList, Active, StoredList, Listing, Matches;
  }

  lemma FirstInbound()
    ensures Built(Active([])) == Some([]) && Built(Active([Numbered(FIRST_NODE, 1)])) != Some([])
  {
    var one := [Numbered(FIRST_NODE, 1)];
    FirstNodeIsValid();
    assert Active([]) == [] && Active(one) == one;
    hide Numbered, Active, ValidNode;
    ValidListBuilds(one);
    BuiltLength(one);
  }

  lemma FailingActs(f: Files)
    requires f.conf.Some? && f.nodes.Some? && f.confCand.Some? && f.nodesCand.Some?
    ensures Acts(f, FAILS_TO_RESTART) ==
            [BackUpConf(Copied), BackUpNodes(Copied), SwapConf, SwapNodes, RestoreConf(Copied), RestoreNodes(Copied),
             DropConfCand, DropNodesCand]
  {
  }

  lemma FailingCuts(f: Files)
    requires f.conf.Some? && f.nodes.Some? && f.confCand.Some? && f.nodesCand.Some?
    ensures var acts := Acts(f, FAILS_TO_RESTART);
      && NewConf(Cut(acts, 3, false)) && !NewNodes(Cut(acts, 3, false))
      && !NewConf(Cut(acts, 5, false)) && NewNodes(Cut(acts, 5, false))
      && !Unbroken(Cut(acts, 4, true)) && !Unbroken(Cut(acts, 5, true))
  {
    FailingActs(f);
    hide Acts;
    var acts := Acts(f, FAILS_TO_RESTART);
    assert Cut(acts, 3, false) == [BackUpConf(Copied), BackUpNodes(Copied), SwapConf];
    assert Cut(acts, 5, false) == [BackUpConf(Copied), BackUpNodes(Copied), SwapConf, SwapNodes, RestoreConf(Copied)];
    assert Cut(acts, 4, true)[4] == RestoreConf(Mangled) && Cut(acts, 5, true)[5] == RestoreNodes(Mangled);
  }

  /** An Apply that fails to restart and is cut short here leaves live files that do not agree. */
  predicate Disagrees(g: Files, done: nat, inCopy: bool)
  {
    !Agrees(Interrupted(g, FAILS_TO_RESTART, done, inCopy).conf, Interrupted(g, FAILS_TO_RESTART, done, inCopy).nodes)
  }

  lemma CutDisagrees(g: Files, done: nat, inCopy: bool)
    requires Inv(g) && !SameInbounds(g)
    requires var acts := Cut(Acts(g, FAILS_TO_RESTART), done, inCopy);
             !Unbroken(acts) || NewConf(acts) != NewNodes(acts)
    ensures Disagrees(g, done, inCopy)
  {
    hide Inv, SameInbounds, Cut, Acts, Interrupted, Agrees, Unbroken, NewConf, NewNodes;
    InterruptionIsExact(g, FAILS_TO_RESTART, done, inCopy);
  }

  /** The agent dies between the two swaps, between the two copies back, or inside one of them. */
  lemma InterruptionCanDisagree()
    ensures var g := Added(Machine(NO_NODES), FIRST_NODE, Done, Done, Done).0;
            Disagrees(g, 3, false) && Disagrees(g, 5, false) && Disagrees(g, 4, true) && Disagrees(g, 5, true)
  {
    hide Added, Agrees, SameInbounds, Acts, Cut, Inv, NewConf, NewNodes, Unbroken, Disagrees;
    var g := FirstPair();
    FailingCuts(g);
    CutDisagrees(g, 3, false);
    CutDisagrees(g, 5, false);
    CutDisagrees(g, 4, true);
    CutDisagrees(g, 5, true);
  }

  /** A restart that fails and a rollback that cannot copy nodes.json back. */
  lemma UndoCanDisagree()
    ensures var g := Added(Machine(NO_NODES), FIRST_NODE, Done, Done, Done).0;
            var h := Applied(g, FAILS_TO_RESTART.(undo := CLEAN_UNDO.(nodes := Untouched)));
            h.1 == 1 && !Agrees(h.0.conf, h.0.nodes)
  {
    var g := FirstPair();
    hide Added, Agrees, SameInbounds;
    UndoIsExact(g, FAILS_TO_RESTART.(undo := CLEAN_UNDO.(nodes := Untouched)));
  }
}

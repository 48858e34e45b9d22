/**
  One node list, two rule languages: the rulesets GenNFT and GenIPTables print, what they count for a trace
  of packets, and how the iptables counters are read back (internal/firewall/rules.go, internal/firewall/iptables.go).
 */
module RuleCompilers {
  import opened Names
  import opened Sums
  import opened Inbound
  import opened Collector
  import opened KernelRuns

  // ----- ports and protocols of a node -----

  datatype Proto = Tcp | Udp | OtherProto

  /** The single listening port as a range, or nothing if it is no valid port. */
  function ParsePorts(n: Node): seq<(int, int)>
  {
    match ToInt(Field(n, "port"))
    case Some(p) => if 1 <= p <= 65535 then [(p, p)] else []
    case None => []
  }

  /** Lower case as far as the names of the types need it; the Kelvin sign lowers to k. */
  function Lower(s: string): string
  {
    if s == "" then ""
    else
      var c := s[0];
      [if 'A' <= c <= 'Z' then (c as int + 32) as char else if c == '\U{212A}' then 'k' else c] + Lower(s[1..])
  }

  function Protocols(n: Node): seq<Proto>
  {
    var t := Lower(Str(n, "type"));
    if t == "vless" || t == "trojan" || t == "anytls" then [Tcp] else [Tcp, Udp]
  }

  // ----- packets -----

  datatype Family = V4 | V6

  function FamilyName(f: Family): string { if f == V4 then "v4" else "v6" }

  /** A packet at the input hook (Rx) or the output hook (Tx), with the interface it came in by or leaves by. */
  datatype Packet = Packet(family: Family, proto: Proto, iface: string, dir: Dir, sport: int, dport: int, bytes: nat)

  function LocalPort(p: Packet): int { if p.dir == Rx then p.dport else p.sport }

  predicate InRanges(port: int, ranges: seq<(int, int)>)
  {
    exists i :: 0 <= i < |ranges| && ranges[i].0 <= port <= ranges[i].1
  }

  // ----- the nft ruleset -----

  datatype NftRule = NftLoReturn | NftCount(counter: string) | NftPorts(proto: Proto, ranges: seq<(int, int)>, counter: string)

  datatype NftTable = NftTable(counters: seq<string>, input: seq<NftRule>, output: seq<NftRule>)

  function NftRulesFor(n: Node, protos: seq<Proto>, dir: Dir): seq<NftRule>
  {
    if protos == [] then []
    else [NftPorts(protos[0], ParsePorts(n), NftNode(IDString(n), dir))] + NftRulesFor(n, protos[1..], dir)
  }

  function NftNodes(list: seq<Node>, dir: Dir): seq<NftRule>
  {
    if list == [] then []
    else (if ParsePorts(list[0]) == [] then [] else NftRulesFor(list[0], Protocols(list[0]), dir)) + NftNodes(list[1..], dir)
  }

  function NftChain(list: seq<Node>, dir: Dir): seq<NftRule>
  {
    [NftLoReturn, NftCount(NftSystem(dir))] + NftNodes(list, dir)
  }

  function NodeCounters(list: seq<Node>): seq<string>
  {
    if list == [] then [] else [NftNode(IDString(list[0]), Rx), NftNode(IDString(list[0]), Tx)] + NodeCounters(list[1..])
  }

  function NftTableOf(list: seq<Node>, epoch: nat): NftTable
  {
    NftTable([NftEpoch(epoch), NftSystem(Rx), NftSystem(Tx)] + NodeCounters(list), NftChain(list, Rx), NftChain(list, Tx))
  }

  lemma {:induction false} NodeCountersConcat(a: seq<Node>, b: seq<Node>)
    ensures NodeCounters(a + b) == NodeCounters(a) + NodeCounters(b)
    decreases |a|
  {
    hide NftNode, IDString;
    if a == [] {
      assert a + b == b;
    } else {
      assert (a + b)[1..] == a[1..] + b;
      NodeCountersConcat(a[1..], b);
    }
  }

  lemma {:induction false} NftNodesConcat(a: seq<Node>, b: seq<Node>, dir: Dir)
    ensures NftNodes(a + b, dir) == NftNodes(a, dir) + NftNodes(b, dir)
    decreases |a|
  {
    hide ParsePorts, Protocols, NftRulesFor;
    if a == [] {
      assert a + b == b;
    } else {
      assert (a + b)[1..] == a[1..] + b;
      NftNodesConcat(a[1..], b, dir);
    }
  }

  lemma NftNodesOne(n: Node, dir: Dir)
    ensures NftNodes([n], dir) == if ParsePorts(n) == [] then [] else NftRulesFor(n, Protocols(n), dir)
  {
    hide ParsePorts, Protocols, NftRulesFor;
    assert [n][1..] == [];
  }

  lemma {:induction false} NftRulesConcat(n: Node, a: seq<Proto>, b: seq<Proto>, dir: Dir)
    ensures NftRulesFor(n, a + b, dir) == NftRulesFor(n, a, dir) + NftRulesFor(n, b, dir)
    decreases |a|
  {
    hide ParsePorts, NftNode, IDString;
    if a == [] {
      assert a + b == b;
    } else {
      assert (a + b)[1..] == a[1..] + b;
      NftRulesConcat(n, a[1..], b, dir);
    }
  }

  lemma NftRuleOne(n: Node, p: Proto, dir: Dir)
    ensures NftRulesFor(n, [p], dir) == [NftPorts(p, ParsePorts(n), NftNode(IDString(n), dir))]
  {
    hide ParsePorts, NftNode, IDString;
    assert [p][1..] == [];
  }

  /** The two chains, written rule by rule. */
  method GenNFT(list: seq<Node>, epoch: nat) returns (t: NftTable)
    ensures t == NftTableOf(list, epoch)
  {
    hide ParsePorts, Protocols, NftNode, NftEpoch, NftSystem, IDString;
    var counters := [NftEpoch(epoch), NftSystem(Rx), NftSystem(Tx)];
    for i := 0 to |list|
      invariant counters == [NftEpoch(epoch), NftSystem(Rx), NftSystem(Tx)] + NodeCounters(list[..i])
    {
      assert list[..i + 1] == list[..i] + [list[i]];
      NodeCountersConcat(list[..i], [list[i]]);
      assert [list[i]][1..] == [];
      counters := counters + [NftNode(IDString(list[i]), Rx), NftNode(IDString(list[i]), Tx)];
    }
    assert list[..|list|] == list;
    var input := GenNftChain(list, Rx);
    var output := GenNftChain(list, Tx);
    return NftTable(counters, input, output);
  }

  method GenNftChain(list: seq<Node>, dir: Dir) returns (chain: seq<NftRule>)
    ensures chain == NftChain(list, dir)
  {
    hide NftSystem, NftNodes;
    chain := [NftLoReturn, NftCount(NftSystem(dir))];
    NftNodesNone(dir);
    for i := 0 to |list|
      invariant chain == [NftLoReturn, NftCount(NftSystem(dir))] + NftNodes(list[..i], dir)
    {
      assert list[..i + 1] == list[..i] + [list[i]];
      NftNodesConcat(list[..i], [list[i]], dir);
      var more := GenNftNode(list[i], dir);
      chain := chain + more;
    }
    assert list[..|list|] == list;
  }

  method GenNftNode(n: Node, dir: Dir) returns (rules: seq<NftRule>)
    ensures rules == NftNodes([n], dir)
  {
    hide ParsePorts, Protocols, NftNode, IDString, NftRulesFor, NftNodes;
    NftNodesOne(n, dir);
    rules := [];
    var ranges := ParsePorts(n);
    if |ranges| == 0 { return; }
    var protos := Protocols(n);
    NftRulesNone(n, dir);
    for j := 0 to |protos|
      invariant rules == NftRulesFor(n, protos[..j], dir)
    {
      assert protos[..j + 1] == protos[..j] + [protos[j]];
      NftRulesConcat(n, protos[..j], [protos[j]], dir);
      NftRuleOne(n, protos[j], dir);
      rules := rules + [NftPorts(protos[j], ranges, NftNode(IDString(n), dir))];
    }
    assert protos[..|protos|] == protos;
  }

  lemma NftNodesNone(dir: Dir)
    ensures NftNodes([], dir) == []
  {
  }

  lemma NftRulesNone(n: Node, dir: Dir)
    ensures NftRulesFor(n, [], dir) == []
  {
  }

  // ----- the iptables rulesets, one per family -----

  datatype IptRule = IptLoReturn | IptComment(comment: string) | IptPorts(proto: Proto, from: int, to: int, comment: string)

  datatype IptChains = IptChains(input: seq<IptRule>, output: seq<IptRule>)

  function IptRulesFor(n: Node, range: (int, int), protos: seq<Proto>, dir: Dir): seq<IptRule>
  {
    if protos == [] then []
    else [IptPorts(protos[0], range.0, range.1, IptNode(IDString(n), dir))] + IptRulesFor(n, range, protos[1..], dir)
  }

  function IptRangesFor(n: Node, ranges: seq<(int, int)>, dir: Dir): seq<IptRule>
  {
    if ranges == [] then [] else IptRulesFor(n, ranges[0], Protocols(n), dir) + IptRangesFor(n, ranges[1..], dir)
  }

  function IptNodes(list: seq<Node>, dir: Dir): seq<IptRule>
  {
    if list == [] then [] else IptRangesFor(list[0], ParsePorts(list[0]), dir) + IptNodes(list[1..], dir)
  }

  function IptHead(epoch: nat, dir: Dir): seq<IptRule>
  {
    (if dir == Rx then [IptComment(IptEpoch(epoch))] else []) + [IptLoReturn, IptComment(IptSystem(dir))]
  }

  function IptChain(list: seq<Node>, epoch: nat, dir: Dir): seq<IptRule> { IptHead(epoch, dir) + IptNodes(list, dir) }

  lemma {:induction false} IptNodesConcat(a: seq<Node>, b: seq<Node>, dir: Dir)
    ensures IptNodes(a + b, dir) == IptNodes(a, dir) + IptNodes(b, dir)
    decreases |a|
  {
    hide ParsePorts, IptRangesFor;
    if a == [] {
      assert a + b == b;
    } else {
      assert (a + b)[1..] == a[1..] + b;
      IptNodesConcat(a[1..], b, dir);
    }
  }

  /** At most one range, hence this shape of the rules of a node. */
  lemma IptNodesOne(n: Node, dir: Dir)
    ensures IptNodes([n], dir) == if ParsePorts(n) == [] then [] else IptRulesFor(n, ParsePorts(n)[0], Protocols(n), dir)
  {
    hide Protocols, IptRulesFor, ParsePorts;
    OneRange(n);
    assert [n][1..] == [];
    var ranges := ParsePorts(n);
    assert IptNodes([n], dir) == IptRangesFor(n, ranges, dir);
    if ranges != [] {
      assert ranges[1..] == [];
      assert IptRangesFor(n, [], dir) == [];
    }
  }

  lemma {:induction false} IptRulesConcat(n: Node, r: (int, int), a: seq<Proto>, b: seq<Proto>, dir: Dir)
    ensures IptRulesFor(n, r, a + b, dir) == IptRulesFor(n, r, a, dir) + IptRulesFor(n, r, b, dir)
    decreases |a|
  {
    hide IptNode, IDString;
    if a == [] {
      assert a + b == b;
    } else {
      assert (a + b)[1..] == a[1..] + b;
      IptRulesConcat(n, r, a[1..], b, dir);
    }
  }

  lemma IptRuleOne(n: Node, r: (int, int), p: Proto, dir: Dir)
    ensures IptRulesFor(n, r, [p], dir) == [IptPorts(p, r.0, r.1, IptNode(IDString(n), dir))]
    ensures IptRulesFor(n, r, [], dir) == []
  {
    hide IptNode, IDString;
    assert [p][1..] == [];
  }

  /** Both chains grow together, one rule each per node, range and protocol. */
  method GenIPTables(list: seq<Node>, epoch: nat) returns (c: IptChains)
    ensures c == IptChains(IptChain(list, epoch, Rx), IptChain(list, epoch, Tx))
  {
    hide ParsePorts, Protocols, IptNode, IptEpoch, IptSystem, IDString, IptRulesFor;
    var input := [IptComment(IptEpoch(epoch)), IptLoReturn, IptComment(IptSystem(Rx))];
    var output := [IptLoReturn, IptComment(IptSystem(Tx))];
    assert input == IptHead(epoch, Rx) + [] && output == IptHead(epoch, Tx) + [];
    for i := 0 to |list|
      invariant input == IptHead(epoch, Rx) + IptNodes(list[..i], Rx)
      invariant output == IptHead(epoch, Tx) + IptNodes(list[..i], Tx)
    {
      var n := list[i];
      assert list[..i + 1] == list[..i] + [n];
      NodeRules(list, i);
      var more := GenIptNode(n);
      input, output := input + more.input, output + more.output;
    }
    assert list[..|list|] == list;
    return IptChains(input, output);
  }

  lemma NodeRules(list: seq<Node>, i: nat)
    requires i < |list|
    ensures IptNodes(list[..i] + [list[i]], Rx) == IptNodes(list[..i], Rx) + IptNodes([list[i]], Rx)
    ensures IptNodes(list[..i] + [list[i]], Tx) == IptNodes(list[..i], Tx) + IptNodes([list[i]], Tx)
  {
    IptNodesConcat(list[..i], [list[i]], Rx);
    IptNodesConcat(list[..i], [list[i]], Tx);
  }

  method GenIptNode(n: Node) returns (c: IptChains)
    ensures c == IptChains(IptNodes([n], Rx), IptNodes([n], Tx))
  {
    hide ParsePorts, Protocols, IptNode, IDString, IptRulesFor, IptNodes, IptRangesFor;
    IptNodesOne(n, Rx);
    IptNodesOne(n, Tx);
    var input: seq<IptRule>, output: seq<IptRule> := [], [];
    var ranges, protos := ParsePorts(n), Protocols(n);
    OneRange(n);
    for k := 0 to |ranges|
      invariant k == 0 ==> input == [] && output == []
      invariant k == 1 ==> input == IptRulesFor(n, ranges[0], protos, Rx)
      invariant k == 1 ==> output == IptRulesFor(n, ranges[0], protos, Tx)
    {
      var r := ranges[k];
      IptRuleOne(n, r, Tcp, Rx);
      IptRuleOne(n, r, Tcp, Tx);
      for j := 0 to |protos|
        invariant input == IptRulesFor(n, r, protos[..j], Rx)
        invariant output == IptRulesFor(n, r, protos[..j], Tx)
      {
        var p := protos[j];
        assert protos[..j + 1] == protos[..j] + [p];
        IptRulesConcat(n, r, protos[..j], [p], Rx);
        IptRulesConcat(n, r, protos[..j], [p], Tx);
        IptRuleOne(n, r, p, Rx);
        IptRuleOne(n, r, p, Tx);
        input := input + [IptPorts(p, r.0, r.1, IptNode(IDString(n), Rx))];
        output := output + [IptPorts(p, r.0, r.1, IptNode(IDString(n), Tx))];
      }
      assert protos[..|protos|] == protos;
    }
    return IptChains(input, output);
  }

  lemma OneRange(n: Node)
    ensures |ParsePorts(n)| <= 1
  {
  }

  // ----- what the nft ruleset counts -----

  predicate Matches(p: Packet, proto: Proto, ranges: seq<(int, int)>)
  {
    p.proto == proto && InRanges(LocalPort(p), ranges)
  }

  /** A packet in bytes, or as one packet. */
  function Weight(p: Packet, u: Unit): nat { if u == Bytes then p.bytes else 1 }

  function Value(m: Snapshot, counter: string, u: Unit): nat { Part(CountOf(m, counter), u) }

  function Bump(m: Snapshot, counter: string, p: Packet): Snapshot
  {
    m[counter := AddCount(CountOf(m, counter), Count(p.bytes, 1))]
  }

  lemma BumpValue(m: Snapshot, c: string, p: Packet, counter: string, u: Unit)
    ensures Value(Bump(m, c, p), counter, u) == Value(m, counter, u) + if c == counter then Weight(p, u) else 0
  {
  }

  /** One packet through one chain: it stops at the loopback rule if it is loopback traffic. */
  function NftWalk(m: Snapshot, chain: seq<NftRule>, p: Packet): Snapshot
    decreases |chain|
  {
    if chain == [] then m
    else match chain[0]
      case NftLoReturn => if p.iface == "lo" then m else NftWalk(m, chain[1..], p)
      case NftCount(c) => NftWalk(Bump(m, c, p), chain[1..], p)
      case NftPorts(proto, ranges, c) => NftWalk(if Matches(p, proto, ranges) then Bump(m, c, p) else m, chain[1..], p)
  }

  function NftStart(t: NftTable): Snapshot { map c | c in t.counters :: NO_COUNT }

  function NftStep(t: NftTable, m: Snapshot, p: Packet): Snapshot
  {
    NftWalk(m, if p.dir == Rx then t.input else t.output, p)
  }

  /** The named counters after a trace. */
  function NftRun(t: NftTable, trace: seq<Packet>): Snapshot
    decreases |trace|
  {
    if trace == [] then NftStart(t) else NftStep(t, NftRun(t, trace[..|trace| - 1]), trace[|trace| - 1])
  }

  /** What one rule adds to one counter for a packet that reaches it. */
  function NftRuleGain(r: NftRule, p: Packet, counter: string, u: Unit): nat
  {
    match r
    case NftLoReturn => 0
    case NftCount(c) => if c == counter then Weight(p, u) else 0
    case NftPorts(proto, ranges, c) => if c == counter && Matches(p, proto, ranges) then Weight(p, u) else 0
  }

  function NftGain(chain: seq<NftRule>, p: Packet, counter: string, u: Unit): nat
    decreases |chain|
  {
    if chain == [] || (chain[0].NftLoReturn? && p.iface == "lo") then 0
    else NftRuleGain(chain[0], p, counter, u) + NftGain(chain[1..], p, counter, u)
  }

  lemma {:induction false} NftWalkGains(m: Snapshot, chain: seq<NftRule>, p: Packet, counter: string, u: Unit)
    ensures Value(NftWalk(m, chain, p), counter, u) == Value(m, counter, u) + NftGain(chain, p, counter, u)
    decreases |chain|
  {
    hide Matches, Bump, Value;
    if chain != [] {
      match chain[0] {
        case NftLoReturn => NftWalkGains(m, chain[1..], p, counter, u);
        case NftCount(c) =>
          BumpValue(m, c, p, counter, u);
          NftWalkGains(Bump(m, c, p), chain[1..], p, counter, u);
        case NftPorts(proto, ranges, c) =>
          BumpValue(m, c, p, counter, u);
          NftWalkGains(if Matches(p, proto, ranges) then Bump(m, c, p) else m, chain[1..], p, counter, u);
      }
    }
  }

  // ----- what a node list asks to be counted -----

  /** A packet is a node's if it uses the node's port with one of its protocols. */
  predicate Serves(n: Node, p: Packet)
  {
    ParsePorts(n) != [] && p.proto in Protocols(n) && LocalPort(p) == ParsePorts(n)[0].0
  }

  function ListGain(list: seq<Node>, p: Packet, id: string, u: Unit): nat
  {
    if list == [] then 0
    else (if IDString(list[0]) == id && Serves(list[0], p) then Weight(p, u) else 0) + ListGain(list[1..], p, id, u)
  }

  /** What this packet is worth to a scope in a direction: nothing on the loopback interface or the other way. */
  function Worth(list: seq<Node>, p: Packet, scope: Scope, dir: Dir, u: Unit): nat
  {
    if p.iface == "lo" || p.dir != dir then 0
    else if scope == "system" then Weight(p, u)
    else ListGain(list, p, NodeOf(scope), u)
  }

  /** What all the packets of these families are worth to a scope. */
  function Truth(list: seq<Node>, trace: seq<Packet>, scope: Scope, dir: Dir, families: set<Family>, u: Unit): nat
    decreases |trace|
  {
    if trace == [] then 0
    else
      var p := trace[|trace| - 1];
      Truth(list, trace[..|trace| - 1], scope, dir, families, u) + if p.family in families then Worth(list, p, scope, dir, u) else 0
  }

  function NftName(scope: Scope, dir: Dir): string
  {
    if scope == "system" then NftSystem(dir) else NftNode(NodeOf(scope), dir)
  }

  function IptName(scope: Scope, dir: Dir): string
  {
    if scope == "system" then IptSystem(dir) else IptNode(NodeOf(scope), dir)
  }

  lemma NftNodeInjective(a: string, d: Dir, b: string, e: Dir)
    ensures NftNode(a, d) == NftNode(b, e) <==> a == b && d == e
    ensures NftNode(a, d) != NftSystem(e) && (NftSystem(d) == NftSystem(e) <==> d == e)
  {
    var x, y := NftNode(a, d), NftNode(b, e);
    assert x[5..|x| - 2] == a && y[5..|y| - 2] == b && x[|x| - 1] == Suffix(d)[0] && y[|y| - 1] == Suffix(e)[0];
    assert x[4] == 'n' && NftSystem(e)[4] == 's';
    assert NftSystem(d)[8] == Suffix(d)[0] && NftSystem(e)[8] == Suffix(e)[0];
  }

  lemma IptNodeInjective(a: string, d: Dir, b: string, e: Dir)
    ensures IptNode(a, d) == IptNode(b, e) <==> a == b && d == e
    ensures IptNode(a, d) != IptSystem(e) && (IptSystem(d) == IptSystem(e) <==> d == e)
    ensures forall n :: IptEpoch(n) != IptNode(a, d) && IptEpoch(n) != IptSystem(e)
  {
    var x, y := IptNode(a, d), IptNode(b, e);
    assert x[5..|x| - 2] == a && y[5..|y| - 2] == b && x[|x| - 1] == Suffix(d)[0] && y[|y| - 1] == Suffix(e)[0];
    assert x[4] == 'n' && IptSystem(e)[4] == 's';
    assert IptSystem(d)[8] == Suffix(d)[0] && IptSystem(e)[8] == Suffix(e)[0];
    forall n ensures IptEpoch(n)[4] == 'e' { }
  }

  lemma {:induction false} NftGainConcat(a: seq<NftRule>, b: seq<NftRule>, p: Packet, counter: string, u: Unit)
    requires forall r :: r in a ==> !r.NftLoReturn?
    ensures NftGain(a + b, p, counter, u) == NftGain(a, p, counter, u) + NftGain(b, p, counter, u)
    decreases |a|
  {
    hide NftRuleGain;
    if a == [] {
      assert a + b == b;
    } else {
      assert (a + b)[1..] == a[1..] + b;
      assert a[0] in a;
      NftGainConcat(a[1..], b, p, counter, u);
    }
  }

  lemma NftGainOne(r: NftRule, p: Packet, counter: string, u: Unit)
    requires !r.NftLoReturn?
    ensures NftGain([r], p, counter, u) == NftRuleGain(r, p, counter, u)
  {
    hide NftRuleGain;
    assert [r][1..] == [];
  }

  lemma RangeOfPorts(n: Node, p: Packet)
    ensures ParsePorts(n) != [] ==> (InRanges(LocalPort(p), ParsePorts(n)) <==> LocalPort(p) == ParsePorts(n)[0].0)
    ensures ParsePorts(n) != [] ==> ParsePorts(n)[0].0 == ParsePorts(n)[0].1
  {
    if ParsePorts(n) != [] && LocalPort(p) == ParsePorts(n)[0].0 { assert ParsePorts(n)[0].0 <= LocalPort(p) <= ParsePorts(n)[0].1; }
  }

  lemma NftProtoGain(n: Node, proto: Proto, p: Packet, counter: string, u: Unit)
    requires ParsePorts(n) != []
    ensures var rules := NftRulesFor(n, [proto], p.dir);
      && (forall r :: r in rules ==> !r.NftLoReturn?)
      && NftGain(rules, p, counter, u) ==
         if counter == NftNode(IDString(n), p.dir) && p.proto == proto && LocalPort(p) == ParsePorts(n)[0].0 then Weight(p, u) else 0
  {
    RangeOfPorts(n, p);
    hide NftNode, IDString, ParsePorts, InRanges;
    NftRuleOne(n, proto, p.dir);
    NftGainOne(NftPorts(proto, ParsePorts(n), NftNode(IDString(n), p.dir)), p, counter, u);
  }

  /** A node's rules count its packets once each, under its own name and in the chain's own direction. */
  lemma NftNodeGain(n: Node, p: Packet, counter: string, u: Unit)
    ensures var rules := NftNodes([n], p.dir);
      && (forall r :: r in rules ==> !r.NftLoReturn?)
      && NftGain(rules, p, counter, u) == if counter == NftNode(IDString(n), p.dir) && Serves(n, p) then Weight(p, u) else 0
  {
    hide NftNode, IDString, ParsePorts, NftRulesFor, Lower;
    NftNodesOne(n, p.dir);
    if ParsePorts(n) != [] {
      hide NftNodes;
      NftProtoGain(n, Tcp, p, counter, u);
      NftProtoGain(n, Udp, p, counter, u);
      NftRulesConcat(n, [Tcp], [Udp], p.dir);
      assert [Tcp, Udp] == [Tcp] + [Udp];
      NftGainConcat(NftRulesFor(n, [Tcp], p.dir), NftRulesFor(n, [Udp], p.dir), p, counter, u);
    }
  }

  /** The nodes' rules add up to what the packet is worth to the one id the counter stands for, if any. */
  lemma {:induction false} NftListGain(list: seq<Node>, p: Packet, counter: string, ids: set<string>, id: string,
      u: Unit)
    requires ids <= {id} && forall other :: counter == NftNode(other, p.dir) <==> other in ids
    ensures NftGain(NftNodes(list, p.dir), p, counter, u) == if ids == {} then 0 else ListGain(list, p, id, u)
    decreases |list|
  {
    hide NftNode, IDString, Serves, NftGain;
    if list == [] {
      NftGainNone(p, counter, u);
    } else {
      hide NftNodes;
      var first, rest := [list[0]], list[1..];
      assert list == first + rest;
      NftNodesConcat(first, rest, p.dir);
      NftNodeGain(list[0], p, counter, u);
      NftGainConcat(NftNodes(first, p.dir), NftNodes(rest, p.dir), p, counter, u);
      NftListGain(rest, p, counter, ids, id, u);
      assert ids == {} || ids == {id};
    }
  }

  lemma NftGainNone(p: Packet, counter: string, u: Unit)
    ensures NftGain([], p, counter, u) == 0
  {
  }

  /** Per packet, the nft chain counts exactly what the packet is worth. */
  lemma NftMeans(list: seq<Node>, p: Packet, scope: Scope, dir: Dir, u: Unit)
    ensures NftGain(NftChain(list, p.dir), p, NftName(scope, dir), u) == Worth(list, p, scope, dir, u)
  {
    hide NftNodes, NftNode, NftSystem, ListGain, NodeOf, IsScope;
    var counter, nodes := NftName(scope, dir), NftNodes(list, p.dir);
    var ids := if scope != "system" && p.dir == dir then {NodeOf(scope)} else {};
    forall other
      ensures counter == NftNode(other, p.dir) <==> other in ids
    {
      NftNodeInjective(NodeOf(scope), dir, other, p.dir);
      NftNodeInjective(other, p.dir, other, dir);
    }
    assert counter == NftSystem(p.dir) <==> scope == "system" && p.dir == dir by {
      NftNodeInjective(NodeOf(scope), dir, "", p.dir);
      NftNodeInjective("", p.dir, "", dir);
    }
    NftListGain(list, p, counter, ids, NodeOf(scope), u);
    hide NftName;
    var chain := NftChain(list, p.dir);
    var tail := [NftCount(NftSystem(p.dir))] + nodes;
    assert chain[1..] == tail && tail[1..] == nodes;
    assert NftGain(tail, p, counter, u) == NftRuleGain(tail[0], p, counter, u) + NftGain(nodes, p, counter, u);
    assert NftGain(chain, p, counter, u) == if p.iface == "lo" then 0 else NftGain(tail, p, counter, u);
  }

  lemma {:induction false} NftRunCounts(list: seq<Node>, epoch: nat, trace: seq<Packet>, scope: Scope, dir: Dir,
      u: Unit)
    ensures Value(NftRun(NftTableOf(list, epoch), trace), NftName(scope, dir), u) == Truth(list, trace, scope, dir, {V4, V6}, u)
    decreases |trace|
  {
    hide NftChain, NftName, NodeCounters, Worth, NftWalk, NftGain, IsScope;
    if trace != [] {
      var before, p, t := trace[..|trace| - 1], trace[|trace| - 1], NftTableOf(list, epoch);
      NftRunCounts(list, epoch, before, scope, dir, u);
      NftWalkGains(NftRun(t, before), NftChain(list, p.dir), p, NftName(scope, dir), u);
      NftMeans(list, p, scope, dir, u);
      hide Value;
      assert p.family.V4? || p.family.V6?;
    }
  }

  // ----- what the iptables rulesets count -----

  /** A rule with its packet and byte counters. */
  datatype Counted = Counted(rule: IptRule, count: Count)

  function Fresh(rules: seq<IptRule>): seq<Counted>
  {
    if rules == [] then [] else [Counted(rules[0], NO_COUNT)] + Fresh(rules[1..])
  }

  function RulesOf(cs: seq<Counted>): seq<IptRule> { if cs == [] then [] else [cs[0].rule] + RulesOf(cs[1..]) }

  predicate IptMatches(r: IptRule, p: Packet)
  {
    match r
    case IptLoReturn => p.iface == "lo"
    case IptComment(_) => true
    case IptPorts(proto, from, to, _) => p.proto == proto && from <= LocalPort(p) <= to
  }

  function Hit(c: Counted, p: Packet): Counted { c.(count := AddCount(c.count, Count(p.bytes, 1))) }

  /** One packet through one chain. */
  function IptWalk(cs: seq<Counted>, p: Packet): seq<Counted>
  {
    if cs == [] then []
    else if !IptMatches(cs[0].rule, p) then [cs[0]] + IptWalk(cs[1..], p)
    else if cs[0].rule.IptLoReturn? then [Hit(cs[0], p)] + cs[1..]
    else [Hit(cs[0], p)] + IptWalk(cs[1..], p)
  }

  /** The two chains of one family, in and out. */
  datatype IptState = IptState(input: seq<Counted>, output: seq<Counted>)

  function IptStep(s: IptState, p: Packet): IptState
  {
    if p.dir == Rx then s.(input := IptWalk(s.input, p)) else s.(output := IptWalk(s.output, p))
  }

  /** A family's chains after a trace; packets of the other family pass by. */
  function IptRun(c: IptChains, f: Family, trace: seq<Packet>): IptState
    decreases |trace|
  {
    if trace == [] then IptState(Fresh(c.input), Fresh(c.output))
    else
      var s, p := IptRun(c, f, trace[..|trace| - 1]), trace[|trace| - 1];
      if p.family == f then IptStep(s, p) else s
  }

  predicate Bears(r: IptRule, comment: string) { !r.IptLoReturn? && r.comment == comment }

  /** The sum of the counters of the rules that bear a comment. */
  function Total(cs: seq<Counted>, comment: string, u: Unit): nat
  {
    if cs == [] then 0 else (if Bears(cs[0].rule, comment) then Part(cs[0].count, u) else 0) + Total(cs[1..], comment, u)
  }

  function IptGain(rules: seq<IptRule>, p: Packet, comment: string, u: Unit): nat
    decreases |rules|
  {
    if rules == [] || (rules[0].IptLoReturn? && p.iface == "lo") then 0
    else (if Bears(rules[0], comment) && IptMatches(rules[0], p) then Weight(p, u) else 0) + IptGain(rules[1..], p, comment, u)
  }

  lemma {:induction false} FreshFacts(rules: seq<IptRule>, comment: string, u: Unit)
    ensures RulesOf(Fresh(rules)) == rules && Total(Fresh(rules), comment, u) == 0
    decreases |rules|
  {
    if rules != [] {
      FreshFacts(rules[1..], comment, u);
      assert Fresh(rules)[1..] == Fresh(rules[1..]);
    }
  }

  lemma HitPart(c: Counted, p: Packet, u: Unit)
    ensures Part(Hit(c, p).count, u) == Part(c.count, u) + Weight(p, u) && Hit(c, p).rule == c.rule
  {
  }

  lemma {:induction false} IptWalkGains(cs: seq<Counted>, p: Packet, comment: string, u: Unit)
    ensures RulesOf(IptWalk(cs, p)) == RulesOf(cs)
    ensures Total(IptWalk(cs, p), comment, u) == Total(cs, comment, u) + IptGain(RulesOf(cs), p, comment, u)
    decreases |cs|
  {
    hide Hit, Part, Weight;
    if cs != [] {
      var head, rest := cs[0], cs[1..];
      HitPart(head, p, u);
      IptWalkGains(rest, p, comment, u);
      assert RulesOf(cs)[1..] == RulesOf(rest) && RulesOf(cs)[0] == head.rule;
      var after := if !IptMatches(head.rule, p) then [head] + IptWalk(rest, p)
                   else if head.rule.IptLoReturn? then [Hit(head, p)] + rest else [Hit(head, p)] + IptWalk(rest, p);
      assert IptWalk(cs, p) == after;
      assert after[1..] == IptWalk(rest, p) || after[1..] == rest;
    }
  }

  lemma {:induction false} IptGainConcat(a: seq<IptRule>, b: seq<IptRule>, p: Packet, comment: string, u: Unit)
    requires forall r :: r in a ==> !r.IptLoReturn?
    ensures IptGain(a + b, p, comment, u) == IptGain(a, p, comment, u) + IptGain(b, p, comment, u)
    decreases |a|
  {
    hide IptMatches, Bears;
    if a == [] {
      assert a + b == b;
    } else {
      assert (a + b)[1..] == a[1..] + b;
      assert a[0] in a;
      IptGainConcat(a[1..], b, p, comment, u);
    }
  }

  lemma IptGainOne(r: IptRule, p: Packet, comment: string, u: Unit)
    requires !r.IptLoReturn?
    ensures IptGain([r], p, comment, u) == if Bears(r, comment) && IptMatches(r, p) then Weight(p, u) else 0
    ensures IptGain([], p, comment, u) == 0
  {
    hide IptMatches, Bears;
    assert [r][1..] == [];
  }

  lemma IptProtoGain(n: Node, proto: Proto, p: Packet, comment: string, u: Unit)
    requires ParsePorts(n) != []
    ensures var rules := IptRulesFor(n, ParsePorts(n)[0], [proto], p.dir);
      && (forall r :: r in rules ==> !r.IptLoReturn?)
      && IptGain(rules, p, comment, u) ==
         if comment == IptNode(IDString(n), p.dir) && p.proto == proto && LocalPort(p) == ParsePorts(n)[0].0 then Weight(p, u) else 0
  {
    RangeOfPorts(n, p);
    hide IptNode, IDString, ParsePorts, InRanges;
    var r := ParsePorts(n)[0];
    IptRuleOne(n, r, proto, p.dir);
    IptGainOne(IptPorts(proto, r.0, r.1, IptNode(IDString(n), p.dir)), p, comment, u);
  }

  lemma IptNodeGain(n: Node, p: Packet, comment: string, u: Unit)
    ensures var rules := IptNodes([n], p.dir);
      && (forall r :: r in rules ==> !r.IptLoReturn?)
      && IptGain(rules, p, comment, u) == if comment == IptNode(IDString(n), p.dir) && Serves(n, p) then Weight(p, u) else 0
  {
    hide IptNode, IDString, ParsePorts, IptRulesFor, Lower, IptRangesFor, IptNodes;
    IptNodesOne(n, p.dir);
    if ParsePorts(n) != [] {
      var r := ParsePorts(n)[0];
      IptProtoGain(n, Tcp, p, comment, u);
      IptProtoGain(n, Udp, p, comment, u);
      IptRulesConcat(n, r, [Tcp], [Udp], p.dir);
      assert [Tcp, Udp] == [Tcp] + [Udp];
      IptGainConcat(IptRulesFor(n, r, [Tcp], p.dir), IptRulesFor(n, r, [Udp], p.dir), p, comment, u);
    }
  }

  lemma {:induction false} IptListGain(list: seq<Node>, p: Packet, comment: string, ids: set<string>, id: string,
      u: Unit)
    requires ids <= {id} && forall other :: comment == IptNode(other, p.dir) <==> other in ids
    ensures IptGain(IptNodes(list, p.dir), p, comment, u) == if ids == {} then 0 else ListGain(list, p, id, u)
    decreases |list|
  {
    hide IptNode, IDString, Serves, IptGain, IptRangesFor;
    if list == [] {
      IptGainOne(IptComment(""), p, comment, u);
    } else {
      hide IptNodes;
      var first, rest := [list[0]], list[1..];
      assert list == first + rest;
      IptNodesConcat(first, rest, p.dir);
      IptNodeGain(list[0], p, comment, u);
      IptGainConcat(IptNodes(first, p.dir), IptNodes(rest, p.dir), p, comment, u);
      IptListGain(rest, p, comment, ids, id, u);
      assert ids == {} || ids == {id};
    }
  }

  lemma IptHeadGain(epoch: nat, nodes: seq<IptRule>, p: Packet, comment: string, u: Unit)
    requires comment != IptEpoch(epoch)
    ensures IptGain(IptHead(epoch, p.dir) + nodes, p, comment, u) ==
            if p.iface == "lo" then 0 else (if comment == IptSystem(p.dir) then Weight(p, u) else 0) + IptGain(nodes, p, comment, u)
  {
    hide IptEpoch, IptSystem, IptGain;
    var system := IptComment(IptSystem(p.dir));
    IptGainCons(system, nodes, p, comment, u);
    IptGainCons(IptLoReturn, [system] + nodes, p, comment, u);
    if p.dir == Rx {
      var first := IptComment(IptEpoch(epoch));
      IptGainCons(first, [IptLoReturn] + ([system] + nodes), p, comment, u);
      assert IptHead(epoch, p.dir) + nodes == [first] + ([IptLoReturn] + ([system] + nodes));
    } else {
      assert IptHead(epoch, p.dir) + nodes == [IptLoReturn] + ([system] + nodes);
    }
  }

  lemma IptGainCons(r: IptRule, rest: seq<IptRule>, p: Packet, comment: string, u: Unit)
    ensures IptGain([r] + rest, p, comment, u) ==
            if r.IptLoReturn? && p.iface == "lo" then 0
            else (if Bears(r, comment) && IptMatches(r, p) then Weight(p, u) else 0) + IptGain(rest, p, comment, u)
  {
    hide Bears, IptMatches;
    assert ([r] + rest)[1..] == rest;
  }

  /** Per packet, the iptables chain counts exactly what the packet is worth. */
  lemma IptMeans(list: seq<Node>, epoch: nat, p: Packet, scope: Scope, dir: Dir, u: Unit)
    ensures IptGain(IptChain(list, epoch, p.dir), p, IptName(scope, dir), u) == Worth(list, p, scope, dir, u)
  {
    hide IptNodes, IptNode, IptSystem, IptEpoch, ListGain, NodeOf, IsScope, IptHead, IptGain;
    var comment := IptName(scope, dir);
    var ids := if scope != "system" && p.dir == dir then {NodeOf(scope)} else {};
    forall other
      ensures comment == IptNode(other, p.dir) <==> other in ids
    {
      IptNodeInjective(NodeOf(scope), dir, other, p.dir);
      IptNodeInjective(other, p.dir, other, dir);
    }
    assert comment != IptEpoch(epoch) by { IptNodeInjective(NodeOf(scope), dir, "", dir); }
    IptListGain(list, p, comment, ids, NodeOf(scope), u);
    IptHeadGain(epoch, IptNodes(list, p.dir), p, comment, u);
    assert comment == IptSystem(p.dir) <==> scope == "system" && p.dir == dir by {
      IptNodeInjective(NodeOf(scope), dir, "", p.dir);
      IptNodeInjective("", p.dir, "", dir);
    }
  }

  function BothTotals(s: IptState, comment: string, u: Unit): nat
  {
    Total(s.input, comment, u) + Total(s.output, comment, u)
  }

  predicate Holds(s: IptState, list: seq<Node>, epoch: nat)
  {
    RulesOf(s.input) == IptChain(list, epoch, Rx) && RulesOf(s.output) == IptChain(list, epoch, Tx)
  }

  lemma {:induction false} IptRunCounts(list: seq<Node>, epoch: nat, f: Family, trace: seq<Packet>, scope: Scope,
      dir: Dir, u: Unit)
    ensures var s := IptRun(IptChains(IptChain(list, epoch, Rx), IptChain(list, epoch, Tx)), f, trace);
            Holds(s, list, epoch) && BothTotals(s, IptName(scope, dir), u) == Truth(list, trace, scope, dir, {f}, u)
    decreases |trace|
  {
    hide IptChain, IptName, Worth, IptWalk, IptGain, IsScope, Total, RulesOf, Fresh;
    var c := IptChains(IptChain(list, epoch, Rx), IptChain(list, epoch, Tx));
    if trace == [] {
      FreshFacts(c.input, IptName(scope, dir), u);
      FreshFacts(c.output, IptName(scope, dir), u);
    } else {
      var before, p := trace[..|trace| - 1], trace[|trace| - 1];
      IptRunCounts(list, epoch, f, before, scope, dir, u);
      var s := IptRun(c, f, before);
      IptWalkGains(if p.dir == Rx then s.input else s.output, p, IptName(scope, dir), u);
      IptMeans(list, epoch, p, scope, dir, u);
    }
  }

  lemma {:induction false} TruthSplits(list: seq<Node>, trace: seq<Packet>, scope: Scope, dir: Dir, u: Unit)
    ensures Truth(list, trace, scope, dir, {V4, V6}, u) ==
            Truth(list, trace, scope, dir, {V4}, u) + Truth(list, trace, scope, dir, {V6}, u)
    decreases |trace|
  {
    hide Worth, IsScope;
    if trace != [] {
      TruthSplits(list, trace[..|trace| - 1], scope, dir, u);
      assert trace[|trace| - 1].family.V4? || trace[|trace| - 1].family.V6?;
    }
  }

  // ----- reading the iptables counters back -----

  /** A line of `iptables -nvxL` that carries a comment, or one that does not. */
  datatype Line = Line(comment: Option<string>, count: Count)

  function Lines(cs: seq<Counted>): seq<Line>
  {
    if cs == [] then []
    else [Line(if cs[0].rule.IptLoReturn? then None else Some(cs[0].rule.comment), cs[0].count)] + Lines(cs[1..])
  }

  const EPOCH_PREFIX := "sbx:epoch:"

  predicate IsEpochTag(tag: string) { |tag| >= |EPOCH_PREFIX| && tag[..|EPOCH_PREFIX|] == EPOCH_PREFIX }

  function KeyOf(tag: string, f: Family): string { tag + "@" + FamilyName(f) }

  /** One listing line added to the result: an epoch tag only has to be there, a counter is summed per family. */
  function AddLine(m: Snapshot, l: Line, f: Family): Snapshot
  {
    match l.comment
    case None => m
    case Some(tag) => if IsEpochTag(tag) then m[tag := NO_COUNT] else m[KeyOf(tag, f) := AddCount(CountOf(m, KeyOf(tag, f)), l.count)]
  }

  function AddLines(m: Snapshot, lines: seq<Line>, f: Family): Snapshot
    decreases |lines|
  {
    if lines == [] then m else AddLines(AddLine(m, lines[0], f), lines[1..], f)
  }

  function AddChains(m: Snapshot, chains: seq<Option<seq<Line>>>, f: Family): Snapshot
    decreases |chains|
  {
    if chains == [] then m else AddChains(if chains[0].Some? then AddLines(m, chains[0].value, f) else m, chains[1..], f)
  }

  /** The counters of one family from whichever of its chains could be listed; None if none could. */
  function ReadOneOf(chains: seq<Option<seq<Line>>>, f: Family): Option<Snapshot>
  {
    if exists i :: 0 <= i < |chains| && chains[i].Some? then Some(AddChains(map[], chains, f)) else None
  }

  method ReadOne(chains: seq<Option<seq<Line>>>, f: Family) returns (res: Option<Snapshot>)
    ensures res == ReadOneOf(chains, f)
  {
    hide AddLine;
    var m: Snapshot, found := map[], false;
    for i := 0 to |chains|
      invariant AddChains(m, chains[i..], f) == AddChains(map[], chains, f)
      invariant found <==> exists j :: 0 <= j < i && chains[j].Some?
    {
      assert chains[i..][1..] == chains[i + 1..];
      if chains[i].None? { continue; }
      found := true;
      var lines := chains[i].value;
      ghost var before := m;
      for j := 0 to |lines|
        invariant AddLines(m, lines[j..], f) == AddLines(before, lines, f)
      {
        assert lines[j..][1..] == lines[j + 1..];
        m := AddLine(m, lines[j], f);
      }
    }
    return if found then Some(m) else None;
  }

  /** The families' snapshots together; only epoch tags can occur in both. */
  function Merge(a: Snapshot, b: Snapshot): Snapshot { a + b }

  /** What a family contributes to a reading: nothing if its command is missing or its chains could not be read. */
  function PartOf(installed: set<Family>, parts: map<Family, Option<Snapshot>>, f: Family): Snapshot
    requires f in parts
  {
    if f in installed && parts[f].Some? then parts[f].value else map[]
  }

  class Iptables {
    var enabled: set<Family>

    constructor ()
      ensures enabled == {}
    {
      enabled := {};
    }

    /**
      A whole reading. A family that has been read once must be read every time from then on: a reading
      that would lack it is refused, so no snapshot ever loses a family's counters.
     */
    method Read(installed: set<Family>, parts: map<Family, Option<Snapshot>>) returns (res: Option<Snapshot>)
      requires forall f: Family :: f in parts
      modifies this
      ensures res.Some? <==>
        && (forall f :: f in installed && f in old(enabled) ==> parts[f].Some?)
        && (exists f :: f in installed && parts[f].Some?)
      ensures res.Some? ==> forall f :: f in enabled && f in installed ==>
          parts[f].Some? && parts[f].value.Keys <= res.value.Keys
      ensures res.Some? ==> res.value == Merge(PartOf(installed, parts, V4), PartOf(installed, parts, V6))
      ensures old(enabled) <= enabled
      ensures res.Some? ==> enabled == old(enabled) + set f | f in installed && parts[f].Some?
    {
      var m: Snapshot, sawAny := map[], false;
      if V4 in installed {
        match parts[V4] {
          case None => if V4 in enabled { return None; }
          case Some(part) =>
            enabled := enabled + {V4};
            m, sawAny := m + part, true;
        }
      }
      assert m == PartOf(installed, parts, V4);
      if V6 in installed {
        match parts[V6] {
          case None => if V6 in enabled { return None; }
          case Some(part) =>
            enabled := enabled + {V6};
            m, sawAny := m + part, true;
        }
      }
      assert forall f: Family {:trigger f in installed} :: f.V4? || f.V6?;
      return if sawAny then Some(m) else None;
    }
  }

  // ----- the two backends agree -----

  lemma KeyFacts(a: string, f: Family, b: string, g: Family)
    ensures KeyOf(a, f) == KeyOf(b, g) <==> a == b && f == g
    ensures IsEpochTag(KeyOf(a, f)) ==> IsEpochTag(a)
    ensures '@' in KeyOf(a, f)
  {
    var x, y := KeyOf(a, f), KeyOf(b, g);
    assert x[..|x| - 3] == a && y[..|y| - 3] == b && x[|x| - 3] == '@';
    assert x[|x| - 1] == FamilyName(f)[1] && y[|y| - 1] == FamilyName(g)[1];
    assert x[|a|] == '@' && forall i :: 0 <= i < |EPOCH_PREFIX| ==> EPOCH_PREFIX[i] != '@';
    assert IsEpochTag(x) ==> forall i :: 0 <= i < |EPOCH_PREFIX| ==> x[..|EPOCH_PREFIX|][i] == x[i];
  }

  function LineTotal(lines: seq<Line>, comment: string, u: Unit): nat
  {
    if lines == [] then 0
    else (if lines[0].comment == Some(comment) then Part(lines[0].count, u) else 0) + LineTotal(lines[1..], comment, u)
  }

  lemma AddCountPart(a: Count, b: Count, u: Unit)
    ensures Part(AddCount(a, b), u) == Part(a, u) + Part(b, u)
  {
  }

  lemma AddLineValue(m: Snapshot, l: Line, f: Family, comment: string, u: Unit)
    requires !IsEpochTag(comment)
    ensures Value(AddLine(m, l, f), KeyOf(comment, f), u) ==
            Value(m, KeyOf(comment, f), u) + if l.comment == Some(comment) then Part(l.count, u) else 0
  {
    hide KeyOf, IsEpochTag, Part, AddCount;
    if l.comment.Some? {
      var tag := l.comment.value;
      KeyFacts(comment, f, tag, f);
      AddCountPart(CountOf(m, KeyOf(tag, f)), l.count, u);
    }
  }

  lemma {:induction false} AddLinesValue(m: Snapshot, lines: seq<Line>, f: Family, comment: string, u: Unit)
    requires !IsEpochTag(comment)
    ensures Value(AddLines(m, lines, f), KeyOf(comment, f), u)
        == Value(m, KeyOf(comment, f), u) + LineTotal(lines, comment, u)
    decreases |lines|
  {
    hide KeyOf, IsEpochTag, Part, AddLine, Value;
    if lines != [] {
      AddLineValue(m, lines[0], f, comment, u);
      AddLinesValue(AddLine(m, lines[0], f), lines[1..], f, comment, u);
    }
  }

  lemma {:induction false} LinesTotal(cs: seq<Counted>, comment: string, u: Unit)
    ensures LineTotal(Lines(cs), comment, u) == Total(cs, comment, u)
    decreases |cs|
  {
    hide Part;
    if cs != [] {
      LinesTotal(cs[1..], comment, u);
      assert Lines(cs)[1..] == Lines(cs[1..]);
    }
  }

  /** A comment of a rule that counts. */
  ghost predicate CounterComment(c: string)
  {
    (exists d :: c == IptSystem(d)) || (exists id, d :: IsDecimal(id) && c == IptNode(id, d))
  }

  /** A comment one of our rules can bear. */
  ghost predicate OurComment(c: string) { (exists e: nat :: e <= MAX_UINT64 && c == IptEpoch(e)) || CounterComment(c) }

  ghost predicate OurKey(k: string, f: Family)
  {
    (exists e: nat :: e <= MAX_UINT64 && k == IptEpoch(e)) || (exists c :: OurComment(c) && !IsEpochTag(c) && k == KeyOf(c, f))
  }

  ghost predicate DecimalIds(list: seq<Node>) { forall i :: 0 <= i < |list| ==> IsDecimal(IDString(list[i])) }

  lemma {:induction false} IptNodesComments(list: seq<Node>, dir: Dir)
    requires DecimalIds(list)
    ensures forall r :: r in IptNodes(list, dir) ==> !r.IptLoReturn? && CounterComment(r.comment)
    decreases |list|
  {
    hide IsDecimal, IDString, ParsePorts, IptNode, IptEpoch, IptSystem, Protocols;
    if list != [] {
      var n := list[0];
      assert DecimalIds(list[1..]);
      IptNodesComments(list[1..], dir);
      assert CounterComment(IptNode(IDString(n), dir));
      hide CounterComment;
      RangesComments(n, ParsePorts(n), dir);
    }
  }

  lemma {:induction false} RangesComments(n: Node, ranges: seq<(int, int)>, dir: Dir)
    ensures forall r :: r in IptRangesFor(n, ranges, dir) ==> !r.IptLoReturn? && r.comment == IptNode(IDString(n), dir)
    decreases |ranges|
  {
    hide IDString, IptNode, Protocols;
    if ranges != [] {
      RulesComments(n, ranges[0], Protocols(n), dir);
      RangesComments(n, ranges[1..], dir);
    }
  }

  lemma {:induction false} RulesComments(n: Node, range: (int, int), protos: seq<Proto>, dir: Dir)
    ensures forall r :: r in IptRulesFor(n, range, protos, dir) ==>
        !r.IptLoReturn? && r.comment == IptNode(IDString(n), dir)
    decreases |protos|
  {
    hide IDString, IptNode;
    if protos != [] { RulesComments(n, range, protos[1..], dir); }
  }

  lemma ChainComments(list: seq<Node>, epoch: nat, dir: Dir)
    requires DecimalIds(list) && epoch <= MAX_UINT64
    ensures forall r :: r in IptChain(list, epoch, dir) && !r.IptLoReturn? ==>
              OurComment(r.comment) && (r.comment == IptEpoch(epoch) || CounterComment(r.comment))
  {
    hide IptNodes, IptNode, IptEpoch, IptSystem, IsDecimal;
    IptNodesComments(list, dir);
    assert OurComment(IptEpoch(epoch)) && CounterComment(IptSystem(dir));
  }

  /** Reading lines with our comments yields only our keys. */
  lemma {:induction false} AddLinesKeys(m: Snapshot, lines: seq<Line>, f: Family)
    requires forall k :: k in m ==> OurKey(k, f)
    requires forall l :: l in lines && l.comment.Some? ==> OurComment(l.comment.value)
    ensures forall k :: k in AddLines(m, lines, f) ==> OurKey(k, f)
    decreases |lines|
  {
    hide KeyOf, IsEpochTag, OurComment;
    if lines != [] {
      var l := lines[0];
      assert l in lines;
      if l.comment.Some? && IsEpochTag(l.comment.value) { EpochCommentIsEpoch(l.comment.value); }
      AddLinesKeys(AddLine(m, l, f), lines[1..], f);
    }
  }

  lemma EpochCommentIsEpoch(c: string)
    requires OurComment(c) && IsEpochTag(c)
    ensures exists e: nat :: e <= MAX_UINT64 && c == IptEpoch(e)
  {
    assert c[..|EPOCH_PREFIX|][4] == 'e';
    forall id, d ensures IptSystem(d)[4] != 'e' && IptNode(id, d)[4] != 'e' { }
  }

  lemma {:induction false} LinesComments(cs: seq<Counted>)
    ensures forall l :: l in Lines(cs) && l.comment.Some? ==>
              exists r :: r in RulesOf(cs) && !r.IptLoReturn? && r.comment == l.comment.value
    decreases |cs|
  {
    if cs != [] {
      LinesComments(cs[1..]);
      assert cs[0].rule in RulesOf(cs);
      assert forall r :: r in RulesOf(cs[1..]) ==> r in RulesOf(cs);
    }
  }

  /** What a family's chains read back as. */
  function Listed(s: IptState): seq<Option<seq<Line>>> { [Some(Lines(s.input)), Some(Lines(s.output))] }

  function ReadBack(s: IptState, f: Family): Snapshot
  {
    AddLines(AddLines(map[], Lines(s.input), f), Lines(s.output), f)
  }

  lemma ReadBackIsRead(s: IptState, f: Family)
    ensures ReadOneOf(Listed(s), f) == Some(ReadBack(s, f))
  {
    hide AddLines, Lines;
    var chains := Listed(s);
    assert chains[0].Some?;
    var last := [Some(Lines(s.output))];
    assert chains[1..] == last && last[1..] == [];
    var m := AddLines(map[], Lines(s.input), f);
    assert AddChains(m, last, f) == AddChains(AddLines(m, Lines(s.output), f), [], f);
  }

  lemma ReadBackFacts(list: seq<Node>, epoch: nat, s: IptState, f: Family, comment: string, u: Unit)
    requires Holds(s, list, epoch) && DecimalIds(list) && epoch <= MAX_UINT64 && !IsEpochTag(comment)
    ensures Value(ReadBack(s, f), KeyOf(comment, f), u) == BothTotals(s, comment, u)
    ensures forall k :: k in ReadBack(s, f) ==> OurKey(k, f)
  {
    hide KeyOf, IsEpochTag, AddLines, Lines, LineTotal, Total, RulesOf, OurKey, OurComment, IptChain;
    var first := AddLines(map[], Lines(s.input), f);
    AddLinesValue(map[], Lines(s.input), f, comment, u);
    AddLinesValue(first, Lines(s.output), f, comment, u);
    LinesTotal(s.input, comment, u);
    LinesTotal(s.output, comment, u);
    ChainComments(list, epoch, Rx);
    ChainComments(list, epoch, Tx);
    LinesComments(s.input);
    LinesComments(s.output);
    AddLinesKeys(map[], Lines(s.input), f);
    AddLinesKeys(first, Lines(s.output), f);
  }

  ghost function TallyOf(snap: Snapshot, scope: Scope, dir: Dir, u: Unit): string -> int
  {
    n => if Charged(n, scope, dir) then Value(snap, n, u) else 0
  }

  /** What a snapshot shows for a scope: the sum over the counters charged to it. */
  ghost function Tally(snap: Snapshot, scope: Scope, dir: Dir, u: Unit): int
  {
    SumSet(snap.Keys, TallyOf(snap, scope, dir, u))
  }

  lemma TallyOnly(snap: Snapshot, scope: Scope, dir: Dir, u: Unit, names: set<string>)
    requires forall k :: k in snap && Charged(k, scope, dir) ==> k in names
    ensures Tally(snap, scope, dir, u) == SumSet(names, TallyOf(snap, scope, dir, u))
  {
    hide Charged;
    var f := TallyOf(snap, scope, dir, u);
    SumSupport(names * snap.Keys, snap.Keys, f);
    SumSupport(names * snap.Keys, names, f);
  }

  lemma CommentCharged(c: string, family: string, scope: Scope, dir: Dir)
    requires OurComment(c) && Charged(c + "@" + family, scope, dir)
    ensures c == IptName(scope, dir)
  {
    hide ParseCounterName, ParseEpochName, IptEpoch, IptSystem, IptNode, NodeOf, IsScope, NodeScope;
    if e: nat :| e <= MAX_UINT64 && c == IptEpoch(e) {
      EpochWithFamily(e, family);
      EpochIsNoCounter(c + "@" + family);
      assert false;
    } else if d :| c == IptSystem(d) {
      SystemNamesRoundTrip(d, family);
    } else {
      var id, d :| IsDecimal(id) && c == IptNode(id, d);
      NodeNamesRoundTrip(id, d, family);
      NodeScopeIsNode(id);
    }
  }

  lemma NodeScopeIsNode(id: string)
    requires id != ""
    ensures NodeScope(id) != "system"
  {
    assert NodeScope(id)[0] == 'n' && "system"[0] == 's';
  }

  lemma EpochWithFamily(e: nat, family: string)
    requires e <= MAX_UINT64
    ensures ParseEpochName(IptEpoch(e) + "@" + family).Some?
  {
    var c := IptEpoch(e);
    EpochNamesRoundTrip(e);
    EpochHasNoAt(e);
    BeforeAtSplit(c, "");
    BeforeAtSplit(c, "@" + family);
    assert c + "" == c && c + "@" + family == c + ("@" + family);
  }

  lemma EpochHasNoAt(e: nat)
    ensures '@' !in IptEpoch(e)
  {
    assert forall i :: 0 <= i < |Itoa(e)| ==> IsDigit(Itoa(e)[i]);
    assert '@' !in "sbx:epoch:";
  }

  lemma OurKeyCharged(k: string, f: Family, scope: Scope, dir: Dir)
    requires OurKey(k, f) && Charged(k, scope, dir)
    ensures k == KeyOf(IptName(scope, dir), f)
  {
    hide ParseCounterName, ParseEpochName, IptEpoch, IptName, IsScope, OurComment, IsEpochTag;
    if e: nat :| e <= MAX_UINT64 && k == IptEpoch(e) {
      EpochNamesRoundTrip(e);
      EpochIsNoCounter(k);
      assert false;
    } else {
      var c :| OurComment(c) && !IsEpochTag(c) && k == KeyOf(c, f);
      CommentCharged(c, FamilyName(f), scope, dir);
    }
  }

  /** A counter name the nft ruleset can declare or use. */
  ghost predicate OurCounter(c: string)
  {
    || (exists e: nat :: e <= MAX_UINT64 && c == NftEpoch(e))
    || (exists d :: c == NftSystem(d))
    || (exists id, d :: IsDecimal(id) && c == NftNode(id, d))
  }

  lemma OurCounterCharged(c: string, scope: Scope, dir: Dir)
    requires OurCounter(c) && Charged(c, scope, dir)
    ensures c == NftName(scope, dir)
  {
    hide ParseCounterName, ParseEpochName, NftEpoch, NftSystem, NftNode, NodeOf, IsScope, NodeScope;
    if e: nat :| e <= MAX_UINT64 && c == NftEpoch(e) {
      EpochNamesRoundTrip(e);
      EpochIsNoCounter(c);
      assert false;
    } else if d :| c == NftSystem(d) {
      SystemNamesRoundTrip(d, "");
    } else {
      var id, d :| IsDecimal(id) && c == NftNode(id, d);
      NodeNamesRoundTrip(id, d, "");
      NodeScopeIsNode(id);
    }
  }

  lemma {:induction false} NodeCountersAreOurs(list: seq<Node>)
    requires DecimalIds(list)
    ensures forall c :: c in NodeCounters(list) ==> OurCounter(c)
    decreases |list|
  {
    hide IDString, NftNode, IsDecimal;
    if list != [] {
      assert OurCounter(NftNode(IDString(list[0]), Rx)) && OurCounter(NftNode(IDString(list[0]), Tx));
      assert DecimalIds(list[1..]);
      NodeCountersAreOurs(list[1..]);
    }
  }

  predicate RuleUses(r: NftRule, c: string) { !r.NftLoReturn? && r.counter == c }

  lemma {:induction false} NftNodesCounters(list: seq<Node>, dir: Dir)
    requires DecimalIds(list)
    ensures forall r, c :: r in NftNodes(list, dir) && RuleUses(r, c) ==> OurCounter(c)
    decreases |list|
  {
    hide IDString, ParsePorts, NftNode, Protocols, IsDecimal;
    if list != [] {
      var n := list[0];
      assert DecimalIds(list[1..]);
      NftNodesCounters(list[1..], dir);
      assert OurCounter(NftNode(IDString(n), dir));
      hide OurCounter;
      NftRulesCounters(n, Protocols(n), dir);
    }
  }

  lemma {:induction false} NftRulesCounters(n: Node, protos: seq<Proto>, dir: Dir)
    ensures forall r, c :: r in NftRulesFor(n, protos, dir) && RuleUses(r, c) ==> c == NftNode(IDString(n), dir)
    decreases |protos|
  {
    hide IDString, ParsePorts, NftNode;
    if protos != [] { NftRulesCounters(n, protos[1..], dir); }
  }

  lemma {:induction false} NftWalkKeys(m: Snapshot, chain: seq<NftRule>, p: Packet)
    requires forall c :: c in m ==> OurCounter(c)
    requires forall r, c :: r in chain && RuleUses(r, c) ==> OurCounter(c)
    ensures forall c :: c in NftWalk(m, chain, p) ==> OurCounter(c)
    decreases |chain|
  {
    hide OurCounter, Matches;
    if chain != [] {
      var r := chain[0];
      assert r in chain;
      assert !r.NftLoReturn? ==> RuleUses(r, r.counter);
      match r {
        case NftLoReturn => NftWalkKeys(m, chain[1..], p);
        case NftCount(c) => NftWalkKeys(Bump(m, c, p), chain[1..], p);
        case NftPorts(proto, ranges, c) => NftWalkKeys(if Matches(p, proto, ranges) then Bump(m, c, p) else m, chain[1..], p);
      }
    }
  }

  lemma NftChainCounters(list: seq<Node>, dir: Dir)
    requires DecimalIds(list)
    ensures forall r, c :: r in NftChain(list, dir) && RuleUses(r, c) ==> OurCounter(c)
  {
    hide NftSystem, NftNode, NftEpoch, NftNodes;
    NftNodesCounters(list, dir);
    assert OurCounter(NftSystem(dir));
  }

  lemma {:induction false} NftRunKeys(list: seq<Node>, epoch: nat, trace: seq<Packet>)
    requires DecimalIds(list) && epoch <= MAX_UINT64
    ensures forall c :: c in NftRun(NftTableOf(list, epoch), trace) ==> OurCounter(c)
    decreases |trace|
  {
    var t := NftTableOf(list, epoch);
    if trace == [] {
      hide NftSystem, NftEpoch, NftChain;
      NodeCountersAreOurs(list);
      assert OurCounter(NftEpoch(epoch)) && OurCounter(NftSystem(Rx)) && OurCounter(NftSystem(Tx));
    } else {
      hide OurCounter, NftChain, NodeCounters, NftWalk;
      NftRunKeys(list, epoch, trace[..|trace| - 1]);
      var p := trace[|trace| - 1];
      NftChainCounters(list, p.dir);
      NftWalkKeys(NftRun(t, trace[..|trace| - 1]), NftChain(list, p.dir), p);
    }
  }

  /** Only "system" and decimal node scopes are ever charged. */
  predicate Chargeable(scope: Scope) { scope == "system" || IsDecimal(NodeOf(scope)) }

  lemma ChargedIsChargeable(name: string, scope: Scope, dir: Dir)
    requires Charged(name, scope, dir)
    ensures Chargeable(scope)
  {
    var b := BeforeAt(name);
    var mid := b[4..|b| - 2];
    if mid != "sys" { assert NodeScope(mid[1..])[5..] == mid[1..]; }
  }

  lemma NameIsCharged(scope: Scope, dir: Dir, f: Family)
    requires Chargeable(scope)
    ensures Charged(NftName(scope, dir), scope, dir) && Charged(KeyOf(IptName(scope, dir), f), scope, dir)
    ensures !IsEpochTag(IptName(scope, dir))
  {
    hide ParseCounterName, ParseEpochName;
    if scope == "system" {
      SystemNamesRoundTrip(dir, FamilyName(f));
      assert IptName(scope, dir)[4] == 's' && EPOCH_PREFIX[4] == 'e';
    } else {
      NodeNamesRoundTrip(NodeOf(scope), dir, FamilyName(f));
      NodeOfInjective(scope, NodeScope(NodeOf(scope)));
      assert IptName(scope, dir)[4] == 'n' && EPOCH_PREFIX[4] == 'e';
    }
  }

  lemma SumOne(name: string, f: string -> int)
    ensures SumSet({name}, f) == f(name)
  {
    SumInsert({}, name, f);
    assert {} + {name} == {name};
  }

  lemma NftTally(list: seq<Node>, epoch: nat, trace: seq<Packet>, scope: Scope, dir: Dir, u: Unit)
    requires DecimalIds(list) && epoch <= MAX_UINT64 && Chargeable(scope)
    ensures Tally(NftRun(NftTableOf(list, epoch), trace), scope, dir, u) == Truth(list, trace, scope, dir, {V4, V6}, u)
  {
    hide NftRun, NftTableOf, OurCounter, Charged, NftName, IptName, IsScope, Truth, Value, Chargeable, IsEpochTag,
        KeyOf;
    var snap, name := NftRun(NftTableOf(list, epoch), trace), NftName(scope, dir);
    NftRunKeys(list, epoch, trace);
    forall k | k in snap && Charged(k, scope, dir) ensures k in {name} { OurCounterCharged(k, scope, dir); }
    TallyOnly(snap, scope, dir, u, {name});
    SumOne(name, TallyOf(snap, scope, dir, u));
    NameIsCharged(scope, dir, V4);
    NftRunCounts(list, epoch, trace, scope, dir, u);
  }

  /** What readOne returns for each family after a trace. */
  function IptParts(list: seq<Node>, epoch: nat, trace: seq<Packet>): map<Family, Option<Snapshot>>
  {
    var c := IptChains(IptChain(list, epoch, Rx), IptChain(list, epoch, Tx));
    map[V4 := ReadOneOf(Listed(IptRun(c, V4, trace)), V4), V6 := ReadOneOf(Listed(IptRun(c, V6, trace)), V6)]
  }

  /** What a reading with both commands installed returns after a trace. */
  function IptSnapshot(list: seq<Node>, epoch: nat, trace: seq<Packet>): Snapshot
  {
    Merge(PartOf({V4, V6}, IptParts(list, epoch, trace), V4), PartOf({V4, V6}, IptParts(list, epoch, trace), V6))
  }

  lemma FamilyReads(list: seq<Node>, epoch: nat, trace: seq<Packet>, scope: Scope, dir: Dir, u: Unit, f: Family)
    requires DecimalIds(list) && epoch <= MAX_UINT64 && Chargeable(scope)
    ensures var snap := ReadBack(IptRun(IptChains(IptChain(list, epoch, Rx), IptChain(list, epoch, Tx)), f, trace), f);
      && Value(snap, KeyOf(IptName(scope, dir), f), u) == Truth(list, trace, scope, dir, {f}, u)
      && forall k :: k in snap ==> OurKey(k, f)
  {
    hide IptChain, IptName, KeyOf, Value, Truth, OurKey, IsScope, Holds, BothTotals, Chargeable, IptRun, ReadBack;
    hide IsEpochTag, Charged, NftName;
    IptRunCounts(list, epoch, f, trace, scope, dir, u);
    NameIsCharged(scope, dir, f);
    var c := IptChains(IptChain(list, epoch, Rx), IptChain(list, epoch, Tx));
    ReadBackFacts(list, epoch, IptRun(c, f, trace), f, IptName(scope, dir), u);
  }

  lemma NotTheOthersKey(k: string, c: string, f: Family, g: Family)
    requires OurKey(k, f) && f != g
    ensures k != KeyOf(c, g)
  {
    hide IptEpoch, KeyOf, OurComment, IsEpochTag;
    KeyFacts(c, g, c, g);
    if e: nat :| e <= MAX_UINT64 && k == IptEpoch(e) {
      EpochHasNoAt(e);
    } else {
      var b :| OurComment(b) && !IsEpochTag(b) && k == KeyOf(b, f);
      KeyFacts(b, f, c, g);
    }
  }

  lemma IptTally(list: seq<Node>, epoch: nat, trace: seq<Packet>, scope: Scope, dir: Dir, u: Unit)
    requires DecimalIds(list) && epoch <= MAX_UINT64 && Chargeable(scope)
    ensures Tally(IptSnapshot(list, epoch, trace), scope, dir, u) == Truth(list, trace, scope, dir, {V4, V6}, u)
  {
    hide IptChain, IptName, KeyOf, Truth, OurKey, IsScope, Chargeable, IptRun, ReadBack, IsEpochTag, Charged, NftName;
    var c := IptChains(IptChain(list, epoch, Rx), IptChain(list, epoch, Tx));
    var a, b := ReadBack(IptRun(c, V4, trace), V4), ReadBack(IptRun(c, V6, trace), V6);
    ReadBackIsRead(IptRun(c, V4, trace), V4);
    ReadBackIsRead(IptRun(c, V6, trace), V6);
    hide ReadOneOf, Listed;
    var snap, x, y := Merge(a, b), KeyOf(IptName(scope, dir), V4), KeyOf(IptName(scope, dir), V6);
    assert IptSnapshot(list, epoch, trace) == snap;
    FamilyReads(list, epoch, trace, scope, dir, u, V4);
    FamilyReads(list, epoch, trace, scope, dir, u, V6);
    forall k | k in snap && Charged(k, scope, dir) ensures k in {x, y}
    {
      if k in a { OurKeyCharged(k, V4, scope, dir); } else { OurKeyCharged(k, V6, scope, dir); }
    }
    TallyOnly(snap, scope, dir, u, {x, y});
    KeyFacts(IptName(scope, dir), V4, IptName(scope, dir), V6);
    SumOne(x, TallyOf(snap, scope, dir, u));
    SumInsert({x}, y, TallyOf(snap, scope, dir, u));
    assert {x} + {y} == {x, y};
    NameIsCharged(scope, dir, V4);
    NameIsCharged(scope, dir, V6);
    forall k | k in a ensures k != y { NotTheOthersKey(k, IptName(scope, dir), V4, V6); }
    forall k | k in b ensures k != x { NotTheOthersKey(k, IptName(scope, dir), V6, V4); }
    MergedValues(a, b, x, y, u);
    TruthSplits(list, trace, scope, dir, u);
  }

  lemma MergedValues(a: Snapshot, b: Snapshot, x: string, y: string, u: Unit)
    requires x !in b && y !in a
    ensures Value(Merge(a, b), x, u) == Value(a, x, u) && Value(Merge(a, b), y, u) == Value(b, y, u)
  {
  }

  /**
    Two backends, one meaning: for every validated node list and every trace of packets, both families, any
    protocol, interface and port, the nft counters and the iptables counters read back show the same bytes
    and packets for every scope and direction, namely what the packets are worth to it.
   */
  lemma BackendsAgree(list: seq<Node>, epoch: nat, trace: seq<Packet>, scope: Scope, dir: Dir, u: Unit)
    requires DecimalIds(list) && epoch <= MAX_UINT64
    ensures Tally(NftRun(NftTableOf(list, epoch), trace), scope, dir, u)
        == Tally(IptSnapshot(list, epoch, trace), scope, dir, u)
    ensures Chargeable(scope) ==>
              Tally(NftRun(NftTableOf(list, epoch), trace), scope, dir, u) == Truth(list, trace, scope, dir, {V4, V6}, u)
  {
    hide NftRun, NftTableOf, IptSnapshot, Charged, Truth, IsScope, Chargeable;
    if Chargeable(scope) {
      NftTally(list, epoch, trace, scope, dir, u);
      IptTally(list, epoch, trace, scope, dir, u);
    } else {
      forall name ensures !Charged(name, scope, dir) { if Charged(name, scope, dir) { ChargedIsChargeable(name, scope, dir); } }
      TallyOnly(NftRun(NftTableOf(list, epoch), trace), scope, dir, u, {});
      TallyOnly(IptSnapshot(list, epoch, trace), scope, dir, u, {});
    }
  }

  /** Validated lists have decimal ids. */
  lemma ValidIdsAreDecimal(list: seq<Node>)
    requires ValidList(list)
    ensures DecimalIds(list)
  {
    forall i | 0 <= i < |list| ensures IsDecimal(IDString(list[i]))
    {
      assert ValidNode(list[i]);
      ManagedId(list[i]);
    }
  }

  // ----- nodes never count more than the system -----

  ghost function GainOf(list: seq<Node>, p: Packet, u: Unit): string -> int { id => ListGain(list, p, id, u) }

  function ServedGain(list: seq<Node>, p: Packet, u: Unit): nat
  {
    if list == [] then 0 else (if Serves(list[0], p) then Weight(p, u) else 0) + ServedGain(list[1..], p, u)
  }

  /** Summed over the ids, what a packet is worth to the nodes is what it is worth to the list. */
  lemma {:induction false} GainsAddUp(list: seq<Node>, p: Packet, ids: set<string>, u: Unit)
    requires forall i :: 0 <= i < |list| ==> IDString(list[i]) in ids
    ensures SumSet(ids, GainOf(list, p, u)) == ServedGain(list, p, u)
    decreases |list|
  {
    hide IDString, Serves;
    if list == [] {
      SumSupport({}, ids, GainOf(list, p, u));
    } else {
      var id, rest := IDString(list[0]), list[1..];
      var own: string -> int := x => if x == id && Serves(list[0], p) then Weight(p, u) else 0;
      GainsAddUp(rest, p, ids, u);
      SumPlus(ids, own, GainOf(rest, p, u), GainOf(list, p, u));
      SumSupport({id}, ids, own);
      SumOne(id, own);
    }
  }

  /** With distinct ports at most one node serves a packet. */
  lemma {:induction false} ServedOnce(list: seq<Node>, p: Packet, u: Unit)
    requires forall i, j :: 0 <= i < j < |list| && Serves(list[i], p) ==> !Serves(list[j], p)
    ensures ServedGain(list, p, u) <= Weight(p, u)
    ensures (forall i :: 0 <= i < |list| ==> !Serves(list[i], p)) ==> ServedGain(list, p, u) == 0
    decreases |list|
  {
    hide Serves;
    if list != [] {
      var rest := list[1..];
      assert forall i :: 0 <= i < |rest| ==> rest[i] == list[i + 1];
      ServedOnce(rest, p, u);
    }
  }

  lemma PortsServeOnce(list: seq<Node>, p: Packet, i: nat, j: nat)
    requires ValidList(list) && i < j < |list| && Serves(list[i], p)
    ensures !Serves(list[j], p)
  {
    assert ValidNode(list[i]) && ValidNode(list[j]);
    PortServed(list[i], p);
    PortServed(list[j], p);
  }

  lemma PortServed(n: Node, p: Packet)
    requires ValidPort(n)
    ensures Serves(n, p) ==> LocalPort(p) == PortOf(n)
  {
    hide Protocols;
  }

  ghost function TruthOf(list: seq<Node>, trace: seq<Packet>, dir: Dir, families: set<Family>, u: Unit): string -> int
  {
    id => if id == "" then 0 else Truth(list, trace, NodeScope(id), dir, families, u)
  }

  lemma NodeWorth(list: seq<Node>, p: Packet, id: string, dir: Dir, u: Unit)
    requires id != ""
    ensures Worth(list, p, NodeScope(id), dir, u) == if p.iface == "lo" || p.dir != dir then 0 else ListGain(list, p, id, u)
  {
    NodeScopeIsNode(id);
    assert NodeScope(id)[5..] == id && NodeScope(id)[..5] == "node:";
    hide NodeScope, IsScope, ListGain;
  }

  /**
    The nodes of a validated list together never count more than the system counter, byte for byte and
    packet for packet.
   */
  lemma {:induction false} NodesWithinSystem(list: seq<Node>, trace: seq<Packet>, ids: set<string>, dir: Dir,
                                             families: set<Family>, u: Unit)
    requires ValidList(list) && ids == set n | n in list :: IDString(n)
    ensures SumSet(ids, TruthOf(list, trace, dir, families, u)) <= Truth(list, trace, "system", dir, families, u)
    decreases |trace|
  {
    hide ValidNode, IDString, NodeScope, ListGain, Worth, Serves, IdOf, PortOf;
    if trace == [] {
      SumSupport({}, ids, TruthOf(list, trace, dir, families, u));
    } else {
      var before, p := trace[..|trace| - 1], trace[|trace| - 1];
      NodesWithinSystem(list, before, ids, dir, families, u);
      var counts := p.family in families && p.iface != "lo" && p.dir == dir;
      var gain: string -> int := id => if id != "" && counts then ListGain(list, p, id, u) else 0;
      IdsNotEmpty(list, ids);
      forall id | id in ids
        ensures TruthOf(list, trace, dir, families, u)(id) == TruthOf(list, before, dir, families, u)(id) + gain(id)
      {
        NodeWorth(list, p, id, dir, u);
      }
      SumPlus(ids, TruthOf(list, before, dir, families, u), gain, TruthOf(list, trace, dir, families, u));
      if counts {
        SumCong(ids, gain, GainOf(list, p, u));
        GainsAddUp(list, p, ids, u);
        forall i, j | 0 <= i < j < |list| && Serves(list[i], p) ensures !Serves(list[j], p) { PortsServeOnce(list, p, i, j); }
        ServedOnce(list, p, u);
        SystemWorth(list, p, dir, u);
      } else {
        SumSupport({}, ids, gain);
      }
    }
  }

  lemma SystemWorth(list: seq<Node>, p: Packet, dir: Dir, u: Unit)
    ensures Worth(list, p, "system", dir, u) == if p.iface == "lo" || p.dir != dir then 0 else Weight(p, u)
  {
  }

  lemma IdsNotEmpty(list: seq<Node>, ids: set<string>)
    requires ValidList(list) && ids == set n | n in list :: IDString(n)
    ensures "" !in ids
  {
    ValidIdsAreDecimal(list);
  }

  // ----- the same counts in the terms of the node records -----

  /**
    A packet a node is to be charged for: in this direction, off the loopback interface, on the node's own
    port, over tcp, and over udp for the two types that use it.
   */
  predicate Due(n: Node, p: Packet, dir: Dir)
  {
    && p.dir == dir && p.iface != "lo"
    && "port" in n && n["port"].JNum? && n["port"].n == (if dir == Rx then p.dport else p.sport)
    && (p.proto == Tcp || (p.proto == Udp && Str(n, "type") in ["shadowsocks", "snell"]))
  }

  function DueSum(n: Node, trace: seq<Packet>, dir: Dir, u: Unit): nat
    decreases |trace|
  {
    if trace == [] then 0
    else
      var p := trace[|trace| - 1];
      DueSum(n, trace[..|trace| - 1], dir, u) + if !Due(n, p, dir) then 0 else if u == Bytes then p.bytes else 1
  }

  /** All there is in a direction off the loopback interface. */
  function SystemSum(trace: seq<Packet>, dir: Dir, u: Unit): nat
    decreases |trace|
  {
    if trace == [] then 0
    else
      var p := trace[|trace| - 1];
      SystemSum(trace[..|trace| - 1], dir, u) +
      if p.dir != dir || p.iface == "lo" then 0 else if u == Bytes then p.bytes else 1
  }

  lemma LowerOfTypes(t: string)
    requires ValidType(t)
    ensures Lower(t) == t
  {
    assert Lower("") == "";
    assert t == "vless" || t == "shadowsocks" || t == "trojan" || t == "anytls" || t == "snell";
    LowerIsLower(t);
  }

  lemma {:induction false} LowerIsLower(t: string)
    requires forall i :: 0 <= i < |t| ==> 'a' <= t[i] <= 'z'
    ensures Lower(t) == t
    decreases |t|
  {
    if t != "" {
      LowerIsLower(t[1..]);
      assert t == [t[0]] + t[1..];
    }
  }

  /** For a valid node, the packets its rules serve are those it is due. */
  lemma ServesIsDue(n: Node, p: Packet)
    requires ValidNode(n) && p.iface != "lo"
    ensures Serves(n, p) <==> Due(n, p, p.dir)
  {
    hide Lower;
    LowerOfTypes(Str(n, "type"));
    hide Str;
    assert ParsePorts(n) == [(PortOf(n), PortOf(n))];
  }

  /** No other node of a valid list bears this node's id. */
  lemma {:induction false} ListGainOfOne(list: seq<Node>, i: nat, p: Packet, u: Unit)
    requires ValidList(list) && i < |list|
    ensures ListGain(list, p, Itoa(IdOf(list[i])), u) == if Serves(list[i], p) then Weight(p, u) else 0
    decreases |list|
  {
    hide Serves, ValidNode, IdOf, PortOf, IDString, Itoa;
    assert ValidNode(list[0]) && ValidNode(list[i]);
    IdsOf(list, 0);
    IdsOf(list, i);
    var rest := list[1..];
    assert forall j :: 0 <= j < |rest| ==> rest[j] == list[j + 1];
    if i > 0 {
      ListGainOfOne(rest, i - 1, p, u);
      if Itoa(IdOf(list[0])) == Itoa(IdOf(list[i])) { ItoaInjective(IdOf(list[0]), IdOf(list[i])); }
    } else {
      forall j | 0 <= j < |rest| ensures IDString(rest[j]) != Itoa(IdOf(list[0])) {
        IdsOf(list, j + 1);
        if Itoa(IdOf(list[0])) == Itoa(IdOf(list[j + 1])) { ItoaInjective(IdOf(list[0]), IdOf(list[j + 1])); }
      }
      ListGainOfNone(rest, Itoa(IdOf(list[0])), p, u);
    }
  }

  lemma IdsOf(list: seq<Node>, i: nat)
    requires ValidList(list) && i < |list|
    ensures ValidNode(list[i]) && IDString(list[i]) == Itoa(IdOf(list[i]))
  {
    assert ValidNode(list[i]);
    ManagedId(list[i]);
  }

  lemma {:induction false} ListGainOfNone(list: seq<Node>, id: string, p: Packet, u: Unit)
    requires forall j :: 0 <= j < |list| ==> IDString(list[j]) != id
    ensures ListGain(list, p, id, u) == 0
    decreases |list|
  {
    hide Serves, IDString;
    if list != [] { ListGainOfNone(list[1..], id, p, u); }
  }

  lemma NodeWorthIsDue(list: seq<Node>, i: nat, p: Packet, dir: Dir, u: Unit)
    requires ValidList(list) && i < |list|
    ensures Worth(list, p, NodeScope(Itoa(IdOf(list[i]))), dir, u) == if Due(list[i], p, dir) then Weight(p, u) else 0
  {
    hide Serves, IDString, ListGain;
    IdsOf(list, i);
    ItoaNotEmpty(IdOf(list[i]));
    NodeWorth(list, p, Itoa(IdOf(list[i])), dir, u);
    if p.iface != "lo" && p.dir == dir {
      ListGainOfOne(list, i, p, u);
      ServesIsDue(list[i], p);
    }
  }

  lemma ItoaNotEmpty(n: nat)
    ensures Itoa(n) != "" && IsDecimal(Itoa(n))
  {
  }

  lemma {:induction false} TruthIsDue(list: seq<Node>, i: nat, trace: seq<Packet>, dir: Dir, u: Unit)
    requires ValidList(list) && i < |list|
    ensures Truth(list, trace, NodeScope(Itoa(IdOf(list[i]))), dir, {V4, V6}, u) == DueSum(list[i], trace, dir, u)
    decreases |trace|
  {
    if trace != [] {
      var p := trace[|trace| - 1];
      TruthIsDue(list, i, trace[..|trace| - 1], dir, u);
      NodeWorthIsDue(list, i, p, dir, u);
      hide Worth, NodeScope, Due;
      assert p.family.V4? || p.family.V6?;
    }
  }

  lemma {:induction false} SystemTruth(list: seq<Node>, trace: seq<Packet>, dir: Dir, u: Unit)
    ensures Truth(list, trace, "system", dir, {V4, V6}, u) == SystemSum(trace, dir, u)
    decreases |trace|
  {
    if trace != [] {
      var p := trace[|trace| - 1];
      SystemTruth(list, trace[..|trace| - 1], dir, u);
      SystemWorth(list, p, dir, u);
      hide Worth;
      assert p.family.V4? || p.family.V6?;
    }
  }

  /**
    One packet through either ruleset adds to a node's own counter exactly what the node is due: its size, or
    one, if it came over the node's port by a transport of the node's type, and nothing otherwise.
   */
  lemma PacketIsCountedIfDue(list: seq<Node>, epoch: nat, i: nat, p: Packet, dir: Dir, u: Unit)
    requires ValidList(list) && i < |list|
    ensures var scope, gain := NodeScope(Itoa(IdOf(list[i]))), if Due(list[i], p, dir) then Weight(p, u) else 0;
            && NftGain(NftChain(list, p.dir), p, NftName(scope, dir), u) == gain
            && IptGain(IptChain(list, epoch, p.dir), p, IptName(scope, dir), u) == gain
  {
    var scope := NodeScope(Itoa(IdOf(list[i])));
    hide Due, Worth, NftName, IptName, NftChain, IptChain, NodeScope;
    NodeWorthIsDue(list, i, p, dir, u);
    NftMeans(list, p, scope, dir, u);
    IptMeans(list, epoch, p, scope, dir, u);
  }

  /** After this trace the counters read from nft and those read from iptables both come to this sum. */
  ghost predicate BothReport(list: seq<Node>, epoch: nat, trace: seq<Packet>, scope: Scope, dir: Dir, u: Unit, sum: nat)
  {
    && Tally(NftRun(NftTableOf(list, epoch), trace), scope, dir, u) == sum
    && Tally(IptSnapshot(list, epoch, trace), scope, dir, u) == sum
  }

  /**
    What a record of any kind asks for: its port as far as it can be read, and udp unless its type is
    known not to use it.
   */
  predicate Asks(n: Node, p: Packet)
  {
    && p.iface != "lo" && "port" in n && 1 <= (if p.dir == Rx then p.dport else p.sport) <= 65535
    && ToInt(n["port"]) == Some(if p.dir == Rx then p.dport else p.sport)
    && (p.proto == Tcp || (p.proto == Udp && Lower(Str(n, "type")) !in {"vless", "trojan", "anytls"}))
  }

  lemma ServesIsAsks(n: Node, p: Packet)
    ensures Serves(n, p) && p.iface != "lo" <==> Asks(n, p)
  {
    assert ToInt(JNull) == None;
    hide Lower, Str, ToInt;
  }

  /** Of any record, valid or not, the rulesets count what it asks for; one without a usable port counts nothing. */
  lemma AnyRecordIsCounted(n: Node, epoch: nat, p: Packet, u: Unit)
    ensures var gain := if Asks(n, p) then Weight(p, u) else 0;
            && NftGain(NftChain([n], p.dir), p, NftNode(IDString(n), p.dir), u) == gain
            && IptGain(IptChain([n], epoch, p.dir), p, IptNode(IDString(n), p.dir), u) == gain
  {
    ServesIsAsks(n, p);
    hide Serves, Asks, NftNodes, IptNodes, NftNode, IptNode, NftSystem, IptSystem, IptEpoch, IDString;
    var nft, ipt := NftNode(IDString(n), p.dir), IptNode(IDString(n), p.dir);
    NftNodeInjective(IDString(n), p.dir, "", p.dir);
    IptNodeInjective(IDString(n), p.dir, "", p.dir);
    NftNodeGain(n, p, nft, u);
    IptNodeGain(n, p, ipt, u);
    IptHeadGain(epoch, IptNodes([n], p.dir), p, ipt, u);
    var chain := NftChain([n], p.dir);
    var tail := [NftCount(NftSystem(p.dir))] + NftNodes([n], p.dir);
    assert chain[1..] == tail && tail[1..] == NftNodes([n], p.dir);
    assert NftGain(tail, p, nft, u) == NftGain(NftNodes([n], p.dir), p, nft, u);
  }

  /** What both backends report for a node after any trace, in the terms of the node's record alone. */
  lemma NodesAreCountedExactly(list: seq<Node>, epoch: nat, trace: seq<Packet>, n: Node, scope: Scope, dir: Dir,
      u: Unit)
    requires ValidList(list) && n in list && epoch <= MAX_UINT64 && scope == "node:" + Str(n, "id")
    ensures BothReport(list, epoch, trace, scope, dir, u, DueSum(n, trace, dir, u))
  {
    var i :| 0 <= i < |list| && list[i] == n;
    IdsOf(list, i);
    ItoaNotEmpty(IdOf(n));
    assert scope[5..] == Str(n, "id") && scope == NodeScope(Str(n, "id"));
    assert Chargeable(scope);
    hide Truth, DueSum, NftRun, NftTableOf, IptSnapshot, Tally, Chargeable, NodeScope, Itoa, ValidNode, IdOf, ValidList;
    ValidIdsAreDecimal(list);
    TruthIsDue(list, i, trace, dir, u);
    BackendsAgree(list, epoch, trace, scope, dir, u);
  }

  /** And for the system: everything of the direction that is not loopback traffic, whatever the nodes. */
  lemma SystemIsCountedExactly(list: seq<Node>, epoch: nat, trace: seq<Packet>, dir: Dir, u: Unit)
    requires ValidList(list) && epoch <= MAX_UINT64
    ensures BothReport(list, epoch, trace, "system", dir, u, SystemSum(trace, dir, u))
  {
    assert Chargeable("system");
    hide Truth, SystemSum, NftRun, NftTableOf, IptSnapshot, Tally, Chargeable, ValidList;
    ValidIdsAreDecimal(list);
    SystemTruth(list, trace, dir, u);
    BackendsAgree(list, epoch, trace, "system", dir, u);
  }

  // ----- the epoch, read back -----

  /** The epoch tags among these names are there, and all carry this epoch. */
  ghost predicate CarriesEpoch(names: set<string>, e: nat)
  {
    && (exists n :: n in names && ParseEpochName(n) == Some(e))
    && forall n :: n in names ==> ParseEpochName(n) == None || ParseEpochName(n) == Some(e)
  }

  lemma CounterKeyIsNoEpoch(c: string, f: Family)
    requires CounterComment(c)
    ensures ParseEpochName(KeyOf(c, f)) == None
  {
    hide ParseCounterName, ParseEpochName, IptSystem, IptNode, IsScope, NodeScope;
    if d :| c == IptSystem(d) {
      SystemNamesRoundTrip(d, FamilyName(f));
    } else {
      var id, d :| IsDecimal(id) && c == IptNode(id, d);
      NodeNamesRoundTrip(id, d, FamilyName(f));
    }
    EpochIsNoCounter(KeyOf(c, f));
  }

  lemma {:induction false} AddLinesEpoch(m: Snapshot, lines: seq<Line>, f: Family, e: nat)
    requires e <= MAX_UINT64 && forall k :: k in m ==> ParseEpochName(k) == None || ParseEpochName(k) == Some(e)
    requires forall l :: l in lines && l.comment.Some? ==>
        l.comment.value == IptEpoch(e) || CounterComment(l.comment.value)
    ensures forall k :: k in AddLines(m, lines, f) ==> ParseEpochName(k) == None || ParseEpochName(k) == Some(e)
    ensures IptEpoch(e) in m || (exists l :: l in lines && l.comment == Some(IptEpoch(e))) ==>
        IptEpoch(e) in AddLines(m, lines, f)
    decreases |lines|
  {
    hide ParseEpochName, CounterComment, KeyOf, IptEpoch, IsEpochTag;
    if lines != [] {
      var l := lines[0];
      assert l in lines;
      EpochNamesRoundTrip(e);
      assert IsEpochTag(IptEpoch(e)) by { EpochIsTag(e); }
      if l.comment.Some? && CounterComment(l.comment.value) {
        CounterKeyIsNoEpoch(l.comment.value, f);
        CounterIsNoTag(l.comment.value);
      }
      AddLinesEpoch(AddLine(m, l, f), lines[1..], f, e);
      assert forall x :: x in lines <==> x == l || x in lines[1..];
    }
  }

  lemma EpochIsTag(e: nat)
    ensures IsEpochTag(IptEpoch(e))
  {
    assert IptEpoch(e)[..|EPOCH_PREFIX|] == EPOCH_PREFIX;
  }

  lemma CounterIsNoTag(c: string)
    requires CounterComment(c)
    ensures !IsEpochTag(c)
  {
    if IsEpochTag(c) { assert c[4] == c[..|EPOCH_PREFIX|][4] == 'e'; }
    assert forall d :: IptSystem(d)[4] == 's';
    assert forall id, d :: IptNode(id, d)[4] == 'n';
  }

  lemma {:induction false} LinesHave(cs: seq<Counted>, c: string)
    requires IptComment(c) in RulesOf(cs)
    ensures exists l :: l in Lines(cs) && l.comment == Some(c)
    decreases |cs|
  {
    if cs[0].rule == IptComment(c) {
      assert Lines(cs)[0].comment == Some(c);
    } else {
      LinesHave(cs[1..], c);
      assert forall l :: l in Lines(cs[1..]) ==> l in Lines(cs);
    }
  }

  lemma ReadBackEpoch(list: seq<Node>, epoch: nat, s: IptState, f: Family)
    requires Holds(s, list, epoch) && DecimalIds(list) && epoch <= MAX_UINT64
    ensures CarriesEpoch(ReadBack(s, f).Keys, epoch)
  {
    hide AddLines, Lines, RulesOf, CounterComment, OurComment, ParseEpochName, IptNodes, IptEpoch, DecimalIds;
    var first := AddLines(map[], Lines(s.input), f);
    ChainComments(list, epoch, Rx);
    ChainComments(list, epoch, Tx);
    LinesComments(s.input);
    LinesComments(s.output);
    assert IptComment(IptEpoch(epoch)) == IptChain(list, epoch, Rx)[0];
    LinesHave(s.input, IptEpoch(epoch));
    AddLinesEpoch(map[], Lines(s.input), f, epoch);
    AddLinesEpoch(first, Lines(s.output), f, epoch);
    EpochNamesRoundTrip(epoch);
  }

  lemma {:induction false} RulesUseDeclared(list: seq<Node>, dir: Dir)
    ensures forall r :: r in NftNodes(list, dir) ==> !r.NftLoReturn? && r.counter in NodeCounters(list)
    decreases |list|
  {
    hide IDString, NftNode, ParsePorts, Protocols;
    if list != [] {
      RulesUseDeclared(list[1..], dir);
      RulesOfNode(list[0], Protocols(list[0]), dir);
    }
  }

  lemma {:induction false} RulesOfNode(n: Node, protos: seq<Proto>, dir: Dir)
    ensures forall r :: r in NftRulesFor(n, protos, dir) ==> !r.NftLoReturn? && r.counter == NftNode(IDString(n), dir)
    decreases |protos|
  {
    hide IDString, NftNode, ParsePorts;
    if protos != [] { RulesOfNode(n, protos[1..], dir); }
  }

  /** Every counter a rule of the table names is declared in it. */
  lemma TableIsLoadable(list: seq<Node>, epoch: nat)
    ensures var t := NftTableOf(list, epoch);
            forall r :: r in t.input + t.output ==> r.NftLoReturn? || r.counter in t.counters
  {
    RulesUseDeclared(list, Rx);
    RulesUseDeclared(list, Tx);
    hide NftNodes, NodeCounters, NftEpoch, NftSystem;
  }

  /** The table declares both counters of every node, whether or not it has rules for it. */
  lemma NodesAreDeclared(list: seq<Node>, epoch: nat, n: Node)
    requires n in list
    ensures "sbx_n" + Str(n, "id") + "_i" in NftTableOf(list, epoch).counters
    ensures "sbx_n" + Str(n, "id") + "_o" in NftTableOf(list, epoch).counters
  {
    var id := Str(n, "id");
    assert NftNode(id, Rx) == "sbx_n" + id + "_i" && NftNode(id, Tx) == "sbx_n" + id + "_o";
    hide NftNode, NftEpoch, NftSystem, Str, NftChain, NodeCounters;
    NodeIsDeclared(list, n);
  }

  lemma {:induction false} NodeIsDeclared(list: seq<Node>, n: Node)
    requires n in list
    ensures NftNode(IDString(n), Rx) in NodeCounters(list) && NftNode(IDString(n), Tx) in NodeCounters(list)
    decreases |list|
  {
    hide IDString, NftNode;
    if list[0] != n { NodeIsDeclared(list[1..], n); }
  }

  lemma {:induction false} NftWalkKeepsKeys(m: Snapshot, chain: seq<NftRule>, p: Packet)
    requires forall r :: r in chain ==> r.NftLoReturn? || r.counter in m
    ensures NftWalk(m, chain, p).Keys == m.Keys
    decreases |chain|
  {
    hide Matches;
    if chain != [] {
      var r := chain[0];
      assert r in chain;
      match r {
        case NftLoReturn => NftWalkKeepsKeys(m, chain[1..], p);
        case NftCount(c) => NftWalkKeepsKeys(Bump(m, c, p), chain[1..], p);
        case NftPorts(proto, ranges, c) => NftWalkKeepsKeys(if Matches(p, proto, ranges) then Bump(m, c, p) else m, chain[1..], p);
      }
    }
  }

  /** A trace adds no counter and loses none. */
  lemma {:induction false} NftRunHasDeclared(list: seq<Node>, epoch: nat, trace: seq<Packet>)
    ensures NftRun(NftTableOf(list, epoch), trace).Keys == set c | c in NftTableOf(list, epoch).counters
    decreases |trace|
  {
    var t := NftTableOf(list, epoch);
    TableIsLoadable(list, epoch);
    hide NftTableOf, NftWalk;
    if trace != [] {
      var before, p := NftRun(t, trace[..|trace| - 1]), trace[|trace| - 1];
      NftRunHasDeclared(list, epoch, trace[..|trace| - 1]);
      var chain := if p.dir == Rx then t.input else t.output;
      forall r | r in chain ensures r.NftLoReturn? || r.counter in before { assert r in t.input + t.output; }
      NftWalkKeepsKeys(before, chain, p);
    }
  }

  lemma {:induction false} NodeCountersAreNoEpochs(list: seq<Node>)
    requires DecimalIds(list)
    ensures forall c :: c in NodeCounters(list) ==> ParseEpochName(c) == None
    decreases |list|
  {
    hide IDString, NftNode, IsDecimal, ParseEpochName, ParseCounterName, IsScope, NodeScope;
    if list != [] {
      var id := IDString(list[0]);
      assert DecimalIds(list[1..]);
      NodeCountersAreNoEpochs(list[1..]);
      NodeNamesRoundTrip(id, Rx, "");
      NodeNamesRoundTrip(id, Tx, "");
      EpochIsNoCounter(NftNode(id, Rx));
      EpochIsNoCounter(NftNode(id, Tx));
    }
  }

  lemma TableCarriesEpoch(list: seq<Node>, epoch: nat)
    requires DecimalIds(list) && epoch <= MAX_UINT64
    ensures CarriesEpoch((set c | c in NftTableOf(list, epoch).counters), epoch)
  {
    hide NftSystem, ParseEpochName, ParseCounterName, IsScope, NodeCounters, DecimalIds, NftEpoch, NftChain;
    NodeCountersAreNoEpochs(list);
    EpochNamesRoundTrip(epoch);
    SystemNamesRoundTrip(Rx, "");
    SystemNamesRoundTrip(Tx, "");
    EpochIsNoCounter(NftSystem(Rx));
    EpochIsNoCounter(NftSystem(Tx));
    assert NftEpoch(epoch) in NftTableOf(list, epoch).counters;
  }

  /**
    Whatever the trace, a reading of either backend carries the epoch its ruleset was compiled with and no
    other, so the collector finds that epoch in whatever order it meets the names.
   */
  lemma EpochIsReadBack(list: seq<Node>, epoch: nat, trace: seq<Packet>, order: seq<string>)
    requires DecimalIds(list) && epoch <= MAX_UINT64
    ensures CarriesEpoch(NftRun(NftTableOf(list, epoch), trace).Keys, epoch)
    ensures CarriesEpoch(IptSnapshot(list, epoch, trace).Keys, epoch)
    ensures (set n | n in order) in {NftRun(NftTableOf(list, epoch), trace).Keys, IptSnapshot(list, epoch, trace).Keys} ==>
              FirstEpoch(order) == Some(epoch)
  {
    NftRunHasDeclared(list, epoch, trace);
    TableCarriesEpoch(list, epoch);
    IptCarriesEpoch(list, epoch, trace);
    hide NftRun, NftTableOf, IptSnapshot;
    if CarriesEpoch((set n | n in order), epoch) { FirstOfOne(order, epoch); }
  }

  lemma IptCarriesEpoch(list: seq<Node>, epoch: nat, trace: seq<Packet>)
    requires DecimalIds(list) && epoch <= MAX_UINT64
    ensures CarriesEpoch(IptSnapshot(list, epoch, trace).Keys, epoch)
  {
    hide IptChain, IptRun, ReadBack, Listed, ReadOneOf, ParseEpochName, DecimalIds;
    var c := IptChains(IptChain(list, epoch, Rx), IptChain(list, epoch, Tx));
    IptRunCounts(list, epoch, V4, trace, "system", Rx, Bytes);
    IptRunCounts(list, epoch, V6, trace, "system", Rx, Bytes);
    ReadBackIsRead(IptRun(c, V4, trace), V4);
    ReadBackIsRead(IptRun(c, V6, trace), V6);
    ReadBackEpoch(list, epoch, IptRun(c, V4, trace), V4);
    ReadBackEpoch(list, epoch, IptRun(c, V6, trace), V6);
    assert IptSnapshot(list, epoch, trace).Keys == ReadBack(IptRun(c, V4, trace), V4).Keys + ReadBack(IptRun(c, V6, trace), V6).Keys;
  }

  lemma {:induction false} FirstOfOne(order: seq<string>, e: nat)
    requires CarriesEpoch((set n | n in order), e)
    ensures FirstEpoch(order) == Some(e)
    decreases |order|
  {
    hide ParseEpochName;
    var n :| n in order && ParseEpochName(n) == Some(e);
    assert order[0] in order;
    if ParseEpochName(order[0]) == None {
      assert n in order[1..] && forall x :: x in order[1..] ==> x in order;
      FirstOfOne(order[1..], e);
    }
  }

  /** Lower case, letter by letter. */
  lemma {:induction false} LowerSays(t: string)
    ensures |Lower(t)| == |t|
    ensures forall i :: 0 <= i < |t| ==>
              if 'A' <= t[i] <= 'Z' then Lower(t)[i] as int == t[i] as int - 'A' as int + 'a' as int
              else Lower(t)[i] == if t[i] == '\U{212A}' then 'k' else t[i]
    decreases |t|
  {
    if t != "" { LowerSays(t[1..]); }
  }
}

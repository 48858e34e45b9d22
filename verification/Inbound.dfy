/**
  From node records to the sing-box configuration: one inbound per node, and a rebuild that replaces only
  the inbounds this program owns (internal/nodes/inbound.go, internal/nodes/store.go).
 */
module Inbound {
  import opened Names

  type Int64 = n: int | -MAX_INT64 - 1 <= n <= MAX_INT64

  /** A decoded JSON value; JDec is a number literal that is no 64-bit integer. */
  datatype Json =
    | JNull
    | JBool(b: bool)
    | JNum(n: Int64)
    | JDec(literal: string, isZero: bool)
    | JStr(s: string)
    | JArr(items: seq<Json>)
    | JObj(fields: map<string, Json>)

  type Node = map<string, Json>

  function Field(n: Node, key: string): Json { if key in n then n[key] else JNull }

  /** A field as a string; arrays and objects count as empty here. */
  function Str(n: Node, key: string): string
  {
    match Field(n, key)
    case JStr(s) => s
    case JNum(i) => IntText(i)
    case JDec(literal, _) => literal
    case JBool(b) => if b then "true" else "false"
    case _ => ""
  }

  predicate Truthy(n: Node, key: string)
  {
    match Field(n, key)
    case JNull => false
    case JStr(s) => s != ""
    case JNum(i) => i != 0
    case JDec(_, isZero) => !isZero
    case JBool(b) => b
    case _ => true
  }

  function TrimLeft(s: string): string { if s != "" && IsSpace(s[0]) then TrimLeft(s[1..]) else s }

  function TrimRight(s: string): string { if s != "" && IsSpace(s[|s| - 1]) then TrimRight(s[..|s| - 1]) else s }

  /** Lenient: a numeric string counts. */
  function ToInt(v: Json): Option<Int64>
  {
    match v
    case JNum(i) => Some(i)
    case JStr(s) => (match ParseInt(TrimRight(TrimLeft(s))) case Some(i) => Some(i) case None => None)
    case _ => None
  }

  /** Strict: only a number will do. */
  function StrictInt(v: Json): Option<Int64> { if v.JNum? then Some(v.n) else None }

  const TYPES: seq<string> := ["vless", "shadowsocks", "trojan", "anytls", "snell"]

  predicate ValidType(t: string) { t in TYPES }

  const TAG_PREFIX := "sbx-n"

  function TagOf(id: string): string { TAG_PREFIX + id }

  /** sbx-n followed by digits only. */
  predicate IsManagedTag(tag: string) { |tag| > 5 && tag[..5] == TAG_PREFIX && AllDigits(tag[5..]) }

  function IDString(n: Node): string { Str(n, "id") }

  function TlsSelfsigned(n: Node): Json
  {
    JObj(map["enabled" := JBool(true), "server_name" := JStr(Str(n, "sni")),
             "certificate_path" := JStr(Str(n, "cert")), "key_path" := JStr(Str(n, "key"))])
  }

  function OrElse(s: string, fallback: string): string { if s == "" then fallback else s }

  function VlessUser(n: Node): Json
  {
    var user := map["name" := JStr("u"), "uuid" := JStr(Str(n, "uuid"))];
    JObj(if Truthy(n, "flow") then user["flow" := JStr(Str(n, "flow"))] else user)
  }

  function Reality(n: Node): Json
  {
    var sni := JStr(Str(n, "sni"));
    JObj(map["enabled" := JBool(true), "server_name" := sni,
             "reality" := JObj(map["enabled" := JBool(true),
                                   "handshake" := JObj(map["server" := sni, "server_port" := JNum(443)]),
                                   "private_key" := JStr(Str(n, "private_key")),
                                   "short_id" := JArr([JStr(Str(n, "short_id"))])])])
  }

  function PasswordUser(n: Node): Json
  {
    JArr([JObj(map["name" := JStr("u"), "password" := JStr(Str(n, "password"))])])
  }

  function SnellFields(n: Node): Node
  {
    var version: Int64 := match ToInt(Field(n, "version")) case Some(v) => v case None => 0;
    var common := map["version" := JNum(version), "psk" := JStr(Str(n, "psk"))];
    if version == 5 then common["obfs_mode" := JStr(OrElse(Str(n, "obfs_mode"), "none"))]
    else if version == 6 then common["mode" := JStr(OrElse(Str(n, "mode"), "default"))]
    else common
  }

  /** What a protocol adds to the common fields. */
  function ProtocolFields(n: Node): Option<Node>
  {
    var t := Str(n, "type");
    if t == "vless" then Some(map["users" := JArr([VlessUser(n)]), "tls" := Reality(n)])
    else if t == "shadowsocks" then
      Some(map["method" := JStr(OrElse(Str(n, "method"), "2022-blake3-aes-128-gcm")), "password" := JStr(Str(n, "password"))])
    else if t == "trojan" || t == "anytls" then Some(map["users" := PasswordUser(n), "tls" := TlsSelfsigned(n)])
    else if t == "snell" then Some(SnellFields(n))
    else None
  }

  function BuildInbound(n: Node): Option<Json>
  {
    match ToInt(Field(n, "port"))
    case None => None
    case Some(port) =>
      match ProtocolFields(n)
      case None => None
      case Some(fields) =>
        Some(JObj(map["type" := JStr(Str(n, "type")), "tag" := JStr(TagOf(IDString(n))),
                      "listen" := JStr("::"), "listen_port" := JNum(port)] + fields))
  }

  // ----- validation -----

  predicate ValidId(n: Node) { StrictInt(Field(n, "id")).Some? && StrictInt(Field(n, "id")).value > 0 }

  predicate ValidPort(n: Node) { StrictInt(Field(n, "port")).Some? && 1 <= StrictInt(Field(n, "port")).value <= 65535 }

  function IdOf(n: Node): nat
    requires ValidId(n)
  {
    StrictInt(Field(n, "id")).value
  }

  function PortOf(n: Node): nat
    requires ValidPort(n)
  {
    StrictInt(Field(n, "port")).value
  }

  predicate ValidNode(n: Node) { ValidId(n) && ValidPort(n) && ValidType(Str(n, "type")) }

  /** Positive ids, ports in range, known types, and no id or port twice. */
  predicate ValidList(list: seq<Node>)
  {
    && (forall i :: 0 <= i < |list| ==> ValidNode(list[i]))
    && (forall i, j :: 0 <= i < j < |list| ==> IdOf(list[i]) != IdOf(list[j]) && PortOf(list[i]) != PortOf(list[j]))
  }

  lemma NothingIsValid(list: seq<Node>)
    ensures ValidList(list[..0])
  {
  }

  /** A valid prefix stays valid with the next node exactly when that node is valid and repeats nothing. */
  lemma OneMoreValid(list: seq<Node>, i: nat)
    requires i < |list| && ValidList(list[..i]) && forall j :: 0 <= j < i ==> ValidNode(list[j])
    ensures ValidList(list[..i + 1]) <==>
            ValidNode(list[i]) && forall j :: 0 <= j < i ==> IdOf(list[j]) != IdOf(list[i]) && PortOf(list[j]) != PortOf(list[i])
    ensures !ValidList(list[..i + 1]) ==> !ValidList(list)
  {
    hide ValidId, ValidPort, ValidType, IdOf, PortOf;
    var longer := list[..i + 1];
    assert longer[i] == list[i] && forall j :: 0 <= j < i ==> longer[j] == list[j] == list[..i][j];
    assert forall j :: 0 <= j <= i ==> longer[j] == list[j];
  }

  method ValidateNodes(list: seq<Node>) returns (ok: bool)
    ensures ok <==> ValidList(list)
  {
    hide ValidId, ValidPort, ValidType, IdOf, PortOf, ValidList;
    var seenId: set<nat>, seenPort: set<nat> := {}, {};
    NothingIsValid(list);
    for i := 0 to |list|
      invariant ValidList(list[..i]) && forall j :: 0 <= j < i ==> ValidNode(list[j])
      invariant forall x :: x in seenId <==> exists j :: 0 <= j < i && IdOf(list[j]) == x
      invariant forall x :: x in seenPort <==> exists j :: 0 <= j < i && PortOf(list[j]) == x
    {
      var n := list[i];
      OneMoreValid(list, i);
      if !ValidId(n) || IdOf(n) in seenId { return false; }
      if !ValidPort(n) || PortOf(n) in seenPort { return false; }
      if !ValidType(Str(n, "type")) { return false; }
      seenId, seenPort := seenId + {IdOf(n)}, seenPort + {PortOf(n)};
    }
    assert list[..|list|] == list;
    return true;
  }

  /** Validation is what the construction of inbounds needs. */
  lemma ValidBuilds(n: Node)
    requires ValidNode(n)
    ensures BuildInbound(n).Some?
  {
  }

  /** What a list must look like to be accepted, record by record and pair by pair. */
  lemma ValidListSays(list: seq<Node>)
    ensures ValidList(list) <==>
      && (forall n: Node :: n in list ==>
          && "id" in n && n["id"].JNum? && n["id"].n > 0
          && "port" in n && n["port"].JNum? && 1 <= n["port"].n <= 65535
          && Str(n, "type") in {"vless", "shadowsocks", "trojan", "anytls", "snell"})
      && forall i, j :: 0 <= i < j < |list| ==> list[i]["id"] != list[j]["id"] && list[i]["port"] != list[j]["port"]
  {
    hide Str;
    assert forall n :: n in list ==> exists i :: 0 <= i < |list| && list[i] == n;
  }

  lemma {:induction false} TrimsSpaces(left: string, s: string, right: string)
    requires (forall c :: c in left + right ==> IsSpace(c)) && s != "" && !IsSpace(s[0]) && !IsSpace(s[|s| - 1])
    ensures TrimRight(TrimLeft(left + s + right)) == s
    decreases |left| + |right|
  {
    hide IsSpace;
    var t := left + s + right;
    if left != "" {
      assert t[0] == left[0] && left[0] in left + right;
      assert t[1..] == left[1..] + s + right;
      TrimsSpaces(left[1..], s, right);
    } else if right != "" {
      var last := right[|right| - 1];
      assert last in left + right && t == s + right && t[|t| - 1] == last && t[0] == s[0];
      assert t[..|t| - 1] == left + s + right[..|right| - 1];
      TrimsSpaces(left, s, right[..|right| - 1]);
      assert TrimLeft(t[..|t| - 1]) == t[..|t| - 1];
    } else {
      assert t == s;
    }
  }

  /** A number may come as text, with blanks around it; text that is no 64-bit number is none. */
  lemma NumbersAsText(n: int, left: string, right: string)
    requires forall c :: c in left + right ==> IsSpace(c)
    ensures ToInt(JStr(left + IntText(n) + right)) ==
            if -0x8000_0000_0000_0000 <= n <= 0x7FFF_FFFF_FFFF_FFFF then Some(n) else None
  {
    var s := IntText(n);
    IntTextRoundTrip(n);
    assert IsDigit(s[|s| - 1]) && (s[0] == '-' || IsDigit(s[0])) by { IntTextDigits(n); }
    TrimsSpaces(left, s, right);
  }

  lemma IntTextDigits(n: int)
    ensures var s := IntText(n); s != "" && IsDigit(s[|s| - 1]) && (s[0] == '-' || IsDigit(s[0]))
  {
    assert IsDecimal(Itoa(if n < 0 then -n else n));
  }

  // ----- the rebuild -----

  function Tag(item: Json): string
  {
    if item.JObj? && Field(item.fields, "tag").JStr? then Field(item.fields, "tag").s else ""
  }

  function Keep(items: seq<Json>, managed: bool): seq<Json>
  {
    if items == [] then []
    else (if IsManagedTag(Tag(items[0])) == managed then [items[0]] else []) + Keep(items[1..], managed)
  }

  predicate AllObjects(items: seq<Json>) { forall i :: 0 <= i < |items| ==> items[i].JObj? }

  function Inbounds(cfg: Node): Option<seq<Json>>
  {
    if "inbounds" !in cfg then Some([])
    else if cfg["inbounds"].JArr? && AllObjects(cfg["inbounds"].items) then Some(cfg["inbounds"].items)
    else None
  }

  function Built(list: seq<Node>): Option<seq<Json>>
  {
    if list == [] then Some([])
    else match BuildInbound(list[0])
      case None => None
      case Some(first) => (match Built(list[1..]) case None => None case Some(rest) => Some([first] + rest))
  }

  const DIRECT := JStr("direct")

  function Route(cfg: Node): Option<Json>
  {
    if "route" !in cfg then Some(JObj(map["final" := DIRECT]))
    else if !cfg["route"].JObj? then None
    else if "final" in cfg["route"].fields then Some(cfg["route"])
    else Some(JObj(cfg["route"].fields["final" := DIRECT]))
  }

  function Outbounds(cfg: Node): Json
  {
    if "outbounds" in cfg then cfg["outbounds"] else JArr([JObj(map["type" := DIRECT, "tag" := DIRECT])])
  }

  /** The configuration with the owned inbounds replaced by those of the list. */
  function Rebuild(cfg: Json, list: seq<Node>): Option<Json>
  {
    if !cfg.JObj? || Inbounds(cfg.fields) == None || Built(list) == None || Route(cfg.fields) == None then None
    else
      Some(JObj(cfg.fields["inbounds" := JArr(Keep(Inbounds(cfg.fields).value, false) + Built(list).value)]
                          ["outbounds" := Outbounds(cfg.fields)]["route" := Route(cfg.fields).value]))
  }

  lemma KeepStep(items: seq<Json>, i: nat, managed: bool)
    requires i < |items|
    ensures Keep(items[..i + 1], managed) ==
            Keep(items[..i], managed) + if IsManagedTag(Tag(items[i])) == managed then [items[i]] else []
  {
    hide IsManagedTag, Tag;
    assert items[..i + 1] == items[..i] + [items[i]];
    KeepConcat(items[..i], [items[i]], managed);
    assert [items[i]][1..] == [];
  }

  lemma {:induction false} KeepConcat(a: seq<Json>, b: seq<Json>, managed: bool)
    ensures Keep(a + b, managed) == Keep(a, managed) + Keep(b, managed)
    decreases |a|
  {
    hide IsManagedTag, Tag;
    if a == [] {
      assert a + b == b;
    } else {
      assert (a + b)[1..] == a[1..] + b && (a + b)[0] == a[0];
      KeepConcat(a[1..], b, managed);
      var head := if IsManagedTag(Tag(a[0])) == managed then [a[0]] else [];
      assert Keep(a + b, managed) == head + Keep(a[1..] + b, managed);
      assert Keep(a, managed) == head + Keep(a[1..], managed);
      hide Keep;
      assert head + (Keep(a[1..], managed) + Keep(b, managed)) == (head + Keep(a[1..], managed)) + Keep(b, managed);
    }
  }

  lemma {:induction false} BuiltConcat(a: seq<Node>, b: seq<Node>)
    ensures Built(a + b).Some? <==> Built(a).Some? && Built(b).Some?
    ensures Built(a + b).Some? ==> Built(a + b).value == Built(a).value + Built(b).value
    decreases |a|
  {
    hide BuildInbound;
    if a == [] {
      assert a + b == b;
    } else {
      assert (a + b)[1..] == a[1..] + b;
      BuiltConcat(a[1..], b);
    }
  }

  lemma BuiltOne(n: Node)
    ensures Built([n]).Some? <==> BuildInbound(n).Some?
    ensures Built([n]).Some? ==> Built([n]).value == [BuildInbound(n).value]
  {
    hide BuildInbound;
    assert [n][1..] == [];
  }

  lemma {:induction false} BuiltLength(list: seq<Node>)
    requires Built(list).Some?
    ensures |Built(list).value| == |list|
    decreases |list|
  {
    hide BuildInbound;
    if list != [] { BuiltLength(list[1..]); }
  }

  method RebuildConfig(cfg: Json, list: seq<Node>) returns (r: Option<Json>)
    ensures r == Rebuild(cfg, list)
  {
    hide BuildInbound, IsManagedTag, Tag;
    if !cfg.JObj? { return None; }
    var out := cfg.fields;
    var others: seq<Json> := [];
    if "inbounds" in out {
      if !out["inbounds"].JArr? { return None; }
      var items := out["inbounds"].items;
      for i := 0 to |items|
        invariant others == Keep(items[..i], false)
        invariant forall j :: 0 <= j < i ==> items[j].JObj?
      {
        if !items[i].JObj? { return None; }
        KeepStep(items, i, false);
        if !IsManagedTag(Tag(items[i])) { others := others + [items[i]]; }
      }
      assert items[..|items|] == items;
    }
    var built: seq<Json> := [];
    for i := 0 to |list|
      invariant Built(list[..i]).Some? && Built(list[..i]).value == built
    {
      var inbound := BuildInbound(list[i]);
      BuiltSplits(list, i);
      if inbound.None? { return None; }
      built := built + [inbound.value];
    }
    assert list[..|list|] == list;
    if "route" in out && !out["route"].JObj? { return None; }
    var route := if "route" !in out then JObj(map["final" := DIRECT])
                 else if "final" in out["route"].fields then out["route"] else JObj(out["route"].fields["final" := DIRECT]);
    var outbounds := if "outbounds" in out then out["outbounds"] else JArr([JObj(map["type" := DIRECT, "tag" := DIRECT])]);
    return Some(JObj(out["inbounds" := JArr(others + built)]["outbounds" := outbounds]["route" := route]));
  }

  lemma BuiltSplits(list: seq<Node>, i: nat)
    requires i < |list|
    ensures Built(list[..i + 1]).Some? <==> Built(list[..i]).Some? && BuildInbound(list[i]).Some?
    ensures Built(list[..i + 1]).Some? ==>
        Built(list[..i + 1]).value == Built(list[..i]).value + [BuildInbound(list[i]).value]
    ensures BuildInbound(list[i]).None? ==> Built(list) == None
  {
    hide BuildInbound, Built;
    var before, one, rest := list[..i], [list[i]], list[i + 1..];
    assert list[..i + 1] == before + one;
    assert list == list[..i + 1] + rest;
    BuiltConcat(before, one);
    BuiltOne(list[i]);
    BuiltConcat(list[..i + 1], rest);
  }

  // ----- what the rebuild keeps and replaces -----

  /** The inbounds of a configuration that this program owns, or that it does not; none if they cannot be read. */
  function Section(cfg: Json, managed: bool): seq<Json>
  {
    if cfg.JObj? && Inbounds(cfg.fields).Some? then Keep(Inbounds(cfg.fields).value, managed) else []
  }

  lemma BuiltTag(n: Node)
    requires BuildInbound(n).Some?
    ensures BuildInbound(n).value.JObj? && Tag(BuildInbound(n).value) == TagOf(IDString(n))
  {
    hide VlessUser, Reality, PasswordUser, TlsSelfsigned;
  }

  lemma ManagedId(n: Node)
    requires ValidId(n)
    ensures IDString(n) == Itoa(IdOf(n)) && IsManagedTag(TagOf(IDString(n)))
  {
    assert TagOf(IDString(n))[5..] == IDString(n);
  }

  lemma {:induction false} BuiltFacts(list: seq<Node>)
    requires Built(list).Some? && forall i :: 0 <= i < |list| ==> ValidId(list[i])
    ensures |Built(list).value| == |list|
    ensures forall i :: 0 <= i < |list| ==> BuildInbound(list[i]) == Some(Built(list).value[i])
    ensures forall i :: 0 <= i < |list| ==>
        Built(list).value[i].JObj? && Tag(Built(list).value[i]) == TagOf(Itoa(IdOf(list[i])))
    ensures Keep(Built(list).value, true) == Built(list).value && Keep(Built(list).value, false) == []
    decreases |list|
  {
    hide BuildInbound, IsManagedTag, Tag, TagOf, IDString, ValidId, IdOf;
    if list != [] {
      BuiltTag(list[0]);
      ManagedId(list[0]);
      BuiltFacts(list[1..]);
      var rest := Built(list[1..]).value;
      assert Built(list).value == [BuildInbound(list[0]).value] + rest;
      assert Built(list).value[1..] == rest;
    }
  }

  lemma {:induction false} KeepTwice(items: seq<Json>, managed: bool)
    ensures Keep(Keep(items, false), managed) == if managed then [] else Keep(items, false)
    ensures forall x :: x in Keep(items, managed) ==> x in items
    decreases |items|
  {
    hide IsManagedTag, Tag;
    if items != [] {
      KeepTwice(items[1..], managed);
      var head := if !IsManagedTag(Tag(items[0])) then [items[0]] else [];
      KeepConcat(head, Keep(items[1..], false), managed);
      assert [items[0]][1..] == [];
    }
  }

  lemma RebuiltInbounds(cfg: Json, list: seq<Node>)
    requires Rebuild(cfg, list).Some? && forall i :: 0 <= i < |list| ==> ValidId(list[i])
    ensures Inbounds(Rebuild(cfg, list).value.fields).Some?
    ensures Inbounds(Rebuild(cfg, list).value.fields).value
        == Keep(Inbounds(cfg.fields).value, false) + Built(list).value
  {
    hide BuildInbound, IsManagedTag, Tag, IDString, ValidId, IdOf, Keep, Built, Route, Outbounds;
    BuiltFacts(list);
    var items := Inbounds(cfg.fields).value;
    KeptObjects(items, Built(list).value);
    hide AllObjects, Inbounds;
    RebuiltField(cfg, list);
    InboundsOf(Rebuild(cfg, list).value.fields, Keep(items, false) + Built(list).value);
  }

  lemma RebuiltField(cfg: Json, list: seq<Node>)
    requires Rebuild(cfg, list).Some?
    ensures var out := Rebuild(cfg, list).value;
            out.JObj? && "inbounds" in out.fields
            && out.fields["inbounds"] == JArr(Keep(Inbounds(cfg.fields).value, false) + Built(list).value)
  {
    hide Keep, Built, Route, Outbounds, Inbounds;
  }

  lemma InboundsOf(fields: Node, items: seq<Json>)
    requires "inbounds" in fields && fields["inbounds"] == JArr(items) && AllObjects(items)
    ensures Inbounds(fields) == Some(items)
  {
    hide AllObjects;
  }

  lemma KeptObjects(items: seq<Json>, built: seq<Json>)
    requires AllObjects(items) && AllObjects(built)
    ensures AllObjects(Keep(items, false) + built)
  {
    hide IsManagedTag, Tag, Keep;
    KeepTwice(items, false);
    forall i | 0 <= i < |Keep(items, false)| ensures Keep(items, false)[i].JObj?
    {
      assert Keep(items, false)[i] in items;
    }
  }

  /** The owned inbounds are exactly those of the list, each under its node's own tag, no tag twice. */
  predicate OwnedBy(owned: seq<Json>, list: seq<Node>)
    requires forall i :: 0 <= i < |list| ==> ValidId(list[i])
  {
    && |owned| == |list|
    && (forall i :: 0 <= i < |list| ==>
        BuildInbound(list[i]) == Some(owned[i]) && Tag(owned[i]) == TagOf(Itoa(IdOf(list[i]))))
    && (forall i, j :: 0 <= i < j < |list| ==> Tag(owned[i]) != Tag(owned[j]))
  }

  lemma BuiltIsOwned(list: seq<Node>)
    requires Built(list).Some? && ValidList(list)
    ensures OwnedBy(Built(list).value, list)
  {
    hide BuildInbound, IsManagedTag, Tag, TagOf, IDString, ValidId, IdOf, ValidType, ValidPort, PortOf, StrictInt,
        Built;
    BuiltFacts(list);
    forall i, j | 0 <= i < j < |list| ensures TagOf(Itoa(IdOf(list[i]))) != TagOf(Itoa(IdOf(list[j])))
    {
      TagInjective(IdOf(list[i]), IdOf(list[j]));
    }
  }

  /**
    A rebuild keeps every foreign inbound, in order, and every other setting, and makes the owned inbounds
    exactly those of the list.
   */
  lemma RebuildReplacesOnlyOwned(cfg: Json, list: seq<Node>)
    requires Rebuild(cfg, list).Some? && ValidList(list)
    ensures var out := Rebuild(cfg, list).value;
      && out.JObj? && Section(out, false) == Section(cfg, false)
      && Section(out, true) == Built(list).value && OwnedBy(Section(out, true), list)
      && (forall k :: k in cfg.fields && k != "inbounds" && k != "route" ==>
          k in out.fields && out.fields[k] == cfg.fields[k])
  {
    hide BuildInbound, IsManagedTag, Tag, IDString, ValidId, IdOf, Keep, ValidType, ValidPort, PortOf, StrictInt,
        OwnedBy;
    hide Inbounds, Built;
    var items := Inbounds(cfg.fields).value;
    RebuiltInbounds(cfg, list);
    BuiltFacts(list);
    BuiltIsOwned(list);
    KeepConcat(Keep(items, false), Built(list).value, false);
    KeepConcat(Keep(items, false), Built(list).value, true);
    KeepTwice(items, false);
    KeepTwice(items, true);
  }

  lemma TagInjective(m: nat, n: nat)
    ensures TagOf(Itoa(m)) == TagOf(Itoa(n)) ==> m == n
  {
    assert TagOf(Itoa(m))[5..] == Itoa(m) && TagOf(Itoa(n))[5..] == Itoa(n);
    if TagOf(Itoa(m)) == TagOf(Itoa(n)) { ItoaInjective(m, n); }
  }

  /** Rebuilding absorbs: what an earlier rebuild put in leaves no trace in a later one, errors included. */
  lemma RebuildAbsorbs(cfg: Json, earlier: seq<Node>, later: seq<Node>)
    requires Rebuild(cfg, earlier).Some? && ValidList(earlier)
    ensures Rebuild(Rebuild(cfg, earlier).value, later) == Rebuild(cfg, later)
  {
    hide BuildInbound, IsManagedTag, Tag, IDString, ValidId, IdOf, Keep, ValidType, ValidPort, PortOf, StrictInt, Built,
        Inbounds;
    var mid := Rebuild(cfg, earlier).value.fields;
    var items := Inbounds(cfg.fields).value;
    RebuiltInbounds(cfg, earlier);
    BuiltFacts(earlier);
    KeepConcat(Keep(items, false), Built(earlier).value, false);
    KeepTwice(items, false);
    assert Keep(Inbounds(mid).value, false) == Keep(items, false);
    assert Route(mid) == Route(cfg.fields) && Outbounds(mid) == Outbounds(cfg.fields);
    if Built(later).Some? {
      assert Rebuild(JObj(mid), later).value.fields == Rebuild(cfg, later).value.fields;
    }
  }

  // ----- reading an inbound back, by sing-box's own schema -----

  function Member(j: Json, key: string): Json { if j.JObj? && key in j.fields then j.fields[key] else JNull }

  function Only(j: Json): Json { if j.JArr? && |j.items| == 1 then j.items[0] else JNull }

  function Text(j: Json): Option<string> { if j.JStr? then Some(j.s) else None }

  function Number(j: Json): Option<int> { if j.JNum? then Some(j.n) else None }

  datatype Tls =
    | NoTls
    | Certificate(serverName: Option<string>, certificate: Option<string>, key: Option<string>)
    | RealityTls(serverName: Option<string>, handshake: Option<string>, handshakePort: Option<int>,
                 privateKey: Option<string>, shortId: Option<string>)

  datatype Access =
    | Vless(name: Option<string>, uuid: Option<string>, flow: Option<string>)
    | Password(name: Option<string>, password: Option<string>)
    | Shadowsocks(cipher: Option<string>, password: Option<string>)
    | Snell(version: Option<int>, psk: Option<string>, obfsMode: Option<string>, mode: Option<string>)

  /** What a server makes of an inbound: where it listens, whom it lets in and what it shows in the handshake. */
  datatype Endpoint = Endpoint(kind: Option<string>, tag: Option<string>, address: Option<string>, port: Option<int>,
                               access: Access, tls: Tls)

  function ReadTls(tls: Json): Tls
  {
    var reality := Member(tls, "reality");
    if Member(tls, "enabled") != JBool(true) then NoTls
    else if Member(reality, "enabled") == JBool(true) then
      RealityTls(Text(Member(tls, "server_name")), Text(Member(Member(reality, "handshake"), "server")),
                 Number(Member(Member(reality, "handshake"), "server_port")), Text(Member(reality, "private_key")),
                 Text(Only(Member(reality, "short_id"))))
    else
      Certificate(Text(Member(tls, "server_name")), Text(Member(tls, "certificate_path")), Text(Member(tls, "key_path")))
  }

  function ReadAccess(j: Json): Access
  {
    var user := Only(Member(j, "users"));
    if Member(j, "type") == JStr("vless") then
      Vless(Text(Member(user, "name")), Text(Member(user, "uuid")), Text(Member(user, "flow")))
    else if Member(j, "type") == JStr("shadowsocks") then
      Shadowsocks(Text(Member(j, "method")), Text(Member(j, "password")))
    else if Member(j, "type") == JStr("snell") then
      Snell(Number(Member(j, "version")), Text(Member(j, "psk")), Text(Member(j, "obfs_mode")), Text(Member(j, "mode")))
    else Password(Text(Member(user, "name")), Text(Member(user, "password")))
  }

  function ReadInbound(j: Json): Endpoint
  {
    Endpoint(Text(Member(j, "type")), Text(Member(j, "tag")), Text(Member(j, "listen")), Number(Member(j, "listen_port")),
             ReadAccess(j), ReadTls(Member(j, "tls")))
  }

  /** The string a record gives for a key: strings and numbers as they are written, nothing for lists and objects. */
  function Given(n: Node, key: string): string
  {
    if key !in n then ""
    else match n[key]
      case JStr(s) => s
      case JNum(i) => IntText(i)
      case JDec(literal, _) => literal
      case JBool(true) => "true"
      case JBool(false) => "false"
      case _ => ""
  }

  function GivenOr(n: Node, key: string, fallback: string): Option<string>
  {
    Some(if Given(n, key) == "" then fallback else Given(n, key))
  }

  /** The values that leave an optional setting out. */
  predicate Falsy(j: Json) { j in {JNull, JStr(""), JNum(0), JBool(false)} || (j.JDec? && j.isZero) }

  /** The Snell version a record asks for; one that is no number counts as none. */
  function GivenVersion(n: Node): int
  {
    if "version" !in n then 0
    else if n["version"].JNum? then n["version"].n
    else match ToInt(n["version"]) case Some(v) => v case None => 0
  }

  function AskedAccess(n: Node): Access
  {
    var t, v := Given(n, "type"), GivenVersion(n);
    if t == "vless" then
      Vless(Some("u"), Some(Given(n, "uuid")), if "flow" !in n || Falsy(n["flow"]) then None else Some(Given(n, "flow")))
    else if t == "shadowsocks" then Shadowsocks(GivenOr(n, "method", "2022-blake3-aes-128-gcm"), Some(Given(n, "password")))
    else if t == "snell" then
      Snell(Some(v), Some(Given(n, "psk")), if v == 5 then GivenOr(n, "obfs_mode", "none") else None,
            if v == 6 then GivenOr(n, "mode", "default") else None)
    else Password(Some("u"), Some(Given(n, "password")))
  }

  function AskedTls(n: Node): Tls
  {
    var t, sni := Given(n, "type"), Some(Given(n, "sni"));
    if t == "vless" then RealityTls(sni, sni, Some(443), Some(Given(n, "private_key")), Some(Given(n, "short_id")))
    else if t == "shadowsocks" || t == "snell" then NoTls
    else Certificate(sni, Some(Given(n, "cert")), Some(Given(n, "key")))
  }

  /** What a node record asks for, field by field. */
  function Asked(n: Node): Endpoint
    requires ValidNode(n)
  {
    Endpoint(Some(Given(n, "type")), Some("sbx-n" + Itoa(n["id"].n)), Some("::"), Some(n["port"].n), AskedAccess(n),
             AskedTls(n))
  }

  lemma GivenIsStr(n: Node, key: string)
    ensures Given(n, key) == Str(n, key)
  {
  }

  const COMMON := {"type", "tag", "listen", "listen_port"}

  /** The inbound of a valid node: the common fields, and its protocol's own ones beside them. */
  lemma BuiltCommon(n: Node, j: Json, own: Node)
    requires ValidNode(n) && BuildInbound(n) == Some(j) && ProtocolFields(n) == Some(own) && COMMON !! own.Keys
    ensures Member(j, "type") == JStr(Str(n, "type")) && Member(j, "tag") == JStr("sbx-n" + Itoa(n["id"].n))
    ensures Member(j, "listen") == JStr("::") && Member(j, "listen_port") == JNum(n["port"].n)
    ensures forall k :: k !in COMMON ==> Member(j, k) == Member(JObj(own), k)
    ensures j.JObj? && j.fields.Keys == COMMON + own.Keys
  {
    hide VlessUser, Reality, PasswordUser, TlsSelfsigned, SnellFields, OrElse, ProtocolFields;
    ManagedId(n);
    assert "type" in COMMON && "tag" in COMMON && "listen" in COMMON && "listen_port" in COMMON;
  }

  lemma ReadsReality(n: Node)
    ensures ReadTls(Reality(n)) == RealityTls(Some(Given(n, "sni")), Some(Given(n, "sni")), Some(443),
              Some(Given(n, "private_key")), Some(Given(n, "short_id")))
  {
    GivenIsStr(n, "sni");
    GivenIsStr(n, "private_key");
    GivenIsStr(n, "short_id");
    hide Str, Given;
  }

  lemma ReadsCertificate(n: Node)
    ensures ReadTls(TlsSelfsigned(n))
        == Certificate(Some(Given(n, "sni")), Some(Given(n, "cert")), Some(Given(n, "key")))
  {
    GivenIsStr(n, "sni");
    GivenIsStr(n, "cert");
    GivenIsStr(n, "key");
    hide Str, Given;
  }

  lemma ReadsVlessUser(n: Node)
    ensures Text(Member(VlessUser(n), "name")) == Some("u")
    ensures Text(Member(VlessUser(n), "uuid")) == Some(Given(n, "uuid"))
    ensures Text(Member(VlessUser(n), "flow")) ==
            if "flow" !in n || Falsy(n["flow"]) then None else Some(Given(n, "flow"))
  {
    GivenIsStr(n, "uuid");
    GivenIsStr(n, "flow");
    hide Str, Given;
    assert Truthy(n, "flow") <==> "flow" in n && !Falsy(n["flow"]);
  }

  lemma ReadsPasswordUser(n: Node)
    ensures Text(Member(Only(PasswordUser(n)), "name")) == Some("u")
    ensures Text(Member(Only(PasswordUser(n)), "password")) == Some(Given(n, "password"))
  {
    GivenIsStr(n, "password");
    hide Str, Given;
  }

  /** Two fields of a protocol's own, neither of them a common one. */
  lemma TwoFields(k: string, v: Json, l: string, w: Json)
    requires k != l && k !in COMMON && l !in COMMON
    ensures var own := map[k := v, l := w];
            && COMMON !! own.Keys && own.Keys == {k, l} && Member(JObj(own), k) == v && Member(JObj(own), l) == w
            && forall x :: x != k && x != l ==> Member(JObj(own), x) == JNull
  {
  }

  lemma OwnNames()
    ensures "users" !in COMMON && "tls" !in COMMON && "users" != "tls"
    ensures "method" !in COMMON && "password" !in COMMON && "method" != "password"
    ensures "tls" != "method" && "tls" != "password"
  {
  }

  lemma SnellNames()
    ensures "version" !in COMMON && "psk" !in COMMON && "obfs_mode" !in COMMON && "mode" !in COMMON && "tls" !in COMMON
    ensures "tls" !in {"version", "psk", "obfs_mode", "mode"}
  {
  }

  lemma ReadsVless(n: Node, j: Json)
    requires ValidNode(n) && Str(n, "type") == "vless" && BuildInbound(n) == Some(j)
    ensures ReadInbound(j) == Asked(n) && j.JObj? && j.fields.Keys == COMMON + {"users", "tls"}
  {
    var users, tls := JArr([VlessUser(n)]), Reality(n);
    var own := map["users" := users, "tls" := tls];
    assert ProtocolFields(n) == Some(own) by { hide VlessUser, Reality; }
    GivenIsStr(n, "type");
    hide VlessUser, Reality, ProtocolFields, BuildInbound, Member, Str, Given, ValidType, Falsy, Itoa, ReadTls;
    OwnNames();
    TwoFields("users", users, "tls", tls);
    BuiltCommon(n, j, own);
    ReadsReality(n);
    ReadsVlessUser(n);
  }

  lemma ReadsShadowsocks(n: Node, j: Json)
    requires ValidNode(n) && Str(n, "type") == "shadowsocks" && BuildInbound(n) == Some(j)
    ensures ReadInbound(j) == Asked(n) && j.JObj? && j.fields.Keys == COMMON + {"method", "password"}
  {
    var method_, password := JStr(OrElse(Str(n, "method"), "2022-blake3-aes-128-gcm")), JStr(Str(n, "password"));
    var own := map["method" := method_, "password" := password];
    assert ProtocolFields(n) == Some(own);
    GivenIsStr(n, "type");
    GivenIsStr(n, "method");
    GivenIsStr(n, "password");
    assert ReadTls(JNull) == NoTls;
    hide ProtocolFields, BuildInbound, Member, Str, Given, ValidType, Itoa, ReadTls;
    OwnNames();
    TwoFields("method", method_, "password", password);
    BuiltCommon(n, j, own);
  }

  lemma ReadsPassword(n: Node, j: Json)
    requires ValidNode(n) && (Str(n, "type") == "trojan" || Str(n, "type") == "anytls") && BuildInbound(n) == Some(j)
    ensures ReadInbound(j) == Asked(n) && j.JObj? && j.fields.Keys == COMMON + {"users", "tls"}
  {
    var own := map["users" := PasswordUser(n), "tls" := TlsSelfsigned(n)];
    assert ProtocolFields(n) == Some(own) by { hide PasswordUser, TlsSelfsigned; }
    GivenIsStr(n, "type");
    hide PasswordUser, TlsSelfsigned, ProtocolFields, BuildInbound, Member, Str, Given, ValidType, Itoa, ReadTls;
    OwnNames();
    TwoFields("users", PasswordUser(n), "tls", TlsSelfsigned(n));
    BuiltCommon(n, j, own);
    ReadsCertificate(n);
    ReadsPasswordUser(n);
  }

  lemma ReadsSnell(n: Node, j: Json)
    requires ValidNode(n) && Str(n, "type") == "snell" && BuildInbound(n) == Some(j)
    ensures ReadInbound(j) == Asked(n) && j.JObj? && j.fields.Keys == COMMON + SnellKeys(GivenVersion(n))
  {
    var own := SnellFields(n);
    assert ProtocolFields(n) == Some(own) by { hide SnellFields; }
    GivenIsStr(n, "type");
    assert ReadTls(JNull) == NoTls;
    hide SnellFields, GivenOr, ProtocolFields, BuildInbound, Str, Given, ValidType, Itoa, ReadTls, GivenVersion;
    SnellNames();
    SnellReads(n);
    assert Member(JObj(own), "tls") == JNull;
    hide Member;
    BuiltCommon(n, j, own);
  }

  /** The keys of a Snell inbound, by version. */
  function SnellKeys(version: int): set<string>
  {
    {"version", "psk"} + if version == 5 then {"obfs_mode"} else if version == 6 then {"mode"} else {}
  }

  lemma SnellReads(n: Node)
    ensures var own, v := SnellFields(n), GivenVersion(n);
      && Member(JObj(own), "version") == JNum(v) && Member(JObj(own), "psk") == JStr(Given(n, "psk"))
      && Text(Member(JObj(own), "obfs_mode")) == (if v == 5 then GivenOr(n, "obfs_mode", "none") else None)
      && Text(Member(JObj(own), "mode")) == (if v == 6 then GivenOr(n, "mode", "default") else None)
      && own.Keys == SnellKeys(v)
  {
    GivenIsStr(n, "psk");
    GivenIsStr(n, "obfs_mode");
    GivenIsStr(n, "mode");
    hide Str, Given;
  }

  /**
    A server that reads the inbound of a valid node by the schema finds what the node's record asks for: its
    type and port, its own tag, its credentials, its handshake, the stated defaults, and no other key.
   */
  lemma InboundServesItsNode(n: Node)
    requires ValidNode(n)
    ensures BuildInbound(n).Some? && BuildInbound(n).value.JObj?
    ensures ReadInbound(BuildInbound(n).value) == Asked(n)
    ensures BuildInbound(n).value.fields.Keys == {"type", "tag", "listen", "listen_port"} +
              match Given(n, "type")
              case "shadowsocks" => {"method", "password"}
              case "snell" => SnellKeys(GivenVersion(n))
              case _ => {"users", "tls"}
  {
    BuiltTag(n);
    GivenIsStr(n, "type");
    hide BuildInbound, ReadInbound, Asked, Str;
    var j := BuildInbound(n).value;
    if Str(n, "type") == "vless" {
      ReadsVless(n, j);
    } else if Str(n, "type") == "shadowsocks" {
      ReadsShadowsocks(n, j);
    } else if Str(n, "type") == "snell" {
      ReadsSnell(n, j);
    } else {
      ReadsPassword(n, j);
    }
  }

  // ----- a rebuilt configuration, read -----

  /** An inbound under a tag of sbx-n and digits. */
  predicate OwnTag(item: Json)
  {
    && item.JObj? && "tag" in item.fields && item.fields["tag"].JStr?
    && var tag := item.fields["tag"].s; |tag| > 5 && tag[..5] == "sbx-n" && forall i :: 5 <= i < |tag| ==>
        '0' <= tag[i] <= '9'
  }

  lemma OwnTagIsManaged(item: Json)
    ensures OwnTag(item) <==> IsManagedTag(Tag(item))
  {
    if item.JObj? && "tag" in item.fields && item.fields["tag"].JStr? {
      var tag := item.fields["tag"].s;
      if |tag| > 5 && tag[..5] == "sbx-n" {
        assert forall i :: 5 <= i < |tag| ==> tag[i] == tag[5..][i - 5];
        assert forall i :: 0 <= i < |tag[5..]| ==> tag[5..][i] == tag[i + 5];
      }
    }
  }

  /** Places of a list, ascending. */
  predicate Places(at: seq<nat>, length: nat)
  {
    && (forall i :: 0 <= i < |at| ==> at[i] < length)
    && (forall i, j :: 0 <= i < j < |at| ==> at[i] < at[j])
  }

  /** These are the elements at these places, and these places are those of the elements that are not ours. */
  predicate Foreign(kept: seq<Json>, items: seq<Json>, at: seq<nat>)
  {
    && Places(at, |items|) && |kept| == |at|
    && (forall i :: 0 <= i < |at| ==> kept[i] == items[at[i]])
    && (forall k :: 0 <= k < |items| ==> (k in at <==> !OwnTag(items[k])))
  }

  lemma ForeignStep(kept: seq<Json>, items: seq<Json>, at: seq<nat>, x: Json)
    requires Foreign(kept, items, at)
    ensures OwnTag(x) ==> Foreign(kept, items + [x], at)
    ensures !OwnTag(x) ==> Foreign(kept + [x], items + [x], at + [|items|])
  {
    hide OwnTag;
    var longer := at + [|items|];
    assert |items| in longer;
    forall k | 0 <= k < |items| ensures k in longer <==> k in at { }
  }

  lemma {:induction false} KeptPlaces(items: seq<Json>) returns (at: seq<nat>)
    ensures Foreign(Keep(items, false), items, at) && |at| == |Keep(items, false)|
    decreases |items|
  {
    at := [];
    if items != [] {
      var last := |items| - 1;
      at := KeptPlaces(items[..last]);
      KeepStep(items, last, false);
      assert items[..last + 1] == items && items[..last] + [items[last]] == items;
      OwnTagIsManaged(items[last]);
      ForeignStep(Keep(items[..last], false), items[..last], at, items[last]);
      hide OwnTag, IsManagedTag, Tag, Keep, Foreign;
      if !OwnTag(items[last]) {
        at := at + [last];
      } else {
        assert Keep(items, false) == Keep(items[..last], false);
      }
    }
  }

  lemma ReadsAll(list: seq<Node>, built: seq<Json>)
    requires ValidList(list) && Built(list) == Some(built)
    ensures |built| == |list| && forall i :: 0 <= i < |list| ==> ReadInbound(built[i]) == Asked(list[i])
  {
    assert forall i :: 0 <= i < |list| ==> ValidNode(list[i]) && ValidId(list[i]);
    hide BuildInbound, ReadInbound, Asked, ValidNode, ValidList, Built, ValidId, IdOf, TagOf, Tag, Keep;
    BuiltFacts(list);
    forall i | 0 <= i < |list| ensures ReadInbound(built[i]) == Asked(list[i])
    {
      InboundServesItsNode(list[i]);
    }
  }

  /** The objects of the inbounds a configuration already has. */
  function Had(cfg: Json): seq<Json> { if Member(cfg, "inbounds").JArr? then Member(cfg, "inbounds").items else [] }

  lemma RebuiltItems(cfg: Json, list: seq<Node>)
    requires Rebuild(cfg, list).Some?
    ensures cfg.JObj? && Rebuild(cfg, list).value.JObj? && Built(list).Some?
    ensures Member(Rebuild(cfg, list).value, "inbounds") == JArr(Keep(Had(cfg), false) + Built(list).value)
  {
    hide Keep, Built, Route, Outbounds, AllObjects;
    RebuiltField(cfg, list);
  }

  /**
    A rebuilt configuration, read: the inbounds that are not ours come first, each as it was and in their
    order, then one per node, and a server finds in each what that node's record asks for.
   */
  lemma RebuiltServesTheNodes(cfg: Json, list: seq<Node>) returns (at: seq<nat>)
    requires Rebuild(cfg, list).Some? && ValidList(list)
    ensures cfg.JObj? && Rebuild(cfg, list).value.JObj?
    ensures var after := Member(Rebuild(cfg, list).value, "inbounds");
      && after.JArr? && |after.items| == |at| + |list| && Foreign(after.items[..|at|], Had(cfg), at)
      && forall i :: 0 <= i < |list| ==> ReadInbound(after.items[|at| + i]) == Asked(list[i])
  {
    hide ReadInbound, Asked, ValidNode, ValidList, Foreign, Keep, Built, Rebuild, Had, Member;
    RebuiltItems(cfg, list);
    at := KeptPlaces(Had(cfg));
    ReadsAll(list, Built(list).value);
    var after := Keep(Had(cfg), false) + Built(list).value;
    assert after[..|at|] == Keep(Had(cfg), false);
    assert forall i :: 0 <= i < |list| ==> after[|at| + i] == Built(list).value[i];
  }

  /** The rest of a rebuilt configuration: what was there stays, and only what is missing gets its default. */
  lemma RebuiltDefaults(cfg: Json, list: seq<Node>)
    requires Rebuild(cfg, list).Some?
    ensures var out := Rebuild(cfg, list).value;
      && out.JObj? && out.fields.Keys == cfg.fields.Keys + {"inbounds", "outbounds", "route"}
      && (forall k :: k in cfg.fields && k != "inbounds" && k != "route" ==> out.fields[k] == cfg.fields[k])
      && ("outbounds" !in cfg.fields ==>
          out.fields["outbounds"] == JArr([JObj(map["type" := JStr("direct"), "tag" := JStr("direct")])]))
      && out.fields["route"].JObj?
      && (var before := Member(cfg, "route"); var was := if before.JObj? then before.fields else map[];
          out.fields["route"].fields == if "final" in was then was else was["final" := JStr("direct")])
  {
    hide Keep, Built, Inbounds;
    assert "inbounds" != "outbounds" && "inbounds" != "route" && "outbounds" != "route";
  }

  /** When a rebuild gives up, for every configuration and list. */
  lemma RebuildFailsExactly(cfg: Json, list: seq<Node>)
    ensures Rebuild(cfg, list) == None <==>
              || !cfg.JObj?
              || ("inbounds" in cfg.fields
                  && !(cfg.fields["inbounds"].JArr? && forall x :: x in cfg.fields["inbounds"].items ==> x.JObj?))
              || ("route" in cfg.fields && !cfg.fields["route"].JObj?)
              || exists n :: n in list && !Buildable(n)
  {
    hide Keep, Built, Buildable;
    BuiltFailsExactly(list);
    if cfg.JObj? && "inbounds" in cfg.fields && cfg.fields["inbounds"].JArr? {
      var items := cfg.fields["inbounds"].items;
      assert AllObjects(items) <==> forall x :: x in items ==> x.JObj?;
    }
  }

  /** A record an inbound can be made of: a port that can be read as a number, and one of the five types. */
  predicate Buildable(n: Node)
  {
    && "port" in n && ToInt(n["port"]).Some?
    && Given(n, "type") in {"vless", "shadowsocks", "trojan", "anytls", "snell"}
  }

  lemma {:induction false} BuiltFailsExactly(list: seq<Node>)
    ensures Built(list).Some? <==> forall n :: n in list ==> Buildable(n)
    decreases |list|
  {
    hide BuildInbound, Buildable;
    if list != [] {
      BuildsIfBuildable(list[0]);
      BuiltFailsExactly(list[1..]);
      assert forall n :: n in list <==> n == list[0] || n in list[1..];
    }
  }

  lemma BuildsIfBuildable(n: Node)
    ensures BuildInbound(n).Some? <==> Buildable(n)
  {
    GivenIsStr(n, "type");
    hide Str, Given, VlessUser, Reality, PasswordUser, TlsSelfsigned, SnellFields, OrElse;
  }
}

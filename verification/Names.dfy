/** Counter names and scopes: what the rule compilers print and the collector parses back. */
module Names {

  datatype Option<+T> = None | Some(value: T)

  datatype Dir = Rx | Tx

  /** The scopes a counter can be charged to: "system", or "node:" followed by a local id. */
  predicate IsScope(s: string)
  {
    s == "system" || (|s| > 5 && s[..5] == "node:")
  }

  type Scope = s: string | IsScope(s) witness "system"

  predicate IsDigit(c: char) { '0' <= c <= '9' }

  predicate AllDigits(s: string) { forall i :: 0 <= i < |s| ==> IsDigit(s[i]) }

  /** A non-empty digit string, the \d+ of the name patterns. */
  predicate IsDecimal(s: string) { |s| > 0 && AllDigits(s) }

  function Itoa(n: nat): (s: string)
    ensures IsDecimal(s)
  {
    if n < 10 then [('0' as int + n) as char]
    else Itoa(n / 10) + [('0' as int + n % 10) as char]
  }

  /** The value of a digit string, most significant digit first. */
  function Atoi(s: string): nat
    requires AllDigits(s)
  {
    if s == "" then 0
    else 10 * Atoi(s[..|s| - 1]) + (s[|s| - 1] as int - '0' as int)
  }

  lemma {:induction false} AtoiItoa(n: nat)
    ensures Atoi(Itoa(n)) == n
  {
    if n >= 10 {
      AtoiItoa(n / 10);
      assert Itoa(n)[..|Itoa(n)| - 1] == Itoa(n / 10);
    }
  }

  /** The part of a name before the first '@', which separates the address family. */
  function BeforeAt(name: string): string
  {
    if name == "" || name[0] == '@' then "" else [name[0]] + BeforeAt(name[1..])
  }

  lemma {:induction false} BeforeAtSplit(base: string, rest: string)
    requires '@' !in base
    requires rest == "" || rest[0] == '@'
    ensures BeforeAt(base + rest) == base
  {
    if base == "" {
      assert base + rest == rest;
    } else {
      assert (base + rest)[1..] == base[1..] + rest;
      BeforeAtSplit(base[1..], rest);
    }
  }

  predicate IsSep(c: char) { c == '_' || c == ':' }

  /** sbx[_:](n(\d+)|sys)[_:]([io]) with an optional @family suffix. */
  function ParseCounterName(name: string): Option<(Scope, Dir)>
  {
    var b := BeforeAt(name);
    if |b| < 7 || b[..3] != "sbx" || !IsSep(b[3]) || !IsSep(b[|b| - 2]) || b[|b| - 1] !in "io" then None
    else
      var mid := b[4..|b| - 2];
      var dir := if b[|b| - 1] == 'i' then Rx else Tx;
      if mid == "sys" then Some(("system", dir))
      else if |mid| > 1 && mid[0] == 'n' && AllDigits(mid[1..]) then Some((NodeScope(mid[1..]), dir))
      else None
  }

  function NodeScope(id: string): Scope
    requires id != ""
  {
    var s := "node:" + id;
    assert s[..5] == "node:";
    s
  }

  const MAX_UINT64: nat := 0xFFFF_FFFF_FFFF_FFFF

  /** sbx[_:]epoch[_:](\d+), the number having to fit 64 bits. */
  function ParseEpochName(name: string): Option<nat>
  {
    var b := BeforeAt(name);
    if |b| < 11 || b[..3] != "sbx" || !IsSep(b[3]) || b[4..9] != "epoch" || !IsSep(b[9])
       || !AllDigits(b[10..]) || Atoi(b[10..]) > MAX_UINT64 then None
    else Some(Atoi(b[10..]))
  }

  function Suffix(dir: Dir): string { if dir == Rx then "i" else "o" }

  function NftSystem(dir: Dir): string { "sbx_sys_" + Suffix(dir) }

  function NftNode(id: string, dir: Dir): string { "sbx_n" + id + "_" + Suffix(dir) }

  function NftEpoch(e: nat): string { "sbx_epoch_" + Itoa(e) }

  function IptSystem(dir: Dir): string { "sbx:sys:" + Suffix(dir) }

  function IptNode(id: string, dir: Dir): string { "sbx:n" + id + ":" + Suffix(dir) }

  function IptEpoch(e: nat): string { "sbx:epoch:" + Itoa(e) }

  /** The node id a scope is reported under; everything but a node scope is the empty id. */
  function NodeOf(scope: string): string
  {
    if |scope| > 5 && scope[..5] == "node:" then scope[5..] else ""
  }

  /** The pattern sbx[_:]n(digits)[_:][io] always yields the digits' node scope. */
  lemma NodePattern(name: string, sep: char, id: string, dir: Dir)
    requires IsSep(sep) && IsDecimal(id)
    requires BeforeAt(name) == "sbx" + [sep] + "n" + id + [sep] + Suffix(dir)
    ensures ParseCounterName(name) == Some((NodeScope(id), dir))
  {
    var b := BeforeAt(name);
    assert b[..3] == "sbx" && b[3] == sep && b[|b| - 2] == sep && b[|b| - 1] == Suffix(dir)[0];
    assert b[4..|b| - 2] == "n" + id;
    assert ("n" + id)[1..] == id;
    assert ("n" + id)[0] == 'n' && "sys"[0] == 's';
    assert "io"[0] == 'i' && "io"[1] == 'o';
  }

  lemma NoAt(id: string)
    requires AllDigits(id)
    ensures '@' !in id
  {
    assert forall i :: 0 <= i < |id| ==> IsDigit(id[i]);
  }

  /** Printing a node counter in either rule language, parsing it and stripping the scope gives the id back. */
  lemma NodeNamesRoundTrip(id: string, dir: Dir, family: string)
    requires IsDecimal(id)
    ensures ParseCounterName(NftNode(id, dir)) == Some((NodeScope(id), dir))
    ensures ParseCounterName(IptNode(id, dir) + "@" + family) == Some((NodeScope(id), dir))
    ensures NodeOf(NodeScope(id)) == id
  {
    hide ParseCounterName;
    var nft, ipt := NftNode(id, dir), IptNode(id, dir);
    NoAt(id);
    assert nft + "" == nft == "sbx" + ['_'] + "n" + id + ['_'] + Suffix(dir);
    BeforeAtSplit(nft, "");
    NodePattern(nft, '_', id, dir);
    assert ipt + "@" + family == ipt + ("@" + family);
    assert ipt == "sbx" + [':'] + "n" + id + [':'] + Suffix(dir);
    BeforeAtSplit(ipt, "@" + family);
    NodePattern(ipt + "@" + family, ':', id, dir);
    assert NodeScope(id)[5..] == id;
  }

  lemma SystemPattern(name: string, sep: char, dir: Dir)
    requires IsSep(sep)
    requires BeforeAt(name) == "sbx" + [sep] + "sys" + [sep] + Suffix(dir)
    ensures ParseCounterName(name) == Some(("system", dir))
  {
    var b := BeforeAt(name);
    assert b[..3] == "sbx" && b[3] == sep && b[|b| - 2] == sep && b[|b| - 1] == Suffix(dir)[0];
    assert b[4..|b| - 2] == "sys";
    assert "io"[0] == 'i' && "io"[1] == 'o';
  }

  lemma SystemNamesRoundTrip(dir: Dir, family: string)
    ensures ParseCounterName(NftSystem(dir)) == Some(("system", dir))
    ensures ParseCounterName(IptSystem(dir) + "@" + family) == Some(("system", dir))
    ensures NodeOf("system") == ""
  {
    hide ParseCounterName;
    var nft, ipt := NftSystem(dir), IptSystem(dir);
    assert nft + "" == nft == "sbx" + ['_'] + "sys" + ['_'] + Suffix(dir);
    BeforeAtSplit(nft, "");
    SystemPattern(nft, '_', dir);
    assert ipt + "@" + family == ipt + ("@" + family);
    assert ipt == "sbx" + [':'] + "sys" + [':'] + Suffix(dir);
    BeforeAtSplit(ipt, "@" + family);
    SystemPattern(ipt + "@" + family, ':', dir);
    assert "system"[..5][0] == 's' && "node:"[0] == 'n';
  }

  lemma EpochPattern(name: string, sep: char, e: nat)
    requires IsSep(sep) && e <= MAX_UINT64
    requires name == "sbx" + [sep] + "epoch" + [sep] + Itoa(e)
    ensures ParseEpochName(name) == Some(e)
  {
    NoAt(Itoa(e));
    assert name + "" == name;
    BeforeAtSplit(name, "");
    assert name[..3] == "sbx" && name[3] == sep && name[4..9] == "epoch" && name[9] == sep && name[10..] == Itoa(e);
    AtoiItoa(e);
  }

  /** An epoch tag parses back to its number in both languages. */
  lemma EpochNamesRoundTrip(e: nat)
    requires e <= MAX_UINT64
    ensures ParseEpochName(NftEpoch(e)) == Some(e) == ParseEpochName(IptEpoch(e))
  {
    hide ParseEpochName;
    NoAt(Itoa(e));
    EpochPattern(NftEpoch(e), '_', e);
    EpochPattern(IptEpoch(e), ':', e);
  }

  /** No name is read both as an epoch tag and as a traffic counter. */
  lemma EpochIsNoCounter(name: string)
    ensures ParseEpochName(name) == None || ParseCounterName(name) == None
  {
    var b := BeforeAt(name);
    if ParseEpochName(name).Some? {
      assert b[4] == b[4..9][0] == 'e';
      if |b| >= 7 {
        var mid := b[4..|b| - 2];
        assert |mid| > 0 ==> mid[0] == 'e';
      }
    }
  }

  /** Distinct scopes are reported under distinct ids, so per-node totals never merge two scopes. */
  lemma NodeOfInjective(a: Scope, b: Scope)
    requires NodeOf(a) == NodeOf(b)
    ensures a == b
  {
    if |a| > 5 && a[..5] == "node:" {
      assert a == a[..5] + a[5..];
      assert b == b[..5] + b[5..];
    } else {
      assert a == "system";
      assert |b| <= 5 || b[..5] != "node:";
    }
  }

  // ----- integers in text, as Go reads them -----

  predicate IsSpace(c: char)
  {
    c == ' ' || '\t' <= c <= '\r' || c == '\U{85}' || c == '\U{A0}' || c == '\U{1680}' || '\U{2000}' <= c <= '\U{200A}'
    || c == '\U{2028}' || c == '\U{2029}' || c == '\U{202F}' || c == '\U{205F}' || c == '\U{3000}'
  }

  const MAX_INT64: int := 0x7FFF_FFFF_FFFF_FFFF

  /** A 64-bit decimal with an optional sign. */
  function ParseInt(s: string): Option<int>
  {
    var negative := |s| > 0 && s[0] == '-';
    var digits := if |s| > 0 && (s[0] == '-' || s[0] == '+') then s[1..] else s;
    if !IsDecimal(digits) then None
    else
      var size: int := Atoi(digits);
      var n := if negative then -size else size;
      if -MAX_INT64 - 1 <= n <= MAX_INT64 then Some(n) else None
  }

  /** The text of an integer. */
  function IntText(n: int): string { if n < 0 then "-" + Itoa(-n) else Itoa(n) }

  lemma ItoaInjective(m: nat, n: nat)
    requires Itoa(m) == Itoa(n)
    ensures m == n
  {
    AtoiItoa(m);
    AtoiItoa(n);
  }

  /** An integer's text parses back to it if it fits 64 bits, and is no number otherwise; a plus sign is allowed. */
  lemma IntTextRoundTrip(n: int)
    ensures ParseInt(IntText(n)) == if -0x8000_0000_0000_0000 <= n <= 0x7FFF_FFFF_FFFF_FFFF then Some(n) else None
    ensures n >= 0 ==> ParseInt("+" + IntText(n)) == ParseInt(IntText(n))
  {
    var m := if n < 0 then -n else n;
    AtoiItoa(m);
    assert IsDigit(Itoa(m)[0]);
    assert ("-" + Itoa(m))[1..] == Itoa(m) && ("+" + Itoa(m))[1..] == Itoa(m);
  }

  // ----- which names are names of counters -----

  /** The spelling sbx, a separator, a middle part, a separator, and the letter of the direction. */
  predicate Spelled(name: string, s1: char, mid: string, s2: char, dir: Dir)
  {
    s1 in {'_', ':'} && s2 in {'_', ':'} && BeforeAt(name) == "sbx" + [s1] + mid + [s2] + (if dir == Rx then "i" else "o")
  }

  /** The middle part of a scope's counters. */
  predicate Denotes(mid: string, scope: Scope)
  {
    (mid == "sys" && scope == "system") || (|mid| > 1 && mid[0] == 'n' && AllDigits(mid[1..]) && scope == "node:" + mid[1..])
  }

  /** A name counts for a scope in a direction exactly if it is spelled so, for every string there is. */
  lemma CounterNamesSay(name: string, scope: Scope, dir: Dir)
    ensures ParseCounterName(name) == Some((scope, dir)) <==>
            exists s1, mid, s2 :: Spelled(name, s1, mid, s2, dir) && Denotes(mid, scope)
  {
    var b := BeforeAt(name);
    if ParseCounterName(name) == Some((scope, dir)) {
      var mid := b[4..|b| - 2];
      SplitsAs(b);
      assert Spelled(name, b[3], mid, b[|b| - 2], dir) && Denotes(mid, scope);
    }
    if s1, mid, s2 :| Spelled(name, s1, mid, s2, dir) && Denotes(mid, scope) {
      PartsOf(b, s1, mid, s2, if dir == Rx then 'i' else 'o');
      assert "io"[0] == 'i' && "io"[1] == 'o';
    }
  }

  lemma PartsOf(b: string, s1: char, mid: string, s2: char, last: char)
    requires b == "sbx" + [s1] + mid + [s2] + [last]
    ensures |b| == |mid| + 6 && b[..3] == "sbx" && b[3] == s1 && b[4..|b| - 2] == mid && b[|b| - 2] == s2 && b[|b| - 1] == last
  {
    assert b[4..] == mid + [s2] + [last];
    assert b[4..|b| - 2] == b[4..][..|mid|];
  }

  lemma SplitsAs(b: string)
    requires |b| >= 7 && b[..3] == "sbx"
    ensures b == "sbx" + [b[3]] + b[4..|b| - 2] + [b[|b| - 2]] + [b[|b| - 1]]
  {
    assert b == b[..3] + b[3..];
  }
}

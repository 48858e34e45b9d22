/**
  Percent-encoding of query strings and share links (internal/nodes/pyquote.go); percent-encoded octets are
  those of section 2.1 of RFC 3986.
 */
module PyQuote {
  import opened Names

  type Byte = b: int | 0 <= b < 256

  function B(c: char): Byte
    requires c as int < 256
  {
    c as int
  }

  const PERCENT: Byte := 37
  const PLUS: Byte := 43
  const SPACE: Byte := 32
  const AMP: Byte := 38
  const EQ: Byte := 61

  predicate IsUnreserved(c: Byte)
  {
    || B('A') <= c <= B('Z') || B('a') <= c <= B('z') || B('0') <= c <= B('9')
    || c == B('_') || c == B('.') || c == B('-') || c == B('~')
  }

  /** An upper-case hexadecimal digit. */
  function Hex(n: int): Byte
    requires 0 <= n < 16
  {
    if n < 10 then B('0') + n else B('A') + n - 10
  }

  function Escape(c: Byte): seq<Byte> { [PERCENT, Hex(c / 16), Hex(c % 16)] }

  function QuoteByte(c: Byte, safe: seq<Byte>): seq<Byte> { if IsUnreserved(c) || c in safe then [c] else Escape(c) }

  function Quoted(s: seq<Byte>, safe: seq<Byte>): seq<Byte>
  {
    if s == [] then [] else QuoteByte(s[0], safe) + Quoted(s[1..], safe)
  }

  function PlusByte(c: Byte): seq<Byte> { if c == SPACE then [PLUS] else if IsUnreserved(c) then [c] else Escape(c) }

  function QuotedPlus(s: seq<Byte>): seq<Byte> { if s == [] then [] else PlusByte(s[0]) + QuotedPlus(s[1..]) }

  lemma {:induction false} QuotedAppend(s: seq<Byte>, c: Byte, safe: seq<Byte>)
    ensures Quoted(s + [c], safe) == Quoted(s, safe) + QuoteByte(c, safe)
    decreases |s|
  {
    hide QuoteByte;
    if s == [] {
      assert s + [c] == [c] && [c][1..] == [];
    } else {
      assert (s + [c])[1..] == s[1..] + [c];
      QuotedAppend(s[1..], c, safe);
    }
  }

  lemma {:induction false} QuotedPlusAppend(s: seq<Byte>, c: Byte)
    ensures QuotedPlus(s + [c]) == QuotedPlus(s) + PlusByte(c)
    decreases |s|
  {
    hide PlusByte;
    if s == [] {
      assert s + [c] == [c] && [c][1..] == [];
    } else {
      assert (s + [c])[1..] == s[1..] + [c];
      QuotedPlusAppend(s[1..], c);
    }
  }

  lemma NothingQuoted(safe: seq<Byte>)
    ensures Quoted([], safe) == [] == QuotedPlus([])
  {
  }

  /** Three bytes, one after the other. */
  method WriteEscape(before: seq<Byte>, c: Byte) returns (b: seq<Byte>)
    ensures b == before + Escape(c)
  {
    b := before + [PERCENT];
    b := b + [Hex(c / 16)];
    b := b + [Hex(c % 16)];
  }

  method Quote(s: seq<Byte>, safe: seq<Byte>) returns (b: seq<Byte>)
    ensures b == Quoted(s, safe)
  {
    hide Escape, Quoted, IsUnreserved;
    b := [];
    NothingQuoted(safe);
    for i := 0 to |s|
      invariant b == Quoted(s[..i], safe)
    {
      var c := s[i];
      assert s[..i + 1] == s[..i] + [c];
      QuotedAppend(s[..i], c, safe);
      if IsUnreserved(c) || c in safe {
        b := b + [c];
        continue;
      }
      b := WriteEscape(b, c);
    }
    assert s[..|s|] == s;
  }

  method QuotePlus(s: seq<Byte>) returns (b: seq<Byte>)
    ensures b == QuotedPlus(s)
  {
    hide Escape, QuotedPlus, IsUnreserved;
    b := [];
    NothingQuoted([]);
    for i := 0 to |s|
      invariant b == QuotedPlus(s[..i])
    {
      var c := s[i];
      assert s[..i + 1] == s[..i] + [c];
      QuotedPlusAppend(s[..i], c);
      if c == SPACE {
        b := b + [PLUS];
      } else if IsUnreserved(c) {
        b := b + [c];
      } else {
        b := WriteEscape(b, c);
      }
    }
    assert s[..|s|] == s;
  }

  // ----- what each byte becomes -----

  const DIGITS := "0123456789ABCDEF"

  /** The letters, the digits, and _.-~ by their ASCII codes. */
  predicate Plain(c: Byte) { 65 <= c <= 90 || 97 <= c <= 122 || 48 <= c <= 57 || c in {95, 46, 45, 126} }

  lemma EscapeIsHex(c: Byte)
    ensures c / 16 < 16 && c % 16 < 16
    ensures Escape(c) == [37, DIGITS[c / 16] as int, DIGITS[c % 16] as int]
  {
  }

  lemma {:induction false} QuotedConcat(s: seq<Byte>, t: seq<Byte>, safe: seq<Byte>)
    ensures Quoted(s + t, safe) == Quoted(s, safe) + Quoted(t, safe)
    ensures QuotedPlus(s + t) == QuotedPlus(s) + QuotedPlus(t)
    decreases |s|
  {
    hide QuoteByte, PlusByte;
    if s == [] {
      assert s + t == t;
    } else {
      assert (s + t)[1..] == s[1..] + t;
      QuotedConcat(s[1..], t, safe);
    }
  }

  /**
    What stands for each byte, wherever it is: itself if it is a letter, a digit, one of _.-~ or declared
    safe, and otherwise a percent sign and its two upper-case hexadecimal digits; in a form, a plus sign for a space.
   */
  lemma EachByteAsStated(s: seq<Byte>, c: Byte, t: seq<Byte>, safe: seq<Byte>)
    ensures c / 16 < 16 && c % 16 < 16
    ensures var hex := [37, DIGITS[c / 16] as int, DIGITS[c % 16] as int];
            var quoted := if Plain(c) || c in safe then [c] else hex;
            var plus := if c == 32 then [43] else if Plain(c) then [c] else hex;
            && Quoted(s + [c] + t, safe) == Quoted(s, safe) + quoted + Quoted(t, safe)
            && QuotedPlus(s + [c] + t) == QuotedPlus(s) + plus + QuotedPlus(t)
  {
    assert IsUnreserved(c) <==> Plain(c);
    EscapeIsHex(c);
    hide IsUnreserved, Plain, Escape, Quoted, QuotedPlus;
    QuotedConcat(s + [c], t, safe);
    QuotedAppend(s, c, safe);
    QuotedPlusAppend(s, c);
  }

  // ----- decoding -----

  /** The value of a hexadecimal digit of either case. */
  function HexValue(c: Byte): Option<int>
  {
    if B('0') <= c <= B('9') then Some(c - B('0'))
    else if B('A') <= c <= B('F') then Some(c - B('A') + 10)
    else if B('a') <= c <= B('f') then Some(c - B('a') + 10)
    else None
  }

  /**
    Percent-decoding; with `form`, a plus sign stands for a space. A percent sign not followed by two
    digits is an error.
   */
  function Decode(t: seq<Byte>, form: bool): Option<seq<Byte>>
    decreases |t|
  {
    if t == [] then Some([])
    else if t[0] == PERCENT then
      if |t| < 3 || HexValue(t[1]).None? || HexValue(t[2]).None? then None
      else
        var rest := Decode(t[3..], form);
        HexRange(t[1]);
        HexRange(t[2]);
        if rest.None? then None else Some([16 * HexValue(t[1]).value + HexValue(t[2]).value] + rest.value)
    else
      var rest := Decode(t[1..], form);
      if rest.None? then None else Some([if form && t[0] == PLUS then SPACE else t[0]] + rest.value)
  }

  lemma HexRange(c: Byte)
    ensures HexValue(c).Some? ==> 0 <= HexValue(c).value < 16
  {
  }

  lemma HexDigits(c: Byte)
    ensures 0 <= c / 16 < 16 && 0 <= c % 16 < 16 && 16 * (c / 16) + c % 16 == c
    ensures HexValue(Hex(c / 16)) == Some(c / 16) && HexValue(Hex(c % 16)) == Some(c % 16)
  {
  }

  lemma EscapeDecodes(c: Byte, rest: seq<Byte>, form: bool)
    ensures Decode(Escape(c) + rest, form) == if Decode(rest, form).None? then None else Some([c] + Decode(rest, form).value)
  {
    HexDigits(c);
    hide Hex, HexValue;
    var t := Escape(c) + rest;
    assert t[0] == PERCENT && t[1] == Hex(c / 16) && t[2] == Hex(c % 16) && t[3..] == rest;
  }

  lemma PlainDecodes(c: Byte, rest: seq<Byte>, form: bool)
    requires c != PERCENT
    ensures Decode([c] + rest, form) ==
            if Decode(rest, form).None? then None else Some([if form && c == PLUS then SPACE else c] + Decode(rest, form).value)
  {
    assert ([c] + rest)[1..] == rest;
  }

  lemma {:induction false} QuotedDecodes(s: seq<Byte>, safe: seq<Byte>)
    requires PERCENT !in safe
    ensures Decode(Quoted(s, safe), false) == Some(s)
    decreases |s|
  {
    hide Decode, Escape;
    if s == [] {
      DecodeNothing();
    } else {
      var c, rest := s[0], Quoted(s[1..], safe);
      QuotedDecodes(s[1..], safe);
      assert [c] + s[1..] == s;
      if IsUnreserved(c) || c in safe { PlainDecodes(c, rest, false); } else { EscapeDecodes(c, rest, false); }
    }
  }

  lemma DecodeNothing()
    ensures Decode([], false) == Some([]) == Decode([], true)
  {
  }

  /** Percent-decoding undoes PyQuote on every byte string exactly when the percent sign is not declared safe. */
  lemma QuoteRoundTrip(safe: seq<Byte>)
    ensures PERCENT !in safe <==> forall s :: Decode(Quoted(s, safe), false) == Some(s)
  {
    if PERCENT !in safe {
      forall s ensures Decode(Quoted(s, safe), false) == Some(s) { QuotedDecodes(s, safe); }
    } else {
      var s := [PERCENT];
      assert s[1..] == [] && Quoted(s, safe) == [PERCENT];
      assert Decode(Quoted(s, safe), false) == None;
    }
  }

  /** Form-decoding undoes PyQuotePlus on every byte string. */
  lemma {:induction false} QuotePlusRoundTrip(s: seq<Byte>)
    ensures Decode(QuotedPlus(s), true) == Some(s)
    decreases |s|
  {
    hide Decode, Escape;
    if s == [] {
      DecodeNothing();
    } else {
      var c, rest := s[0], QuotedPlus(s[1..]);
      QuotePlusRoundTrip(s[1..]);
      assert [c] + s[1..] == s;
      if c == SPACE { PlainDecodes(PLUS, rest, true); }
      else if IsUnreserved(c) { PlainDecodes(c, rest, true); }
      else { EscapeDecodes(c, rest, true); }
    }
  }

  // ----- query strings -----

  datatype QueryPair = QueryPair(k: seq<Byte>, v: seq<Byte>)

  function PairText(p: QueryPair): seq<Byte> { QuotedPlus(p.k) + [EQ] + QuotedPlus(p.v) }

  function Joined(pairs: seq<QueryPair>): seq<Byte>
  {
    if pairs == [] then [] else if |pairs| == 1 then PairText(pairs[0]) else PairText(pairs[0]) + [AMP] + Joined(pairs[1..])
  }

  lemma {:induction false} JoinedAppend(pairs: seq<QueryPair>, p: QueryPair)
    ensures Joined(pairs + [p]) == if pairs == [] then PairText(p) else Joined(pairs) + [AMP] + PairText(p)
    decreases |pairs|
  {
    hide PairText;
    if pairs == [] {
      assert pairs + [p] == [p];
    } else {
      assert (pairs + [p])[1..] == pairs[1..] + [p];
      JoinedAppend(pairs[1..], p);
      if |pairs| == 1 { assert pairs[1..] == []; }
    }
  }

  method EncodeQuery(pairs: seq<QueryPair>) returns (query: seq<Byte>)
    ensures query == Joined(pairs)
  {
    query := [];
    for i := 0 to |pairs|
      invariant query == Joined(pairs[..i])
    {
      assert pairs[..i + 1] == pairs[..i] + [pairs[i]];
      JoinedAppend(pairs[..i], pairs[i]);
      var k := QuotePlus(pairs[i].k);
      var v := QuotePlus(pairs[i].v);
      if i > 0 { query := query + [AMP]; }
      query := query + (k + [EQ] + v);
    }
    assert pairs[..|pairs|] == pairs;
  }

  /** No separator survives the encoding of a key or a value. */
  lemma {:induction false} NoSeparators(s: seq<Byte>)
    ensures EQ !in QuotedPlus(s) && AMP !in QuotedPlus(s) && SPACE !in QuotedPlus(s)
    decreases |s|
  {
    if s != [] {
      NoSeparators(s[1..]);
      assert forall c :: c in PlusByte(s[0]) ==> c != EQ && c != AMP && c != SPACE;
    }
  }

  /** The first position of a separator, or the length. */
  function Cut(t: seq<Byte>, sep: Byte): (i: nat)
    ensures i <= |t| && (i < |t| ==> t[i] == sep) && sep !in t[..i]
  {
    if t == [] then 0 else if t[0] == sep then 0 else 1 + Cut(t[1..], sep)
  }

  lemma CutIs(a: seq<Byte>, sep: Byte, b: seq<Byte>)
    requires sep !in a
    ensures Cut(a + [sep] + b, sep) == |a| && Cut(a, sep) == |a|
  {
    var t := a + [sep] + b;
    assert t[|a|] == sep && t[..|a|] == a;
    assert forall j :: 0 <= j < |a| ==> t[j] == a[j];
  }

  function ParsePair(t: seq<Byte>): Option<QueryPair>
  {
    var i := Cut(t, EQ);
    if i == |t| || Decode(t[..i], true).None? || Decode(t[i + 1..], true).None? then None
    else Some(QueryPair(Decode(t[..i], true).value, Decode(t[i + 1..], true).value))
  }

  function ParseQuery(t: seq<Byte>): Option<seq<QueryPair>>
    decreases |t|
  {
    if t == [] then Some([])
    else
      var i := Cut(t, AMP);
      var first := ParsePair(t[..i]);
      if first.None? then None
      else if i == |t| then Some([first.value])
      else
        var rest := ParseQuery(t[i + 1..]);
        if rest.None? then None else Some([first.value] + rest.value)
  }

  lemma PairRoundTrip(p: QueryPair)
    ensures ParsePair(PairText(p)) == Some(p) && AMP !in PairText(p) && PairText(p) != []
  {
    NoSeparators(p.k);
    NoSeparators(p.v);
    CutIs(QuotedPlus(p.k), EQ, QuotedPlus(p.v));
    QuotePlusRoundTrip(p.k);
    QuotePlusRoundTrip(p.v);
    var t, i := PairText(p), |QuotedPlus(p.k)|;
    assert t[..i] == QuotedPlus(p.k) && t[i + 1..] == QuotedPlus(p.v);
  }

  lemma ParseLast(first: seq<Byte>, p: QueryPair)
    requires AMP !in first && first != [] && ParsePair(first) == Some(p)
    ensures ParseQuery(first) == Some([p])
  {
    hide ParsePair, Cut;
    CutIs(first, AMP, []);
    assert first[..|first|] == first;
  }

  lemma ParseMore(first: seq<Byte>, p: QueryPair, rest: seq<Byte>)
    requires AMP !in first && ParsePair(first) == Some(p) && ParseQuery(rest).Some?
    ensures ParseQuery(first + [AMP] + rest) == Some([p] + ParseQuery(rest).value)
  {
    hide ParsePair, Cut;
    CutIs(first, AMP, rest);
    var t := first + [AMP] + rest;
    assert t[..|first|] == first && t[|first| + 1..] == rest;
  }

  /** A query string parses back to its pairs, in order. */
  lemma {:induction false} QueryRoundTrip(pairs: seq<QueryPair>)
    ensures ParseQuery(Joined(pairs)) == Some(pairs)
    decreases |pairs|
  {
    hide PairText, ParsePair, Cut;
    if pairs != [] {
      var first := PairText(pairs[0]);
      PairRoundTrip(pairs[0]);
      if |pairs| == 1 {
        ParseLast(first, pairs[0]);
        assert pairs == [pairs[0]];
      } else {
        QueryRoundTrip(pairs[1..]);
        hide ParseQuery;
        ParseMore(first, pairs[0], Joined(pairs[1..]));
        assert pairs == [pairs[0]] + pairs[1..];
      }
    }
  }

  /** The text of a query: key, equals sign and value of each pair, ampersands between them. */
  lemma QueryLooks(p: QueryPair, rest: seq<QueryPair>)
    ensures Joined([]) == []
    ensures Joined([p] + rest) ==
            QuotedPlus(p.k) + [61] + QuotedPlus(p.v) + if rest == [] then [] else [38] + Joined(rest)
  {
    hide QuotedPlus;
    assert ([p] + rest)[1..] == rest;
  }

  /** Different lists of pairs have different query strings. */
  lemma EncodeQueryInjective(a: seq<QueryPair>, b: seq<QueryPair>)
    requires Joined(a) == Joined(b)
    ensures a == b
  {
    QueryRoundTrip(a);
    QueryRoundTrip(b);
  }
}

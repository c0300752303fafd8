/** The text encodings of outgoing requests: percent-encoding (twice), form bodies and base64. */
module Encodings {
  import opened Wrappers
  import opened Sequences

  /** One char of a std::string. */
  type Octet = c: char | c as int < 256 witness 'a'

  const UPPER: seq<Octet> := "ABCDEFGHIJKLMNOPQRSTUVWXYZ"
  const LOWER: seq<Octet> := "abcdefghijklmnopqrstuvwxyz"
  const DIGITS: seq<Octet> := "0123456789"
  const HEX: seq<Octet> := "0123456789ABCDEF"
  const SAFE: seq<Octet> := UPPER + LOWER + DIGITS + "-_.~"
  const TABLE: seq<Octet> := UPPER + LOWER + DIGITS + "+/"

  /** The unreserved characters, section 2.3 of RFC 3986. */
  predicate Unreserved(c: Octet)
  {
    'A' <= c <= 'Z' || 'a' <= c <= 'z' || '0' <= c <= '9' || c == '-' || c == '_' || c == '.' || c == '~'
  }

  lemma UpperIs(c: Octet)
    ensures |UPPER| == 26 && forall i :: 0 <= i < 26 ==> UPPER[i] as int == 'A' as int + i
    ensures c in UPPER <==> 'A' <= c <= 'Z'
  {
    if 'A' <= c <= 'Z' {
      assert UPPER[c as int - 'A' as int] == c;
    }
  }

  lemma LowerIs(c: Octet)
    ensures |LOWER| == 26 && forall i :: 0 <= i < 26 ==> LOWER[i] as int == 'a' as int + i
    ensures c in LOWER <==> 'a' <= c <= 'z'
  {
    if 'a' <= c <= 'z' {
      assert LOWER[c as int - 'a' as int] == c;
    }
  }

  lemma DigitsAre(c: Octet)
    ensures |DIGITS| == 10 && forall i :: 0 <= i < 10 ==> DIGITS[i] as int == '0' as int + i
    ensures c in DIGITS <==> '0' <= c <= '9'
  {
    if '0' <= c <= '9' {
      assert DIGITS[c as int - '0' as int] == c;
    }
  }

  lemma SafeIsUnreserved(c: Octet)
    ensures c in SAFE <==> Unreserved(c)
  {
    UpperIs(c);
    LowerIs(c);
    DigitsAre(c);
  }

  // Percent-encoding, section 2.1 of RFC 3986

  function HexDigit(n: nat): (c: Octet)
    requires n < 16
  {
    if n < 10 then ('0' as int + n) as char else ('A' as int + n - 10) as char
  }

  function HexValue(c: Octet): (v: Option<nat>)
    ensures v.Some? ==> v.value < 16
  {
    if '0' <= c <= '9' then Some(c as int - '0' as int)
    else if 'A' <= c <= 'F' then Some(c as int - 'A' as int + 10)
    else if 'a' <= c <= 'f' then Some(c as int - 'a' as int + 10)
    else None
  }

  function Encoded(c: Octet): seq<Octet>
  {
    if Unreserved(c) then [c] else ['%', HexDigit(c as int / 16), HexDigit(c as int % 16)]
  }

  function PercentEncode(s: seq<Octet>): seq<Octet>
  {
    FlatMap(Encoded, s)
  }

  /** Reads every %XX as one byte; with `plus`, as in form bodies, '+' is a space. Anything else stands for itself. */
  function PercentDecode(s: seq<Octet>, plus: bool): seq<Octet>
  {
    if s == [] then []
    else if s[0] == '%' && |s| >= 3 && HexValue(s[1]).Some? && HexValue(s[2]).Some? then
      [(16 * HexValue(s[1]).value + HexValue(s[2]).value) as char] + PercentDecode(s[3..], plus)
    else [if plus && s[0] == '+' then ' ' else s[0]] + PercentDecode(s[1..], plus)
  }

  /** A byte in base 16 with upper-case digits, padded with zeros to two. */
  function Hex02(n: nat): seq<Octet>
    requires n < 256
  {
    if n < 16 then "0" + [HexDigit(n)] else [HexDigit(n / 16), HexDigit(n % 16)]
  }

  /** The Drive uploader's encoder: keeps what occurs in a list of safe characters. */
  method UrlEscape(input: seq<Octet>) returns (out: seq<Octet>)
    ensures out == PercentEncode(input)
  {
    out := [];
    for i := 0 to |input|
      invariant out == PercentEncode(input[..i])
    {
      var c := input[i];
      FlatMapNext(Encoded, input, i);
      SafeIsUnreserved(c);
      if c in SAFE {
        out := out + [c];
      } else {
        out := out + ("%" + Hex02(c as int));
      }
    }
    assert input[..|input|] == input;
  }

  method HexLookUp(n: nat) returns (c: Octet)
    requires n < 16
    ensures c == HexDigit(n)
  {
    c := HEX[n];
  }

  /** The qBittorrent client's encoder: tests ranges and looks digits up in a table. It computes the same function as the Drive uploader's. */
  method UrlEncode(input: seq<Octet>) returns (out: seq<Octet>)
    ensures out == PercentEncode(input)
  {
    out := [];
    for i := 0 to |input|
      invariant out == PercentEncode(input[..i])
    {
      var c := input[i];
      FlatMapNext(Encoded, input, i);
      var unreserved := ('A' <= c <= 'Z') || ('a' <= c <= 'z') || ('0' <= c <= '9')
                        || c == '-' || c == '_' || c == '.' || c == '~';
      if unreserved {
        out := out + [c];
      } else {
        var high, low := c as int / 16 % 16, c as int % 16;
        var h := HexLookUp(high);
        var l := HexLookUp(low);
        out := out + ['%', h, l];
      }
    }
    assert input[..|input|] == input;
  }

  lemma DecodeFirst(c: Octet, rest: seq<Octet>, plus: bool)
    ensures PercentDecode(Encoded(c) + rest, plus) == [c] + PercentDecode(rest, plus)
  {
    var s := Encoded(c) + rest;
    if Unreserved(c) {
      assert s[0] == c && s[1..] == rest;
    } else {
      assert s[0] == '%' && s[3..] == rest;
      assert HexValue(s[1]) == Some(c as int / 16) && HexValue(s[2]) == Some(c as int % 16);
    }
  }

  /** Decoding, by URI or by form rules, gives the input back: every byte string survives. */
  lemma {:induction false} PercentIsInverted(s: seq<Octet>, plus: bool)
    ensures PercentDecode(PercentEncode(s), plus) == s
  {
    if s != [] {
      DecodeFirst(s[0], PercentEncode(s[1..]), plus);
      PercentIsInverted(s[1..], plus);
    }
  }

  predicate UpperHex(c: Octet)
  {
    '0' <= c <= '9' || 'A' <= c <= 'F'
  }

  /** Every character of an encoded text is unreserved or is a '%' that two upper-case hexadecimal digits follow. */
  lemma {:induction false} PercentIsClean(s: seq<Octet>, i: nat)
    requires i < |PercentEncode(s)|
    ensures var e := PercentEncode(s);
            Unreserved(e[i]) || (e[i] == '%' && i + 2 < |e| && UpperHex(e[i + 1]) && UpperHex(e[i + 2]))
  {
    var head := Encoded(s[0]);
    if i >= |head| {
      PercentIsClean(s[1..], i - |head|);
    }
  }

  // Form bodies

  type Field = (seq<Octet>, seq<Octet>)

  function FieldText(f: Field): seq<Octet>
  {
    PercentEncode(f.0) + "=" + PercentEncode(f.1)
  }

  function FormText(fields: seq<Field>): seq<Octet>
  {
    if fields == [] then []
    else if |fields| == 1 then FieldText(fields[0])
    else FieldText(fields[0]) + "&" + FormText(fields[1..])
  }

  lemma {:induction false} FormSnoc(fields: seq<Field>, f: Field)
    requires fields != []
    ensures FormText(fields + [f]) == FormText(fields) + "&" + FieldText(f)
  {
    assert (fields + [f])[1..] == fields[1..] + [f];
    if |fields| > 1 {
      FormSnoc(fields[1..], f);
    } else {
      assert fields[1..] + [f] == [f];
    }
  }

  method MakeForm(fields: seq<Field>) returns (out: seq<Octet>)
    ensures out == FormText(fields)
  {
    out := [];
    var first := true;
    for i := 0 to |fields|
      invariant first == (i == 0)
      invariant out == FormText(fields[..i])
    {
      assert fields[..i + 1] == fields[..i] + [fields[i]];
      if !first {
        FormSnoc(fields[..i], fields[i]);
        out := out + "&";
      }
      first := false;
      var key := UrlEncode(fields[i].0);
      var value := UrlEncode(fields[i].1);
      out := out + (key + "=" + value);
    }
    assert fields[..|fields|] == fields;
  }

  /** Position of the first `c`, or the length of the text. */
  function IndexOf(s: seq<Octet>, c: Octet): (i: nat)
    ensures i <= |s|
    ensures i < |s| ==> s[i] == c
    ensures forall j :: 0 <= j < i ==> s[j] != c
  {
    if s == [] || s[0] == c then 0 else 1 + IndexOf(s[1..], c)
  }

  function Before(s: seq<Octet>, c: Octet): seq<Octet>
  {
    s[..IndexOf(s, c)]
  }

  function After(s: seq<Octet>, c: Octet): seq<Octet>
  {
    if IndexOf(s, c) < |s| then s[IndexOf(s, c) + 1..] else []
  }

  /** How a server reads application/x-www-form-urlencoded: pieces between '&', empty ones skipped, each cut at its first '='. */
  function ParseForm(s: seq<Octet>): seq<Field>
    decreases |s|
  {
    if s == [] then []
    else
      var piece := Before(s, '&');
      var field := (PercentDecode(Before(piece, '='), true), PercentDecode(After(piece, '='), true));
      (if piece == [] then [] else [field]) + ParseForm(After(s, '&'))
  }

  lemma SplitsThere(a: seq<Octet>, c: Octet, b: seq<Octet>)
    requires c !in a
    ensures Before(a + [c] + b, c) == a && After(a + [c] + b, c) == b
    ensures Before(a, c) == a && After(a, c) == []
  {
    var s := a + [c] + b;
    assert s[|a|] == c;
    assert IndexOf(s, c) == |a| by {
      if IndexOf(s, c) < |a| {
        assert false;
      }
    }
    assert IndexOf(a, c) == |a|;
  }

  lemma Absent(s: seq<Octet>, c: Octet)
    requires !Unreserved(c) && c != '%'
    ensures c !in PercentEncode(s)
  {
    if c in PercentEncode(s) {
      var i :| 0 <= i < |PercentEncode(s)| && PercentEncode(s)[i] == c;
      PercentIsClean(s, i);
    }
  }

  /** An encoded field holds no '&', and is cut at its first '=' into name and value. */
  lemma FieldParts(f: Field)
    ensures '&' !in FieldText(f) && FieldText(f) != []
    ensures PercentDecode(Before(FieldText(f), '='), true) == f.0
    ensures PercentDecode(After(FieldText(f), '='), true) == f.1
  {
    Absent(f.0, '=');
    Absent(f.0, '&');
    Absent(f.1, '&');
    assert "=" == ['='];
    SplitsThere(PercentEncode(f.0), '=', PercentEncode(f.1));
    PercentIsInverted(f.0, true);
    PercentIsInverted(f.1, true);
  }

  lemma ParseField(f: Field, rest: seq<Octet>)
    ensures ParseForm(FieldText(f)) == [f]
    ensures ParseForm(FieldText(f) + "&" + rest) == [f] + ParseForm(rest)
  {
    FieldParts(f);
    assert "&" == ['&'];
    SplitsThere(FieldText(f), '&', rest);
    assert ParseForm([]) == [];
  }

  /** A form body parses back to the very list of fields it was made from: same names and values, in the same order. */
  lemma {:induction false} FormIsInverted(fields: seq<Field>)
    ensures ParseForm(FormText(fields)) == fields
  {
    if |fields| == 1 {
      ParseField(fields[0], []);
    } else if |fields| > 1 {
      ParseField(fields[0], FormText(fields[1..]));
      FormIsInverted(fields[1..]);
      assert [fields[0]] + fields[1..] == fields;
    }
  }

  // Base64, section 4 of RFC 4648

  /** The value of a base64 character. */
  function Sextet(c: Octet): (v: Option<nat>)
    ensures v.Some? ==> v.value < 64
  {
    if 'A' <= c <= 'Z' then Some(c as int - 'A' as int)
    else if 'a' <= c <= 'z' then Some(c as int - 'a' as int + 26)
    else if '0' <= c <= '9' then Some(c as int - '0' as int + 52)
    else if c == '+' then Some(62)
    else if c == '/' then Some(63)
    else None
  }

  /** The character of a value. */
  function Digit(v: nat): (c: Octet)
    requires v < 64
    ensures Sextet(c) == Some(v)
  {
    if v < 26 then ('A' as int + v) as char
    else if v < 52 then ('a' as int + v - 26) as char
    else if v < 62 then ('0' as int + v - 52) as char
    else if v == 62 then '+'
    else '/'
  }

  lemma TableIs(v: nat)
    requires v < 64
    ensures |TABLE| == 64 && TABLE[v] == Digit(v)
  {
    UpperIs('a');
    LowerIs('a');
    DigitsAre('a');
  }

  method LookUp(v: nat) returns (c: Octet)
    requires v < 64
    ensures c == Digit(v)
  {
    TableIs(v);
    c := TABLE[v];
  }

  // How 8-bit bytes lie across 6-bit digits

  function First(v0: nat, v1: nat): (b: Byte)
    requires v0 < 64 && v1 < 64
  {
    4 * v0 + v1 / 16
  }

  function Second(v1: nat, v2: nat): (b: Byte)
    requires v1 < 64 && v2 < 64
  {
    v1 % 16 * 16 + v2 / 4
  }

  function Third(v2: nat, v3: nat): (b: Byte)
    requires v2 < 64 && v3 < 64
  {
    v2 % 4 * 64 + v3
  }

  lemma FirstIs(v0: nat, v1: nat)
    requires v0 < 64 && v1 < 64
    ensures First(v0, v1) / 4 == v0 && First(v0, v1) % 4 == v1 / 16
  {
  }

  lemma SecondIs(v1: nat, v2: nat)
    requires v1 < 64 && v2 < 64
    ensures Second(v1, v2) / 16 == v1 % 16 && Second(v1, v2) % 16 == v2 / 4
  {
  }

  lemma ThirdIs(v2: nat, v3: nat)
    requires v2 < 64 && v3 < 64
    ensures Third(v2, v3) / 64 == v2 % 4 && Third(v2, v3) % 64 == v3
  {
  }

  lemma SamePair(v: nat, w: nat)
    requires v / 16 == w / 16 && v % 16 == w % 16
    ensures v == w
  {
  }

  /** The bytes of a group determine its digits, the last of them by the bits that must be zero if it is padded. */
  lemma SameDigits(v: seq<nat>, w: seq<nat>)
    requires 2 <= |v| == |w| <= 4 && forall i :: 0 <= i < |v| ==> v[i] < 64 && w[i] < 64
    requires First(v[0], v[1]) == First(w[0], w[1])
    requires if |v| == 2 then v[1] % 16 == w[1] % 16 else Second(v[1], v[2]) == Second(w[1], w[2])
    requires |v| == 3 ==> v[2] % 4 == w[2] % 4
    requires |v| == 4 ==> Third(v[2], v[3]) == Third(w[2], w[3])
    ensures v == w
  {
    FirstIs(v[0], v[1]);
    FirstIs(w[0], w[1]);
    if |v| > 2 {
      SecondIs(v[1], v[2]);
      SecondIs(w[1], w[2]);
    }
    SamePair(v[1], w[1]);
    if |v| == 4 {
      ThirdIs(v[2], v[3]);
      ThirdIs(w[2], w[3]);
    }
  }

  function Sextets(q: seq<Octet>): (v: seq<nat>)
    ensures |v| <= |q| && forall i :: 0 <= i < |v| ==> Sextet(q[i]) == Some(v[i])
    ensures |v| < |q| ==> Sextet(q[|v|]).None?
  {
    if q == [] || Sextet(q[0]).None? then [] else [Sextet(q[0]).value] + Sextets(q[1..])
  }

  /** One group of four: padding only in the last group of a text, and no stray bits before it. */
  function DecodeGroup(q: seq<Octet>, last: bool): Option<seq<Byte>>
  {
    var v := Sextets(q);
    if |q| != 4 then None
    else if |v| == 4 then Some([First(v[0], v[1]), Second(v[1], v[2]), Third(v[2], v[3])])
    else if last && |v| == 3 && q[3] == '=' && v[2] % 4 == 0 then Some([First(v[0], v[1]), Second(v[1], v[2])])
    else if last && |v| == 2 && q[2] == '=' && q[3] == '=' && v[1] % 16 == 0 then Some([First(v[0], v[1])])
    else None
  }

  /** Decodes whole groups of four, one after the other. */
  function DecodeBy<B>(group: (seq<Octet>, bool) -> Option<seq<B>>, s: seq<Octet>): Option<seq<B>>
  {
    if s == [] then Some([])
    else if |s| < 4 then None
    else
      var head, rest := group(s[..4], |s| == 4), DecodeBy(group, s[4..]);
      if head.Some? && rest.Some? then Some(head.value + rest.value) else None
  }

  /** A strict decoder: the only text it accepts for a byte string is the padded one. */
  function Base64Decode(s: seq<Octet>): Option<seq<Byte>>
  {
    DecodeBy(DecodeGroup, s)
  }

  /** A group without padding decodes the same wherever it stands. */
  ghost predicate PaddingIsLast<B(!new)>(group: (seq<Octet>, bool) -> Option<seq<B>>)
  {
    forall q :: '=' !in q ==> group(q, true) == group(q, false)
  }

  /** A group without padding, then the rest. */
  lemma DecodeCons<B(!new)>(group: (seq<Octet>, bool) -> Option<seq<B>>, q: seq<Octet>, rest: seq<Octet>, x: seq<B>, y: seq<B>)
    requires PaddingIsLast(group)
    requires |q| == 4 && '=' !in q && group(q, true) == Some(x) && DecodeBy(group, rest) == Some(y)
    ensures DecodeBy(group, q + rest) == Some(x + y)
  {
    assert (q + rest)[..4] == q && (q + rest)[4..] == rest;
  }

  lemma DecodeSingle<B(!new)>(group: (seq<Octet>, bool) -> Option<seq<B>>, q: seq<Octet>)
    requires |q| == 4
    ensures DecodeBy(group, q) == group(q, true)
  {
    assert q[..4] == q && q[4..] == [];
    assert DecodeBy(group, []) == Some([]);
    if group(q, true).Some? {
      assert group(q, true).value + [] == group(q, true).value;
    }
  }

  lemma SextetsAre(q: seq<Octet>, v: seq<nat>)
    requires |v| <= |q| && forall i :: 0 <= i < |v| ==> Sextet(q[i]) == Some(v[i])
    requires |v| < |q| ==> Sextet(q[|v|]).None?
    ensures Sextets(q) == v
  {
    var w := Sextets(q);
    assert |w| >= |v| by {
      if |w| < |v| {
        assert false;
      }
    }
    assert |w| <= |v| by {
      if |w| > |v| {
        assert false;
      }
    }
  }

  lemma Remainder64(x: nat, k: nat, r: nat)
    requires x == 64 * k + r && r < 64
    ensures x % 64 == r
  {
  }

  // The source's digits. Shifts and masks are written as quotients and remainders; the bits that
  // it joins by a bitwise or are disjoint, so their sum is taken.

  function Digit0(b0: Byte): (v: nat)
    ensures v < 64 && v == b0 / 4
  {
    b0 / 4 % 64
  }

  function Digit1(b0: Byte, b1: Byte): (v: nat)
    ensures v < 64 && v / 16 == b0 % 4 && v % 16 == b1 / 16
  {
    Remainder64(b0 * 16 + b1 / 16, b0 / 4, b0 % 4 * 16 + b1 / 16);
    (b0 * 16 + b1 / 16) % 64
  }

  function Digit2(b1: Byte, b2: Byte): (v: nat)
    ensures v < 64 && v / 4 == b1 % 16 && v % 4 == b2 / 64
  {
    Remainder64(b1 * 4 + b2 / 64, b1 / 16, b1 % 16 * 4 + b2 / 64);
    (b1 * 4 + b2 / 64) % 64
  }

  function Digit3(b2: Byte): (v: nat)
    ensures v < 64
  {
    b2 % 64
  }

  lemma BytesAre(b0: Byte, b1: Byte, b2: Byte)
    ensures First(Digit0(b0), Digit1(b0, b1)) == b0
    ensures Second(Digit1(b0, b1), Digit2(b1, b2)) == b1
    ensures Third(Digit2(b1, b2), Digit3(b2)) == b2
    ensures Digit1(b0, 0) % 16 == 0 && Digit2(b1, 0) % 4 == 0
  {
  }

  /** The four digits of three bytes. */
  function Four(b0: Byte, b1: Byte, b2: Byte): (q: seq<Octet>)
    ensures |q| == 4 && '=' !in q
  {
    [Digit(Digit0(b0)), Digit(Digit1(b0, b1)), Digit(Digit2(b1, b2)), Digit(Digit3(b2))]
  }

  lemma DecodeFour(b0: Byte, b1: Byte, b2: Byte)
    ensures DecodeGroup(Four(b0, b1, b2), true) == Some([b0, b1, b2])
  {
    SextetsAre(Four(b0, b1, b2), [Digit0(b0), Digit1(b0, b1), Digit2(b1, b2), Digit3(b2)]);
    BytesAre(b0, b1, b2);
  }

  /** What is left over, fewer than three bytes: nothing, or a padded group. */
  function Padded(rest: seq<Byte>): (q: seq<Octet>)
    requires |rest| < 3
  {
    if rest == [] then []
    else if |rest| == 1 then [Digit(Digit0(rest[0])), Digit(Digit1(rest[0], 0)), '=', '=']
    else [Digit(Digit0(rest[0])), Digit(Digit1(rest[0], rest[1])), Digit(Digit2(rest[1], 0)), '=']
  }

  lemma DecodeOne(b0: Byte)
    ensures DecodeGroup(Padded([b0]), true) == Some([b0])
  {
    var v0, v1 := Digit0(b0), Digit1(b0, 0);
    SextetsAre(Padded([b0]), [v0, v1]);
    assert v1 % 16 == 0 && First(v0, v1) == b0;
  }

  lemma DecodeTwo(b0: Byte, b1: Byte)
    ensures DecodeGroup(Padded([b0, b1]), true) == Some([b0, b1])
  {
    var v0, v1, v2 := Digit0(b0), Digit1(b0, b1), Digit2(b1, 0);
    SextetsAre(Padded([b0, b1]), [v0, v1, v2]);
    assert v2 % 4 == 0 && First(v0, v1) == b0 && Second(v1, v2) == b1;
  }

  lemma DecodePadded(rest: seq<Byte>)
    requires |rest| < 3
    ensures Base64Decode(Padded(rest)) == Some(rest)
  {
    if |rest| == 1 {
      DecodeOne(rest[0]);
      assert rest == [rest[0]];
      DecodeSingle(DecodeGroup, Padded(rest));
    } else if |rest| == 2 {
      DecodeTwo(rest[0], rest[1]);
      assert rest == [rest[0], rest[1]];
      DecodeSingle(DecodeGroup, Padded(rest));
    }
  }

  function Base64(data: seq<Byte>): seq<Octet>
  {
    if |data| < 3 then Padded(data) else Four(data[0], data[1], data[2]) + Base64(data[3..])
  }

  lemma GroupPaddingIsLast()
    ensures PaddingIsLast(DecodeGroup)
  {
  }

  lemma DecodeNext(b0: Byte, b1: Byte, b2: Byte, rest: seq<Byte>, s: seq<Octet>)
    requires Base64Decode(s) == Some(rest)
    ensures Base64Decode(Four(b0, b1, b2) + s) == Some([b0, b1, b2] + rest)
  {
    DecodeFour(b0, b1, b2);
    GroupPaddingIsLast();
    DecodeCons(DecodeGroup, Four(b0, b1, b2), s, [b0, b1, b2], rest);
  }

  /** Decoding gives every byte string back. */
  lemma {:induction false} Base64IsInverted(data: seq<Byte>)
    ensures Base64Decode(Base64(data)) == Some(data)
  {
    if |data| < 3 {
      DecodePadded(data);
    } else {
      Base64IsInverted(data[3..]);
      DecodeNext(data[0], data[1], data[2], data[3..], Base64(data[3..]));
      assert [data[0], data[1], data[2]] + data[3..] == data;
    }
  }

  lemma GroupsBegun(n: nat)
    ensures (n + 2) / 3 == (n - 3 + 2) / 3 + 1
  {
  }

  /** Four characters stand for every three bytes begun. */
  lemma {:induction false} Base64Length(data: seq<Byte>)
    ensures |Base64(data)| == 4 * ((|data| + 2) / 3)
  {
    if |data| >= 3 {
      Base64Length(data[3..]);
      GroupsBegun(|data|);
      assert |Base64(data)| == 4 + |Base64(data[3..])|;
    }
  }

  lemma Base64Next(data: seq<Byte>, i: nat)
    requires i + 3 <= |data|
    ensures Base64(data[i..]) == Four(data[i], data[i + 1], data[i + 2]) + Base64(data[i + 3..])
  {
    assert data[i..][3..] == data[i + 3..];
  }

  method EncodeGroup(b0: Byte, b1: Byte, b2: Byte) returns (q: seq<Octet>)
    ensures q == Four(b0, b1, b2)
  {
    var c0 := LookUp(Digit0(b0));
    var c1 := LookUp(Digit1(b0, b1));
    var c2 := LookUp(Digit2(b1, b2));
    var c3 := LookUp(Digit3(b2));
    q := [c0, c1, c2, c3];
  }

  method EncodeRest(data: seq<Byte>, i: nat) returns (q: seq<Octet>)
    requires i < |data| < i + 3
    ensures q == Padded(data[i..])
  {
    var b0 := data[i];
    var b1 := if i + 1 < |data| then data[i + 1] else 0;
    var c0 := LookUp(Digit0(b0));
    var c1 := LookUp(Digit1(b0, b1));
    if i + 1 < |data| {
      var c2 := LookUp(Digit2(b1, 0));
      q := [c0, c1, c2, '='];
    } else {
      q := [c0, c1, '=', '='];
    }
  }

  method Base64Encode(data: seq<Byte>) returns (out: seq<Octet>)
    ensures out == Base64(data)
  {
    out := [];
    var i := 0;
    while i + 3 <= |data|
      invariant 0 <= i <= |data| && out + Base64(data[i..]) == Base64(data)
    {
      Base64Next(data, i);
      var q := EncodeGroup(data[i], data[i + 1], data[i + 2]);
      assert out + (q + Base64(data[i + 3..])) == (out + q) + Base64(data[i + 3..]);
      out := out + q;
      i := i + 3;
    }
    if i < |data| {
      var q := EncodeRest(data, i);
      out := out + q;
    }
  }

  lemma SameDigit(c: Octet, d: Octet)
    requires Sextet(c).Some? && Sextet(c) == Sextet(d)
    ensures c == d
  {
  }

  lemma SameGroup(p: seq<Octet>, q: seq<Octet>, last: bool)
    requires DecodeGroup(p, last).Some? && DecodeGroup(p, last) == DecodeGroup(q, last)
    ensures p == q
  {
    var v, w := Sextets(p), Sextets(q);
    SameDigits(v, w);
    assert forall i :: 0 <= i < |v| ==> p[i] == q[i] by {
      forall i | 0 <= i < |v| ensures p[i] == q[i] { SameDigit(p[i], q[i]); }
    }
  }

  lemma GroupLength(q: seq<Octet>, last: bool)
    requires DecodeGroup(q, last).Some?
    ensures 1 <= |DecodeGroup(q, last).value| <= 3
    ensures !last ==> |DecodeGroup(q, last).value| == 3
  {
  }

  /** Both texts end with this group, or neither does. */
  lemma SameEnd(a: seq<Octet>, b: seq<Octet>)
    requires a != [] && b != [] && Base64Decode(a).Some? && Base64Decode(a) == Base64Decode(b)
    ensures |a| == 4 <==> |b| == 4
    ensures |DecodeGroup(a[..4], |a| == 4).value| == |DecodeGroup(b[..4], |b| == 4).value|
  {
    Longer(a);
    Longer(b);
  }

  lemma {:induction false} Longer(a: seq<Octet>)
    requires a != [] && Base64Decode(a).Some?
    ensures |a| > 4 ==> |DecodeGroup(a[..4], |a| == 4).value| == 3 && |Base64Decode(a).value| > 3
    ensures |a| == 4 ==> Base64Decode(a) == DecodeGroup(a[..4], true) && 1 <= |Base64Decode(a).value| <= 3
  {
    GroupLength(a[..4], |a| == 4);
    if |a| == 4 {
      DecodeSingle(DecodeGroup, a);
      assert a[..4] == a;
    } else {
      assert a[4..] != [];
      Longer(a[4..]);
    }
  }

  /** The decoder accepts exactly one text for each byte string, so the encoder's output is the only one possible. */
  lemma {:induction false} Base64IsUnique(a: seq<Octet>, b: seq<Octet>)
    requires Base64Decode(a).Some? && Base64Decode(a) == Base64Decode(b)
    ensures a == b
  {
    if a == [] || b == [] {
      if a != [] {
        GroupLength(a[..4], |a| == 4);
      } else if b != [] {
        GroupLength(b[..4], |b| == 4);
      }
    } else {
      SameEnd(a, b);
      var h, k := DecodeGroup(a[..4], |a| == 4).value, DecodeGroup(b[..4], |b| == 4).value;
      var x, y := Base64Decode(a[4..]).value, Base64Decode(b[4..]).value;
      assert h == (h + x)[..|h|] && k == (k + y)[..|k|] && x == (h + x)[|h|..] && y == (k + y)[|k|..];
      SameGroup(a[..4], b[..4], |a| == 4);
      Base64IsUnique(a[4..], b[4..]);
      assert a == a[..4] + a[4..] && b == b[..4] + b[4..];
    }
  }
}

/** Display helpers: cutting a UTF-8 text without splitting a character, and escaping HTML. */
module Formatting {
  import opened Wrappers
  import opened Sequences

  // UTF-8, section 4 of RFC 3629

  predicate Tail(b: Byte)
  {
    0x80 <= b <= 0xBF
  }

  /** Length of the character that starts the text, or 0 if no character does. */
  function CharLength(s: seq<Byte>): (n: nat)
    ensures n <= |s| && n <= 4
  {
    if s == [] then 0
    else if s[0] <= 0x7F then 1
    else if 0xC2 <= s[0] <= 0xDF && |s| >= 2 && Tail(s[1]) then 2
    else if 0xE0 <= s[0] <= 0xEF && |s| >= 3 && Tail(s[1]) && Tail(s[2])
            && (s[0] == 0xE0 ==> s[1] >= 0xA0) && (s[0] == 0xED ==> s[1] <= 0x9F) then 3
    else if 0xF0 <= s[0] <= 0xF4 && |s| >= 4 && Tail(s[1]) && Tail(s[2]) && Tail(s[3])
            && (s[0] == 0xF0 ==> s[1] >= 0x90) && (s[0] == 0xF4 ==> s[1] <= 0x8F) then 4
    else 0
  }

  predicate ValidUtf8(s: seq<Byte>)
  {
    s == [] || (CharLength(s) > 0 && ValidUtf8(s[CharLength(s)..]))
  }

  /** Only the bytes of the first character matter for its length. */
  lemma SameStart(s: seq<Byte>, t: seq<Byte>)
    requires 0 < CharLength(s) <= |t| && t[..CharLength(s)] == s[..CharLength(s)]
    ensures CharLength(t) == CharLength(s)
  {
    var n := CharLength(s);
    assert forall k :: 0 <= k < n ==> t[k] == s[k] by {
      forall k | 0 <= k < n ensures t[k] == s[k] {
        assert t[k] == t[..n][k] && s[k] == s[..n][k];
      }
    }
  }

  /** Between two characters: the text splits there into two valid texts. */
  lemma {:induction false} BoundarySplits(s: seq<Byte>, cut: nat)
    requires ValidUtf8(s) && cut < |s| && !Tail(s[cut])
    ensures ValidUtf8(s[..cut]) && ValidUtf8(s[cut..])
    decreases |s|
  {
    if cut > 0 {
      var n := CharLength(s);
      BoundarySplits(s[n..], cut - n);
      CutLater(s, n, cut);
      SameStart(s, s[..cut]);
    }
  }

  /** A character is at most four bytes long, so its first byte is never more than three back. */
  lemma {:induction false} StartIsNear(s: seq<Byte>, p: nat) returns (q: nat)
    requires ValidUtf8(s) && p < |s|
    ensures q <= p <= q + 3 && !Tail(s[q])
    decreases |s|
  {
    var n := CharLength(s);
    if p < n {
      q := 0;
    } else {
      q := StartIsNear(s[n..], p - n);
      q := q + n;
    }
  }

  lemma {:induction false} ValidAppend(a: seq<Byte>, b: seq<Byte>)
    requires ValidUtf8(a) && ValidUtf8(b)
    ensures ValidUtf8(a + b)
    decreases |a|
  {
    if a == [] {
      assert a + b == b;
    } else {
      var n := CharLength(a);
      ValidAppend(a[n..], b);
      AppendLater(a, b, n);
      SameStart(a, a + b);
    }
  }

  const DOTS: seq<Byte> := [0x2E, 0x2E, 0x2E]

  lemma DotsAreValid(n: nat)
    requires n <= 3
    ensures ValidUtf8(DOTS[..n])
  {
    assert ValidUtf8([]);
    assert DOTS[..1][1..] == [] && DOTS[..2][1..] == DOTS[..1] && DOTS[..3][1..] == DOTS[..2];
    assert DOTS[..0] == [];
    assert ValidUtf8(DOTS[..1]);
    assert ValidUtf8(DOTS[..2]);
  }

  /** The text itself if it fits, else a prefix and as many dots as there is room for: never longer than `max`; and for valid UTF-8, valid UTF-8 from which at most three bytes more than necessary were dropped. */
  method TruncateForDisplay(text: seq<Byte>, max: nat) returns (out: seq<Byte>)
    ensures |out| <= max
    ensures |text| <= max ==> out == text
    ensures |text| > max && max <= 3 ==> out == DOTS[..max]
    ensures |text| > max > 3 ==> exists cut: nat :: cut <= max - 3 && out == text[..cut] + DOTS
    ensures ValidUtf8(text) ==> ValidUtf8(out)
    ensures ValidUtf8(text) && |text| > max > 3 ==> |out| >= max - 3
  {
    if |text| <= max {
      return text;
    }
    if max <= 3 {
      DotsAreValid(max);
      return DOTS[..max];
    }
    var cut := max - 3;
    while cut > 0 && Tail(text[cut])
      invariant 0 <= cut <= max - 3
      invariant forall k :: cut < k <= max - 3 ==> Tail(text[k])
    {
      cut := cut - 1;
    }
    out := text[..cut] + DOTS;
    if ValidUtf8(text) {
      var q := StartIsNear(text, max - 3);
      assert q <= cut;
      assert !Tail(text[cut]) by {
        if cut == 0 {
          assert CharLength(text) > 0;
        }
      }
      BoundarySplits(text, cut);
      DotsAreValid(3);
      assert DOTS[..3] == DOTS;
      ValidAppend(text[..cut], DOTS);
    }
  }

  // HTML

  function Entity(c: char): string
  {
    if c == '&' then "&amp;" else if c == '<' then "&lt;" else if c == '>' then "&gt;" else [c]
  }

  function Escape(text: string): string
  {
    FlatMap(Entity, text)
  }

  method EscapeHtml(text: string) returns (out: string)
    ensures out == Escape(text)
  {
    out := "";
    for i := 0 to |text|
      invariant out == Escape(text[..i])
    {
      FlatMapNext(Entity, text, i);
      match text[i] {
        case '&' => out := out + "&amp;";
        case '<' => out := out + "&lt;";
        case '>' => out := out + "&gt;";
        case _ => out := out + [text[i]];
      }
    }
    assert text[..|text|] == text;
  }

  predicate StartsWith(s: string, p: string)
  {
    |p| <= |s| && s[..|p|] == p
  }

  /** Reads the three entities back; anything else stands for itself. */
  function Unescape(s: string): string
  {
    if s == "" then ""
    else if StartsWith(s, "&amp;") then "&" + Unescape(s[5..])
    else if StartsWith(s, "&lt;") then "<" + Unescape(s[4..])
    else if StartsWith(s, "&gt;") then ">" + Unescape(s[4..])
    else [s[0]] + Unescape(s[1..])
  }

  lemma NotAPrefix(s: string, p: string, k: nat)
    requires k < |s| && k < |p| && s[k] != p[k]
    ensures !StartsWith(s, p)
  {
    if |p| <= |s| {
      assert s[..|p|][k] == s[k];
    }
  }

  lemma UnescapeEntity(c: char, rest: string)
    ensures Unescape(Entity(c) + rest) == [c] + Unescape(rest)
  {
    var s := Entity(c) + rest;
    if c == '&' {
      assert s[..5] == "&amp;" && s[5..] == rest;
    } else if c == '<' {
      assert s[..4] == "&lt;" && s[4..] == rest;
      NotAPrefix(s, "&amp;", 1);
    } else if c == '>' {
      assert s[..4] == "&gt;" && s[4..] == rest;
      NotAPrefix(s, "&amp;", 1);
      NotAPrefix(s, "&lt;", 1);
    } else {
      assert s[0] == c && s[1..] == rest;
      NotAPrefix(s, "&amp;", 0);
      NotAPrefix(s, "&lt;", 0);
      NotAPrefix(s, "&gt;", 0);
    }
  }

  /** Unescaping undoes escaping, for every text. */
  lemma {:induction false} EscapeIsInverted(text: string)
    ensures Unescape(Escape(text)) == text
  {
    if text != "" {
      UnescapeEntity(text[0], Escape(text[1..]));
      EscapeIsInverted(text[1..]);
    }
  }

  /** An escaped text has no angle bracket, and every ampersand in it starts an entity. */
  lemma {:induction false} EscapeIsClean(text: string, i: nat)
    requires i < |Escape(text)|
    ensures Escape(text)[i] != '<' && Escape(text)[i] != '>'
    ensures Escape(text)[i] == '&' ==>
            var rest := Escape(text)[i..]; StartsWith(rest, "&amp;") || StartsWith(rest, "&lt;") || StartsWith(rest, "&gt;")
  {
    var head, tail := Entity(text[0]), Escape(text[1..]);
    assert Escape(text) == head + tail;
    if i >= |head| {
      EscapeIsClean(text[1..], i - |head|);
      assert Escape(text)[i..] == tail[i - |head|..];
    } else if i == 0 {
      assert Escape(text)[0..][..|head|] == head;
    }
  }
}

/** Windows command-line quoting, and the CommandLineToArgvW rules that undo it. */
module CommandLine {

  predicate Blank(c: char)
  {
    c == ' ' || c == '\t'
  }

  /** A run of `n` backslashes. */
  function Slashes(n: nat): (s: string)
    ensures |s| == n
  {
    if n == 0 then "" else "\\" + Slashes(n - 1)
  }

  // Writing

  predicate NeedsQuote(arg: string)
  {
    arg == "" || exists i :: 0 <= i < |arg| && (Blank(arg[i]) || arg[i] == '"')
  }

  /** What the loop writes for the rest of an argument when `pending` backslashes are held back. */
  function Body(rest: string, pending: nat, quoted: bool): string
  {
    if rest == "" then Slashes(if quoted then 2 * pending else pending)
    else if rest[0] == '\\' then Body(rest[1..], pending + 1, quoted)
    else if rest[0] == '"' then Slashes(2 * pending + 1) + "\"" + Body(rest[1..], 0, quoted)
    else Slashes(pending) + [rest[0]] + Body(rest[1..], 0, quoted)
  }

  function Quote(arg: string): string
  {
    if NeedsQuote(arg) then "\"" + Body(arg, 0, true) + "\"" else Body(arg, 0, false)
  }

  /** The arguments as they follow the executable on the command line. */
  function Tail(args: seq<string>): string
  {
    if args == [] then "" else " " + Quote(args[0]) + Tail(args[1..])
  }

  method Repeat(n: nat) returns (s: string)
    ensures s == Slashes(n)
  {
    s := "";
    for i := 0 to n
      invariant s == Slashes(i)
    {
      s := "\\" + s;
    }
  }

  lemma Regroup(out: string, slashes: string, c: char, rest: string)
    ensures out + (slashes + [c] + rest) == (out + slashes + [c]) + rest
  {
  }

  method QuoteArg(arg: string) returns (out: string)
    ensures out == Quote(arg)
  {
    var needsQuote := arg == "" || exists i :: 0 <= i < |arg| && (Blank(arg[i]) || arg[i] == '"');
    var opening := if needsQuote then "\"" else "";
    out := opening;
    var backslashes := 0;
    assert arg[0..] == arg;
    for i := 0 to |arg|
      invariant backslashes >= 0
      invariant out + Body(arg[i..], backslashes, needsQuote) == opening + Body(arg, 0, needsQuote)
    {
      var c := arg[i];
      assert arg[i..][0] == c && arg[i..][1..] == arg[i + 1..];
      if c == '\\' {
        backslashes := backslashes + 1;
      } else {
        var s := Repeat(if c == '"' then backslashes * 2 + 1 else backslashes);
        Regroup(out, s, c, Body(arg[i + 1..], 0, needsQuote));
        out := out + s + [c];
        backslashes := 0;
      }
    }
    var s := Repeat(if needsQuote then backslashes * 2 else backslashes);
    out := out + s;
    if needsQuote {
      out := out + "\"";
    }
  }

  lemma {:induction false} TailSnoc(args: seq<string>, a: string)
    ensures Tail(args + [a]) == Tail(args) + (" " + Quote(a))
  {
    if args != [] {
      TailSnoc(args[1..], a);
      assert (args + [a])[1..] == args[1..] + [a];
    }
  }

  method JoinArgs(args: seq<string>) returns (line: string)
    ensures line == Tail(args)
  {
    line := "";
    for i := 0 to |args|
      invariant line == Tail(args[..i])
    {
      var q := QuoteArg(args[i]);
      TailSnoc(args[..i], args[i]);
      assert args[..i + 1] == args[..i] + [args[i]];
      line := line + (" " + q);
    }
    assert args[..|args|] == args;
  }

  // Reading

  /**
   * What a reader makes of two quotes in a row inside a quoted part: an end and a new start, a
   * literal quote after which the quoted part goes on, or a literal quote that ends it. Windows
   * has had readers of each kind.
   */
  datatype Doubled = Toggles | Stays | Ends

  /** Reads one argument: `inQuotes` and the number of backslashes just passed decide what a quote or a blank means. Returns the argument and what follows the blank that ended it. */
  function Scan(d: Doubled, s: string, inQuotes: bool, slashes: nat, read: string): (r: (string, string))
    ensures |r.1| <= |s|
    ensures s != "" ==> |r.1| < |s|
  {
    if s == "" then (read + Slashes(slashes), "")
    else if s[0] == '\\' then Scan(d, s[1..], inQuotes, slashes + 1, read)
    else if s[0] == '"' then
      if slashes % 2 == 0 then
        if inQuotes && !d.Toggles? && |s| > 1 && s[1] == '"' then Scan(d, s[2..], d.Stays?, 0, read + Slashes(slashes / 2) + "\"")
        else Scan(d, s[1..], !inQuotes, 0, read + Slashes(slashes / 2))
      else Scan(d, s[1..], inQuotes, 0, read + Slashes(slashes / 2) + "\"")
    else if Blank(s[0]) && !inQuotes then (read + Slashes(slashes), s[1..])
    else Scan(d, s[1..], inQuotes, 0, read + Slashes(slashes) + [s[0]])
  }

  function SkipBlanks(s: string): (r: string)
    ensures |r| <= |s|
  {
    if s != "" && Blank(s[0]) then SkipBlanks(s[1..]) else s
  }

  function Parse(d: Doubled, s: string): seq<string>
    decreases |s|
  {
    var s := SkipBlanks(s);
    if s == "" then []
    else
      var (arg, rest) := Scan(d, s, false, 0, "");
      [arg] + Parse(d, rest)
  }

  /** The part of a buffer that a NUL-terminated reader sees. */
  function UpToNul(s: string): string
  {
    if s == "" || s[0] == '\0' then "" else [s[0]] + UpToNul(s[1..])
  }

  // They are inverse

  lemma SlashesAdd(m: nat, n: nat)
    ensures Slashes(m) + Slashes(n) == Slashes(m + n)
  {
    if m > 0 {
      SlashesAdd(m - 1, n);
      assert "\\" + (Slashes(m - 1) + Slashes(n)) == ("\\" + Slashes(m - 1)) + Slashes(n);
    }
  }

  lemma {:induction false} ScanSlashes(d: Doubled, n: nat, s: string, q: bool, k: nat, read: string)
    ensures Scan(d, Slashes(n) + s, q, k, read) == Scan(d, s, q, k + n, read)
  {
    if n == 0 {
      assert Slashes(0) + s == s;
    } else {
      var t := Slashes(n) + s;
      assert t[1..] == Slashes(n - 1) + s;
      ScanSlashes(d, n - 1, s, q, k + 1, read);
    }
  }

  lemma ScanOther(d: Doubled, a: string, pending: nat, rest: string, read: string)
    requires a != "" && a[0] != '\\'
    ensures Scan(d, Body(a, pending, true) + "\"" + rest, true, 0, read)
         == Scan(d, Body(a[1..], 0, true) + "\"" + rest, true, 0, read + Slashes(pending) + [a[0]])
  {
    var more := Body(a[1..], 0, true) + "\"" + rest;
    var n := if a[0] == '"' then 2 * pending + 1 else pending;
    BodyOther(a, pending);
    FourParts(Slashes(n), a[0], Body(a[1..], 0, true), "\"", rest);
    ScanSlashes(d, n, [a[0]] + more, true, 0, read);
    assert ([a[0]] + more)[1..] == more;
    if a[0] == '"' {
      ScanEscaped(d, [a[0]] + more, n, pending, read);
    } else {
      ScanChar(d, [a[0]] + more, pending, read);
    }
  }

  lemma BodyOther(a: string, pending: nat)
    requires a != "" && a[0] != '\\'
    ensures Body(a, pending, true) == Slashes(if a[0] == '"' then 2 * pending + 1 else pending) + [a[0]] + Body(a[1..], 0, true)
  {
  }

  lemma FourParts(x: string, c: char, y: string, z: string, w: string)
    ensures (x + [c] + y) + z + w == x + ([c] + (y + z + w))
  {
  }

  lemma ScanChar(d: Doubled, s: string, pending: nat, read: string)
    requires s != "" && s[0] != '\\' && s[0] != '"'
    ensures Scan(d, s, true, pending, read) == Scan(d, s[1..], true, 0, read + Slashes(pending) + [s[0]])
  {
  }

  lemma ScanEscaped(d: Doubled, s: string, slashes: nat, pending: nat, read: string)
    requires s != "" && s[0] == '"' && slashes == 2 * pending + 1
    ensures Scan(d, s, true, slashes, read) == Scan(d, s[1..], true, 0, read + Slashes(pending) + "\"")
  {
  }

  /** Inside quotes, scanning what was written for `a` reads `a` and passes the closing quote. */
  lemma {:induction false} ScanQuoted(d: Doubled, a: string, pending: nat, rest: string, read: string)
    requires rest == "" || rest[0] != '"'
    ensures Scan(d, Body(a, pending, true) + "\"" + rest, true, 0, read) == Scan(d, rest, false, 0, read + Slashes(pending) + a)
    decreases |a|
  {
    var tail := "\"" + rest;
    if a == "" {
      assert Body(a, pending, true) + "\"" + rest == Slashes(2 * pending) + tail;
      ScanSlashes(d, 2 * pending, tail, true, 0, read);
      assert tail[1..] == rest;
      assert read + Slashes(pending) + a == read + Slashes(pending);
    } else if a[0] == '\\' {
      ScanQuoted(d, a[1..], pending + 1, rest, read);
      SlashesAdd(pending, 1);
      assert Slashes(1) == "\\";
      assert read + Slashes(pending + 1) + a[1..] == read + Slashes(pending) + a;
    } else {
      var read' := read + Slashes(pending) + [a[0]];
      ScanOther(d, a, pending, rest, read);
      ScanQuoted(d, a[1..], 0, rest, read');
      assert read' + Slashes(0) + a[1..] == read + Slashes(pending) + a;
    }
  }

  predicate Plain(a: string)
  {
    forall i :: 0 <= i < |a| ==> !Blank(a[i]) && a[i] != '"'
  }

  lemma {:induction false} ScanPlain(d: Doubled, a: string, pending: nat, rest: string, read: string)
    requires Plain(a)
    requires rest == "" || Blank(rest[0])
    ensures Scan(d, Body(a, pending, false) + rest, false, 0, read) == (read + Slashes(pending) + a, if rest == "" then "" else rest[1..])
    decreases |a|
  {
    if a == "" {
      assert Body(a, pending, false) + rest == Slashes(pending) + rest;
      ScanSlashes(d, pending, rest, false, 0, read);
      assert read + Slashes(pending) + a == read + Slashes(pending);
    } else if a[0] == '\\' {
      ScanPlain(d, a[1..], pending + 1, rest, read);
      SlashesAdd(pending, 1);
      assert Slashes(1) == "\\";
      assert read + Slashes(pending + 1) + a[1..] == read + Slashes(pending) + a;
    } else {
      var more := Body(a[1..], 0, false) + rest;
      assert Body(a, pending, false) + rest == Slashes(pending) + ([a[0]] + more);
      ScanSlashes(d, pending, [a[0]] + more, false, 0, read);
      assert ([a[0]] + more)[1..] == more;
      var read' := read + Slashes(pending) + [a[0]];
      ScanPlain(d, a[1..], 0, rest, read');
      assert read' + Slashes(0) + a[1..] == read + Slashes(pending) + a;
    }
  }

  lemma {:induction false} BodyStart(a: string, pending: nat, quoted: bool)
    requires Plain(a) && (a != "" || pending > 0)
    ensures Body(a, pending, quoted) != "" && !Blank(Body(a, pending, quoted)[0])
    decreases |a|
  {
    if a != "" && a[0] == '\\' {
      BodyStart(a[1..], pending + 1, quoted);
    } else {
      var n := if a == "" && quoted then 2 * pending else pending;
      assert n > 0 ==> Slashes(n)[0] == '\\';
    }
  }

  lemma ScanEnd(d: Doubled, rest: string, read: string)
    requires rest == "" || Blank(rest[0])
    ensures Scan(d, rest, false, 0, read) == (read, if rest == "" then "" else rest[1..])
  {
    assert read + Slashes(0) == read;
  }

  lemma ScanInQuotes(d: Doubled, a: string, rest: string)
    requires rest == "" || Blank(rest[0])
    ensures Scan(d, "\"" + Body(a, 0, true) + "\"" + rest, false, 0, "") == (a, if rest == "" then "" else rest[1..])
  {
    var s := "\"" + Body(a, 0, true) + "\"" + rest;
    assert s[1..] == Body(a, 0, true) + "\"" + rest;
    assert "" + Slashes(0 / 2) == "";
    assert Scan(d, s, false, 0, "") == Scan(d, s[1..], true, 0, "");
    ScanQuoted(d, a, 0, rest, "");
    assert "" + Slashes(0) + a == a;
    ScanEnd(d, rest, a);
  }

  /** One quoted argument followed by nothing or a blank is read back whole. */
  lemma ScanQuote(d: Doubled, a: string, rest: string)
    requires rest == "" || Blank(rest[0])
    ensures Scan(d, Quote(a) + rest, false, 0, "") == (a, if rest == "" then "" else rest[1..])
    ensures Quote(a) != "" && !Blank(Quote(a)[0])
  {
    if NeedsQuote(a) {
      ScanInQuotes(d, a, rest);
    } else {
      assert "" + Slashes(0) + a == a;
      ScanPlain(d, a, 0, rest, "");
      BodyStart(a, 0, false);
    }
  }

  lemma ParseOne(d: Doubled, a: string, rest: string)
    requires rest == "" || Blank(rest[0])
    ensures Parse(d, Quote(a) + rest) == [a] + Parse(d, rest)
  {
    var q := Quote(a) + rest;
    ScanQuote(d, a, rest);
    assert q[0] == Quote(a)[0];
    assert SkipBlanks(q) == q;
    if rest != "" {
      ParseSkips(d, rest);
    }
  }

  lemma {:induction false} ParseTail(d: Doubled, args: seq<string>)
    ensures Parse(d, Tail(args)) == args
  {
    if args != [] {
      var rest := Tail(args[1..]);
      TailStarts(args[1..]);
      TailCons(args);
      ParseOne(d, args[0], rest);
      ParseTail(d, args[1..]);
      ParseSkips(d, Tail(args));
    }
  }

  lemma TailStarts(args: seq<string>)
    ensures Tail(args) == "" || Tail(args)[0] == ' '
  {
  }

  lemma TailCons(args: seq<string>)
    requires args != []
    ensures Tail(args) != "" && Tail(args)[0] == ' ' && Tail(args)[1..] == Quote(args[0]) + Tail(args[1..])
  {
    DropBlank(Quote(args[0]), Tail(args[1..]));
  }

  lemma DropBlank(q: string, rest: string)
    ensures (" " + q + rest)[0] == ' ' && (" " + q + rest)[1..] == q + rest
  {
  }

  /** A leading blank does not matter. */
  lemma ParseSkips(d: Doubled, s: string)
    requires s != "" && Blank(s[0])
    ensures Parse(d, s[1..]) == Parse(d, s)
  {
  }

  // The NUL-terminated buffer

  ghost predicate NulFree(args: seq<string>)
  {
    forall k :: 0 <= k < |args| ==> '\0' !in args[k]
  }

  lemma {:induction false} BodyNul(a: string, pending: nat, quoted: bool)
    ensures '\0' in Body(a, pending, quoted) <==> '\0' in a
    decreases |a|
  {
    if a == "" {
      SlashesNul(if quoted then 2 * pending else pending);
    } else {
      assert a == [a[0]] + a[1..];
      SlashesNul(pending);
      SlashesNul(2 * pending + 1);
      BodyNul(a[1..], if a[0] == '\\' then pending + 1 else 0, quoted);
    }
  }

  lemma {:induction false} SlashesNul(n: nat)
    ensures '\0' !in Slashes(n)
  {
    if n > 0 {
      SlashesNul(n - 1);
    }
  }

  lemma {:induction false} TailNul(args: seq<string>)
    ensures '\0' in Tail(args) <==> !NulFree(args)
  {
    if args != [] {
      BodyNul(args[0], 0, NeedsQuote(args[0]));
      TailNul(args[1..]);
      assert args == [args[0]] + args[1..];
    }
  }

  lemma {:induction false} UpToNulFacts(s: string)
    ensures '\0' !in UpToNul(s)
    ensures '\0' !in s ==> UpToNul(s) == s
  {
    if s != "" && s[0] != '\0' {
      UpToNulFacts(s[1..]);
    }
  }

  lemma {:induction false} ScanNul(d: Doubled, s: string, q: bool, k: nat, read: string)
    requires '\0' !in s && '\0' !in read
    ensures '\0' !in Scan(d, s, q, k, read).0 && '\0' !in Scan(d, s, q, k, read).1
    decreases |s|
  {
    SlashesNul(k);
    SlashesNul(k / 2);
    if s == "" {
    } else if s[0] == '\\' {
      ScanNul(d, s[1..], q, k + 1, read);
    } else if s[0] == '"' {
      if k % 2 == 0 && q && !d.Toggles? && |s| > 1 && s[1] == '"' {
        ScanNul(d, s[2..], d.Stays?, 0, read + Slashes(k / 2) + "\"");
      } else if k % 2 == 0 {
        ScanNul(d, s[1..], !q, 0, read + Slashes(k / 2));
      } else {
        ScanNul(d, s[1..], q, 0, read + Slashes(k / 2) + "\"");
      }
    } else if Blank(s[0]) && !q {
    } else {
      ScanNul(d, s[1..], q, 0, read + Slashes(k) + [s[0]]);
    }
  }

  lemma {:induction false} SkipNul(s: string)
    requires '\0' !in s
    ensures '\0' !in SkipBlanks(s)
  {
    if s != "" && Blank(s[0]) {
      SkipNul(s[1..]);
    }
  }

  lemma {:induction false} ParseNul(d: Doubled, s: string)
    requires '\0' !in s
    ensures NulFree(Parse(d, s))
    decreases |s|
  {
    SkipNul(s);
    var t := SkipBlanks(s);
    if t != "" {
      ScanNul(d, t, false, 0, "");
      ParseNul(d, Scan(d, t, false, 0, "").1);
    }
  }

  /** A process started with the joined command line gets exactly the argument list it was given, if and only if no argument contains a NUL. */
  lemma ArgumentsSurvive(d: Doubled, args: seq<string>)
    ensures Parse(d, UpToNul(Tail(args))) == args <==> NulFree(args)
  {
    TailNul(args);
    UpToNulFacts(Tail(args));
    if NulFree(args) {
      ParseTail(d, args);
    } else {
      ParseNul(d, UpToNul(Tail(args)));
    }
  }
}

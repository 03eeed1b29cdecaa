/** The dashboard's command field: printing an argument list and reading it back. */
module CommandLine {
  import opened Names

  /** The characters of the regular-expression class `\s`. */
  predicate IsSpace(c: char)
  {
    var n := c as int;
    || 0x09 <= n <= 0x0d || n == 0x20 || n == 0xa0 || n == 0x1680 || 0x2000 <= n <= 0x200a
    || n == 0x2028 || n == 0x2029 || n == 0x202f || n == 0x205f || n == 0x3000 || n == 0xfeff
  }

  predicate IsSpecial(c: char) { c == '\\' || c == '"' || c == '\'' }

  predicate HasSpace(s: string) { exists i :: 0 <= i < |s| && IsSpace(s[i]) }

  // ---------------------------------------------------------------- printing

  function ReplaceAll(s: string, c: char, into: string): string
  {
    if s == "" then "" else (if s[0] == c then into else [s[0]]) + ReplaceAll(s[1..], c, into)
  }

  function FormatArg(a: string): string
  {
    if HasSpace(a) then "\"" + ReplaceAll(ReplaceAll(a, '\\', "\\\\"), '"', "\\\"") + "\"" else a
  }

  /** Each argument formatted, joined by single spaces. */
  function Format(args: seq<string>): string
  {
    if args == [] then ""
    else if |args| == 1 then FormatArg(args[0])
    else FormatArg(args[0]) + " " + Format(args[1..])
  }

  // ---------------------------------------------------------------- reading

  datatype Reader = Reader(args: seq<string>, current: string, has: bool, quote: Option<char>, escaped: bool)

  const START := Reader([], "", false, None, false)

  function Next(r: Reader, c: char): Reader
  {
    if r.escaped then r.(current := r.current + [c], has := true, escaped := false)
    else if c == '\\' then r.(escaped := true)
    else if r.quote.Some? then
      if c == r.quote.value then r.(quote := None) else r.(current := r.current + [c])
    else if c == '"' || c == '\'' then r.(quote := Some(c), has := true)
    else if IsSpace(c) then
      if r.has then Reader(r.args + [r.current], "", false, None, false) else r
    else r.(current := r.current + [c], has := true)
  }

  function Feed(r: Reader, s: string): Reader
  {
    if s == "" then r else Next(Feed(r, s[..|s| - 1]), s[|s| - 1])
  }

  function Finish(r: Reader): seq<string>
  {
    if r.has then r.args + [r.current] else r.args
  }

  function Parse(s: string): seq<string>
  {
    Finish(Feed(START, s))
  }

  /** The character loop of `parseCommandFromInput`. */
  method ParseCommandFromInput(str: string) returns (args: seq<string>)
    ensures args == Parse(str)
  {
    args := [];
    var current := "";
    var hasCurrent := false;
    var quote: Option<char> := None;
    var escaped := false;
    for i := 0 to |str|
      invariant Reader(args, current, hasCurrent, quote, escaped) == Feed(START, str[..i])
    {
      var c := str[i];
      assert str[..i + 1][..i] == str[..i];
      if escaped {
        current := current + [c];
        hasCurrent := true;
        escaped := false;
        continue;
      }
      if c == '\\' {
        escaped := true;
        continue;
      }
      if quote.Some? {
        if c == quote.value {
          quote := None;
        } else {
          current := current + [c];
        }
        continue;
      }
      if c == '"' || c == '\'' {
        quote := Some(c);
        hasCurrent := true;
        continue;
      }
      if IsSpace(c) {
        if hasCurrent {
          args := args + [current];
          current := "";
          hasCurrent := false;
        }
        continue;
      }
      current := current + [c];
      hasCurrent := true;
    }
    assert str[..|str|] == str;
    if hasCurrent {
      args := args + [current];
    }
  }

  // ---------------------------------------------------------------- feeding piece by piece

  lemma {:induction false} FeedConcat(r: Reader, a: string, b: string)
    ensures Feed(r, a + b) == Feed(Feed(r, a), b)
  {
    if b == "" {
      assert a + b == a;
    } else {
      assert (a + b)[..|a + b| - 1] == a + b[..|b| - 1];
      FeedConcat(r, a, b[..|b| - 1]);
    }
  }

  lemma FeedOne(r: Reader, c: char)
    ensures Feed(r, [c]) == Next(r, c)
  {
    assert [c][..0] == "";
  }

  lemma FeedFirst(r: Reader, c: char, s: string)
    ensures Feed(r, [c] + s) == Feed(Next(r, c), s)
  {
    FeedConcat(r, [c], s);
    FeedOne(r, c);
  }

  /** Arguments already read do not influence the rest. */
  lemma {:induction false} FeedPrefix(r: Reader, s: string, done: seq<string>)
    ensures Feed(r.(args := done + r.args), s) == Feed(r, s).(args := done + Feed(r, s).args)
  {
    if s != "" {
      FeedPrefix(r, s[..|s| - 1], done);
      var q := Feed(r, s[..|s| - 1]);
      assert done + (q.args + [q.current]) == done + q.args + [q.current];
    }
  }

  /** Reading on from a finished argument list appends to it. */
  lemma ParseAfter(done: seq<string>, s: string)
    ensures Finish(Feed(START.(args := done), s)) == done + Parse(s)
  {
    assert done + START.args == done;
    FeedPrefix(START, s, done);
    var q := Feed(START, s);
    assert done + (q.args + [q.current]) == done + q.args + [q.current];
  }

  // ---------------------------------------------------------------- arguments that survive

  /** Quoted arguments may contain anything; unquoted ones must be non-empty and free of the reader's special characters. */
  predicate Good(a: string)
  {
    HasSpace(a) || (a != "" && forall i :: 0 <= i < |a| ==> !IsSpecial(a[i]))
  }

  function EscapeChar(c: char): string
  {
    if c == '\\' then "\\\\" else if c == '"' then "\\\"" else [c]
  }

  function Escape(a: string): string
  {
    if a == "" then "" else EscapeChar(a[0]) + Escape(a[1..])
  }

  lemma {:induction false} ReplaceConcat(a: string, b: string, c: char, into: string)
    ensures ReplaceAll(a + b, c, into) == ReplaceAll(a, c, into) + ReplaceAll(b, c, into)
  {
    if a == "" {
      assert a + b == b;
    } else {
      assert (a + b)[1..] == a[1..] + b;
      ReplaceConcat(a[1..], b, c, into);
    }
  }

  /** The two replacements in sequence escape each character once. */
  lemma {:induction false} EscapeIsReplace(a: string)
    ensures ReplaceAll(ReplaceAll(a, '\\', "\\\\"), '"', "\\\"") == Escape(a)
  {
    if a != "" {
      var head := if a[0] == '\\' then "\\\\" else [a[0]];
      ReplaceConcat(head, ReplaceAll(a[1..], '\\', "\\\\"), '"', "\\\"");
      EscapeIsReplace(a[1..]);
      OneOrTwo(a[0]);
    }
  }

  lemma OneOrTwo(c: char)
    ensures ReplaceAll(if c == '\\' then "\\\\" else [c], '"', "\\\"") == EscapeChar(c)
  {
    if c == '\\' {
      assert "\\\\"[1..] == "\\" && "\\"[1..] == "";
    } else {
      assert [c][1..] == "";
    }
  }

  lemma Regroup(x: string, a: string)
    requires a != ""
    ensures x + [a[0]] + a[1..] == x + a
  {
    assert a == [a[0]] + a[1..];
  }

  lemma FeedEscapedChar(r: Reader, c: char)
    requires !r.escaped && r.quote == Some('"') && r.has
    ensures Feed(r, EscapeChar(c)) == r.(current := r.current + [c])
  {
    if c == '\\' || c == '"' {
      assert EscapeChar(c) == ['\\'] + [c];
      FeedFirst(r, '\\', [c]);
      FeedOne(r.(escaped := true), c);
    } else {
      FeedOne(r, c);
    }
  }

  /** Inside double quotes the reader recovers every escaped character. */
  lemma {:induction false} FeedEscaped(r: Reader, a: string)
    requires !r.escaped && r.quote == Some('"') && r.has
    ensures Feed(r, Escape(a)) == r.(current := r.current + a)
    decreases a
  {
    if a == "" {
      assert r.current + a == r.current;
    } else {
      var c, rest := a[0], a[1..];
      FeedConcat(r, EscapeChar(c), Escape(rest));
      FeedEscapedChar(r, c);
      FeedEscaped(r.(current := r.current + [c]), rest);
      Regroup(r.current, a);
    }
  }

  lemma {:induction false} FeedPlain(r: Reader, a: string)
    requires !r.escaped && r.quote == None
    requires forall i :: 0 <= i < |a| ==> !IsSpecial(a[i]) && !IsSpace(a[i])
    ensures Feed(r, a) == if a == "" then r else r.(current := r.current + a, has := true)
  {
    if a != "" {
      var n := |a| - 1;
      FeedPlain(r, a[..n]);
      assert a == a[..n] + [a[n]];
      assert r.current + a[..n] + [a[n]] == r.current + a;
    }
  }

  lemma FeedGood(done: seq<string>, a: string)
    requires Good(a)
    ensures Feed(START.(args := done), FormatArg(a)) == Reader(done, a, true, None, false)
  {
    var r := START.(args := done);
    if HasSpace(a) {
      EscapeIsReplace(a);
      var open := r.(quote := Some('"'), has := true);
      assert FormatArg(a) == ['"'] + (Escape(a) + ['"']);
      FeedFirst(r, '"', Escape(a) + ['"']);
      FeedConcat(open, Escape(a), ['"']);
      FeedEscaped(open, a);
      assert "" + a == a;
      FeedOne(open.(current := a), '"');
    } else {
      FeedPlain(r, a);
      assert "" + a == a;
    }
  }

  lemma ParseGoodThen(a: string, rest: string)
    requires Good(a)
    ensures Parse(FormatArg(a) + ([' '] + rest)) == [a] + Parse(rest)
  {
    FeedConcat(START, FormatArg(a), [' '] + rest);
    assert START.(args := []) == START;
    FeedGood([], a);
    var r := Reader([], a, true, None, false);
    FeedFirst(r, ' ', rest);
    assert Next(r, ' ') == START.(args := [a]);
    ParseAfter([a], rest);
  }

  lemma ParseGoodAlone(a: string)
    requires Good(a)
    ensures Parse(FormatArg(a)) == [a]
  {
    assert START.(args := []) == START;
    FeedGood([], a);
  }

  /** A good first argument is read back, and the rest is read as if on its own. */
  lemma ParseGoodFirst(args: seq<string>)
    requires args != [] && Good(args[0])
    ensures Parse(Format(args)) == [args[0]] + Parse(Format(args[1..]))
  {
    FormatSplit(args);
    if |args| == 1 {
      ParseGoodAlone(args[0]);
      ParseNothing();
    } else {
      ParseGoodThen(args[0], Format(args[1..]));
    }
  }

  lemma ParseNothing()
    ensures Parse("") == []
  {
  }

  lemma FormatSplit(args: seq<string>)
    requires args != []
    ensures |args| == 1 ==> Format(args) == FormatArg(args[0]) && Format(args[1..]) == ""
    ensures |args| > 1 ==> Format(args) == FormatArg(args[0]) + ([' '] + Format(args[1..]))
  {
    assert FormatArg(args[0]) + " " + Format(args[1..]) == FormatArg(args[0]) + ([' '] + Format(args[1..]));
  }

  // ---------------------------------------------------------------- counting whitespace

  function Spaces(s: string): nat
  {
    if s == "" then 0 else Spaces(s[..|s| - 1]) + if IsSpace(s[|s| - 1]) then 1 else 0
  }

  lemma {:induction false} SpacesConcat(a: string, b: string)
    ensures Spaces(a + b) == Spaces(a) + Spaces(b)
  {
    if b == "" {
      assert a + b == a;
    } else {
      assert (a + b)[..|a + b| - 1] == a + b[..|b| - 1];
      SpacesConcat(a, b[..|b| - 1]);
    }
  }

  lemma SpacesOne(c: char)
    ensures Spaces([c]) == if IsSpace(c) then 1 else 0
  {
    assert [c][..0] == "";
  }

  /** Whitespace inside a list of arguments. */
  function Inner(args: seq<string>): nat
  {
    if args == [] then 0 else Inner(args[..|args| - 1]) + Spaces(args[|args| - 1])
  }

  lemma {:induction false} InnerConcat(a: seq<string>, b: seq<string>)
    ensures Inner(a + b) == Inner(a) + Inner(b)
  {
    if b == [] {
      assert a + b == a;
    } else {
      assert (a + b)[..|a + b| - 1] == a + b[..|b| - 1];
      InnerConcat(a, b[..|b| - 1]);
    }
  }

  lemma InnerOne(a: string)
    ensures Inner([a]) == Spaces(a)
  {
    assert [a][..0] == [];
  }

  /** The spaces the reader's output accounts for: those inside arguments and one per finished argument. */
  function Spent(r: Reader): nat
  {
    Inner(r.args) + |r.args| + Spaces(r.current)
  }

  lemma FinishSpent(r: Reader)
    ensures Inner(r.args + [r.current]) + |r.args + [r.current]| == Spent(r) + 1
  {
    InnerConcat(r.args, [r.current]);
    InnerOne(r.current);
  }

  /** A character accounts for at most one space, and only if it is one. */
  lemma SpentNext(r: Reader, c: char)
    ensures Spent(Next(r, c)) <= Spent(r) + Spaces([c])
  {
    SpacesConcat(r.current, [c]);
    SpacesOne(c);
    FinishSpent(r);
  }

  lemma {:induction false} SpacesPay(s: string)
    ensures Spent(Feed(START, s)) <= Spaces(s)
  {
    if s != "" {
      var n := |s| - 1;
      SpacesPay(s[..n]);
      SpentNext(Feed(START, s[..n]), s[n]);
      SpacesOne(s[n]);
    }
  }

  lemma ParsePays(s: string)
    ensures Inner(Parse(s)) + |Parse(s)| <= Spaces(s) + 1
  {
    SpacesPay(s);
    FinishSpent(Feed(START, s));
  }

  lemma {:induction false} SpacesOfEscape(a: string)
    ensures Spaces(Escape(a)) == Spaces(a)
  {
    if a != "" {
      SpacesOfEscape(a[1..]);
      SpacesConcat(EscapeChar(a[0]), Escape(a[1..]));
      SpacesConcat([a[0]], a[1..]);
      assert a == [a[0]] + a[1..];
      SpacesOfEscapeChar(a[0]);
    }
  }

  lemma SpacesOfEscapeChar(c: char)
    ensures Spaces(EscapeChar(c)) == Spaces([c])
  {
    if c == '\\' || c == '"' {
      assert EscapeChar(c) == ['\\'] + [c];
      SpacesConcat(['\\'], [c]);
      SpacesOne('\\');
    }
  }

  lemma SpacesOfFormatArg(a: string)
    ensures Spaces(FormatArg(a)) == Spaces(a)
  {
    if HasSpace(a) {
      EscapeIsReplace(a);
      assert FormatArg(a) == ['"'] + Escape(a) + ['"'];
      SpacesConcat(['"'] + Escape(a), ['"']);
      SpacesConcat(['"'], Escape(a));
      SpacesOne('"');
      SpacesOfEscape(a);
    }
  }

  lemma {:induction false} SpacesOfFormat(args: seq<string>)
    requires args != []
    ensures Spaces(Format(args)) == Inner(args) + |args| - 1
    decreases |args|
  {
    SpacesOfFormatArg(args[0]);
    InnerOne(args[0]);
    if |args| == 1 {
      assert args == [args[0]];
    } else {
      SpacesOfFormat(args[1..]);
      SpacesConcat(FormatArg(args[0]) + [' '], Format(args[1..]));
      SpacesConcat(FormatArg(args[0]), [' ']);
      SpacesOne(' ');
      InnerConcat([args[0]], args[1..]);
      assert args == [args[0]] + args[1..];
    }
  }

  /** A printed list is never read back as itself with an empty argument in front: there are not enough spaces. */
  lemma NoExtraArgument(args: seq<string>)
    ensures Parse(Format(args)) != [""] + args
  {
    if args != [] {
      SpacesOfFormat(args);
      ParsePays(Format(args));
      InnerConcat([""], args);
      InnerOne("");
    }
  }

  // ---------------------------------------------------------------- arguments that do not survive

  predicate SpaceFree(s: string) { forall i :: 0 <= i < |s| ==> !IsSpace(s[i]) }

  /** Without spaces in the input no argument is completed, and no more characters come out than go in. */
  lemma {:induction false} FeedSpaceFree(r: Reader, s: string)
    requires SpaceFree(s)
    requires r.quote.Some? ==> r.has && IsSpecial(r.quote.value)
    ensures var q := Feed(r, s);
      && q.args == r.args && |q.current| <= |r.current| + |s|
      && (q.quote.Some? ==> q.has && IsSpecial(q.quote.value))
      && (s != "" ==> q.has || q.escaped)
  {
    if s != "" {
      var n := |s| - 1;
      FeedSpaceFree(r, s[..n]);
    }
  }

  /** An unquoted argument with a special character loses at least one character. */
  lemma FeedSpecialShrinks(w: string)
    requires SpaceFree(w) && exists i :: 0 <= i < |w| && IsSpecial(w[i])
    ensures |Feed(START, w).current| < |w|
  {
    var p := FirstSpecial(w);
    assert w == w[..p] + ([w[p]] + w[p + 1..]);
    SpecialIsDropped(w[..p], w[p], w[p + 1..]);
  }

  lemma SpecialIsDropped(plain: string, c: char, rest: string)
    requires SpaceFree(plain) && SpaceFree(rest) && IsSpecial(c)
    requires forall i :: 0 <= i < |plain| ==> !IsSpecial(plain[i])
    ensures |Feed(START, plain + ([c] + rest)).current| <= |plain| + |rest|
  {
    FeedConcat(START, plain, [c] + rest);
    FeedPlain(START, plain);
    var r := Feed(START, plain);
    assert |r.current| == |plain|;
    FeedFirst(r, c, rest);
    FeedSpaceFree(Next(r, c), rest);
  }

  lemma {:induction false} FirstSpecial(w: string) returns (p: nat)
    requires exists i :: 0 <= i < |w| && IsSpecial(w[i])
    ensures p < |w| && IsSpecial(w[p]) && forall i :: 0 <= i < p ==> !IsSpecial(w[i])
  {
    if IsSpecial(w[0]) {
      p := 0;
    } else {
      var i :| 0 <= i < |w| && IsSpecial(w[i]);
      assert IsSpecial(w[1..][i - 1]);
      var q := FirstSpecial(w[1..]);
      p := q + 1;
    }
  }

  /** What the reader holds stays at the front of the first argument it will complete. */
  lemma {:induction false} HeldIsPrefix(r: Reader, s: string)
    requires r.args == [] && r.has
    ensures var q := Feed(r, s);
      if q.args == [] then q.has && r.current <= q.current else r.current <= q.args[0]
  {
    if s != "" {
      HeldIsPrefix(r, s[..|s| - 1]);
    }
  }

  lemma FirstHeld(r: Reader, s: string)
    requires r.args == [] && r.has
    ensures var out := Finish(Feed(r, s)); out != [] && r.current <= out[0]
  {
    HeldIsPrefix(r, s);
  }

  lemma BadFirstAlone(w: string)
    requires !HasSpace(w) && !Good(w)
    ensures Parse(w) != [w]
  {
    if w != "" {
      FeedSpaceFree(START, w);
      FeedSpecialShrinks(w);
      var r := Feed(START, w);
      assert r.args == [] && r.current != w;
      assert Finish(r) == if r.has then [r.current] else [];
    }
  }

  /** The reader stops at a space without holding `w`; what it completes first is not `w`. */
  lemma AfterShort(r: Reader, w: string, rest: string)
    requires r.args == [] && |r.current| < |w| && !HasSpace(w)
    requires (r.quote.Some? ==> r.has && IsSpecial(r.quote.value)) && (r.has || r.escaped)
    ensures var out := Finish(Feed(Next(r, ' '), rest)); out == [] || out[0] != w
  {
    var q := Next(r, ' ');
    if r.escaped || r.quote.Some? {
      assert q.args == [] && q.has && q.current == r.current + [' '];
      FirstHeld(q, rest);
      SpaceInside(w, r.current, Finish(Feed(q, rest))[0]);
    } else {
      assert q == START.(args := [] + [r.current]);
      ParseAfter([] + [r.current], rest);
    }
  }

  /** A bad non-empty argument in front is not read back, whatever follows. */
  lemma BadFirst(w: string, rest: string)
    requires w != "" && !HasSpace(w) && !Good(w)
    ensures var out := Parse(w + " " + rest); out == [] || out[0] != w
  {
    FeedSpaceFree(START, w);
    FeedSpecialShrinks(w);
    assert w + " " + rest == w + ([' '] + rest);
    FeedConcat(START, w, [' '] + rest);
    FeedFirst(Feed(START, w), ' ', rest);
    AfterShort(Feed(START, w), w, rest);
  }

  lemma SpaceInside(w: string, held: string, out: string)
    requires !HasSpace(w) && held + [' '] <= out
    ensures out != w
  {
    assert out[|held|] == ' ';
  }

  // ---------------------------------------------------------------- the round trip

  /** Printing and reading back returns the same list if and only if every argument contains whitespace, or is non-empty
      and free of backslashes and quotes. */
  lemma {:induction false} RoundTrip(args: seq<string>)
    ensures Parse(Format(args)) == args <==> forall i :: 0 <= i < |args| ==> Good(args[i])
    decreases |args|
  {
    if args == [] {
      assert Parse("") == [];
    } else if Good(args[0]) {
      ParseGoodFirst(args);
      RoundTrip(args[1..]);
      assert args == [args[0]] + args[1..];
      assert Parse(Format(args)) == args <==> Parse(Format(args[1..])) == args[1..];
      assert forall i :: 1 <= i < |args| ==> args[i] == args[1..][i - 1];
    } else {
      BadFirstFails(args);
    }
  }

  lemma BadFirstFails(args: seq<string>)
    requires args != [] && !Good(args[0])
    ensures Parse(Format(args)) != args
  {
    var w := args[0];
    if |args| == 1 {
      BadFirstAlone(w);
      assert args == [w];
    } else if w == "" {
      FormatSplit(args);
      EmptyIsSkipped(Format(args[1..]));
      NoExtraArgument(args[1..]);
      assert args == [""] + args[1..];
    } else {
      BadFirst(w, Format(args[1..]));
    }
  }

  lemma EmptyIsSkipped(rest: string)
    ensures Parse("" + ([' '] + rest)) == Parse(rest)
  {
    assert "" + ([' '] + rest) == [' '] + rest;
    FeedFirst(START, ' ', rest);
  }
}

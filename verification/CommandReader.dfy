/** What the command field reads, for any line a user may type, and what it prints. */
module CommandReader {
  import opened Names
  import opened CommandLine

  /** A character between quotes: as it is, or after a backslash. */
  datatype Unit = Lit(c: char) | Esc(c: char)

  /** A part of an argument: a bare character, a character after a backslash, or a quoted stretch. */
  datatype Piece = Bare(c: char) | Escaped(c: char) | Quoted(mark: char, units: seq<Unit>)

  /** An argument and the whitespace after it. */
  datatype Item = Item(pieces: seq<Piece>, gap: string)

  predicate UnitOk(mark: char, u: Unit)
  {
    u.Lit? ==> u.c != mark && u.c != '\\'
  }

  predicate PieceOk(p: Piece)
  {
    match p
    case Bare(c) => !IsSpace(c) && c != '\\' && c != '"' && c != '\''
    case Escaped(_) => true
    case Quoted(mark, units) => (mark == '"' || mark == '\'') && forall i :: 0 <= i < |units| ==> UnitOk(mark, units[i])
  }

  predicate AllSpace(s: string) { forall i :: 0 <= i < |s| ==> IsSpace(s[i]) }

  predicate ItemOk(it: Item)
  {
    it.pieces != [] && (forall i :: 0 <= i < |it.pieces| ==> PieceOk(it.pieces[i])) && AllSpace(it.gap)
  }

  /** Arguments are separated: only the last gap may be empty. */
  predicate LineOk(items: seq<Item>)
  {
    forall i :: 0 <= i < |items| ==> ItemOk(items[i]) && (i < |items| - 1 ==> items[i].gap != "")
  }

  function UnitText(u: Unit): string
  {
    if u.Lit? then [u.c] else ['\\', u.c]
  }

  function UnitsText(us: seq<Unit>): string
  {
    if us == [] then "" else UnitText(us[0]) + UnitsText(us[1..])
  }

  function UnitsValue(us: seq<Unit>): string
  {
    if us == [] then "" else [us[0].c] + UnitsValue(us[1..])
  }

  function PieceText(p: Piece): string
  {
    match p
    case Bare(c) => [c]
    case Escaped(c) => ['\\', c]
    case Quoted(mark, units) => [mark] + (UnitsText(units) + [mark])
  }

  function PieceValue(p: Piece): string
  {
    match p
    case Bare(c) => [c]
    case Escaped(c) => [c]
    case Quoted(_, units) => UnitsValue(units)
  }

  function PiecesText(ps: seq<Piece>): string
  {
    if ps == [] then "" else PieceText(ps[0]) + PiecesText(ps[1..])
  }

  function PiecesValue(ps: seq<Piece>): string
  {
    if ps == [] then "" else PieceValue(ps[0]) + PiecesValue(ps[1..])
  }

  function LineText(items: seq<Item>): string
  {
    if items == [] then "" else PiecesText(items[0].pieces) + (items[0].gap + LineText(items[1..]))
  }

  function LineValue(items: seq<Item>): seq<string>
  {
    if items == [] then [] else [PiecesValue(items[0].pieces)] + LineValue(items[1..])
  }

  lemma FeedTwo(r: Reader, c: char)
    requires !r.escaped
    ensures Feed(r, ['\\', c]) == r.(current := r.current + [c], has := true)
  {
    assert ['\\', c] == ['\\'] + [c];
    FeedFirst(r, '\\', [c]);
    FeedOne(Next(r, '\\'), c);
  }

  lemma Appended(x: string, a: string, b: string)
    ensures x + a + b == x + (a + b)
  {
  }

  lemma {:induction false} FeedUnits(r: Reader, mark: char, us: seq<Unit>)
    requires !r.escaped && r.quote == Some(mark) && r.has
    requires forall i :: 0 <= i < |us| ==> UnitOk(mark, us[i])
    ensures Feed(r, UnitsText(us)) == r.(current := r.current + UnitsValue(us))
    decreases |us|
  {
    if us == [] {
      assert r.current + "" == r.current;
    } else {
      FeedUnit(r, mark, us[0]);
      var next := r.(current := r.current + [us[0].c]);
      FeedConcat(r, UnitText(us[0]), UnitsText(us[1..]));
      FeedUnits(next, mark, us[1..]);
      Appended(r.current, [us[0].c], UnitsValue(us[1..]));
    }
  }

  lemma FeedUnit(r: Reader, mark: char, u: Unit)
    requires !r.escaped && r.quote == Some(mark) && r.has && UnitOk(mark, u)
    ensures Feed(r, UnitText(u)) == r.(current := r.current + [u.c])
  {
    if u.Lit? {
      FeedOne(r, u.c);
    } else {
      FeedTwo(r, u.c);
    }
  }

  /** A part of an argument is added to it, whatever came before. */
  lemma FeedPiece(r: Reader, p: Piece)
    requires !r.escaped && r.quote == None && PieceOk(p)
    ensures Feed(r, PieceText(p)) == r.(current := r.current + PieceValue(p), has := true)
  {
    match p
    case Bare(c) => FeedOne(r, c);
    case Escaped(c) => FeedTwo(r, c);
    case Quoted(mark, units) => FeedQuoted(r, mark, units);
  }

  lemma FeedQuoted(r: Reader, mark: char, us: seq<Unit>)
    requires !r.escaped && r.quote == None && PieceOk(Quoted(mark, us))
    ensures Feed(r, [mark] + (UnitsText(us) + [mark])) == r.(current := r.current + UnitsValue(us), has := true)
  {
    var open := r.(quote := Some(mark), has := true);
    assert Next(r, mark) == open;
    FeedFirst(r, mark, UnitsText(us) + [mark]);
    FeedConcat(open, UnitsText(us), [mark]);
    FeedUnits(open, mark, us);
    FeedOne(Feed(open, UnitsText(us)), mark);
  }

  lemma {:induction false} FeedPieces(r: Reader, ps: seq<Piece>)
    requires !r.escaped && r.quote == None && forall i :: 0 <= i < |ps| ==> PieceOk(ps[i])
    ensures Feed(r, PiecesText(ps)) == r.(current := r.current + PiecesValue(ps), has := r.has || ps != [])
    decreases |ps|
  {
    if ps == [] {
      assert r.current + "" == r.current;
    } else {
      FeedPiece(r, ps[0]);
      FeedConcat(r, PieceText(ps[0]), PiecesText(ps[1..]));
      FeedPieces(r.(current := r.current + PieceValue(ps[0]), has := true), ps[1..]);
      Appended(r.current, PieceValue(ps[0]), PiecesValue(ps[1..]));
    }
  }

  /** Whitespace ends an argument that was begun. */
  lemma {:induction false} FeedGap(r: Reader, gap: string)
    requires !r.escaped && r.quote == None && AllSpace(gap) && (r.has || r.current == "")
    ensures Feed(r, gap) == if gap == "" || !r.has then r else Reader(r.args + [r.current], "", false, None, false)
  {
    if gap != "" {
      FeedGap(r, gap[..|gap| - 1]);
    }
  }

  /** At rest: no argument begun. */
  predicate Resting(r: Reader)
  {
    !r.escaped && r.quote == None && !r.has && r.current == ""
  }

  lemma FeedItem(r: Reader, it: Item)
    requires Resting(r) && ItemOk(it)
    ensures Feed(r, PiecesText(it.pieces) + it.gap) ==
      if it.gap == "" then r.(current := PiecesValue(it.pieces), has := true)
      else Reader(r.args + [PiecesValue(it.pieces)], "", false, None, false)
  {
    FeedConcat(r, PiecesText(it.pieces), it.gap);
    FeedPieces(r, it.pieces);
    assert r.current + PiecesValue(it.pieces) == PiecesValue(it.pieces);
    FeedGap(r.(current := PiecesValue(it.pieces), has := true), it.gap);
  }

  lemma LineFirst(items: seq<Item>)
    requires items != []
    ensures LineText(items) == PiecesText(items[0].pieces) + items[0].gap + LineText(items[1..])
  {
  }

  function After(r: Reader, it: Item): Reader
  {
    if it.gap == "" then r.(current := PiecesValue(it.pieces), has := true)
    else Reader(r.args + [PiecesValue(it.pieces)], "", false, None, false)
  }

  lemma FeedLineFirst(r: Reader, items: seq<Item>)
    requires Resting(r) && LineOk(items) && items != []
    ensures Feed(r, LineText(items)) == Feed(After(r, items[0]), LineText(items[1..]))
    ensures LineOk(items[1..]) && (items[0].gap == "" ==> items[1..] == [])
  {
    LineFirst(items);
    FeedConcat(r, PiecesText(items[0].pieces) + items[0].gap, LineText(items[1..]));
    FeedItem(r, items[0]);
  }

  lemma {:induction false} FeedLine(r: Reader, items: seq<Item>)
    requires Resting(r) && LineOk(items)
    ensures Finish(Feed(r, LineText(items))) == r.args + LineValue(items)
    ensures items == [] || items[|items| - 1].gap != "" ==>
      Feed(r, LineText(items)) == Reader(r.args + LineValue(items), "", false, None, false)
    ensures !Feed(r, LineText(items)).escaped
    decreases |items|
  {
    if items == [] {
      assert r.args + LineValue(items) == r.args;
    } else {
      FeedLineFirst(r, items);
      var it, rest := items[0], items[1..];
      if it.gap == "" {
        assert LineValue(items) == [PiecesValue(it.pieces)] + [];
        assert Feed(After(r, it), LineText(rest)) == After(r, it);
      } else {
        FeedLine(After(r, it), rest);
        Chained(r.args, PiecesValue(it.pieces), LineValue(rest));
      }
    }
  }

  lemma Chained(a: seq<string>, x: string, b: seq<string>)
    ensures a + [x] + b == a + ([x] + b)
  {
  }

  /** Every line of arguments, made of bare characters, backslashed characters and stretches in either kind of quotes,
      separated and surrounded by any whitespace, is read as exactly those arguments. */
  lemma LineReads(lead: string, items: seq<Item>)
    requires AllSpace(lead) && LineOk(items)
    ensures Parse(lead + LineText(items)) == LineValue(items)
  {
    LeadSkipped(lead, LineText(items));
    FeedLine(START, items);
    NothingBefore(LineValue(items));
  }

  /** Whitespace before the first argument is skipped. */
  lemma LeadSkipped(lead: string, s: string)
    requires AllSpace(lead)
    ensures Feed(START, lead + s) == Feed(START, s)
  {
    FeedConcat(START, lead, s);
    FeedGap(START, lead);
  }

  lemma NothingBefore(args: seq<string>)
    ensures [] + args == args
  {
  }

  /** After a line that ends in whitespace the reader is at rest, with the arguments read. */
  lemma AfterLine(lead: string, items: seq<Item>)
    requires AllSpace(lead) && LineOk(items) && (items != [] ==> items[|items| - 1].gap != "")
    ensures Feed(START, lead + LineText(items)) == Reader(LineValue(items), "", false, None, false)
  {
    LeadSkipped(lead, LineText(items));
    FeedLine(START, items);
    NothingBefore(LineValue(items));
  }

  lemma FeedOpenQuote(r: Reader, mark: char, us: seq<Unit>)
    requires !r.escaped && r.quote == None && PieceOk(Quoted(mark, us))
    ensures Feed(r, [mark] + UnitsText(us)) == r.(current := r.current + UnitsValue(us), has := true, quote := Some(mark))
  {
    FeedFirst(r, mark, UnitsText(us));
    FeedUnits(r.(quote := Some(mark), has := true), mark, us);
  }

  lemma FeedOpenArgument(r: Reader, pieces: seq<Piece>, mark: char, us: seq<Unit>)
    requires Resting(r) && (forall i :: 0 <= i < |pieces| ==> PieceOk(pieces[i])) && PieceOk(Quoted(mark, us))
    ensures Finish(Feed(r, PiecesText(pieces) + ([mark] + UnitsText(us)))) == r.args + [PiecesValue(pieces) + UnitsValue(us)]
  {
    FeedConcat(r, PiecesText(pieces), [mark] + UnitsText(us));
    FeedPieces(r, pieces);
    assert r.current + PiecesValue(pieces) == PiecesValue(pieces);
    FeedOpenQuote(Feed(r, PiecesText(pieces)), mark, us);
  }

  /** A quote that is never closed runs to the end of the line. */
  lemma OpenQuoteReads(lead: string, items: seq<Item>, pieces: seq<Piece>, mark: char, us: seq<Unit>)
    requires AllSpace(lead) && LineOk(items) && (items != [] ==> items[|items| - 1].gap != "")
    requires (forall i :: 0 <= i < |pieces| ==> PieceOk(pieces[i])) && PieceOk(Quoted(mark, us))
    ensures Parse(lead + LineText(items) + (PiecesText(pieces) + ([mark] + UnitsText(us)))) ==
      LineValue(items) + [PiecesValue(pieces) + UnitsValue(us)]
  {
    AfterLine(lead, items);
    FeedConcat(START, lead + LineText(items), PiecesText(pieces) + ([mark] + UnitsText(us)));
    FeedOpenArgument(Reader(LineValue(items), "", false, None, false), pieces, mark, us);
  }

  /** A backslash at the very end is dropped. */
  lemma FinalBackslash(lead: string, items: seq<Item>)
    requires AllSpace(lead) && LineOk(items)
    ensures Parse(lead + LineText(items) + ['\\']) == LineValue(items)
  {
    var s := lead + LineText(items);
    LineReads(lead, items);
    FeedConcat(START, s, ['\\']);
    FeedOne(Feed(START, s), '\\');
    LineEndsOutside(lead, items);
  }

  lemma LineEndsOutside(lead: string, items: seq<Item>)
    requires AllSpace(lead) && LineOk(items)
    ensures !Feed(START, lead + LineText(items)).escaped
  {
    LeadSkipped(lead, LineText(items));
    FeedLine(START, items);
  }

  // ---------------------------------------------------------------- special cases, on the text itself

  function Lits(a: string): (us: seq<Unit>)
    ensures |us| == |a| && forall i :: 0 <= i < |a| ==> us[i] == Lit(a[i])
  {
    seq(|a|, i requires 0 <= i < |a| => Lit(a[i]))
  }

  lemma {:induction false} LitsText(a: string)
    ensures UnitsText(Lits(a)) == a && UnitsValue(Lits(a)) == a
  {
    if a != "" {
      LitsText(a[1..]);
      assert Lits(a)[1..] == Lits(a[1..]);
    }
  }

  /** Text between quotes of either kind is one argument, with the other kind of quotes and whitespace as they are. */
  lemma QuotedReads(q: char, a: string)
    requires q == '"' || q == '\''
    requires forall i :: 0 <= i < |a| ==> a[i] != q && a[i] != '\\'
    ensures Parse([q] + (a + [q])) == [a]
  {
    var p := Quoted(q, Lits(a));
    LitsText(a);
    OneArgument([p]);
    assert PieceText(p) + "" == PieceText(p) && PieceValue(p) + "" == PieceValue(p);
  }

  lemma OneArgument(pieces: seq<Piece>)
    requires pieces != [] && forall i :: 0 <= i < |pieces| ==> PieceOk(pieces[i])
    ensures Parse(PiecesText(pieces)) == [PiecesValue(pieces)]
  {
    var items := [Item(pieces, "")];
    LineReads("", items);
    assert items[1..] == [];
    assert "" + LineText(items) == PiecesText(pieces);
  }

  function Backslashed(a: string): string
  {
    if a == "" then "" else ['\\', a[0]] + Backslashed(a[1..])
  }

  function AllEscaped(a: string): (ps: seq<Piece>)
    ensures |ps| == |a| && forall i :: 0 <= i < |a| ==> ps[i] == Escaped(a[i])
  {
    seq(|a|, i requires 0 <= i < |a| => Escaped(a[i]))
  }

  lemma {:induction false} AllEscapedText(a: string)
    ensures PiecesText(AllEscaped(a)) == Backslashed(a) && PiecesValue(AllEscaped(a)) == a
  {
    if a != "" {
      AllEscapedText(a[1..]);
      assert AllEscaped(a)[1..] == AllEscaped(a[1..]);
    }
  }

  /** With a backslash before every character, any text is one argument. */
  lemma BackslashedReads(a: string)
    requires a != ""
    ensures Parse(Backslashed(a)) == [a]
  {
    AllEscapedText(a);
    OneArgument(AllEscaped(a));
  }

  /** The characters that separate arguments. */
  lemma SeparatorsAre(x: char, c: char, y: char)
    requires PieceOk(Bare(x)) && PieceOk(Bare(y)) && c != '\\' && c != '"' && c != '\''
    ensures Parse([x, c, y]) ==
      if c as int in {0x09, 0x0a, 0x0b, 0x0c, 0x0d, 0x20, 0xa0, 0x1680, 0x2000, 0x2001, 0x2002, 0x2003, 0x2004, 0x2005, 0x2006,
                      0x2007, 0x2008, 0x2009, 0x200a, 0x2028, 0x2029, 0x202f, 0x205f, 0x3000, 0xfeff}
      then [[x], [y]] else [[x, c, y]]
  {
    assert [x, c, y] == [x] + ([c] + [y]);
    FeedFirst(START, x, [c] + [y]);
    FeedFirst(Next(START, x), c, [y]);
    FeedOne(Next(Next(START, x), c), y);
    var first := Reader([], [x], true, None, false);
    assert Next(START, x) == first;
    if IsSpace(c) {
      var second := Reader([[x]], "", false, None, false);
      assert Next(first, c) == second;
      assert Next(second, y) == Reader([[x]], [y], true, None, false);
      assert [[x]] + [[y]] == [[x], [y]];
    } else {
      assert Next(first, c) == Reader([], [x] + [c], true, None, false);
      assert [x] + [c] + [y] == [x, c, y];
      assert Next(Next(first, c), y) == Reader([], [x, c, y], true, None, false);
    }
  }

  /** Printing on the text: arguments are joined by single spaces; one without whitespace is printed as it is, one with
      whitespace between double quotes, with a backslash before every backslash and double quote. */
  lemma {:induction false} FormatMeans(args: seq<string>, a: string)
    ensures Format([]) == "" && Format([a]) == FormatArg(a)
    ensures args != [] ==> Format(args + [a]) == Format(args) + " " + FormatArg(a)
    ensures HasSpace(a) ==> FormatArg(a) == "\"" + Escape(a) + "\""
    ensures !HasSpace(a) ==> FormatArg(a) == a
  {
    EscapeIsReplace(a);
    if |args| > 1 {
      FormatMeans(args[1..], a);
      assert (args + [a])[1..] == args[1..] + [a];
      JoinedAgain(FormatArg(args[0]), Format(args[1..]), FormatArg(a));
    } else if |args| == 1 {
      assert (args + [a])[1..] == [a];
    }
  }

  lemma JoinedAgain(x: string, y: string, z: string)
    ensures x + " " + (y + " " + z) == x + " " + y + " " + z
  {
  }
}

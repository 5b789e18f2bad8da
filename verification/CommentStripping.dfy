/** Blanking comments of C-like sources in place, so that every other character keeps its offset. */
module CommentStripping {

  datatype State = Code | LineComment | BlockComment | Literal(quote: char, escaped: bool)

  predicate Opens(s: string) {
    |s| > 1 && s[0] == '/' && (s[1] == '/' || s[1] == '*')
  }

  predicate Closes(s: string) {
    |s| > 1 && s[0] == '*' && s[1] == '/'
  }

  /** How many characters the lexer takes at once. */
  function Step(s: string, st: State): (n: nat)
    requires s != []
    ensures 0 < n <= |s|
  {
    if (st.Code? && Opens(s)) || (st.BlockComment? && Closes(s)) then 2 else 1
  }

  /** The state after that step. */
  function After(s: string, st: State): State
    requires s != []
  {
    match st
    case Code =>
      if Opens(s) then if s[1] == '/' then LineComment else BlockComment
      else if s[0] == '"' || s[0] == '\'' || s[0] == '`' then Literal(s[0], false)
      else Code
    case LineComment => if s[0] == '\n' then Code else LineComment
    case BlockComment => if Closes(s) then Code else BlockComment
    case Literal(quote, escaped) =>
      if escaped then Literal(quote, false)
      else if s[0] == '\\' then Literal(quote, true)
      else if s[0] == quote then Code
      else st
  }

  /** What the step leaves behind: blanks for comment text, everything else as it was. */
  function Left(s: string, st: State): (r: string)
    requires s != []
    ensures |r| == Step(s, st)
  {
    if Step(s, st) == 2 then "  "
    else if (st.LineComment? || st.BlockComment?) && s[0] != '\n' then " "
    else [s[0]]
  }

  function Strip(s: string, st: State): (r: string)
    ensures |r| == |s|
    decreases |s|
  {
    if s == [] then [] else Left(s, st) + Strip(s[Step(s, st)..], After(s, st))
  }

  // ---- Properties ----

  /** Line numbers and offsets survive: newlines stay where they are, and other characters are kept or blanked. */
  lemma {:induction false} NewlinesStay(s: string, st: State, i: nat)
    requires i < |s|
    ensures Strip(s, st)[i] == '\n' <==> s[i] == '\n'
    ensures Strip(s, st)[i] == s[i] || Strip(s, st)[i] == ' '
    decreases |s|
  {
    var n := Step(s, st);
    if i >= n { NewlinesStay(s[n..], After(s, st), i - n); }
  }

  /** The state in which stripped text reads as the original did: comments are gone. */
  function Settled(st: State): State {
    if st.LineComment? || st.BlockComment? then Code else st
  }

  lemma HeadKeptOrBlank(s: string, st: State)
    requires s != []
    ensures Strip(s, st)[0] == s[0] || Strip(s, st)[0] == ' '
  {
  }

  /** Stripping stripped text, one character, leaves it alone and comes to the settled state. */
  lemma StepSettles(s: string, st: State)
    requires s != []
    ensures var t := Strip(s, st);
      && Step(t, Settled(st)) == 1 && Left(t, Settled(st)) == t[..1]
      && (Step(s, st) == 1 ==> After(t, Settled(st)) == Settled(After(s, st)))
      && (Step(s, st) == 2 ==> After(t, Settled(st)) == Code)
  {
    var n := Step(s, st);
    var t := Strip(s, st);
    assert t[0] == Left(s, st)[0];
    if n == 1 && |s| > 1 {
      HeadKeptOrBlank(s[1..], After(s, st));
      assert t[1] == Strip(s[1..], After(s, st))[0];
    }
  }

  /** Stripping again changes nothing. */
  lemma {:induction false} StripIdempotent(s: string, st: State)
    ensures Strip(Strip(s, st), Settled(st)) == Strip(s, st)
    decreases |s|
  {
    if s != [] {
      var n := Step(s, st);
      StepSettles(s, st);
      StripIdempotent(s[n..], After(s, st));
      if n == 1 { OneSettles(s, st); } else { TwoSettle(s, st); }
    }
  }

  lemma OneSettles(s: string, st: State)
    requires s != [] && Step(s, st) == 1
    requires var rest := Strip(s[1..], After(s, st)); Strip(rest, Settled(After(s, st))) == rest
    requires var t := Strip(s, st);
      Step(t, Settled(st)) == 1 && Left(t, Settled(st)) == t[..1] && After(t, Settled(st)) == Settled(After(s, st))
    ensures Strip(Strip(s, st), Settled(st)) == Strip(s, st)
  {
    var t, rest := Strip(s, st), Strip(s[1..], After(s, st));
    assert t == Left(s, st) + rest && t[1..] == rest;
    hide Step, After, Left, Settled;
    assert Strip(t, Settled(st)) == t[..1] + Strip(t[1..], After(t, Settled(st)));
  }

  lemma TwoSettle(s: string, st: State)
    requires s != [] && Step(s, st) == 2
    requires var rest := Strip(s[2..], After(s, st)); Strip(rest, Settled(After(s, st))) == rest
    ensures Strip(Strip(s, st), Settled(st)) == Strip(s, st)
  {
    TwoBlanks(s, st);
    TwoBlanksFirst(Strip(s[2..], After(s, st)));
    hide Strip, Settled, After, Step;
  }

  lemma TwoBlanksFirst(rest: string)
    ensures Strip("  " + rest, Code) == "  " + Strip(rest, Code)
  {
    var x := " " + rest;
    BlankFirst(x);
    BlankFirst(rest);
    hide Strip;
    assert "  " + rest == " " + x;
  }

  lemma TwoBlanks(s: string, st: State)
    requires s != [] && Step(s, st) == 2
    ensures Strip(s, st) == "  " + Strip(s[2..], After(s, st)) && Settled(After(s, st)) == Code && Settled(st) == Code
  {
  }

  lemma BlankFirst(s: string)
    ensures Strip(" " + s, Code) == " " + Strip(s, Code)
  {
    assert (" " + s)[1..] == s;
  }

  /** No comment starts anywhere in code: lexing meets no opener outside literals. */
  predicate NoOpener(s: string, st: State)
    decreases |s|
  {
    s == [] || (!st.LineComment? && !st.BlockComment? && !(st.Code? && Opens(s)) && NoOpener(s[1..], After(s, st)))
  }

  lemma {:induction false} NothingOpens(s: string, st: State)
    ensures NoOpener(Strip(s, st), Settled(st))
    decreases |s|
  {
    if s != [] {
      var n, t := Step(s, st), Strip(s, st);
      StepSettles(s, st);
      NothingOpens(s[n..], After(s, st));
      assert t[n..] == Strip(s[n..], After(s, st));
      if n == 2 {
        assert t == "  " + t[2..] && t[1..][1..] == t[2..];
        assert NoOpener(t[1..], Code);
      }
    }
  }

  /** Text without comments is left alone, character for character. */
  lemma {:induction false} CleanTextStays(s: string, st: State)
    requires NoOpener(s, st)
    ensures Strip(s, st) == s
    decreases |s|
  {
    if s != [] {
      CleanTextStays(s[1..], After(s, st));
      assert s == [s[0]] + s[1..];
    }
  }

  lemma StripUnfolds(s: string, st: State)
    requires s != []
    ensures Strip(s, st) == Left(s, st) + Strip(s[Step(s, st)..], After(s, st))
  {
  }

  // ---- The same text, taken apart ----

  /** A character of a literal, or one behind a backslash. */
  datatype Unit = One(c: char) | Escaped(c: char)

  /**
   What a source is made of: plain characters, quoted literals, and comments. A literal or a block comment
   may run to the end of the text; such a literal may even end in the middle of an escape.
   */
  datatype Piece =
    | Plain(c: char)
    | Quoted(quote: char, units: seq<Unit>)
    | Unended(quote: char, units: seq<Unit>, hanging: bool)
    | Line(text: string)
    | Block(text: string)
    | Unclosed(text: string)

  predicate IsQuote(c: char) {
    c == '"' || c == '\'' || c == '`'
  }

  function UnitText(u: Unit): string {
    if u.One? then [u.c] else ['\\', u.c]
  }

  function UnitsText(us: seq<Unit>): string {
    if us == [] then "" else UnitText(us[0]) + UnitsText(us[1..])
  }

  function PieceText(p: Piece): string {
    match p
    case Plain(c) => [c]
    case Quoted(quote, units) => [quote] + UnitsText(units) + [quote]
    case Unended(quote, units, hanging) => [quote] + UnitsText(units) + if hanging then "\\" else ""
    case Line(text) => "//" + text
    case Block(text) => "/*" + text + "*/"
    case Unclosed(text) => "/*" + text
  }

  function Text(ps: seq<Piece>): string {
    if ps == [] then "" else PieceText(ps[0]) + Text(ps[1..])
  }

  /** Blanks, with the newlines left where they are. */
  function Blanks(text: string): string {
    if text == "" then "" else [if text[0] == '\n' then '\n' else ' '] + Blanks(text[1..])
  }

  /** A source without its comments: they are blanked, everything else is kept, literals whole. */
  function Uncommented(ps: seq<Piece>): string {
    if ps == [] then "" else Uncomment(ps[0]) + Uncommented(ps[1..])
  }

  function Uncomment(p: Piece): string {
    if p.Line? || p.Block? || p.Unclosed? then Blanks(PieceText(p)) else PieceText(p)
  }

  /** Inside quotes a quote and a backslash stand for themselves only behind a backslash. */
  predicate UnitsFit(us: seq<Unit>, quote: char) {
    forall i | 0 <= i < |us| && us[i].One? :: us[i].c != quote && us[i].c != '\\'
  }

  /** The text closes no comment but perhaps at its end. */
  predicate OpenUntil(text: string, n: nat) {
    forall i | 0 <= i < n && i + 1 < |text| :: !(text[i] == '*' && text[i + 1] == '/')
  }

  predicate PieceFits(p: Piece, rest: string) {
    match p
    case Plain(c) => !IsQuote(c) && !(c == '/' && rest != "" && (rest[0] == '/' || rest[0] == '*'))
    case Quoted(quote, units) => IsQuote(quote) && UnitsFit(units, quote)
    case Unended(quote, units, _) => IsQuote(quote) && UnitsFit(units, quote) && rest == ""
    case Line(text) => '\n' !in text && (rest == "" || rest[0] == '\n')
    case Block(text) => OpenUntil(text + "*/", |text|)
    case Unclosed(text) => OpenUntil(text, |text|) && rest == ""
  }

  predicate PiecesFit(ps: seq<Piece>) {
    ps != [] ==> PieceFits(ps[0], Text(ps[1..])) && PiecesFit(ps[1..])
  }

  lemma {:induction false} StripLiteral(us: seq<Unit>, quote: char, rest: string)
    requires IsQuote(quote) && UnitsFit(us, quote)
    ensures Strip(UnitsText(us) + rest, Literal(quote, false)) == UnitsText(us) + Strip(rest, Literal(quote, false))
    decreases |us|
  {
    hide Strip;
    if us == [] {
      assert "" + rest == rest;
    } else {
      var more := UnitsText(us[1..]) + rest;
      StripLiteral(us[1..], quote, rest);
      StripUnit(us[0], quote, more);
      assert UnitsText(us) + rest == UnitText(us[0]) + more;
    }
  }

  lemma StripUnit(u: Unit, quote: char, more: string)
    requires IsQuote(quote) && (u.One? ==> u.c != quote && u.c != '\\')
    ensures Strip(UnitText(u) + more, Literal(quote, false)) == UnitText(u) + Strip(more, Literal(quote, false))
  {
    hide Strip;
    var t, st := UnitText(u) + more, Literal(quote, false);
    StripUnfolds(t, st);
    if u.One? {
      assert t[1..] == more;
    } else {
      assert t[1..] == [u.c] + more && t[1..][1..] == more;
      StripUnfolds(t[1..], Literal(quote, true));
    }
  }

  lemma {:induction false} StripLine(text: string, rest: string)
    requires '\n' !in text && (rest == "" || rest[0] == '\n')
    ensures Strip(text + rest, LineComment) == Blanks(text) + Strip(rest, Code)
    decreases |text|
  {
    hide Strip;
    if text == "" {
      assert "" + rest == rest;
      EndOfLine(rest);
    } else {
      StripLine(text[1..], rest);
      StripUnfolds(text + rest, LineComment);
      assert text[0] in text && (text + rest)[1..] == text[1..] + rest;
    }
  }

  lemma EndOfLine(rest: string)
    requires rest == "" || rest[0] == '\n'
    ensures Strip(rest, LineComment) == Strip(rest, Code)
  {
  }

  lemma {:induction false} StripBlock(text: string, rest: string)
    requires OpenUntil(text + "*/", |text|)
    ensures Strip(text + "*/" + rest, BlockComment) == Blanks(text) + "  " + Strip(rest, Code)
    decreases |text|
  {
    var t := text + "*/" + rest;
    if text == "" {
      assert t == "*/" + rest && t[2..] == rest;
    } else {
      assert t[1..] == text[1..] + "*/" + rest && t[0] == text[0];
      var u := text + "*/";
      assert t[1] == u[1] && !(u[0] == '*' && u[0 + 1] == '/');
      forall i | 0 <= i < |text[1..]| && i + 1 < |text[1..] + "*/"|
        ensures !((text[1..] + "*/")[i] == '*' && (text[1..] + "*/")[i + 1] == '/')
      {
        assert (text[1..] + "*/")[i] == u[i + 1] && (text[1..] + "*/")[i + 1] == u[i + 1 + 1];
      }
      StripBlock(text[1..], rest);
    }
  }

  lemma {:induction false} StripUnclosed(text: string)
    requires OpenUntil(text, |text|)
    ensures Strip(text, BlockComment) == Blanks(text)
    decreases |text|
  {
    if text != "" {
      assert |text| > 1 ==> !(text[0] == '*' && text[0 + 1] == '/');
      forall i | 0 <= i < |text[1..]| && i + 1 < |text[1..]| ensures !(text[1..][i] == '*' && text[1..][i + 1] == '/') {
        assert text[1..][i] == text[i + 1] && text[1..][i + 1] == text[i + 1 + 1];
      }
      StripUnclosed(text[1..]);
    }
  }

  /** One piece is stripped as a whole: the lexer comes out of it in code. */
  lemma StripPiece(p: Piece, rest: string)
    requires PieceFits(p, rest)
    ensures Strip(PieceText(p) + rest, Code) == Uncomment(p) + Strip(rest, Code)
  {
    hide Strip, After, Step, Left, Blanks, UnitsText, OpenUntil;
    match p
    case Plain(c) => StripPlain(c, rest);
    case Quoted(quote, units) => StripQuoted(quote, units, rest);
    case Unended(quote, units, hanging) => StripUnended(quote, units, hanging);
    case Line(text) => StripComment(LineComment, "//", text, Blanks(text), rest) by { StripLine(text, rest); }
    case Block(text) =>
      StripBlock(text, rest);
      BlankedEnd(text);
      assert text + "*/" + rest == (text + "*/") + rest;
      StripComment(BlockComment, "/*", text + "*/", Blanks(text) + "  ", rest);
      assert "/*" + text + "*/" == "/*" + (text + "*/");
    case Unclosed(text) =>
      StripUnclosed(text);
      StripNothing(Code);
      assert text + "" == text && Blanks(text) + "" == Blanks(text);
      StripComment(BlockComment, "/*", text, Blanks(text), "");
  }

  lemma StripPlain(c: char, rest: string)
    requires PieceFits(Plain(c), rest)
    ensures Strip([c] + rest, Code) == [c] + Strip(rest, Code)
  {
    hide Strip;
    StripUnfolds([c] + rest, Code);
    assert ([c] + rest)[1..] == rest;
  }

  lemma StripComment(st: State, opener: string, text: string, blanked: string, rest: string)
    requires (st == LineComment && opener == "//") || (st == BlockComment && opener == "/*")
    requires blanked == Blanks(text) && Strip(text + rest, st) == blanked + Strip(rest, Code)
    ensures Strip(opener + text + rest, Code) == Blanks(opener + text) + Strip(rest, Code)
  {
    hide Strip, Blanks;
    var t := opener + text + rest;
    StripUnfolds(t, Code);
    assert t[2..] == text + rest && t[0] == opener[0] && t[1] == opener[1];
    TwoBlanked(opener, text);
    assert "  " + (blanked + Strip(rest, Code)) == "  " + blanked + Strip(rest, Code);
  }

  lemma StripNothing(st: State)
    ensures Strip("", st) == ""
  {
  }

  lemma StripQuoted(quote: char, units: seq<Unit>, rest: string)
    requires IsQuote(quote) && UnitsFit(units, quote)
    ensures var text := [quote] + UnitsText(units) + [quote]; Strip(text + rest, Code) == text + Strip(rest, Code)
  {
    hide Strip;
    var t, inner, st := [quote] + UnitsText(units) + [quote] + rest, [quote] + rest, Literal(quote, false);
    StripUnfolds(t, Code);
    StripLiteral(units, quote, inner);
    assert t[1..] == UnitsText(units) + inner && inner[1..] == rest;
    StripUnfolds(inner, st);
  }

  lemma StripUnended(quote: char, units: seq<Unit>, hanging: bool)
    requires IsQuote(quote) && UnitsFit(units, quote)
    ensures var text := [quote] + UnitsText(units) + if hanging then "\\" else "";
      Strip(text + "", Code) == text + Strip("", Code)
  {
    hide Strip;
    var inner, st := if hanging then "\\" else "", Literal(quote, false);
    var t := [quote] + UnitsText(units) + inner;
    assert t + "" == t && t[1..] == UnitsText(units) + inner;
    StripUnfolds(t, Code);
    StripLiteral(units, quote, inner);
    StripNothing(Code);
    StripNothing(st);
    StripNothing(Literal(quote, true));
    if hanging {
      StripUnfolds(inner, st);
      assert inner[1..] == "";
    }
  }

  lemma TwoBlanked(opener: string, text: string)
    requires |opener| == 2 && '\n' !in opener
    ensures Blanks(opener + text) == "  " + Blanks(text)
  {
    assert (opener + text)[1..][1..] == text && opener[0] != '\n' && opener[1] != '\n';
  }

  lemma {:induction false} BlankedEnd(text: string)
    ensures Blanks(text + "*/") == Blanks(text) + "  "
    decreases |text|
  {
    if text == "" {
      assert "*/"[1..] == "/" && "/"[1..] == "" && "" + "*/" == "*/";
    } else {
      BlankedEnd(text[1..]);
      assert (text + "*/")[1..] == text[1..] + "*/";
    }
  }

  /** Stripping blanks the comments of a source and keeps everything else, literals as they are. */
  lemma {:induction false} StripsPieces(ps: seq<Piece>)
    requires PiecesFit(ps)
    ensures Strip(Text(ps), Code) == Uncommented(ps)
    decreases |ps|
  {
    if ps != [] {
      StripPiece(ps[0], Text(ps[1..]));
      StripsPieces(ps[1..]);
    }
  }

  /** Every text can be taken apart that way. */
  lemma {:induction false} EveryTextParses(s: string) returns (ps: seq<Piece>)
    ensures Text(ps) == s && PiecesFit(ps)
    decreases |s|
  {
    if s == "" { return []; }
    var p, n;
    if IsQuote(s[0]) {
      p, n := FirstLiteral(s);
    } else if Opens(s) && s[1] == '/' {
      n := LineEnd(s, 2);
      p := Line(s[2..n]);
    } else if Opens(s) {
      p, n := FirstBlock(s);
    } else {
      p, n := Plain(s[0]), 1;
    }
    assert PieceText(p) == s[..n];
    var rest := EveryTextParses(s[n..]);
    ps := [p] + rest;
    assert ps[1..] == rest && s == s[..n] + s[n..];
  }

  lemma {:induction false} LineEnd(s: string, from: nat) returns (n: nat)
    requires from <= |s|
    ensures from <= n <= |s| && '\n' !in s[from..n] && (n == |s| || s[n] == '\n')
    decreases |s| - from
  {
    if from == |s| || s[from] == '\n' { return from; }
    n := LineEnd(s, from + 1);
    assert s[from..n] == [s[from]] + s[from + 1..n];
  }

  lemma {:induction false} FirstBlock(s: string) returns (p: Piece, n: nat)
    requires |s| > 1 && s[0] == '/' && s[1] == '*'
    ensures 0 < n <= |s| && PieceText(p) == s[..n] && PieceFits(p, s[n..]) && (p.Block? || p.Unclosed?)
  {
    var end := BlockEnd(s, 2);
    if end == |s| {
      p, n := Unclosed(s[2..]), |s|;
      forall i | 0 <= i < |s[2..]| && i + 1 < |s[2..]| ensures !(s[2..][i] == '*' && s[2..][i + 1] == '/') {
        assert s[2..][i] == s[i + 2] && s[2..][i + 1] == s[i + 2 + 1];
      }
    } else {
      p, n := Block(s[2..end]), end + 2;
      var t := s[2..end] + "*/";
      assert t == s[2..n];
      forall i | 0 <= i < |s[2..end]| && i + 1 < |t| ensures !(t[i] == '*' && t[i + 1] == '/') {
        assert t[i] == s[i + 2] && t[i + 1] == s[i + 2 + 1];
      }
      assert s[..n] == "/*" + t;
    }
  }

  lemma {:induction false} BlockEnd(s: string, from: nat) returns (n: nat)
    requires from <= |s|
    ensures from <= n <= |s| && (n < |s| ==> n + 1 < |s| && s[n] == '*' && s[n + 1] == '/')
    ensures forall i | from <= i < n && i + 1 < |s| :: !(s[i] == '*' && s[i + 1] == '/')
    decreases |s| - from
  {
    if from == |s| || (from + 1 < |s| && s[from] == '*' && s[from + 1] == '/') { return from; }
    n := BlockEnd(s, from + 1);
  }

  lemma {:induction false} FirstLiteral(s: string) returns (p: Piece, n: nat)
    requires s != "" && IsQuote(s[0])
    ensures 0 < n <= |s| && PieceText(p) == s[..n] && PieceFits(p, s[n..]) && (p.Quoted? || p.Unended?)
  {
    var units, end := Units(s, 1, s[0]);
    if end == |s| {
      p, n := Unended(s[0], units, false), |s|;
    } else if s[end] == s[0] {
      p, n := Quoted(s[0], units), end + 1;
    } else {
      p, n := Unended(s[0], units, true), |s|;
    }
    assert s[..n] == [s[0]] + s[1..end] + s[end..n];
  }

  /** The units of a literal up to its closing quote, or to the end of the text. */
  lemma {:induction false} Units(s: string, from: nat, quote: char) returns (units: seq<Unit>, n: nat)
    requires from <= |s| && IsQuote(quote)
    ensures from <= n <= |s| && UnitsText(units) == s[from..n] && UnitsFit(units, quote)
    ensures n < |s| ==> s[n] == quote || (s[n] == '\\' && n + 1 == |s|)
    decreases |s| - from
  {
    if from == |s| || s[from] == quote || (s[from] == '\\' && from + 1 == |s|) { return [], from; }
    var rest;
    var u := if s[from] == '\\' then Escaped(s[from + 1]) else One(s[from]);
    var next := if s[from] == '\\' then from + 2 else from + 1;
    rest, n := Units(s, next, quote);
    units := [u] + rest;
    assert units[1..] == rest && s[from..n] == s[from..next] + s[next..n];
    assert s[from..next] == if u.One? then [u.c] else ['\\', u.c];
  }

  lemma {:induction false} OnesText(s: string)
    ensures UnitsText(Ones(s)) == s
    decreases |s|
  {
    if s != "" {
      OnesText(s[1..]);
      assert Ones(s)[1..] == Ones(s[1..]);
    }
  }

  function Ones(s: string): seq<Unit> {
    if s == "" then [] else [One(s[0])] + Ones(s[1..])
  }

  lemma {:induction false} OnesFit(s: string, quote: char)
    requires quote !in s && '\\' !in s
    ensures UnitsFit(Ones(s), quote)
    decreases |s|
  {
    if s != "" { OnesFit(s[1..], quote); }
  }

  /** Whatever is quoted stays, a slash pair included, and so does the code around it. */
  lemma QuotedStays(s: string, quote: char, rest: string)
    requires IsQuote(quote) && quote !in s && '\\' !in s
    ensures Strip([quote] + s + [quote] + rest, Code) == [quote] + s + [quote] + Strip(rest, Code)
  {
    OnesText(s);
    OnesFit(s, quote);
    StripPiece(Quoted(quote, Ones(s)), rest);
  }

  /** Strips the buffer in place. */
  method StripCStyleComments(result: array<char>)
    modifies result
    ensures result[..] == Strip(old(result[..]), Code)
  {
    ghost var source := result[..];
    var state := Code;
    var index := 0;
    assert source[0..] == source && result[..0] == [];
    hide Left, After, Step;
    while index < result.Length
      invariant 0 <= index <= result.Length
      invariant result[index..] == source[index..]
      invariant result[..index] + Strip(source[index..], state) == Strip(source, Code)
    {
      ghost var rest, before, was := source[index..], result[..index], state;
      StripUnfolds(rest, was);
      var start := index;
      hide Strip;
      index, state := LexStep(result, index, state);
      assert result[..index] == before + Left(rest, was);
      assert rest[Step(rest, was)..] == source[index..];
      assert result[index..] == source[index..];
    }
    assert result[..] == result[..index];
  }

  /** Lexes one step at an index, blanking what belongs to a comment. */
  method LexStep(result: array<char>, index: nat, state: State) returns (next: nat, after: State)
    requires index < result.Length
    modifies result
    ensures var rest := old(result[index..]);
      && next == index + Step(rest, state) && next <= result.Length && after == After(rest, state)
      && result[..index] == old(result[..index])
      && result[..next] == old(result[..index]) + Left(rest, state)
      && result[next..] == rest[Step(rest, state)..]
  {
    ghost var rest := result[index..];
    var character := result[index];
    var more := index + 1 < result.Length;
    assert rest[0] == character && (more ==> rest[1] == result[index + 1]);
    next, after := index + 1, state;
    match state {
      case LineComment =>
        if character == '\n' { after := Code; } else { result[index] := ' '; }
      case BlockComment =>
        if character == '*' && more && result[index + 1] == '/' {
          result[index], result[index + 1] := ' ', ' ';
          next, after := index + 2, Code;
        } else if character != '\n' {
          result[index] := ' ';
        }
      case Literal(quote, escaped) =>
        if escaped {
          after := Literal(quote, false);
        } else if character == '\\' {
          after := Literal(quote, true);
        } else if character == quote {
          after := Code;
        }
      case Code =>
        if character == '/' && more && (result[index + 1] == '/' || result[index + 1] == '*') {
          after := if result[index + 1] == '/' then LineComment else BlockComment;
          result[index], result[index + 1] := ' ', ' ';
          next := index + 2;
        } else if character == '"' || character == '\'' || character == '`' {
          after := Literal(character, false);
        }
    }
    assert |Left(rest, state)| == next - index;
    assert result[index..next] == Left(rest, state);
    assert result[..next] == result[..index] + result[index..next];
  }
}

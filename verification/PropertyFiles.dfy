/** Reading and writing single properties of a line-based file. */
module PropertyFiles {
  import opened Options

  /** The white space of Unicode. */
  predicate IsSpace(c: char) {
    || c == ' ' || c == '\t' || c == '\n' || c == '\U{0B}' || c == '\U{0C}' || c == '\r'
    || c == '\U{85}' || c == '\U{A0}' || c == '\U{1680}' || '\U{2000}' <= c <= '\U{200A}'
    || c == '\U{2028}' || c == '\U{2029}' || c == '\U{202F}' || c == '\U{205F}' || c == '\U{3000}'
  }

  function TrimLeft(s: string): (r: string)
    ensures r != "" ==> !IsSpace(r[0])
    ensures |r| <= |s|
  {
    if s != "" && IsSpace(s[0]) then TrimLeft(s[1..]) else s
  }

  function TrimRight(s: string): (r: string)
    ensures r <= s
    ensures r != "" ==> !IsSpace(r[|r| - 1])
  {
    if s != "" && IsSpace(s[|s| - 1]) then TrimRight(s[..|s| - 1]) else s
  }

  function Trim(s: string): string {
    TrimRight(TrimLeft(s))
  }

  // ---- Lines ----

  datatype Line = Blank | Entry(key: string, value: string) | Bad

  /** The first unescaped separator at or after `i`, or -1. */
  function Separator(line: string, i: nat, escaped: bool): (r: int)
    requires i <= |line|
    ensures r == -1 || (i <= r < |line| && (line[r] == '=' || line[r] == ':'))
    decreases |line| - i
  {
    if i == |line| then -1
    else if escaped then Separator(line, i + 1, false)
    else if line[i] == '\\' then Separator(line, i + 1, true)
    else if line[i] == '=' || line[i] == ':' then i
    else Separator(line, i + 1, false)
  }

  function Parse(line: string): Line {
    var trimmed := Trim(line);
    if trimmed == "" || trimmed[0] == '#' || trimmed[0] == '!' then Blank
    else
      var separator := Separator(line, 0, false);
      if separator < 1 then Bad
      else
        var key := Trim(line[..separator]);
        if key == "" then Bad else Entry(key, Trim(line[separator + 1..]))
  }

  // ---- Escaping ----

  function EscapeChar(c: char): string {
    if c == '\\' || c == ':' || c == '=' then ['\\', c]
    else if c == '\n' then "\\n"
    else if c == '\r' then "\\r"
    else [c]
  }

  function Escape(value: string): string {
    if value == "" then "" else EscapeChar(value[0]) + Escape(value[1..])
  }

  function Unescape(text: string): string {
    if text == "" then ""
    else if text[0] == '\\' && |text| > 1 then
      [if text[1] == 'n' then '\n' else if text[1] == 'r' then '\r' else text[1]] + Unescape(text[2..])
    else [text[0]] + Unescape(text[1..])
  }

  /** Escaping can be undone. */
  lemma {:induction false} EscapeRoundTrip(value: string)
    ensures Unescape(Escape(value)) == value
  {
    if value != "" {
      EscapeRoundTrip(value[1..]);
      var c := EscapeChar(value[0]);
      assert Escape(value)[|c|..] == Escape(value[1..]);
      assert value == [value[0]] + value[1..];
    }
  }

  lemma EscapeInjective(a: string, b: string)
    requires Escape(a) == Escape(b)
    ensures a == b
  {
    EscapeRoundTrip(a);
    EscapeRoundTrip(b);
  }

  /** An escaped value stays on its line. */
  lemma {:induction false} EscapedStaysOnLine(value: string)
    ensures '\n' !in Escape(value)
  {
    if value != "" { EscapedStaysOnLine(value[1..]); }
  }

  // ---- Keys ----

  /** Reading through `key` meets no separator and ends outside an escape. */
  predicate Plain(key: string, i: nat, escaped: bool)
    requires i <= |key|
    decreases |key| - i
  {
    if i == |key| then !escaped
    else if escaped then Plain(key, i + 1, false)
    else if key[i] == '\\' then Plain(key, i + 1, true)
    else key[i] != '=' && key[i] != ':' && Plain(key, i + 1, false)
  }

  /** A key that can be found again on the line it is written to. */
  predicate LineKey(key: string) {
    key != "" && Trim(key) == key && key[0] != '#' && key[0] != '!' && Plain(key, 0, false)
  }

  /** A key that can be found again in the file, too: it does not break the line. */
  predicate CleanKey(key: string) {
    LineKey(key) && '\n' !in key
  }

  lemma {:induction false} SeparatorAfter(key: string, rest: string, i: nat, escaped: bool)
    requires i <= |key|
    ensures Separator(key + "=" + rest, i, escaped) == |key| <==> Plain(key, i, escaped)
    decreases |key| - i
  {
    var line := key + "=" + rest;
    if i < |key| {
      assert line[i] == key[i];
      if escaped { SeparatorAfter(key, rest, i + 1, false); }
      else if key[i] == '\\' { SeparatorAfter(key, rest, i + 1, true); }
      else if key[i] != '=' && key[i] != ':' { SeparatorAfter(key, rest, i + 1, false); }
    } else {
      assert line[i] == '=';
    }
  }

  lemma {:induction false} TrimLeftKeeps(s: string, rest: string)
    requires s != "" && !IsSpace(s[0])
    ensures TrimLeft(s + rest) == s + rest
  {
  }

  lemma {:induction false} TrimRightHead(s: string, i: nat)
    requires i < |s| && !IsSpace(s[i])
    ensures |TrimRight(s)| > i && TrimRight(s)[i] == s[i]
    decreases |s|
  {
    if IsSpace(s[|s| - 1]) {
      TrimRightHead(s[..|s| - 1], i);
    }
  }

  lemma {:induction false} TrimNoLonger(s: string)
    ensures |TrimLeft(s)| == |s| <==> s == "" || !IsSpace(s[0])
    ensures |Trim(s)| == |s| ==> Trim(s) == s
  {
    if s != "" && IsSpace(s[0]) { assert |TrimLeft(s)| <= |s[1..]|; }
  }

  /** Trimming keeps a text just when it neither starts nor ends with white space. */
  lemma TrimExact(s: string)
    ensures Trim(s) == s <==> s == "" || (!IsSpace(s[0]) && !IsSpace(s[|s| - 1]))
  {
    TrimNoLonger(s);
    if s != "" && !IsSpace(s[0]) {
      TrimLeftKeeps(s, "");
      assert s + "" == s;
    }
  }

  lemma TrimTwice(s: string)
    ensures Trim(Trim(s)) == Trim(s)
  {
    TrimExact(Trim(s));
  }

  lemma CutElsewhere(key: string, value: string, cut: nat)
    requires key != "" && Trim(key) == key && 1 <= cut <= |key + "=" + value| && cut != |key|
    ensures Trim((key + "=" + value)[..cut]) != key
  {
    var head := (key + "=" + value)[..cut];
    assert !IsSpace(key[0]) by { TrimNoLonger(key); }
    assert head[0] == key[0];
    TrimLeftKeeps(head, "");
    assert head + "" == head;
    if cut > |key| {
      assert head[|key|] == '=';
      TrimRightHead(head, |key|);
    }
  }

  /** Whether a line holds anything but a comment depends on how its key starts. */
  lemma StartOfLine(key: string, value: string)
    requires key != "" && Trim(key) == key
    ensures var trimmed := Trim(key + "=" + value); trimmed != "" && trimmed[0] == key[0]
  {
    var line := key + "=" + value;
    assert !IsSpace(key[0]) by { TrimNoLonger(key); }
    assert line == key + ("=" + value) && line[0] == key[0];
    TrimLeftKeeps(key, "=" + value);
    TrimRightHead(line, 0);
  }

  /** A line that is written reads back as its key exactly for keys of lines. */
  lemma WrittenLineParses(key: string, value: string)
    requires key != "" && Trim(key) == key
    ensures Parse(key + "=" + value) == Entry(key, Trim(value)) <==> LineKey(key)
  {
    var line := key + "=" + value;
    StartOfLine(key, value);
    SeparatorAfter(key, value, 0, false);
    hide Trim, Separator, Plain;
    var separator := Separator(line, 0, false);
    if separator == |key| {
      assert line[..separator] == key && line[separator + 1..] == value;
    } else if separator >= 1 {
      CutElsewhere(key, value, separator);
    }
  }

  /** A line is read up to its first unescaped separator; nothing but white space there makes it a bad one. */
  lemma ParseDecides(left: string, separator: char, right: string)
    requires Plain(left, 0, false) && separator in {'=', ':'}
    ensures var line := left + [separator] + right;
      Trim(line) != "" &&
      Parse(line) ==
        if Trim(line)[0] in {'#', '!'} then Blank
        else if Trim(left) == "" then Bad
        else Entry(Trim(left), Trim(right))
  {
    var line := left + [separator] + right;
    FirstSeparator(left, separator, right, 0, false);
    assert line[|left|] == separator && line[..|left|] == left && line[|left| + 1..] == right;
    TrimNotEmpty(line, |left|);
    hide Separator, Plain, Trim;
    if left == "" { TrimExact(""); }
  }

  lemma {:induction false} FirstSeparator(left: string, separator: char, right: string, i: nat, escaped: bool)
    requires i <= |left| && Plain(left, i, escaped) && separator in {'=', ':'}
    ensures Separator(left + [separator] + right, i, escaped) == |left|
    decreases |left| - i
  {
    var line := left + [separator] + right;
    if i < |left| {
      assert line[i] == left[i];
      FirstSeparator(left, separator, right, i + 1, !escaped && left[i] == '\\');
    } else {
      assert line[i] == separator;
    }
  }

  lemma {:induction false} TrimNotEmpty(s: string, i: nat)
    requires i < |s| && !IsSpace(s[i])
    ensures Trim(s) != ""
  {
    if IsSpace(s[0]) { TrimNotEmpty(s[1..], i - 1); } else { TrimRightHead(s, 0); }
  }

  /** Nothing in the line separates a key: the only unescaped characters are others. */
  predicate Unseparated(line: string, i: nat, escaped: bool)
    requires i <= |line|
    decreases |line| - i
  {
    i == |line| || (
      if escaped then Unseparated(line, i + 1, false)
      else line[i] != '=' && line[i] != ':' && Unseparated(line, i + 1, line[i] == '\\'))
  }

  /** Such a line is blank, a comment or bad. */
  lemma UnseparatedDecides(line: string)
    requires Unseparated(line, 0, false)
    ensures Parse(line) == if Trim(line) == "" || Trim(line)[0] in {'#', '!'} then Blank else Bad
  {
    NoSeparator(line, 0, false);
  }

  lemma {:induction false} NoSeparator(line: string, i: nat, escaped: bool)
    requires i <= |line| && Unseparated(line, i, escaped)
    ensures Separator(line, i, escaped) == -1
    decreases |line| - i
  {
    if i < |line| { NoSeparator(line, i + 1, !escaped && line[i] == '\\'); }
  }

  // ---- Files ----

  datatype Reading = Failed | Missing | Value(text: string)

  predicate AllParse(lines: seq<string>) {
    forall i | 0 <= i < |lines| :: !Parse(lines[i]).Bad?
  }

  predicate HasKey(line: string, key: string) {
    Parse(line).Entry? && Parse(line).key == key
  }

  /** The first line with the key at or after `i`, or -1. */
  function FirstWith(lines: seq<string>, key: string, i: nat): (r: int)
    requires i <= |lines|
    ensures r == -1 || (i <= r < |lines| && HasKey(lines[r], key))
    ensures forall j | i <= j < (if r == -1 then |lines| else r) :: !HasKey(lines[j], key)
    decreases |lines| - i
  {
    if i == |lines| then -1 else if HasKey(lines[i], key) then i else FirstWith(lines, key, i + 1)
  }

  /** What a file says of a key: an error for a bad line or a repeated key. */
  function Read(lines: seq<string>, key: string): Reading {
    var first := FirstWith(lines, key, 0);
    if !AllParse(lines) then Failed
    else if first < 0 then Missing
    else if FirstWith(lines, key, first + 1) >= 0 then Failed
    else Value(Parse(lines[first]).value)
  }

  function Body(lines: seq<string>): seq<string> {
    if lines != [] && lines[|lines| - 1] == "" then lines[..|lines| - 1] else lines
  }

  function Write(lines: seq<string>, key: string, value: string, allowCreate: bool): Option<seq<string>> {
    var written := key + "=" + Escape(value);
    var reading := Read(lines, key);
    if reading.Failed? then None
    else if reading.Missing? then if allowCreate then Some(Body(lines) + [written, ""]) else None
    else Some(lines[FirstWith(lines, key, 0) := written])
  }

  lemma {:induction false} FirstIs(lines: seq<string>, key: string, i: nat, r: int)
    requires i <= |lines| && (r == -1 || (i <= r < |lines| && HasKey(lines[r], key)))
    requires forall j | i <= j < (if r == -1 then |lines| else r) :: !HasKey(lines[j], key)
    ensures FirstWith(lines, key, i) == r
  {
  }

  /** How a reading follows from where the key occurs. */
  lemma ReadOnce(lines: seq<string>, key: string, at: nat)
    requires AllParse(lines) && at < |lines| && HasKey(lines[at], key)
    requires forall j | 0 <= j < |lines| && j != at :: !HasKey(lines[j], key)
    ensures Read(lines, key) == Value(Parse(lines[at]).value)
  {
    FirstIs(lines, key, 0, at);
    FirstIs(lines, key, at + 1, -1);
  }

  /** A file fails for a bad line or a repeated key; otherwise the one line with the key has its value. */
  lemma ReadExact(lines: seq<string>, key: string)
    ensures Read(lines, key).Failed? <==>
      || (exists i | 0 <= i < |lines| :: Parse(lines[i]).Bad?)
      || exists i, j | 0 <= i < j < |lines| :: HasKey(lines[i], key) && HasKey(lines[j], key)
    ensures Read(lines, key).Missing? <==>
      forall i | 0 <= i < |lines| :: !Parse(lines[i]).Bad? && !HasKey(lines[i], key)
    ensures Read(lines, key).Value? ==>
      exists i | 0 <= i < |lines| :: Parse(lines[i]) == Entry(key, Read(lines, key).text)
  {
    hide Parse;
    var first := FirstWith(lines, key, 0);
    if first >= 0 {
      var second := FirstWith(lines, key, first + 1);
      if second >= 0 { assert HasKey(lines[first], key) && HasKey(lines[second], key); }
    }
  }

  lemma EmptyIsBlank()
    ensures Parse("") == Blank
  {
  }

  /** A property written to its line reads back as the escaped value, trimmed. */
  lemma LineReadBack(lines: seq<string>, key: string, value: string, allowCreate: bool)
    requires LineKey(key) && Write(lines, key, value, allowCreate).Some?
    ensures Read(Write(lines, key, value, allowCreate).value, key) == Value(Trim(Escape(value)))
  {
    hide Parse, Trim, LineKey, Escape;
    var after := Write(lines, key, value, allowCreate).value;
    assert Trim(key) == key && key != "" by { LineKeyTrimmed(key); }
    WrittenLineParses(key, Escape(value));
    EmptyIsBlank();
    var at := if Read(lines, key).Missing? then |Body(lines)| else FirstWith(lines, key, 0);
    assert after[at] == key + "=" + Escape(value);
    forall j | 0 <= j < |after| && j != at ensures !Parse(after[j]).Bad? && !HasKey(after[j], key) {
      if j < |Body(lines)| { assert after[j] == lines[j]; }
    }
    ReadOnce(after, key, at);
  }

  lemma LineKeyTrimmed(key: string)
    requires LineKey(key)
    ensures Trim(key) == key && key != ""
  {
  }

  /** No other key reads differently afterwards. */
  lemma OtherLinesUnchanged(lines: seq<string>, key: string, value: string, allowCreate: bool, other: string)
    requires LineKey(key) && Write(lines, key, value, allowCreate).Some? && other != key
    ensures Read(Write(lines, key, value, allowCreate).value, other) == Read(lines, other)
  {
    hide Parse, HasKey, LineKey, Escape, FirstWith, AllParse, Write;
    var after := Write(lines, key, value, allowCreate).value;
    WriteShape(lines, key, value, allowCreate, other);
    var n := |Body(lines)|;
    SameFirst(lines, after, other, n, 0);
    var first := FirstWith(lines, other, 0);
    if first >= 0 {
      SameFirst(lines, after, other, n, first + 1);
    }
  }

  /** Seen by any other key, a write leaves every line of the body alone and adds nothing. */
  lemma WriteShape(lines: seq<string>, key: string, value: string, allowCreate: bool, other: string)
    requires LineKey(key) && Write(lines, key, value, allowCreate).Some? && other != key
    ensures var n, after := |Body(lines)|, Write(lines, key, value, allowCreate).value;
      && AllParse(lines) && AllParse(after) && n <= |lines| && n <= |after|
      && (forall i | 0 <= i < n :: HasKey(after[i], other) <==> HasKey(lines[i], other))
      && (forall i | 0 <= i < n && HasKey(lines[i], other) :: after[i] == lines[i])
      && (forall i | n <= i < |lines| :: !HasKey(lines[i], other))
      && (forall i | n <= i < |after| :: !HasKey(after[i], other))
  {
    hide Parse, Trim, LineKey, Escape;
    var n, after := |Body(lines)|, Write(lines, key, value, allowCreate).value;
    LineKeyTrimmed(key);
    WrittenLineParses(key, Escape(value));
    EmptyIsBlank();
    var written := key + "=" + Escape(value);
    assert HasKey(written, key) && !HasKey(written, other);
    forall i | 0 <= i < |after| ensures !Parse(after[i]).Bad? {
      if after[i] != written && after[i] != "" { assert after[i] == lines[i]; }
    }
    forall i | 0 <= i < n && after[i] != lines[i] ensures after[i] == written && HasKey(lines[i], key) {}
  }

  lemma SameFirst(lines: seq<string>, after: seq<string>, key: string, n: nat, i: nat)
    requires i <= n <= |lines| && n <= |after|
    requires forall j | 0 <= j < n :: HasKey(after[j], key) <==> HasKey(lines[j], key)
    requires forall j | n <= j < |lines| :: !HasKey(lines[j], key)
    requires forall j | n <= j < |after| :: !HasKey(after[j], key)
    ensures FirstWith(after, key, i) == FirstWith(lines, key, i)
  {
    FirstIs(after, key, i, FirstWith(lines, key, i));
  }

  // ---- The verification of guards ----

  /** What the final verification demands of one guard. */
  predicate Verified(text: string, key: string, value: string) {
    var reading := ReadText(text, key);
    reading.Value? && (reading.text == Escape(value) || reading.text == value)
  }

  /** White space that escaping leaves as it is. */
  predicate BareSpace(c: char) {
    IsSpace(c) && c != '\n' && c != '\r'
  }

  predicate Tight(value: string) {
    value != "" ==> !BareSpace(value[0]) && !BareSpace(value[|value| - 1])
  }

  lemma {:induction false} EscapeEnds(value: string)
    requires value != ""
    ensures var e := Escape(value);
      && e != "" && (IsSpace(e[0]) <==> BareSpace(value[0]))
      && (IsSpace(e[|e| - 1]) <==> BareSpace(value[|value| - 1]))
  {
    var c, rest := EscapeChar(value[0]), value[1..];
    assert Escape(value) == c + Escape(rest);
    if rest != "" {
      EscapeEnds(rest);
      assert rest[|rest| - 1] == value[|value| - 1];
    } else {
      assert Escape(value) == c;
    }
  }

  /** Escaping a value leaves nothing to trim just when the value itself is tight. */
  lemma EscapedTight(value: string)
    ensures Trim(Escape(value)) == Escape(value) <==> Tight(value)
    ensures Trim(Escape(value)) == value ==> Tight(value)
  {
    hide Trim, IsSpace;
    TrimExact(Escape(value));
    if value != "" { EscapeEnds(value); }
    if Trim(Escape(value)) == value {
      TrimTwice(Escape(value));
      TrimExact(value);
    }
  }

  /** Keys are read off a line trimmed, up to the first separator. */
  lemma KeyOfLine(line: string, key: string)
    requires HasKey(line, key)
    ensures var separator := Separator(line, 0, false);
      separator >= 1 && Parse(line) == Entry(Trim(line[..separator]), Trim(line[separator + 1..]))
        && key == Trim(line[..separator]) != ""
  {
    hide Trim, Separator;
  }

  /** On a line of its own the key is found again for exactly these keys, of all strings. */
  lemma WrittenLineHasKey(key: string, value: string)
    ensures HasKey(key + "=" + value, key) <==> LineKey(key)
  {
    hide Trim, Separator, Plain, Parse, LineKey;
    var line := key + "=" + value;
    if HasKey(line, key) {
      var separator := Separator(line, 0, false);
      KeyOfLine(line, key);
      TrimTwice(line[..separator]);
      if separator != |key| { CutElsewhere(key, value, separator); }
      assert line[separator + 1..] == value;
      WrittenLineParses(key, value);
    } else if LineKey(key) {
      LineKeyTrimmed(key);
      WrittenLineParses(key, value);
    }
  }

  lemma NeverFound(lines: seq<string>, key: string, value: string, allowCreate: bool)
    requires Write(lines, key, value, allowCreate).Some? && !LineKey(key)
    ensures !Read(Write(lines, key, value, allowCreate).value, key).Value?
  {
    hide Parse, LineKey, Escape;
    var after := Write(lines, key, value, allowCreate).value;
    var first := FirstWith(lines, key, 0);
    EmptyIsBlank();
    WrittenLineHasKey(key, Escape(value));
    forall j | 0 <= j < |after| ensures !HasKey(after[j], key) {
      if first >= 0 && j > first { assert FirstWith(lines, key, first + 1) < 0; }
    }
    FirstIs(after, key, 0, -1);
  }

  // ---- Texts ----

  function Split(text: string): (lines: seq<string>)
    ensures |lines| > 0
  {
    if text == "" then [""]
    else
      var rest := Split(text[1..]);
      if text[0] == '\n' then [""] + rest else [[text[0]] + rest[0]] + rest[1..]
  }

  function Join(lines: seq<string>): string {
    if |lines| == 0 then "" else if |lines| == 1 then lines[0] else lines[0] + "\n" + Join(lines[1..])
  }

  predicate Unbroken(lines: seq<string>) {
    forall i | 0 <= i < |lines| :: '\n' !in lines[i]
  }

  /** The lines of a text are unbroken, and joining them gives the text back. */
  lemma {:induction false} SplitThenJoin(text: string)
    ensures Unbroken(Split(text)) && Join(Split(text)) == text
  {
    if text != "" {
      var rest := Split(text[1..]);
      SplitThenJoin(text[1..]);
      assert text == [text[0]] + text[1..];
      if text[0] == '\n' {
        assert ([""] + rest)[1..] == rest;
      } else {
        assert ([[text[0]] + rest[0]] + rest[1..])[1..] == rest[1..];
      }
    }
  }

  lemma {:induction false} SplitLine(line: string, rest: string)
    requires '\n' !in line
    ensures Split(line) == [line] && Split(line + "\n" + rest) == [line] + Split(rest)
  {
    if line == "" {
      assert ("\n" + rest)[1..] == rest && line + "\n" + rest == "\n" + rest;
    } else {
      var text := line + "\n" + rest;
      SplitLine(line[1..], rest);
      assert text[1..] == line[1..] + "\n" + rest && [line[0]] + line[1..] == line;
    }
  }

  /** Unbroken lines are what their text is split into. */
  lemma {:induction false} JoinThenSplit(lines: seq<string>)
    requires Unbroken(lines) && |lines| > 0
    ensures Split(Join(lines)) == lines
  {
    if |lines| == 1 {
      SplitLine(lines[0], "");
    } else {
      JoinThenSplit(lines[1..]);
      SplitLine(lines[0], Join(lines[1..]));
    }
  }

  function ReadText(text: string, key: string): Reading {
    Read(Split(text), key)
  }

  function WriteText(text: string, key: string, value: string, allowCreate: bool): Option<string> {
    var written := Write(Split(text), key, value, allowCreate);
    if written.None? then None else Some(Join(written.value))
  }

  /** A key without a line break leaves the file with the lines it was given. */
  lemma WrittenLines(text: string, key: string, value: string, allowCreate: bool)
    requires '\n' !in key && WriteText(text, key, value, allowCreate).Some?
    ensures Write(Split(text), key, value, allowCreate).Some?
    ensures Split(WriteText(text, key, value, allowCreate).value) == Write(Split(text), key, value, allowCreate).value
  {
    hide Split, Join, Read, FirstWith, Escape;
    SplitThenJoin(text);
    WriteUnbroken(Split(text), key, value, allowCreate);
    JoinThenSplit(Write(Split(text), key, value, allowCreate).value);
  }

  lemma WriteUnbroken(lines: seq<string>, key: string, value: string, allowCreate: bool)
    requires Unbroken(lines) && |lines| > 0 && '\n' !in key && Write(lines, key, value, allowCreate).Some?
    ensures var after := Write(lines, key, value, allowCreate).value; Unbroken(after) && |after| > 0
  {
    hide Escape, Parse;
    EscapedStaysOnLine(value);
    var after, written := Write(lines, key, value, allowCreate).value, key + "=" + Escape(value);
    assert '\n' !in written && '\n' !in "";
    if Read(lines, key).Missing? {
      assert after == Body(lines) + [written, ""];
      assert forall i | 0 <= i < |Body(lines)| :: Body(lines)[i] == lines[i];
    } else {
      assert after == lines[FirstWith(lines, key, 0) := written];
    }
  }

  /** A property written under a clean key reads back as the escaped value, trimmed. */
  lemma WriteThenRead(text: string, key: string, value: string, allowCreate: bool)
    requires CleanKey(key) && WriteText(text, key, value, allowCreate).Some?
    ensures ReadText(WriteText(text, key, value, allowCreate).value, key) == Value(Trim(Escape(value)))
  {
    hide Read, Write, LineKey, WriteText;
    WrittenLines(text, key, value, allowCreate);
    LineReadBack(Split(text), key, value, allowCreate);
  }

  /** No other key reads differently afterwards. */
  lemma OtherKeysUnchanged(text: string, key: string, value: string, allowCreate: bool, other: string)
    requires CleanKey(key) && WriteText(text, key, value, allowCreate).Some? && other != key
    ensures ReadText(WriteText(text, key, value, allowCreate).value, other) == ReadText(text, other)
  {
    hide Read, Write, LineKey, WriteText;
    WrittenLines(text, key, value, allowCreate);
    OtherLinesUnchanged(Split(text), key, value, allowCreate, other);
  }

  /** A guard that has been written verifies just when its key is clean and its value tight. */
  lemma VerifiedExactly(text: string, key: string, value: string, allowCreate: bool)
    requires WriteText(text, key, value, allowCreate).Some?
    ensures Verified(WriteText(text, key, value, allowCreate).value, key, value) <==> CleanKey(key) && Tight(value)
  {
    hide Read, Write, WriteText, LineKey, Trim, Escape, Tight, Split;
    if CleanKey(key) {
      WriteThenRead(text, key, value, allowCreate);
      EscapedTight(value);
    } else if '\n' in key {
      SplitThenJoin(WriteText(text, key, value, allowCreate).value);
      BrokenKeyNotFound(Split(WriteText(text, key, value, allowCreate).value), key);
    } else {
      WrittenLines(text, key, value, allowCreate);
      NeverFound(Split(text), key, value, allowCreate);
    }
  }

  lemma {:induction false} TrimInside(s: string)
    ensures forall c | c in TrimLeft(s) :: c in s
    ensures forall c | c in Trim(s) :: c in s
  {
    if s != "" && IsSpace(s[0]) { TrimInside(s[1..]); }
    assert Trim(s) <= TrimLeft(s);
  }

  lemma BrokenKeyNotFound(lines: seq<string>, key: string)
    requires Unbroken(lines) && '\n' in key
    ensures !Read(lines, key).Value?
  {
    hide Trim, Separator, Parse;
    forall j | 0 <= j < |lines| ensures !HasKey(lines[j], key) {
      if HasKey(lines[j], key) {
        KeyOfLine(lines[j], key);
        TrimInside(lines[j][..Separator(lines[j], 0, false)]);
      }
    }
  }

  datatype Guard = Guard(key: string, value: string, allowCreate: bool)

  /** All guards in order, each on top of the ones before. */
  function Guarded(text: string, gs: seq<Guard>): Option<string> {
    if gs == [] then Some(text)
    else
      var n := |gs| - 1;
      var init := Guarded(text, gs[..n]);
      if init.None? then None else WriteText(init.value, gs[n].key, gs[n].value, gs[n].allowCreate)
  }

  /** After any number of guards under clean keys, none asking two values of a key, exactly the tight ones verify. */
  lemma {:induction false} GuardsVerifiedExactly(text: string, gs: seq<Guard>, i: nat)
    requires Guarded(text, gs).Some? && i < |gs|
    requires forall j | 0 <= j < |gs| :: CleanKey(gs[j].key)
    requires forall j, k | 0 <= j < |gs| && 0 <= k < |gs| && gs[j].key == gs[k].key :: gs[j].value == gs[k].value
    ensures Verified(Guarded(text, gs).value, gs[i].key, gs[i].value) <==> Tight(gs[i].value)
  {
    hide CleanKey, Escape, ReadText, WriteText, Tight;
    var n := |gs| - 1;
    var g, init := gs[n], gs[..n];
    var before := Guarded(text, init).value;
    if gs[i].key == g.key {
      VerifiedExactly(before, g.key, g.value, g.allowCreate);
    } else {
      assert forall j | 0 <= j < n :: init[j] == gs[j];
      GuardsVerifiedExactly(text, init, i);
      OtherKeysUnchanged(before, g.key, g.value, g.allowCreate, gs[i].key);
    }
  }

  /** A discovery type guarded to be a single blank is written but can never be verified. */
  lemma BlankCannotBeVerified()
    ensures var after := WriteText("", "rpc.discovType", " ", true);
      after.Some? && !Verified(after.value, "rpc.discovType", " ")
  {
    assert Read([""], "rpc.discovType").Missing?;
    VerifiedExactly("", "rpc.discovType", " ", true);
  }

  /** A key with a line break leaves a line without a separator, so that no key at all can be read any more. */
  lemma LineBreakSpoilsFile(key: string)
    ensures WriteText("", "a\nb", "v", true) == Some("a\nb=v\n") && ReadText("a\nb=v\n", key) == Failed
  {
    hide Split, Parse, WriteText, FirstWith;
    BrokenKeyWritten();
    SplitLine("a", "b=v\n");
    assert "a" + "\n" + "b=v\n" == "a\nb=v\n";
    assert Split("a\nb=v\n")[0] == "a";
    BareWordBad();
  }

  lemma BrokenKeyWritten()
    ensures WriteText("", "a\nb", "v", true) == Some("a\nb=v\n")
  {
    var lines := ["a\nb=v", ""];
    assert Split("") == [""] && Body([""]) == [];
    EmptyIsBlank();
    assert !HasKey("", "a\nb") && FirstWith([""], "a\nb", 1) == -1 && FirstWith([""], "a\nb", 0) == -1;
    assert Escape("") == "" && "v"[1..] == "" && Escape("v") == "v";
    assert "a\nb" + "=" + "v" == "a\nb=v";
    assert [] + ["a\nb=v", ""] == lines;
    assert Write([""], "a\nb", "v", true) == Some(lines);
    assert lines[1..] == [""] && Join([""]) == "";
    assert Join(lines) == "a\nb=v" + "\n" + "" == "a\nb=v\n";
  }

  lemma BareWordBad()
    ensures Parse("a") == Bad
  {
    TrimExact("a");
    assert Separator("a", 1, false) == -1 && Separator("a", 0, false) == -1;
  }

  // ---- The loops ----

  method ReadProperty(text: string, key: string) returns (reading: Reading)
    ensures reading == ReadText(text, key)
  {
    hide Parse, Split;
    var lines := Split(text);
    var value, at := "", -1;
    for index := 0 to |lines|
      invariant forall j | 0 <= j < index :: !Parse(lines[j]).Bad?
      invariant -1 <= at < index
      invariant at == -1 ==> forall j | 0 <= j < index :: !HasKey(lines[j], key)
      invariant at >= 0 ==> HasKey(lines[at], key) && value == Parse(lines[at]).value
      invariant at >= 0 ==> forall j | 0 <= j < index && j != at :: !HasKey(lines[j], key)
    {
      var candidate := Parse(lines[index]);
      if candidate.Bad? { return Failed; }
      if candidate.Entry? && candidate.key == key {
        if at >= 0 {
          FirstIs(lines, key, 0, at);
          FirstIs(lines, key, at + 1, index);
          return Failed;
        }
        at, value := index, candidate.value;
      }
    }
    if at < 0 {
      FirstIs(lines, key, 0, -1);
      return Missing;
    }
    ReadOnce(lines, key, at);
    reading := Value(value);
  }

  method WriteProperty(text: string, key: string, value: string, allowCreate: bool) returns (written: Option<string>)
    ensures written == WriteText(text, key, value, allowCreate)
  {
    hide Parse, Escape, Split, Join;
    var lines := Split(text);
    var at := -1;
    for index := 0 to |lines|
      invariant forall j | 0 <= j < index :: !Parse(lines[j]).Bad?
      invariant -1 <= at < index
      invariant at == -1 ==> forall j | 0 <= j < index :: !HasKey(lines[j], key)
      invariant at >= 0 ==> HasKey(lines[at], key) && forall j | 0 <= j < index && j != at :: !HasKey(lines[j], key)
    {
      var candidate := Parse(lines[index]);
      if candidate.Bad? { return None; }
      if candidate.Entry? && candidate.key == key {
        if at >= 0 {
          FirstIs(lines, key, 0, at);
          FirstIs(lines, key, at + 1, index);
          return None;
        }
        at := index;
      }
    }
    if at < 0 {
      FirstIs(lines, key, 0, -1);
      if !allowCreate { return None; }
      return Some(Join(Body(lines) + [key + "=" + Escape(value), ""]));
    }
    FirstIs(lines, key, 0, at);
    ReadOnce(lines, key, at);
    written := Some(Join(lines[at := key + "=" + Escape(value)]));
  }
}

/** Shebang lines: peeking at a file, parsing, and printing what was parsed. */
module Shebangs {
  import opened Common
  import opened BytesSplit

  /** How much of a file is looked at. */
  const PEEK_SIZE: nat := 128

  const SPACE: byte := 32

  datatype Shebang = Shebang(interpreter: Bytes, arguments: seq<Bytes>)

  predicate IsNewline(c: byte) {
    c == 10
  }

  /** What separates words. */
  predicate IsBlank(c: byte) {
    c == 32 || c == 9
  }

  /** What trimming removes: more than what separates words. */
  predicate IsSpace(c: byte) {
    c == 32 || c == 9 || c == 10 || c == 12 || c == 13
  }

  function TrimStart(b: Bytes): (t: Bytes)
    ensures t == [] || !IsSpace(t[0])
    ensures |t| <= |b| && t == b[|b| - |t|..]
  {
    if b != [] && IsSpace(b[0]) then TrimStart(b[1..]) else b
  }

  function TrimEnd(b: Bytes): (t: Bytes)
    ensures t == [] || !IsSpace(t[|t| - 1])
    ensures t <= b
  {
    if b != [] && IsSpace(b[|b| - 1]) then TrimEnd(b[..|b| - 1]) else b
  }

  function Trim(b: Bytes): Bytes {
    TrimEnd(TrimStart(b))
  }

  /** Each piece trimmed; pieces of white space only are dropped. */
  function Cleaned(pieces: seq<Bytes>): seq<Bytes> {
    if pieces == [] then []
    else (if Trim(pieces[0]) == [] then [] else [Trim(pieces[0])]) + Cleaned(pieces[1..])
  }

  /** The trimmed non-empty words. */
  function Words(b: Bytes): seq<Bytes> {
    Cleaned(Split(b, IsBlank))
  }

  function Magic(): Bytes {
    [35, 33]
  }

  /** The trimmed first line behind `#!`. */
  function Line(buf: Bytes): Bytes
    requires Magic() <= buf
  {
    Trim(Split(buf[2..], IsNewline)[0])
  }

  function Interpreter(line: Bytes): (i: Bytes)
    ensures i <= line
  {
    FirstPiece(line, IsBlank);
    Split(line, IsBlank)[0]
  }

  /** Everything behind the interpreter, as one string. */
  function ArgumentText(line: Bytes): Bytes {
    TrimStart(line[|Interpreter(line)|..])
  }

  function Arguments(text: Bytes, split: bool): seq<Bytes> {
    if split then Words(text) else if text == [] then [] else [text]
  }

  /** `parse_shebang` on the bytes that were read. */
  function Parse(buf: Bytes, split: bool): Option<Shebang> {
    if Magic() <= buf then
      var line := Line(buf);
      Some(Shebang(Interpreter(line), Arguments(ArgumentText(line), split)))
    else None
  }

  function JoinArguments(arguments: seq<Bytes>): Bytes {
    if arguments == [] then [] else Join(arguments, SPACE)
  }

  function Print(s: Shebang): Bytes {
    Magic() + s.interpreter + [SPACE] + JoinArguments(s.arguments)
  }

  function Peeked(content: Bytes): Bytes {
    if |content| <= PEEK_SIZE then content else content[..PEEK_SIZE]
  }

  // ---------------------------------------------------------------------------------------------
  // Trimming and words
  // ---------------------------------------------------------------------------------------------

  /** No white space at either end. */
  predicate Tight(b: Bytes) {
    b == [] || (!IsSpace(b[0]) && !IsSpace(b[|b| - 1]))
  }

  lemma TrimIsPart(b: Bytes)
    ensures Trim(b) <= TrimStart(b) && TrimStart(b) == b[|b| - |TrimStart(b)|..]
    ensures Tight(Trim(b))
  {
    hide IsSpace;
  }

  lemma TrimIsTight(b: Bytes)
    ensures Tight(Trim(b)) && |Trim(b)| <= |b|
    ensures forall c :: c in Trim(b) ==> c in b
  {
    hide TrimStart, TrimEnd, Trim, Tight;
    TrimIsPart(b);
    var s, t := TrimStart(b), Trim(b);
    forall c | c in t
      ensures c in b
    {
      var k :| 0 <= k < |t| && t[k] == c;
      assert s[k] == c && b[|b| - |s| + k] == c;
    }
  }

  lemma TrimTight(b: Bytes)
    requires Tight(b)
    ensures Trim(b) == b && TrimStart(b) == b
  {
  }

  lemma TrimOneSpace(b: Bytes)
    requires Tight(b)
    ensures Trim(b + [SPACE]) == b
  {
    var s := b + [SPACE];
    if b == [] {
      assert s[1..] == [];
      assert TrimStart(s) == TrimStart([]) == [];
    } else {
      assert s[0] == b[0];
      assert s[..|s| - 1] == b;
      assert TrimEnd(s) == TrimEnd(b) == b;
    }
  }

  predicate IsWord(w: Bytes) {
    w != [] && Tight(w) && forall i :: 0 <= i < |w| ==> !IsBlank(w[i])
  }

  lemma TrimKeepsWithout(piece: Bytes)
    requires Without(piece, IsBlank)
    ensures Trim(piece) == [] || IsWord(Trim(piece))
  {
    TrimIsTight(piece);
    var t := Trim(piece);
    hide Trim;
    forall i | 0 <= i < |t|
      ensures !IsBlank(t[i])
    {
      assert t[i] in piece;
    }
  }

  lemma {:induction false} WordsAreWords(pieces: seq<Bytes>)
    requires forall i :: 0 <= i < |pieces| ==> Without(pieces[i], IsBlank)
    ensures forall i :: 0 <= i < |Cleaned(pieces)| ==> IsWord(Cleaned(pieces)[i])
  {
    hide Trim, IsWord, Without;
    if pieces != [] {
      WordsAreWords(pieces[1..]);
      TrimKeepsWithout(pieces[0]);
    }
  }

  lemma {:induction false} WordsOfWords(words: seq<Bytes>)
    requires forall i :: 0 <= i < |words| ==> IsWord(words[i])
    ensures Cleaned(words) == words
  {
    hide Trim;
    if words != [] {
      WordsOfWords(words[1..]);
      TrimTight(words[0]);
    }
  }

  /** Splitting joined words gives the words back. */
  lemma WordsJoined(words: seq<Bytes>)
    requires words != [] && forall i :: 0 <= i < |words| ==> IsWord(words[i])
    ensures Words(Join(words, SPACE)) == words
  {
    SplitJoin(words, SPACE, IsBlank);
    WordsOfWords(words);
  }

  predicate HasText(b: Bytes) {
    exists i :: 0 <= i < |b| && !IsSpace(b[i])
  }

  lemma {:induction false} TrimStartText(b: Bytes, i: nat)
    requires i < |b| && !IsSpace(b[i])
    ensures |b| - i <= |TrimStart(b)|
  {
    if IsSpace(b[0]) {
      TrimStartText(b[1..], i - 1);
    }
  }

  lemma {:induction false} TrimEndText(b: Bytes, i: nat)
    requires i < |b| && !IsSpace(b[i])
    ensures i < |TrimEnd(b)|
  {
    if IsSpace(b[|b| - 1]) {
      TrimEndText(b[..|b| - 1], i);
    }
  }

  lemma TextSurvivesTrim(b: Bytes)
    requires HasText(b)
    ensures Trim(b) != []
  {
    hide TrimStart, TrimEnd;
    var i :| 0 <= i < |b| && !IsSpace(b[i]);
    TrimStartText(b, i);
    var s := TrimStart(b);
    assert s[|s| - (|b| - i)] == b[i];
    TrimEndText(s, |s| - (|b| - i));
  }

  lemma {:induction false} TextMakesWords(pieces: seq<Bytes>, k: nat)
    requires k < |pieces| && HasText(pieces[k])
    ensures Cleaned(pieces) != []
  {
    hide Trim, HasText;
    if k == 0 {
      TextSurvivesTrim(pieces[0]);
    } else {
      TextMakesWords(pieces[1..], k - 1);
    }
  }

  lemma {:induction false} TextIsInSomePiece(b: Bytes, i: nat) returns (k: nat)
    requires i < |b| && !IsSpace(b[i])
    ensures k < |Split(b, IsBlank)| && HasText(Split(b, IsBlank)[k])
  {
    var rest := Split(b[1..], IsBlank);
    if i == 0 {
      k := 0;
      assert Split(b, IsBlank)[0] == [b[0]] + rest[0];
      assert Split(b, IsBlank)[0][0] == b[0];
    } else {
      var j := TextIsInSomePiece(b[1..], i - 1);
      if IsBlank(b[0]) {
        k := j + 1;
        assert Split(b, IsBlank)[k] == rest[j];
      } else if j > 0 {
        k := j;
        assert Split(b, IsBlank)[k] == rest[j];
      } else {
        k := 0;
        var p := [b[0]] + rest[0];
        var m :| 0 <= m < |rest[0]| && !IsSpace(rest[0][m]);
        assert p[m + 1] == rest[0][m];
      }
    }
  }

  /** A text that is not all white space has a word. */
  lemma TextHasWords(b: Bytes)
    requires b != [] && Tight(b)
    ensures Words(b) != []
  {
    var k := TextIsInSomePiece(b, 0);
    TextMakesWords(Split(b, IsBlank), k);
  }

  lemma {:induction false} SplitLength(b: Bytes)
    ensures |Join(Split(b, IsBlank), SPACE)| == |b|
  {
    if b != [] {
      SplitLength(b[1..]);
      var rest := Split(b[1..], IsBlank);
      if IsBlank(b[0]) {
        assert Split(b, IsBlank)[1..] == rest;
      } else if |rest| > 1 {
        assert Split(b, IsBlank)[1..] == rest[1..];
      }
    }
  }

  /** The bytes the pieces take with one separator behind each. */
  function Room(pieces: seq<Bytes>): nat {
    if pieces == [] then 0 else |pieces[0]| + 1 + Room(pieces[1..])
  }

  lemma {:induction false} JoinRoom(pieces: seq<Bytes>)
    requires pieces != []
    ensures |Join(pieces, SPACE)| + 1 == Room(pieces)
  {
    if |pieces| > 1 {
      JoinRoom(pieces[1..]);
    }
  }

  lemma {:induction false} CleanedRoom(pieces: seq<Bytes>)
    ensures Room(Cleaned(pieces)) <= Room(pieces)
  {
    hide Trim, Tight;
    if pieces != [] {
      TrimIsTight(pieces[0]);
      var rest := Cleaned(pieces[1..]);
      CleanedRoom(pieces[1..]);
      if Trim(pieces[0]) != [] {
        assert ([Trim(pieces[0])] + rest)[1..] == rest;
      } else {
        assert [] + rest == rest;
      }
    }
  }

  lemma WordsAreShorter(b: Bytes)
    requires Words(b) != []
    ensures |Join(Words(b), SPACE)| <= |b|
  {
    hide Cleaned, Split, Join, Room;
    JoinRoom(Words(b));
    CleanedRoom(Split(b, IsBlank));
    JoinRoom(Split(b, IsBlank));
    SplitLength(b);
  }

  lemma {:induction false} WordsKeepOut(pieces: seq<Bytes>)
    requires forall i :: 0 <= i < |pieces| ==> Without(pieces[i], IsNewline)
    ensures forall i :: 0 <= i < |Cleaned(pieces)| ==> Without(Cleaned(pieces)[i], IsNewline)
  {
    hide Trim, Without;
    if pieces != [] {
      WordsKeepOut(pieces[1..]);
      TrimKeepsOut(pieces[0]);
    }
  }

  lemma TrimKeepsOut(b: Bytes)
    requires Without(b, IsNewline)
    ensures Without(Trim(b), IsNewline)
  {
    TrimIsTight(b);
    var t := Trim(b);
    hide Trim;
    forall i | 0 <= i < |t|
      ensures !IsNewline(t[i])
    {
      assert t[i] in b;
    }
  }

  lemma {:induction false} JoinKeepsOut(words: seq<Bytes>)
    requires words != [] && forall i :: 0 <= i < |words| ==> Without(words[i], IsNewline)
    ensures Without(Join(words, SPACE), IsNewline)
  {
    if |words| > 1 {
      JoinKeepsOut(words[1..]);
    }
  }

  lemma {:induction false} SplitKeepsOut(b: Bytes)
    requires Without(b, IsNewline)
    ensures forall i :: 0 <= i < |Split(b, IsBlank)| ==> Without(Split(b, IsBlank)[i], IsNewline)
  {
    if b != [] {
      SplitKeepsOut(b[1..]);
      var rest, pieces := Split(b[1..], IsBlank), Split(b, IsBlank);
      forall i | 0 <= i < |pieces|
        ensures Without(pieces[i], IsNewline)
      {
        if i > 0 {
          assert pieces[i] == if IsBlank(b[0]) then rest[i - 1] else rest[i];
        }
      }
    }
  }

  lemma {:induction false} JoinIsTight(words: seq<Bytes>)
    requires words != [] && forall i :: 0 <= i < |words| ==> IsWord(words[i])
    ensures Join(words, SPACE) != [] && Tight(Join(words, SPACE))
  {
    assert IsWord(words[0]);
    if |words| > 1 {
      JoinIsTight(words[1..]);
    }
  }

  // ---------------------------------------------------------------------------------------------
  // Print and parse
  // ---------------------------------------------------------------------------------------------

  lemma LineFacts(buf: Bytes)
    requires Magic() <= buf
    ensures Tight(Line(buf)) && Without(Line(buf), IsNewline) && |Line(buf)| + 2 <= |buf|
  {
    FirstPiece(buf[2..], IsNewline);
    PiecesWithout(buf[2..], IsNewline);
    var first := Split(buf[2..], IsNewline)[0];
    TrimIsTight(first);
    TrimKeepsOut(first);
  }

  lemma InterpreterFacts(line: Bytes)
    ensures Without(Interpreter(line), IsBlank)
    ensures |Interpreter(line)| < |line| ==> IsBlank(line[|Interpreter(line)|])
  {
    PiecesWithout(line, IsBlank);
    FirstPiece(line, IsBlank);
  }

  lemma TrimStartBlank(b: Bytes)
    requires b != [] && IsBlank(b[0])
    ensures TrimStart(b) == TrimStart(b[1..])
  {
  }

  /** What is behind a blank of a trimmed line. */
  lemma RestFacts(line: Bytes, n: nat)
    requires Tight(line) && n < |line| && IsBlank(line[n])
    ensures var t := TrimStart(line[n..]);
      t != [] && Tight(t) && n > 0 && n + 1 + |t| <= |line| && t == line[|line| - |t|..]
  {
    hide TrimStart;
    var rest := line[n..];
    TrimStartText(rest, |rest| - 1);
    TrimStartBlank(rest);
    TailOfTail(line, n, |rest| - |TrimStart(rest)|);
  }

  lemma TailOfTail(b: Bytes, n: nat, m: nat)
    requires n + m <= |b|
    ensures b[n..][m..] == b[n + m..]
  {
  }

  /** What the parts of a trimmed line are. */
  lemma ArgumentFacts(line: Bytes)
    requires Tight(line)
    ensures Without(Interpreter(line), IsBlank)
    ensures ArgumentText(line) == [] ==> Interpreter(line) == line
    ensures ArgumentText(line) != [] ==>
      && Interpreter(line) != [] && !IsSpace(Interpreter(line)[0])
      && Tight(ArgumentText(line))
      && |Interpreter(line)| + 1 + |ArgumentText(line)| <= |line|
      && ArgumentText(line) == line[|line| - |ArgumentText(line)|..]
  {
    hide Interpreter, TrimStart;
    InterpreterFacts(line);
    var i := Interpreter(line);
    if |i| < |line| {
      RestFacts(line, |i|);
      assert i[0] == line[0];
    } else {
      assert line[|i|..] == [];
    }
  }

  /** Parsing one line made of an interpreter, a blank and an argument text. */
  lemma ReparsedLine(interpreter: Bytes, blank: byte, text: Bytes)
    requires IsBlank(blank)
    requires interpreter != [] && !IsSpace(interpreter[0]) && Without(interpreter, IsBlank)
    requires text != [] && Tight(text)
    ensures var line := interpreter + [blank] + text;
      Tight(line) && Interpreter(line) == interpreter && ArgumentText(line) == text
  {
    hide Split, TrimStart;
    var line := interpreter + [blank] + text;
    assert line[|line| - 1] == text[|text| - 1];
    SplitPiece(interpreter, blank, text, IsBlank);
    assert line[|interpreter|..] == [blank] + text;
    assert ([blank] + text)[1..] == text;
    TrimStartBlank([blank] + text);
    TrimTight(text);
  }

  /** The first line of a printed shebang is everything behind the magic. */
  lemma PrintedLine(body: Bytes)
    requires Without(body, IsNewline)
    ensures Magic() <= Magic() + body && Line(Magic() + body) == Trim(body)
  {
    assert (Magic() + body)[2..] == body;
    SplitPiece(body, 10, [], IsNewline);
  }

  /** The arguments, joined again. */
  lemma ArgumentsRejoined(text: Bytes, split: bool)
    requires text != [] && Tight(text) && Without(text, IsNewline)
    ensures var joined := JoinArguments(Arguments(text, split));
      && joined != [] && Tight(joined) && |joined| <= |text| && Without(joined, IsNewline)
      && Arguments(joined, split) == Arguments(text, split)
  {
    if split {
      TextHasWords(text);
      PiecesWithout(text, IsBlank);
      WordsAreWords(Split(text, IsBlank));
      JoinIsTight(Words(text));
      WordsAreShorter(text);
      SplitKeepsOut(text);
      WordsKeepOut(Split(text, IsBlank));
      JoinKeepsOut(Words(text));
      WordsJoined(Words(text));
    }
    hide Words, Join;
  }

  lemma PrintParseWithText(line: Bytes, split: bool)
    requires Tight(line) && Without(line, IsNewline) && |line| + 2 <= PEEK_SIZE && ArgumentText(line) != []
    ensures var s := Shebang(Interpreter(line), Arguments(ArgumentText(line), split));
      Parse(Peeked(Print(s)), split) == Some(s)
  {
    hide Arguments, JoinArguments, Tight, Trim, Interpreter, ArgumentText, Line, IsSpace;
    ArgumentFacts(line);
    var interpreter, text := Interpreter(line), ArgumentText(line);
    ArgumentsRejoined(text, split);
    var joined := JoinArguments(Arguments(text, split));
    var body := interpreter + [SPACE] + joined;
    assert Without(body, IsNewline);
    PrintedLine(body);
    ReparsedLine(interpreter, SPACE, joined);
    TrimTight(body);
    assert Magic() + body == Magic() + interpreter + [SPACE] + joined;
  }

  lemma NoArguments(split: bool)
    ensures Arguments([], split) == []
  {
    NoWords();
  }

  lemma PrintParseBare(line: Bytes, split: bool)
    requires Tight(line) && Without(line, IsNewline) && |line| + 2 <= PEEK_SIZE && ArgumentText(line) == []
    ensures var s := Shebang(Interpreter(line), Arguments(ArgumentText(line), split));
      Parse(Peeked(Print(s)), split) == Some(s)
  {
    hide Tight, Trim, Interpreter, ArgumentText, Arguments, Line;
    ArgumentFacts(line);
    NoArguments(split);
    var s := Shebang(line, []);
    assert Print(s) == Magic() + (line + [SPACE]);
    TrimOneSpace(line);
    TrimTight(line);
    PrintedLine(line + [SPACE]);
    PrintedLine(line);
    if |Print(s)| > PEEK_SIZE {
      assert Peeked(Print(s)) == Magic() + line;
    }
  }

  /** Printing a parsed shebang and parsing it again gives the same result in both modes, even when
      the printed line no longer fits into what is peeked at. */
  lemma PrintParse(buf: Bytes, split: bool)
    requires |buf| <= PEEK_SIZE && Magic() <= buf
    ensures Parse(Peeked(Print(Parse(buf, split).value)), split) == Parse(buf, split)
  {
    LineFacts(buf);
    var line := Line(buf);
    hide Tight, Line, Print, Peeked;
    if ArgumentText(line) == [] {
      PrintParseBare(line, split);
    } else {
      PrintParseWithText(line, split);
    }
  }

  /** The two modes agree on the interpreter; the split arguments are the words of the single one. */
  lemma ModesAgree(buf: Bytes)
    requires Magic() <= buf
    ensures var one, many := Parse(buf, false).value, Parse(buf, true).value;
      && one.interpreter == many.interpreter
      && |one.arguments| <= 1
      && many.arguments == (if one.arguments == [] then [] else Words(one.arguments[0]))
      && (one.arguments == [] <==> many.arguments == [])
      && forall i :: 0 <= i < |many.arguments| ==> IsWord(many.arguments[i])
  {
    hide Words, Tight, Line, IsWord, Interpreter, ArgumentText;
    LineFacts(buf);
    ArgumentFacts(Line(buf));
    WordsOfText(ArgumentText(Line(buf)));
  }

  lemma WordsOfText(text: Bytes)
    requires text == [] || Tight(text)
    ensures text == [] <==> Words(text) == []
    ensures forall i :: 0 <= i < |Words(text)| ==> IsWord(Words(text)[i])
  {
    hide Cleaned, Split, Tight, IsWord;
    PiecesWithout(text, IsBlank);
    WordsAreWords(Split(text, IsBlank));
    if text != [] {
      TextHasWords(text);
    } else {
      NoWords();
    }
  }

  lemma NoWords()
    ensures Words([]) == []
  {
    assert Split([], IsBlank) == [[]];
    assert Cleaned([[]]) == Cleaned([]);
  }

  // ---------------------------------------------------------------------------------------------
  // Lines, byte by byte
  // ---------------------------------------------------------------------------------------------

  /** Nothing is a shebang that does not start with `#!`, bytes 35 and 33. */
  lemma OnlyMagic(buf: Bytes, split: bool)
    ensures Parse(buf, split).Some? <==> |buf| >= 2 && buf[0] == 35 && buf[1] == 33
  {
  }

  lemma WithoutNewline(line: Bytes)
    ensures 10 !in line <==> Without(line, IsNewline)
  {
    if 10 in line {
      var i :| 0 <= i < |line| && line[i] == 10;
      assert IsNewline(line[i]);
    }
  }

  lemma WithoutBlank(w: Bytes)
    requires 32 !in w && 9 !in w
    ensures Without(w, IsBlank)
  {
    assert forall k :: 0 <= k < |w| ==> w[k] in w;
  }

  lemma SpaceBytes(c: byte)
    ensures IsSpace(c) <==> c in [32, 9, 10, 12, 13]
  {
  }

  /** The line ends at the first newline, byte 10. */
  lemma FirstLineOnly(line: Bytes, rest: Bytes, split: bool)
    requires 10 !in line
    ensures Parse([35, 33] + line + [10] + rest, split) == Parse([35, 33] + line, split)
  {
    WithoutNewline(line);
    SplitPiece(line, 10, rest, IsNewline);
    assert ([35, 33] + line + [10] + rest)[2..] == line + [10] + rest;
    assert ([35, 33] + line)[2..] == line;
    hide Trim, Interpreter, ArgumentText, Arguments;
  }

  /** The interpreter holds no newline, no space and no tab. */
  lemma InterpreterIsOneWord(buf: Bytes, split: bool)
    requires Parse(buf, split).Some?
    ensures var i := Parse(buf, split).value.interpreter; 10 !in i && 32 !in i && 9 !in i
  {
    LineFacts(buf);
    var line := Line(buf);
    InterpreterFacts(line);
    WithoutNewline(line);
    var i := Interpreter(line);
    hide Line, Interpreter, Arguments, ArgumentText;
    assert forall c :: c in i ==> c in line && !IsBlank(c);
  }

  lemma TightBytes(t: Bytes)
    requires t != [] && t[0] !in [32, 9, 10, 12, 13] && t[|t| - 1] !in [32, 9, 10, 12, 13]
    ensures Tight(t)
  {
    SpaceBytes(t[0]);
    SpaceBytes(t[|t| - 1]);
  }

  lemma TightLine(t: Bytes)
    requires Tight(t) && 10 !in t
    ensures Without(t, IsNewline) && Line([35, 33] + t) == t
  {
    hide Tight, Trim;
    WithoutNewline(t);
    PrintedLine(t);
    TrimTight(t);
  }

  lemma ParsedLine(t: Bytes, split: bool)
    requires Tight(t) && 10 !in t
    ensures Parse([35, 33] + t, split) == Some(Shebang(Interpreter(t), Arguments(ArgumentText(t), split)))
  {
    hide Tight, Interpreter, Arguments, ArgumentText, Line;
    TightLine(t);
  }

  /** An interpreter, a space or a tab, and one more text: the text is the single argument. */
  lemma InterpreterAndText(i: Bytes, blank: byte, t: Bytes)
    requires blank == 32 || blank == 9
    requires i != [] && 10 !in i && 32 !in i && 9 !in i && i[0] !in [32, 9, 10, 12, 13]
    requires t != [] && 10 !in t
    requires t[0] !in [32, 9, 10, 12, 13] && t[|t| - 1] !in [32, 9, 10, 12, 13]
    ensures Parse([35, 33] + i + [blank] + t, false) == Some(Shebang(i, [t]))
    ensures Parse([35, 33] + i + [blank] + t, true) == Some(Shebang(i, Words(t)))
  {
    hide Parse, Tight, IsSpace, Interpreter, ArgumentText, Words;
    var line := i + [blank] + t;
    TightBytes(t);
    SpaceBytes(i[0]);
    WithoutBlank(i);
    ReparsedLine(i, blank, t);
    ParsedLine(line, false);
    ParsedLine(line, true);
    assert [35, 33] + i + [blank] + t == [35, 33] + line;
  }

  lemma OneWordLine(i: Bytes, split: bool)
    requires Without(i, IsBlank)
    ensures Interpreter(i) == i && Arguments(ArgumentText(i), split) == []
  {
    SplitPiece(i, 32, [], IsBlank);
    assert i[|i|..] == [];
    NoArguments(split);
    hide Arguments;
  }

  /** An interpreter alone has no argument. */
  lemma InterpreterAlone(i: Bytes, split: bool)
    requires i != [] && 10 !in i && 32 !in i && 9 !in i
    requires i[0] !in [32, 9, 10, 12, 13] && i[|i| - 1] !in [32, 9, 10, 12, 13]
    ensures Parse([35, 33] + i, split) == Some(Shebang(i, []))
  {
    hide Parse, Tight, IsSpace, Interpreter, ArgumentText, Arguments;
    TightBytes(i);
    WithoutBlank(i);
    OneWordLine(i, split);
    ParsedLine(i, split);
  }

  lemma {:induction false} TrimStartSpaces(ws: Bytes, t: Bytes)
    requires forall k :: 0 <= k < |ws| ==> ws[k] in [32, 9, 10, 12, 13]
    ensures TrimStart(ws + t) == TrimStart(t)
  {
    if ws == [] {
      assert ws + t == t;
    } else {
      assert (ws + t)[1..] == ws[1..] + t;
      TrimStartSpaces(ws[1..], t);
    }
  }

  lemma {:induction false} TrimEndSpaces(t: Bytes, ws: Bytes)
    requires forall k :: 0 <= k < |ws| ==> ws[k] in [32, 9, 10, 12, 13]
    ensures TrimEnd(t + ws) == TrimEnd(t)
  {
    if ws == [] {
      assert t + ws == t;
    } else {
      var b := t + ws;
      assert b[|b| - 1] == ws[|ws| - 1];
      assert b[..|b| - 1] == t + ws[..|ws| - 1];
      TrimEndSpaces(t, ws[..|ws| - 1]);
    }
  }

  lemma TrimAround(before: Bytes, t: Bytes, after: Bytes)
    requires t != [] && Tight(t)
    requires forall k :: 0 <= k < |before| ==> before[k] in [32, 9, 10, 12, 13]
    requires forall k :: 0 <= k < |after| ==> after[k] in [32, 9, 10, 12, 13]
    ensures Trim(before + t + after) == t
  {
    assert before + t + after == before + (t + after);
    TrimStartSpaces(before, t + after);
    assert (t + after)[0] == t[0];
    assert TrimStart(t + after) == t + after;
    TrimEndSpaces(t, after);
    TrimTight(t);
  }

  /** Spaces, tabs, form feeds and carriage returns around the line do not matter. */
  lemma SpacesAround(before: Bytes, t: Bytes, after: Bytes, split: bool)
    requires t != [] && 10 !in before && 10 !in t && 10 !in after
    requires t[0] !in [32, 9, 10, 12, 13] && t[|t| - 1] !in [32, 9, 10, 12, 13]
    requires forall k :: 0 <= k < |before| ==> before[k] in [32, 9, 10, 12, 13]
    requires forall k :: 0 <= k < |after| ==> after[k] in [32, 9, 10, 12, 13]
    ensures Parse([35, 33] + before + t + after, split) == Parse([35, 33] + t, split)
  {
    hide Tight, IsSpace, Trim, Line, Interpreter, ArgumentText, Arguments;
    var line := before + t + after;
    TightBytes(t);
    TightLine(t);
    TrimAround(before, t, after);
    WithoutNewline(line);
    PrintedLine(line);
    assert [35, 33] + before + t + after == [35, 33] + line;
  }

  /** One more byte in front of split pieces. */
  function Grown(c: byte, pieces: seq<Bytes>): seq<Bytes>
    requires |pieces| > 0
  {
    if IsBlank(c) then [[]] + pieces else [[c] + pieces[0]] + pieces[1..]
  }

  lemma SplitFirst(b: Bytes)
    requires b != []
    ensures Split(b, IsBlank) == Grown(b[0], Split(b[1..], IsBlank))
  {
  }

  lemma GrownConcat(c: byte, left: seq<Bytes>, right: seq<Bytes>)
    requires |left| > 0
    ensures Grown(c, left + right) == Grown(c, left) + right
  {
    assert (left + right)[0] == left[0] && (left + right)[1..] == left[1..] + right;
  }

  lemma {:induction false} SplitAtBlank(a: Bytes, blank: byte, b: Bytes)
    requires IsBlank(blank)
    ensures Split(a + [blank] + b, IsBlank) == Split(a, IsBlank) + Split(b, IsBlank)
  {
    var whole := a + [blank] + b;
    SplitFirst(whole);
    if a == [] {
      assert whole[1..] == b;
      SplitNothing();
    } else {
      hide Split, Grown;
      SplitFirst(a);
      assert whole[0] == a[0] && whole[1..] == a[1..] + [blank] + b;
      SplitAtBlank(a[1..], blank, b);
      GrownConcat(a[0], Split(a[1..], IsBlank), Split(b, IsBlank));
    }
  }

  lemma SplitNothing()
    ensures Split([], IsBlank) == [[]]
  {
  }

  lemma {:induction false} CleanedConcat(a: seq<Bytes>, b: seq<Bytes>)
    ensures Cleaned(a + b) == Cleaned(a) + Cleaned(b)
  {
    hide Trim;
    if a == [] {
      assert a + b == b;
    } else {
      assert (a + b)[1..] == a[1..] + b;
      CleanedConcat(a[1..], b);
    }
  }

  /** Words are separated by spaces and tabs; what is between two of them counts trimmed, and not at all if
      nothing is left. */
  lemma WordsApart(a: Bytes, blank: byte, b: Bytes)
    requires blank == 32 || blank == 9
    ensures Words(a + [blank] + b) == Words(a) + Words(b)
    ensures Words([]) == []
  {
    assert IsBlank(blank);
    hide Cleaned, Split, IsBlank;
    NoWords();
    SplitAtBlank(a, blank, b);
    CleanedConcat(Split(a, IsBlank), Split(b, IsBlank));
  }

  lemma OneWord(w: Bytes)
    requires w != [] && 32 !in w && 9 !in w
    requires w[0] !in [32, 9, 10, 12, 13] && w[|w| - 1] !in [32, 9, 10, 12, 13]
    ensures Words(w) == [w]
  {
    hide IsSpace, Tight, Trim;
    WithoutBlank(w);
    TightBytes(w);
    SplitPiece(w, 32, [], IsBlank);
    WordsOfWords([w]);
  }

  // ---------------------------------------------------------------------------------------------
  // Peeking
  // ---------------------------------------------------------------------------------------------

  /** One `read` call: it fails, or it transfers some bytes, at least one when there are any left and
      there is room for any. */
  datatype ReadAnswer = ReadFails(errno: Errno) | Transfers(atMost: nat)

  function Transferred(answer: ReadAnswer, available: nat): nat
    requires answer.Transfers?
  {
    if available == 0 then 0
    else if answer.atMost == 0 then 1
    else if answer.atMost < available then answer.atMost
    else available
  }

  /** `peek_executable` on a file that opened: reads until nothing comes, however the reads are cut
      short. */
  method PeekExecutable(content: Bytes, buf: array<byte>, answers: nat -> ReadAnswer) returns (r: Result<nat, Errno>)
    modifies buf
    ensures (forall i: nat :: answers(i).Transfers?) ==> r.Ok?
    ensures r.Ok? ==>
      && r.value == (if |content| <= buf.Length then |content| else buf.Length)
      && buf[..r.value] == content[..r.value]
    ensures r.Err? ==> exists i: nat :: answers(i) == ReadFails(r.error)
  {
    var total, calls := 0, 0;
    while true
      invariant total <= |content| && total <= buf.Length && buf[..total] == content[..total]
      decreases |content| - total
    {
      var answer := answers(calls);
      calls := calls + 1;
      if answer.ReadFails? {
        return Err(answer.errno);
      }
      var available := if |content| - total <= buf.Length - total then |content| - total else buf.Length - total;
      var n := Transferred(answer, available);
      if n == 0 {
        break;
      }
      for i := 0 to n
        invariant buf[..total + i] == content[..total + i]
      {
        buf[total + i] := content[total + i];
      }
      total := total + n;
    }
    r := Ok(total);
  }

  /** `parse_shebang` on an opened file: the result depends on its first 128 bytes only. */
  method ParseShebang(content: Bytes, answers: nat -> ReadAnswer, split: bool)
    returns (r: Result<Option<Shebang>, Errno>)
    ensures (forall i: nat :: answers(i).Transfers?) ==> r.Ok?
    ensures r.Ok? ==> r.value == Parse(Peeked(content), split)
    ensures r.Ok? ==> r.value == Parse(if |content| <= 128 then content else content[..128], split)
    ensures r.Err? ==> exists i: nat :: answers(i) == ReadFails(r.error)
  {
    hide Parse;
    var buf := new byte[PEEK_SIZE](_ => 0);
    var n := PeekExecutable(content, buf, answers);
    if n.Err? {
      return Err(n.error);
    }
    assert buf[..n.value] == Peeked(content);
    r := Ok(Parse(buf[..n.value], split));
  }
}

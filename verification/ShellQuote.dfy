/**
The quoting of src/process.rs against a reader of shell words.
*/
module ShellQuote {
  import opened Common

  // The reader follows sections 2.2.1 and 2.2.2 of the POSIX Shell Command Language
  // (IEEE Std 1003.1-2017).

  /** Every single quote is closed, escaped and reopened. */
  function Replaced(value: string): string {
    if value == [] then ""
    else (if value[0] == '\'' then "'\\''" else [value[0]]) + Replaced(value[1..])
  }

  function ShellSingleQuote(value: string): string {
    "'" + Replaced(value) + "'"
  }

  lemma {:induction false} ReplacedInParts(a: string, b: string)
    ensures Replaced(a + b) == Replaced(a) + Replaced(b)
  {
    if a == [] {
      assert a + b == b;
    } else {
      assert (a + b)[1..] == a[1..] + b;
      ReplacedInParts(a[1..], b);
    }
  }

  lemma {:induction false} NothingReplaced(value: string)
    requires '\'' !in value
    ensures Replaced(value) == value
  {
    if value != [] {
      NothingReplaced(value[1..]);
      assert value == [value[0]] + value[1..];
    }
  }

  lemma TwoQuoted(q: string, m: string, x: string, y: string)
    ensures q + (x + (q + m + q) + y) + q == (q + x + q) + m + (q + y + q)
  {
  }

  lemma QuoteAtQuote(a: string, b: string)
    ensures ShellSingleQuote(a + "'" + b) == ShellSingleQuote(a) + "\\'" + ShellSingleQuote(b)
  {
    ReplacedInParts(a + "'", b);
    ReplacedInParts(a, "'");
    assert Replaced("'") == "'" + "\\'" + "'";
    TwoQuoted("'", "\\'", Replaced(a), Replaced(b));
  }

  /** A value without single quotes is put between two. At a single quote the value is parted,
      both parts are quoted, and an escaped quote is put between them. */
  lemma QuoteMeans(value: string)
    ensures '\'' !in value ==> ShellSingleQuote(value) == "'" + value + "'"
    ensures forall a, b :: value == a + "'" + b ==>
      ShellSingleQuote(value) == ShellSingleQuote(a) + "\\'" + ShellSingleQuote(b)
  {
    if '\'' !in value {
      NothingReplaced(value);
    }
    forall a, b | value == a + "'" + b
      ensures ShellSingleQuote(value) == ShellSingleQuote(a) + "\\'" + ShellSingleQuote(b)
    {
      QuoteAtQuote(a, b);
    }
  }

  // ---------- the shell's reader of commands ----------

  datatype Mode = Unquoted | Quoting | Escaping | Stuck

  /** The commands read so far, the words of the command being read, the word being read if
      one has begun, and how the next character is taken. */
  datatype Reader = Reader(commands: seq<seq<string>>, words: seq<string>, current: Option<string>, mode: Mode)
  {
    function Text(): string { if current.Some? then current.value else "" }

    function Add(c: char, next: Mode): Reader {
      this.(current := Some(Text() + [c]), mode := next)
    }

    function EndWord(): Reader {
      if current.Some? then this.(words := words + [current.value], current := None) else this
    }

    /** A semicolon must have a command before it. */
    function EndCommand(): Reader {
      var r := EndWord();
      if r.words == [] then r.(mode := Stuck) else r.(commands := commands + [r.words], words := [])
    }

    function All(): seq<seq<string>> {
      var r := EndWord();
      if r.words == [] then commands else commands + [r.words]
    }
  }

  const START := Reader([], [], None, Unquoted)

  predicate IsBlank(c: char) {
    c == ' ' || c == '\t'
  }

  /** Characters that mean something other than themselves when they are not quoted: of the
      operators the reader knows the semicolon, and it knows nothing of expansions,
      patterns and comments. */
  predicate IsSpecial(c: char) {
    c in "|&<>()$`\"*?[]#~=%!{}\n"
  }

  function Step(r: Reader, c: char): Reader {
    match r.mode
    case Unquoted =>
      if c == '\\' then r.(mode := Escaping)
      else if c == '\'' then r.(current := Some(r.Text()), mode := Quoting)
      else if IsBlank(c) then r.EndWord()
      else if c == ';' then r.EndCommand()
      else if IsSpecial(c) then r.(mode := Stuck)
      else r.Add(c, Unquoted)
    case Escaping => if c == '\n' then r.(mode := Unquoted) else r.Add(c, Unquoted)
    case Quoting => if c == '\'' then r.(mode := Unquoted) else r.Add(c, Quoting)
    case Stuck => r
  }

  function Scan(r: Reader, text: string): Reader
    decreases |text|
  {
    if text == [] then r else Scan(Step(r, text[0]), text[1..])
  }

  /** The commands of a text, each as its words; None if a quote is left open or something
      special is met. */
  function Read(text: string): Option<seq<seq<string>>> {
    var r := Scan(START, text);
    if r.mode.Unquoted? then Some(r.All()) else None
  }

  // ---------- reading in parts ----------

  lemma {:induction false} ScanInParts(r: Reader, a: string, b: string)
    ensures Scan(r, a + b) == Scan(Scan(r, a), b)
    decreases |a|
  {
    if a == [] {
      assert a + b == b;
    } else {
      assert (a + b)[1..] == a[1..] + b;
      ScanInParts(Step(r, a[0]), a[1..], b);
    }
  }

  /** A word or a command has begun. */
  predicate Begun(r: Reader) {
    r.commands != [] || r.words != [] || r.current.Some?
  }

  /** The reader with earlier commands, and earlier words in front of its first command. */
  function Behind(commands: seq<seq<string>>, words: seq<string>, r: Reader): Reader {
    if r.commands == [] then Reader(commands, words + r.words, r.current, r.mode)
    else Reader(Attach(commands, words, r.commands), r.words, r.current, r.mode)
  }

  function Attach(commands: seq<seq<string>>, words: seq<string>, more: seq<seq<string>>): seq<seq<string>>
    requires more != []
  {
    commands + [words + more[0]] + more[1..]
  }

  lemma EndWordBehind(commands: seq<seq<string>>, words: seq<string>, r: Reader)
    ensures Behind(commands, words, r).EndWord() == Behind(commands, words, r.EndWord())
  {
    if r.current.Some? {
      assert (words + r.words) + [r.current.value] == words + (r.words + [r.current.value]);
    }
  }

  lemma OneMoreBehind(commands: seq<seq<string>>, words: seq<string>, r: Reader)
    requires r.words != []
    ensures Attach(commands, words, r.commands + [r.words])
      == Behind(commands, words, r).commands + [Behind(commands, words, r).words]
  {
    var more := r.commands + [r.words];
    if r.commands == [] {
      assert more == [r.words] && more[1..] == [];
    } else {
      assert more[1..] == r.commands[1..] + [r.words];
    }
  }

  lemma EndCommandBehind(commands: seq<seq<string>>, words: seq<string>, r: Reader)
    requires Begun(r)
    ensures Behind(commands, words, r).EndCommand() == Behind(commands, words, r.EndCommand())
  {
    EndWordBehind(commands, words, r);
    if r.EndWord().words != [] {
      OneMoreBehind(commands, words, r.EndWord());
    }
  }

  lemma StepBehind(commands: seq<seq<string>>, words: seq<string>, r: Reader, c: char)
    requires Begun(r)
    ensures Step(Behind(commands, words, r), c) == Behind(commands, words, Step(r, c)) && Begun(Step(r, c))
  {
    EndWordBehind(commands, words, r);
    EndCommandBehind(commands, words, r);
  }

  /** Earlier commands and words do not change how a text is read. */
  lemma {:induction false} ScanBehind(commands: seq<seq<string>>, words: seq<string>, r: Reader, text: string)
    requires Begun(r)
    ensures Scan(Behind(commands, words, r), text) == Behind(commands, words, Scan(r, text)) && Begun(Scan(r, text))
    decreases |text|
  {
    if text != [] {
      StepBehind(commands, words, r, text[0]);
      ScanBehind(commands, words, Step(r, text[0]), text[1..]);
    }
  }

  lemma AllBehind(commands: seq<seq<string>>, words: seq<string>, r: Reader)
    requires Begun(r)
    ensures r.All() != [] && Behind(commands, words, r).All() == Attach(commands, words, r.All())
  {
    EndWordBehind(commands, words, r);
    if r.EndWord().words != [] {
      OneMoreBehind(commands, words, r.EndWord());
    }
  }

  // ---------- quoting ----------

  lemma ReopenAddsQuote(r: Reader)
    requires r.mode.Quoting?
    ensures Scan(r, "'\\''") == r.Add('\'', Quoting)
  {
    var t := "'\\''";
    var closed := Step(r, t[0]);
    var escaped := Step(closed, t[1]);
    var added := Step(escaped, t[2]);
    assert Scan(r, t) == Scan(closed, t[1..]);
    assert t[1..][0] == t[1] && t[1..][1..] == t[2..];
    assert Scan(closed, t[1..]) == Scan(escaped, t[2..]);
    assert t[2..][0] == t[2] && t[2..][1..] == t[3..];
    assert Scan(escaped, t[2..]) == Scan(added, t[3..]);
    assert t[3..][0] == t[3] && t[3..][1..] == "";
  }

  lemma {:induction false} ReplacedIsTakenLiterally(r: Reader, value: string)
    requires r.mode.Quoting? && r.current.Some?
    ensures Scan(r, Replaced(value)) == r.(current := Some(r.current.value + value))
    decreases |value|
  {
    if value == [] {
      assert r.current.value + value == r.current.value;
    } else {
      var c := value[0];
      var piece := if c == '\'' then "'\\''" else [c];
      ScanInParts(r, piece, Replaced(value[1..]));
      if c == '\'' {
        ReopenAddsQuote(r);
      } else {
        assert [c][1..] == [];
      }
      ReplacedIsTakenLiterally(r.Add(c, Quoting), value[1..]);
      assert r.current.value + value == (r.current.value + [c]) + value[1..];
    }
  }

  /** Wherever a word may be, a quoted value adds exactly its characters to it, and leaves
      the reader outside quotes. */
  lemma QuotedValueIsLiteral(r: Reader, value: string)
    requires r.mode.Unquoted?
    ensures Scan(r, ShellSingleQuote(value)) == r.(current := Some(r.Text() + value))
  {
    var open := r.(current := Some(r.Text()), mode := Quoting);
    ScanInParts(r, "'" + Replaced(value), "'");
    ScanInParts(r, "'", Replaced(value));
    assert "'"[1..] == "";
    assert Scan(r, "'") == open;
    ReplacedIsTakenLiterally(open, value);
  }

  /** A quoted value is one command of one word, and that word is the value. */
  lemma QuotedIsOneWord(value: string)
    ensures Read(ShellSingleQuote(value)) == Some([[value]])
  {
    QuotedValueIsLiteral(START, value);
    assert "" + value == value;
    assert Reader([], [], Some(value), Unquoted).EndWord().words == [value];
    assert [] + [[value]] == [[value]];
  }

  lemma Blank(r: Reader)
    requires r.mode.Unquoted?
    ensures Scan(r, " ") == r.EndWord()
  {
    assert " "[1..] == "";
  }

  /** Behind a blank in a longer line the quoted value, with whatever follows it, is read as
      if it stood alone: its first command goes on from the words before it, the others
      follow. The text before it may hold commands that are complete. */
  lemma QuotedBehindText(before: string, value: string, after: string)
    requires Read(before).Some?
    ensures var r := Scan(START, before).EndWord();
      var alone := Read(ShellSingleQuote(value) + after);
      && (alone.Some? ==> alone.value != [])
      && Read(before + " " + ShellSingleQuote(value) + after) ==
           if alone.Some? then Some(Attach(r.commands, r.words, alone.value)) else None
  {
    var q := ShellSingleQuote(value);
    var r := Scan(START, before).EndWord();
    var alone := Reader([], [], Some(value), Unquoted);
    ScanInParts(START, before + " " + q, after);
    ScanInParts(START, before + " ", q);
    ScanInParts(START, before, " ");
    Blank(Scan(START, before));
    QuotedValueIsLiteral(r, value);
    assert "" + value == value && r.words + [] == r.words;
    QuotedValueIsLiteral(START, value);
    ScanInParts(START, q, after);
    ScanBehind(r.commands, r.words, alone, after);
    AllBehind(r.commands, r.words, Scan(alone, after));
  }

  // ---------- command lines ----------

  function CommandLine(args: seq<string>): string {
    if args == [] then ""
    else if |args| == 1 then ShellSingleQuote(args[0])
    else CommandLine(args[..|args| - 1]) + " " + ShellSingleQuote(args[|args| - 1])
  }

  lemma {:induction false} CommandLineScans(args: seq<string>)
    requires args != []
    ensures Scan(START, CommandLine(args)) == Reader([], args[..|args| - 1], Some(args[|args| - 1]), Unquoted)
  {
    var last := args[|args| - 1];
    assert "" + last == last;
    if |args| == 1 {
      QuotedValueIsLiteral(START, last);
    } else {
      var others := args[..|args| - 1];
      CommandLineScans(others);
      ScanInParts(START, CommandLine(others) + " ", ShellSingleQuote(last));
      ScanInParts(START, CommandLine(others), " ");
      Blank(Scan(START, CommandLine(others)));
      assert others[..|others| - 1] + [others[|others| - 1]] == others;
      QuotedValueIsLiteral(Reader([], others, None, Unquoted), last);
    }
  }

  /** The one command with these words; no words, no command. */
  function OneCommand(args: seq<string>): seq<seq<string>> {
    if args == [] then [] else [args]
  }

  /** Quoted arguments joined by blanks are read back as one command of these arguments,
      whatever characters, quotes or nothing at all they hold. */
  lemma CommandLineReadsBack(args: seq<string>)
    ensures Read(CommandLine(args)) == Some(OneCommand(args))
  {
    if args != [] {
      CommandLineScans(args);
      assert args[..|args| - 1] + [args[|args| - 1]] == args;
      assert [] + [args] == [args];
    }
  }

  /** A command line quoted again, `depth` times over, as for a shell started by a shell. */
  function Nested(depth: nat, args: seq<string>): string {
    if depth == 0 then CommandLine(args) else ShellSingleQuote(Nested(depth - 1, args))
  }

  /** What a tower of shells makes of a text: each reads one word and passes it on. */
  function Unnested(depth: nat, text: string): Option<seq<seq<string>>> {
    var commands := Read(text);
    if depth == 0 || commands.None? then commands
    else if |commands.value| == 1 && |commands.value[0]| == 1 then Unnested(depth - 1, commands.value[0][0])
    else None
  }

  lemma {:induction false} NestingReadsBack(depth: nat, args: seq<string>)
    ensures Unnested(depth, Nested(depth, args)) == Some(OneCommand(args))
  {
    if depth == 0 {
      CommandLineReadsBack(args);
    } else {
      QuotedIsOneWord(Nested(depth - 1, args));
      NestingReadsBack(depth - 1, args);
    }
  }

  // ---------- the command that closes a window ----------

  /** A word of characters that stand for themselves outside quotes. */
  predicate IsPlainWord(word: string) {
    word != [] && forall c :: c in word ==> c != '\\' && c != '\'' && !IsBlank(c) && c != ';' && !IsSpecial(c)
  }

  lemma {:induction false} PlainScan(r: Reader, word: string)
    requires r.mode.Unquoted? && r.current.Some? && (word == [] || IsPlainWord(word))
    ensures Scan(r, word) == r.(current := Some(r.current.value + word))
    decreases |word|
  {
    if word == [] {
      assert r.current.value + word == r.current.value;
    } else {
      assert word[0] in word && forall c :: c in word[1..] ==> c in word;
      PlainScan(r.Add(word[0], Unquoted), word[1..]);
      assert (r.current.value + [word[0]]) + word[1..] == r.current.value + word;
    }
  }

  lemma PlainWord(r: Reader, word: string)
    requires r.mode.Unquoted? && r.current == None && IsPlainWord(word)
    ensures Scan(r, word) == r.(current := Some(word))
  {
    assert word[0] in word && forall c :: c in word[1..] ==> c in word;
    PlainScan(r.Add(word[0], Unquoted), word[1..]);
    assert ("" + [word[0]]) + word[1..] == word;
  }

  /** A blank and a plain word behind a word. */
  lemma NextWord(r: Reader, text: string, words: seq<string>, last: string, word: string)
    requires Scan(r, text) == Reader([], words, Some(last), Unquoted) && IsPlainWord(word)
    ensures Scan(r, text + " " + word) == Reader([], words + [last], Some(word), Unquoted)
  {
    ScanInParts(r, text + " ", word);
    ScanInParts(r, text, " ");
    Blank(Reader([], words, Some(last), Unquoted));
    PlainWord(Reader([], words + [last], None, Unquoted), word);
  }

  lemma ThenSemicolon(r: Reader, text: string, words: seq<string>, last: string)
    requires Scan(r, text) == Reader([], words, Some(last), Unquoted)
    ensures Scan(r, text + ";") == Reader([words + [last]], [], None, Unquoted)
  {
    ScanInParts(r, text, ";");
    assert ";"[1..] == "";
    assert [] + [words + [last]] == [words + [last]];
  }

  /** A command of two plain words and its semicolon. */
  lemma PlainCommand(a: string, b: string)
    requires IsPlainWord(a) && IsPlainWord(b)
    ensures Scan(START, a + " " + b + ";") == Reader([[a, b]], [], None, Unquoted)
  {
    PlainWord(START, a);
    NextWord(START, a, [], a, b);
    assert [] + [a] == [a];
    ThenSemicolon(START, a + " " + b, [a], b);
    assert [a] + [b] == [a, b];
  }

  /** A quoted program with two plain words and a quoted argument. */
  lemma QuotedCommand(bin: string, a: string, b: string, id: string)
    requires IsPlainWord(a) && IsPlainWord(b)
    ensures Read(ShellSingleQuote(bin) + " " + a + " " + b + " " + ShellSingleQuote(id)) == Some([[bin, a, b, id]])
  {
    var q := ShellSingleQuote(bin);
    QuotedValueIsLiteral(START, bin);
    assert "" + bin == bin;
    NextWord(START, q, [], bin, a);
    assert [] + [bin] == [bin];
    NextWord(START, q + " " + a, [bin], a, b);
    assert [bin] + [a] == [bin, a];
    QuotedLast(q + " " + a + " " + b, [bin, a], b, id);
    assert [bin, a] + [b, id] == [bin, a, b, id];
  }

  lemma QuotedLast(text: string, words: seq<string>, last: string, id: string)
    requires Scan(START, text) == Reader([], words, Some(last), Unquoted)
    ensures Read(text + " " + ShellSingleQuote(id)) == Some([words + [last, id]])
  {
    QuotedBehindText(text, id, "");
    QuotedIsOneWord(id);
    assert ShellSingleQuote(id) + "" == ShellSingleQuote(id);
    assert text + " " + ShellSingleQuote(id) + "" == text + " " + ShellSingleQuote(id);
    assert (words + [last]) + [id] == words + [last, id];
    assert [] + [(words + [last]) + [id]] + [] == [words + [last, id]];
    assert [[id]][1..] == [];
  }

  /** A plain command, a semicolon and a quoted program with its arguments. */
  lemma PauseThenCommand(a: string, b: string, bin: string, c: string, d: string, id: string)
    requires IsPlainWord(a) && IsPlainWord(b) && IsPlainWord(c) && IsPlainWord(d)
    ensures Read(a + " " + b + ";" + " " + ShellSingleQuote(bin) + (" " + c + " " + d + " " + ShellSingleQuote(id))) ==
      Some([[a, b], [bin, c, d, id]])
  {
    var rest := " " + c + " " + d + " " + ShellSingleQuote(id);
    PlainCommand(a, b);
    QuotedCommand(bin, c, d, id);
    assert ShellSingleQuote(bin) + " " + c + " " + d + " " + ShellSingleQuote(id) == ShellSingleQuote(bin) + rest;
    QuotedBehindText(a + " " + b + ";", bin, rest);
    AttachOne([a, b], [bin, c, d, id]);
  }

  lemma AttachOne(first: seq<string>, second: seq<string>)
    ensures Attach([first], [], [second]) == [first, second]
  {
    assert [] + second == second;
    assert [second][1..] == [];
  }

  function CleanupCommand(bin: string, id: string): string {
    "sleep 0.5; " + ShellSingleQuote(bin) + " kill-window -t " + ShellSingleQuote(id)
  }

  /** Letters, digits, dashes and points stand for themselves. */
  lemma PlainCharacters(word: string)
    requires word != []
    requires forall c :: c in word ==> 'a' <= c <= 'z' || '0' <= c <= '9' || c == '-' || c == '.'
    ensures IsPlainWord(word)
  {
  }

  lemma PauseWords()
    ensures IsPlainWord("sleep") && IsPlainWord("0.5")
  {
    PlainCharacters("sleep");
    PlainCharacters("0.5");
  }

  lemma KillWords()
    ensures IsPlainWord("kill-window") && IsPlainWord("-t")
  {
    PlainCharacters("kill-window");
    PlainCharacters("-t");
  }

  lemma CleanupText(q: string, r: string)
    ensures "sleep 0.5; " + q + " kill-window -t " + r ==
      "sleep" + " " + "0.5" + ";" + " " + q + (" " + "kill-window" + " " + "-t" + " " + r)
  {
    assert "sleep 0.5; " == "sleep" + " " + "0.5" + ";" + " ";
    assert " kill-window -t " == " " + "kill-window" + " " + "-t" + " ";
  }

  /** Whatever the program path and the window id hold, the command line that closes a tmux
      window is a pause and then the one command, with path and id as words of their own. */
  lemma CleanupCommandReads(bin: string, id: string)
    ensures Read(CleanupCommand(bin, id)) == Some([["sleep", "0.5"], [bin, "kill-window", "-t", id]])
  {
    PauseWords();
    KillWords();
    CleanupText(ShellSingleQuote(bin), ShellSingleQuote(id));
    PauseThenCommand("sleep", "0.5", bin, "kill-window", "-t", id);
  }
}

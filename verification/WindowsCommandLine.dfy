/** The printer of Windows command lines (`quoteWindowsCommandLineArgument` and `makeWindowsCommandLine`
    of src/main/app_runtime.cpp) and the rules by which `CommandLineToArgvW` reads them back. */
module WindowsCommandLine {

  newtype WideChar = x: int | 0 <= x < 0x1_0000

  type WideString = seq<WideChar>

  const NUL: WideChar := 0
  const TAB: WideChar := 9
  const SPACE: WideChar := 32
  const QUOTE: WideChar := 34
  const BACKSLASH: WideChar := 92

  function Slashes(count: nat): (text: WideString)
    ensures |text| == count && forall k | 0 <= k < count :: text[k] == BACKSLASH
  {
    if count == 0 then [] else Slashes(count - 1) + [BACKSLASH]
  }

  // ---- The printer ----

  /** The backslashes at the end of a text. */
  function TrailingSlashes(value: WideString): (count: nat)
    ensures count <= |value|
  {
    if value == [] || value[|value| - 1] != BACKSLASH then 0 else 1 + TrailingSlashes(value[..|value| - 1])
  }

  /** What is printed for `value` before its trailing backslashes. */
  function Printed(value: WideString): WideString {
    if value == [] then [QUOTE]
    else
      var front, last := value[..|value| - 1], value[|value| - 1];
      if last == BACKSLASH then Printed(front)
      else if last == QUOTE then Printed(front) + Slashes(2 * TrailingSlashes(front) + 1) + [QUOTE]
      else Printed(front) + Slashes(TrailingSlashes(front)) + [last]
  }

  function Quoted(value: WideString): WideString {
    Printed(value) + Slashes(2 * TrailingSlashes(value)) + [QUOTE]
  }

  method QuoteWindowsCommandLineArgument(value: WideString) returns (result: WideString)
    ensures result == Quoted(value)
  {
    result := [QUOTE];
    var slashCount := 0;
    for i := 0 to |value|
      invariant result == Printed(value[..i]) && slashCount == TrailingSlashes(value[..i])
    {
      assert value[..i + 1][..i] == value[..i];
      var character := value[i];
      if character == BACKSLASH {
        slashCount := slashCount + 1;
        continue;
      }
      if character == QUOTE {
        result := result + Slashes(slashCount * 2 + 1);
        result := result + [character];
        slashCount := 0;
        continue;
      }
      result := result + Slashes(slashCount);
      slashCount := 0;
      result := result + [character];
    }
    assert value[..|value|] == value;
    result := result + Slashes(slashCount * 2);
    result := result + [QUOTE];
  }

  function ArgumentsText(arguments: seq<WideString>): WideString {
    if arguments == [] then []
    else ArgumentsText(arguments[..|arguments| - 1]) + ([SPACE] + Quoted(arguments[|arguments| - 1]))
  }

  function CommandLine(executablePath: WideString, arguments: seq<WideString>): WideString {
    Quoted(executablePath) + ArgumentsText(arguments)
  }

  method MakeWindowsCommandLine(executablePath: WideString, arguments: seq<WideString>) returns (commandLine: WideString)
    ensures commandLine == CommandLine(executablePath, arguments)
  {
    commandLine := QuoteWindowsCommandLineArgument(executablePath);
    for i := 0 to |arguments|
      invariant commandLine == CommandLine(executablePath, arguments[..i])
    {
      assert arguments[..i + 1][..i] == arguments[..i];
      var quoted := QuoteWindowsCommandLineArgument(arguments[i]);
      commandLine := commandLine + [SPACE];
      commandLine := commandLine + quoted;
      assert commandLine == CommandLine(executablePath, arguments[..i + 1]);
    }
    assert arguments[..|arguments|] == arguments;
  }

  // ---- The reader ----

  /** The reader after some characters: finished arguments, the one being read, the backslashes not yet
      interpreted and whether it is inside quotes. */
  datatype Reader = Reader(finished: seq<WideString>, current: WideString, started: bool, slashes: nat, quoted: bool)

  /** 2n backslashes before a quote stand for n and the quote delimits; 2n + 1 stand for n and a quote
      character; other backslashes stand for themselves. */
  function Read(r: Reader, c: WideChar): Reader {
    if c == BACKSLASH then r.(started := true, slashes := r.slashes + 1)
    else if c == QUOTE then
      if r.slashes % 2 == 0
      then Reader(r.finished, r.current + Slashes(r.slashes / 2), true, 0, !r.quoted)
      else Reader(r.finished, r.current + Slashes(r.slashes / 2) + [QUOTE], true, 0, r.quoted)
    else if (c == SPACE || c == TAB) && !r.quoted then Finish(r)
    else Reader(r.finished, r.current + Slashes(r.slashes) + [c], true, 0, r.quoted)
  }

  function Finish(r: Reader): Reader {
    if !r.started then r else Reader(r.finished + [r.current + Slashes(r.slashes)], [], false, 0, false)
  }

  function ReadAll(r: Reader, text: WideString): Reader {
    if text == [] then r else Read(ReadAll(r, text[..|text| - 1]), text[|text| - 1])
  }

  const AT_START := Reader([], [], false, 0, false)

  function IndexOf(text: WideString, c: WideChar, from: nat): (index: nat)
    requires from <= |text|
    ensures from <= index <= |text| && (index < |text| ==> text[index] == c)
    ensures forall k | from <= k < index :: text[k] != c
    decreases |text| - from
  {
    if from == |text| || text[from] == c then from else IndexOf(text, c, from + 1)
  }

  function FirstBlank(text: WideString, from: nat): (index: nat)
    requires from <= |text|
    ensures from <= index <= |text|
    decreases |text| - from
  {
    if from == |text| || text[from] == SPACE || text[from] == TAB then from else FirstBlank(text, from + 1)
  }

  /** What follows the program name. A quoted name ends at the next quote, without any escapes. */
  function AfterProgramName(text: WideString): WideString {
    if text == [] then []
    else if text[0] == QUOTE then
      var close := IndexOf(text, QUOTE, 1);
      if close == |text| then [] else text[close + 1..]
    else text[FirstBlank(text, 0)..]
  }

  /** A command line is a string that ends at the first NUL. */
  function Visible(text: WideString): WideString {
    text[..IndexOf(text, NUL, 0)]
  }

  /** The arguments after the program name, as a process started with this command line sees them. */
  function DecodedArguments(commandLine: WideString): seq<WideString> {
    Finish(ReadAll(AT_START, AfterProgramName(Visible(commandLine)))).finished
  }

  // ---- The reader undoes the printer ----

  lemma {:induction false} ReadAllOfConcat(r: Reader, a: WideString, b: WideString)
    ensures ReadAll(r, a + b) == ReadAll(ReadAll(r, a), b)
  {
    if b == [] {
      assert a + b == a;
    } else {
      ReadAllOfConcat(r, a, b[..|b| - 1]);
      assert (a + b)[..|a + b| - 1] == a + b[..|b| - 1];
    }
  }

  lemma {:induction false} ReadOne(r: Reader, c: WideChar)
    ensures ReadAll(r, [c]) == Read(r, c)
  {
    assert [c][..0] == [];
  }

  lemma {:induction false} ReadSlashes(r: Reader, count: nat)
    ensures ReadAll(r, Slashes(count)) == if count == 0 then r else r.(started := true, slashes := r.slashes + count)
  {
    if count > 0 {
      ReadSlashes(r, count - 1);
      assert Slashes(count)[..count - 1] == Slashes(count - 1);
    }
  }

  lemma {:induction false} ReadSlashesThen(r: Reader, count: nat, c: WideChar)
    requires r.started && r.slashes == 0
    ensures ReadAll(r, Slashes(count) + [c]) == Read(r.(slashes := count), c)
  {
    ReadAllOfConcat(r, Slashes(count), [c]);
    ReadSlashes(r, count);
    ReadOne(ReadAll(r, Slashes(count)), c);
  }

  lemma {:induction false} SplitTrailingSlashes(value: WideString)
    ensures value == value[..|value| - TrailingSlashes(value)] + Slashes(TrailingSlashes(value))
  {
    if value != [] && value[|value| - 1] == BACKSLASH {
      var front := value[..|value| - 1];
      SplitTrailingSlashes(front);
      assert value == front + [BACKSLASH];
      assert front[..|front| - TrailingSlashes(front)] == value[..|value| - TrailingSlashes(value)];
    }
  }

  function Inside(finished: seq<WideString>, current: WideString): Reader {
    Reader(finished, current, true, 0, true)
  }

  function SlashesBefore(n: nat, c: WideChar): nat {
    if c == QUOTE then 2 * n + 1 else n
  }

  /** A printed run of backslashes and the character after it stand for what they were printed for. */
  lemma {:induction false} ReadRun(finished: seq<WideString>, current: WideString, n: nat, c: WideChar)
    requires c != BACKSLASH
    ensures ReadAll(Inside(finished, current), Slashes(SlashesBefore(n, c)) + [c])
         == Inside(finished, current + Slashes(n) + [c])
  {
    ReadSlashesThen(Inside(finished, current), SlashesBefore(n, c), c);
  }

  lemma {:induction false} ReadClosing(finished: seq<WideString>, current: WideString, n: nat)
    ensures ReadAll(Inside(finished, current), Slashes(2 * n) + [QUOTE])
         == Reader(finished, current + Slashes(n), true, 0, false)
  {
    ReadSlashesThen(Inside(finished, current), 2 * n, QUOTE);
  }

  function Kept(value: WideString): WideString {
    value[..|value| - TrailingSlashes(value)]
  }

  lemma {:induction false} KeptOfLast(value: WideString)
    requires value != []
    ensures var front, last := value[..|value| - 1], value[|value| - 1];
      Kept(value) == if last == BACKSLASH then Kept(front) else Kept(front) + Slashes(TrailingSlashes(front)) + [last]
  {
    SplitTrailingSlashes(value[..|value| - 1]);
  }

  /** Inside the quotes the reader has got back all of the value but its trailing backslashes. */
  lemma {:induction false} ReadPrinted(finished: seq<WideString>, value: WideString)
    ensures ReadAll(Reader(finished, [], false, 0, false), Printed(value)) == Inside(finished, Kept(value))
  {
    var start := Reader(finished, [], false, 0, false);
    if value == [] {
      ReadOne(start, QUOTE);
    } else {
      var front, last := value[..|value| - 1], value[|value| - 1];
      ReadPrinted(finished, front);
      KeptOfLast(value);
      if last != BACKSLASH {
        var run := Slashes(SlashesBefore(TrailingSlashes(front), last)) + [last];
        assert Printed(value) == Printed(front) + run;
        ReadAllOfConcat(start, Printed(front), run);
        ReadRun(finished, Kept(front), TrailingSlashes(front), last);
      }
    }
  }

  lemma {:induction false} ReadQuoted(finished: seq<WideString>, value: WideString)
    ensures ReadAll(Reader(finished, [], false, 0, false), Quoted(value)) == Reader(finished, value, true, 0, false)
  {
    var n := TrailingSlashes(value);
    var closing := Slashes(2 * n) + [QUOTE];
    assert Quoted(value) == Printed(value) + closing;
    ReadAllOfConcat(Reader(finished, [], false, 0, false), Printed(value), closing);
    ReadPrinted(finished, value);
    ReadClosing(finished, Kept(value), n);
    SplitTrailingSlashes(value);
  }

  /** A blank outside quotes ends the previous argument, and a quoted text becomes the next one. */
  lemma {:induction false} ReadOneMore(before: Reader, finished: seq<WideString>, value: WideString)
    requires !before.quoted && Finish(before) == Reader(finished, [], false, 0, false)
    ensures ReadAll(before, [SPACE] + Quoted(value)) == Reader(finished, value, true, 0, false)
  {
    ReadAllOfConcat(before, [SPACE], Quoted(value));
    ReadOne(before, SPACE);
    ReadQuoted(finished, value);
  }

  lemma {:induction false} FinishArgument(finished: seq<WideString>, value: WideString)
    ensures Finish(Reader(finished, value, true, 0, false)) == AT_START.(finished := finished + [value])
  {
    assert value + Slashes(0) == value;
  }

  predicate ReadsAs(text: WideString, arguments: seq<WideString>) {
    var r := ReadAll(AT_START, text);
    !r.quoted && Finish(r) == AT_START.(finished := arguments)
  }

  lemma {:induction false} ReadNothing()
    ensures ReadsAs([], [])
  {}

  lemma {:induction false} ReadLastArgument(text: WideString, finished: seq<WideString>, last: WideString)
    requires ReadsAs(text, finished)
    ensures ReadsAs(text + ([SPACE] + Quoted(last)), finished + [last])
  {
    ReadAllOfConcat(AT_START, text, [SPACE] + Quoted(last));
    ReadOneMore(ReadAll(AT_START, text), finished, last);
    FinishArgument(finished, last);
  }

  lemma {:induction false} ReadArguments(arguments: seq<WideString>)
    ensures ReadsAs(ArgumentsText(arguments), arguments)
  {
    if arguments == [] {
      ReadNothing();
    } else {
      var front, last := arguments[..|arguments| - 1], arguments[|arguments| - 1];
      ReadArguments(front);
      ReadLastArgument(ArgumentsText(front), front, last);
      assert arguments == front + [last];
    }
  }

  lemma {:induction false} PrintedHasNoQuote(value: WideString)
    requires QUOTE !in value
    ensures Printed(value) != [] && Printed(value)[0] == QUOTE
    ensures forall k | 0 < k < |Printed(value)| :: Printed(value)[k] != QUOTE
  {
    if value != [] {
      PrintedHasNoQuote(value[..|value| - 1]);
    }
  }

  /** The program name ends where the printer closed its quotes. */
  lemma {:induction false} ProgramNameIsSkipped(executablePath: WideString, rest: WideString)
    requires QUOTE !in executablePath
    ensures AfterProgramName(Quoted(executablePath) + rest) == rest
  {
    PrintedHasNoQuote(executablePath);
    var body := Printed(executablePath) + Slashes(2 * TrailingSlashes(executablePath));
    var text := Quoted(executablePath) + rest;
    assert text == body + [QUOTE] + rest;
    var close := IndexOf(text, QUOTE, 1);
    assert text[|body|] == QUOTE;
    assert forall k | 0 < k < |body| :: body[k] != QUOTE;
    assert close == |body|;
  }

  // ---- NUL characters ----

  lemma {:induction false} QuotedHasNul(value: WideString)
    ensures NUL in Quoted(value) <==> NUL in value
  {
    PrintedHasNul(value);
    SplitTrailingSlashes(value);
  }

  lemma {:induction false} PrintedHasNul(value: WideString)
    ensures NUL in Printed(value) <==> NUL in Kept(value)
  {
    if value != [] {
      PrintedHasNul(value[..|value| - 1]);
      KeptOfLast(value);
    }
  }

  ghost predicate NoNul(arguments: seq<WideString>) {
    forall k | 0 <= k < |arguments| :: NUL !in arguments[k]
  }

  lemma {:induction false} ArgumentsTextHasNoNul(arguments: seq<WideString>)
    requires NoNul(arguments)
    ensures NUL !in ArgumentsText(arguments)
  {
    if arguments != [] {
      ArgumentsTextHasNoNul(arguments[..|arguments| - 1]);
      QuotedHasNul(arguments[|arguments| - 1]);
    }
  }

  ghost predicate ReaderHasNoNul(r: Reader) {
    NoNul(r.finished) && NUL !in r.current
  }

  /** The reader invents no NUL. */
  lemma {:induction false} ReadingInventsNoNul(r: Reader, text: WideString)
    requires ReaderHasNoNul(r) && NUL !in text
    ensures ReaderHasNoNul(ReadAll(r, text)) && ReaderHasNoNul(Finish(ReadAll(r, text)))
  {
    if text != [] {
      ReadingInventsNoNul(r, text[..|text| - 1]);
    }
  }

  /** A NUL in the program path ends the command line before the closing quote: no argument is seen. */
  lemma {:induction false} NulHidesArguments(executablePath: WideString, rest: WideString)
    requires QUOTE !in executablePath && NUL in executablePath
    ensures AfterProgramName(Visible(Quoted(executablePath) + rest)) == []
  {
    PrintedHasNoQuote(executablePath);
    QuotedHasNul(executablePath);
    var body := Printed(executablePath) + Slashes(2 * TrailingSlashes(executablePath));
    var text := Quoted(executablePath) + rest;
    assert text == body + [QUOTE] + rest && Quoted(executablePath) == body + [QUOTE];
    var n :| 0 <= n < |Quoted(executablePath)| && Quoted(executablePath)[n] == NUL;
    assert text[n] == NUL && text[0] == QUOTE;
    assert 0 < |Visible(text)| <= n < |body|;
    assert forall k | 0 < k < |Visible(text)| :: Visible(text)[k] == body[k] != QUOTE;
  }

  /** For every program path without a quote, which no Windows path holds, and every list of arguments, empty
      ones and runs of backslashes before quotes included, the started process sees exactly the arguments it
      was given, unless one of them or the path holds a NUL, which no command line can carry. */
  lemma {:induction false} ReaderUndoesPrinter(executablePath: WideString, arguments: seq<WideString>)
    requires QUOTE !in executablePath
    ensures DecodedArguments(CommandLine(executablePath, arguments)) == arguments
       <==> arguments == [] || (NoNul(arguments) && NUL !in executablePath)
    ensures NoNul(DecodedArguments(CommandLine(executablePath, arguments)))
    ensures NUL in executablePath ==> DecodedArguments(CommandLine(executablePath, arguments)) == []
  {
    var text := CommandLine(executablePath, arguments);
    if NUL in executablePath {
      NulHidesArguments(executablePath, ArgumentsText(arguments));
    } else if NoNul(arguments) {
      QuotedHasNul(executablePath);
      ArgumentsTextHasNoNul(arguments);
      assert Visible(text) == text;
      ProgramNameIsSkipped(executablePath, ArgumentsText(arguments));
      ReadArguments(arguments);
    }
    assert NUL !in AfterProgramName(Visible(text));
    ReadingInventsNoNul(AT_START, AfterProgramName(Visible(text)));
  }

  // ---- The characters themselves ----

  /** Neither a tab, a space, a quote nor a backslash. */
  predicate IsPlain(c: WideChar) { c !in {9, 32, 34, 92} }

  /** Plain characters are read as they stand, inside quotes and outside. */
  lemma {:induction false} PlainIsRead(r: Reader, word: WideString)
    requires r.slashes == 0 && word != [] && forall k | 0 <= k < |word| :: IsPlain(word[k])
    ensures ReadAll(r, word) == Reader(r.finished, r.current + word, true, 0, r.quoted)
  {
    var front := word[..|word| - 1];
    if front != [] {
      PlainIsRead(r, front);
      assert r.current + word == r.current + front + [word[|word| - 1]];
    } else {
      assert r.current + Slashes(0) + [word[0]] == r.current + word;
    }
  }

  /** A tab or a space ends an argument, except inside quotes, where it is a character of it. */
  lemma {:induction false} BlankIsRead(r: Reader, blank: WideChar)
    requires r.slashes == 0 && r.started && blank in {9, 32}
    ensures Read(r, blank) == if r.quoted then r.(current := r.current + [blank])
                              else Reader(r.finished + [r.current], [], false, 0, false)
  {
    assert r.current + Slashes(0) == r.current;
  }

  /** A quote after an even number of backslashes opens or closes a quoted stretch; after an odd number it is a
      character; half of the backslashes stay. */
  lemma {:induction false} QuoteIsRead(r: Reader)
    ensures var r', half := Read(r, 34), r.slashes / 2;
      && r'.finished == r.finished && r'.started && r'.slashes == 0
      && r'.quoted == (if r.slashes == 2 * half then !r.quoted else r.quoted)
      && r'.current == r.current + Slashes(half) + (if r.slashes == 2 * half then [] else [34])
  {
  }

  /** A program name without quotes ends at the first tab or space. */
  lemma {:induction false} BareNameEnds(name: WideString, rest: WideString)
    requires name != [] && name[0] != 34 && (forall k | 0 <= k < |name| :: name[k] !in {9, 32})
    requires rest == [] || rest[0] in {9, 32}
    ensures AfterProgramName(name + rest) == rest
  {
    BlankComesAt(name + rest, 0, |name|);
  }

  lemma {:induction false} BlankComesAt(text: WideString, from: nat, n: nat)
    requires from <= n <= |text| && (forall k | from <= k < n :: text[k] !in {9, 32})
    requires n == |text| || text[n] in {9, 32}
    ensures FirstBlank(text, from) == n
    decreases n - from
  {
    if from < n { BlankComesAt(text, from + 1, n); }
  }

  /** A printed value stands between quotes; a quote in it has a backslash in front, and so has a backslash at its
      end; arguments follow after a space. */
  lemma {:induction false} PrintedCharacters(value: WideString, argument: WideString)
    ensures |Quoted(value)| >= 2 && Quoted(value)[0] == 34 && Quoted(value)[|Quoted(value)| - 1] == 34
    ensures Quoted([34]) == [34, 92, 34, 34] && Quoted([92]) == [34, 92, 92, 34] && Quoted([]) == [34, 34]
    ensures CommandLine(value, [argument]) == Quoted(value) + [32] + Quoted(argument)
  {
    PrintedStarts(value);
    SingleSlashes();
    assert [argument][..0] == [] && ArgumentsText([argument]) == [SPACE] + Quoted(argument);
  }

  lemma {:induction false} PrintedStarts(value: WideString)
    ensures Printed(value) != [] && Printed(value)[0] == 34
  {
    if value != [] { PrintedStarts(value[..|value| - 1]); }
  }

  lemma {:induction false} SingleSlashes()
    ensures Quoted([34]) == [34, 92, 34, 34] && Quoted([92]) == [34, 92, 92, 34] && Quoted([]) == [34, 34]
  {
    var none: WideString := [];
    assert [QUOTE][..0] == none && [BACKSLASH][..0] == none;
    assert TrailingSlashes(none) == 0 && TrailingSlashes([QUOTE]) == 0 && TrailingSlashes([BACKSLASH]) == 1;
  }
}

/** The options of the update helper, printed as arguments and parsed back
    (`makeAppUpdateApplyArguments`, `parseUnsignedLong` and `parseAppUpdateApplyOptions` of
    src/main/app_runtime.cpp). */
module AppUpdateOptions {
  import opened Prelude
  import opened WindowsCommandLine

  /** `unsigned long` has 32 bits on Windows. */
  type ProcessId = x: int | 0 <= x < 0x1_0000_0000

  datatype Options = Options(
    targetPath: WideString, payloadPath: WideString, helperPath: WideString, startDirectory: WideString,
    logPath: WideString, targetProcessId: ProcessId, restartAfterApply: bool)

  /** `absoluteNormalizedPath`. */
  type Normalizer = WideString -> WideString

  function Wide(text: string): (wide: WideString)
    requires forall i | 0 <= i < |text| :: 0 < text[i] as int < 128
    ensures NUL !in wide
    ensures |wide| == |text| && forall i | 0 <= i < |text| :: wide[i] as int == text[i] as int
  {
    seq(|text|, i requires 0 <= i < |text| => text[i] as int as WideChar)
  }

  function ApplyKey(): WideString { Wide("--relaydesk-apply-update") }
  function TargetKey(): WideString { Wide("--target") }
  function PayloadKey(): WideString { Wide("--payload") }
  function ProcessIdKey(): WideString { Wide("--pid") }
  function StartDirectoryKey(): WideString { Wide("--start-directory") }
  function LogKey(): WideString { Wide("--log") }
  function RestartKey(): WideString { Wide("--restart") }

  lemma {:induction false} KeysDiffer()
    ensures TargetKey() != PayloadKey() && TargetKey() != ProcessIdKey() && TargetKey() != StartDirectoryKey()
    ensures TargetKey() != LogKey() && TargetKey() != RestartKey()
    ensures PayloadKey() != ProcessIdKey() && PayloadKey() != StartDirectoryKey() && PayloadKey() != LogKey()
    ensures PayloadKey() != RestartKey() && ProcessIdKey() != StartDirectoryKey() && ProcessIdKey() != LogKey()
    ensures ProcessIdKey() != RestartKey() && StartDirectoryKey() != LogKey() && StartDirectoryKey() != RestartKey()
    ensures LogKey() != RestartKey()
  {
    assert PayloadKey()[2] != RestartKey()[2];
    assert ProcessIdKey()[2] != LogKey()[2];
  }

  // ---- Numbers ----

  predicate IsDigit(c: WideChar) { 48 <= c <= 57 }

  /** What `iswspace` accepts in the C locale. */
  predicate IsSpace(c: WideChar) { c == SPACE || TAB <= c <= 13 }

  function Decimal(value: nat): (text: WideString)
    ensures text != [] && forall k | 0 <= k < |text| :: IsDigit(text[k])
  {
    if value < 10 then [(48 + value) as WideChar] else Decimal(value / 10) + [(48 + value % 10) as WideChar]
  }

  function ValueOfDigits(digits: WideString): nat
    requires forall k | 0 <= k < |digits| :: IsDigit(digits[k])
  {
    if digits == [] then 0
    else
      assert IsDigit(digits[|digits| - 1]);
      10 * ValueOfDigits(digits[..|digits| - 1]) + (digits[|digits| - 1] as int - 48)
  }

  lemma {:induction false} DecimalReadsBack(value: nat)
    ensures ValueOfDigits(Decimal(value)) == value
  {
    if value >= 10 {
      DecimalReadsBack(value / 10);
      assert Decimal(value)[..|Decimal(value)| - 1] == Decimal(value / 10);
    } else {
      assert Decimal(value)[..0] == [];
    }
  }

  /** `std::stoul` over the whole text: leading spaces and one sign are accepted, a minus wraps around. */
  function ParseUnsignedLong(text: WideString): Option<ProcessId>
  {
    if text != [] && IsSpace(text[0]) then ParseUnsignedLong(text[1..])
    else if text != [] && text[0] == 43 then ParseDigits(text[1..], false)
    else if text != [] && text[0] == 45 then ParseDigits(text[1..], true)
    else ParseDigits(text, false)
  }

  function ParseDigits(digits: WideString, negative: bool): Option<ProcessId> {
    if digits == [] || exists k | 0 <= k < |digits| :: !IsDigit(digits[k]) then None
    else
      var value := ValueOfDigits(digits);
      if value >= 0x1_0000_0000 then None
      else if negative && value > 0 then Some(0x1_0000_0000 - value) else Some(value)
  }

  lemma {:induction false} ProcessIdReadsBack(id: ProcessId)
    ensures ParseUnsignedLong(Decimal(id)) == Some(id)
  {
    DecimalReadsBack(id);
  }

  // ---- Printing ----

  function MakeArguments(options: Options): seq<WideString> {
    [ApplyKey(),
     TargetKey(), options.targetPath,
     PayloadKey(), options.payloadPath,
     ProcessIdKey(), Decimal(options.targetProcessId),
     StartDirectoryKey(), options.startDirectory,
     LogKey(), options.logPath,
     RestartKey(), if options.restartAfterApply then [49] else [48]]
  }

  // ---- Parsing ----

  /** The local variables of the parsing loop. */
  datatype Parser = Parser(
    options: Options, hasTarget: bool, hasPayload: bool, hasProcessId: bool, hasStartDirectory: bool, hasLog: bool,
    hasRestart: bool)

  const NO_OPTIONS := Parser(Options([], [], [], [], [], 0, false), false, false, false, false, false, false)

  predicate MeansTrue(value: WideString) {
    value == [49] || value == Wide("true") || value == Wide("TRUE")
  }

  function ParseOption(normalize: Normalizer, p: Parser, key: WideString, value: WideString): Option<Parser> {
    if key == TargetKey() then Some(p.(options := p.options.(targetPath := normalize(value)), hasTarget := true))
    else if key == PayloadKey() then Some(p.(options := p.options.(payloadPath := normalize(value)), hasPayload := true))
    else if key == ProcessIdKey() then
      var id := ParseUnsignedLong(value);
      if id.None? then None else Some(p.(options := p.options.(targetProcessId := id.value), hasProcessId := true))
    else if key == StartDirectoryKey() then
      Some(p.(options := p.options.(startDirectory := normalize(value)), hasStartDirectory := true))
    else if key == LogKey() then Some(p.(options := p.options.(logPath := normalize(value)), hasLog := true))
    else if key == RestartKey() then Some(p.(options := p.options.(restartAfterApply := MeansTrue(value)), hasRestart := true))
    else None
  }

  function ParsePairs(normalize: Normalizer, p: Parser, arguments: seq<WideString>): Option<Parser>
    decreases |arguments|
  {
    if |arguments| < 2 then Some(p)
    else
      var p' := ParseOption(normalize, p, arguments[0], arguments[1]);
      if p'.None? then None else ParsePairs(normalize, p'.value, arguments[2..])
  }

  predicate IsComplete(p: Parser) {
    && p.hasTarget && p.hasPayload && p.hasProcessId && p.hasStartDirectory && p.hasLog && p.hasRestart
    && p.options.targetPath != [] && p.options.payloadPath != [] && p.options.startDirectory != [] && p.options.logPath != []
  }

  function ParseOptions(normalize: Normalizer, arguments: seq<WideString>): Option<Options> {
    if arguments == [] || arguments[0] != ApplyKey() then None
    else
      var p := ParsePairs(normalize, NO_OPTIONS, arguments[1..]);
      if p.None? || |arguments| % 2 == 0 || !IsComplete(p.value) then None else Some(p.value.options)
  }

  method ParseAppUpdateApplyOptions(normalize: Normalizer, arguments: seq<WideString>) returns (result: Option<Options>)
    ensures result == ParseOptions(normalize, arguments)
  {
    if arguments == [] || arguments[0] != ApplyKey() { return None; }
    var options := Options([], [], [], [], [], 0, false);
    var hasTarget, hasPayload, hasProcessId, hasStartDirectory, hasLog, hasRestart := false, false, false, false, false, false;
    var index := 1;
    while index + 1 < |arguments|
      invariant 1 <= index <= |arguments|
      invariant ParsePairs(normalize, NO_OPTIONS, arguments[1..])
             == ParsePairs(normalize, Parser(options, hasTarget, hasPayload, hasProcessId, hasStartDirectory, hasLog, hasRestart),
                           arguments[index..])
    {
      var key, value := arguments[index], arguments[index + 1];
      assert arguments[index..][2..] == arguments[index + 2..];
      if key == TargetKey() {
        options, hasTarget := options.(targetPath := normalize(value)), true;
      } else if key == PayloadKey() {
        options, hasPayload := options.(payloadPath := normalize(value)), true;
      } else if key == ProcessIdKey() {
        var processId := ParseUnsignedLong(value);
        if processId.None? { return None; }
        options, hasProcessId := options.(targetProcessId := processId.value), true;
      } else if key == StartDirectoryKey() {
        options, hasStartDirectory := options.(startDirectory := normalize(value)), true;
      } else if key == LogKey() {
        options, hasLog := options.(logPath := normalize(value)), true;
      } else if key == RestartKey() {
        options, hasRestart := options.(restartAfterApply := value == [49] || value == Wide("true") || value == Wide("TRUE")), true;
      } else {
        return None;
      }
      index := index + 2;
    }
    if |arguments| % 2 == 0 || !hasTarget || !hasPayload || !hasProcessId || !hasStartDirectory || !hasLog || !hasRestart
       || options.targetPath == [] || options.payloadPath == [] || options.startDirectory == [] || options.logPath == [] {
      return None;
    }
    return Some(options);
  }

  // ---- The parser undoes the printer ----

  predicate IsNormal(normalize: Normalizer, path: WideString) {
    normalize(path) == path && path != []
  }

  predicate PathsAreNormal(normalize: Normalizer, options: Options) {
    && IsNormal(normalize, options.targetPath) && IsNormal(normalize, options.payloadPath)
    && IsNormal(normalize, options.startDirectory) && IsNormal(normalize, options.logPath)
  }

  function Normalized(normalize: Normalizer, options: Options): Options {
    options.(targetPath := normalize(options.targetPath), payloadPath := normalize(options.payloadPath), helperPath := [],
             startDirectory := normalize(options.startDirectory), logPath := normalize(options.logPath))
  }

  /** The parser half-way through the printed arguments. */
  function HalfParsed(normalize: Normalizer, options: Options): Parser {
    Parser(Options(normalize(options.targetPath), normalize(options.payloadPath), [], [], [], options.targetProcessId, false),
           true, true, true, false, false, false)
  }

  lemma {:induction false} FirstPairsReadBack(normalize: Normalizer, options: Options)
    ensures ParsePairs(normalize, NO_OPTIONS, MakeArguments(options)[1..])
         == ParsePairs(normalize, HalfParsed(normalize, options), MakeArguments(options)[7..])
  {
    KeysDiffer();
    ProcessIdReadsBack(options.targetProcessId);
    var a, p := MakeArguments(options), HalfParsed(normalize, options);
    var noPayload := p.(options := p.options.(payloadPath := [], targetProcessId := 0), hasPayload := false, hasProcessId := false);
    var noId := p.(options := p.options.(targetProcessId := 0), hasProcessId := false);
    ParseNext(normalize, NO_OPTIONS, a, 1, noPayload);
    ParseNext(normalize, noPayload, a, 3, noId);
    ParseNext(normalize, noId, a, 5, p);
  }

  lemma {:induction false} LastPairsReadBack(normalize: Normalizer, options: Options)
    ensures ParsePairs(normalize, HalfParsed(normalize, options), MakeArguments(options)[7..])
         == Some(Parser(Normalized(normalize, options), true, true, true, true, true, true))
  {
    KeysDiffer();
    assert Wide("true") != [48] && Wide("TRUE") != [48];
    var a, p := MakeArguments(options), Parser(Normalized(normalize, options), true, true, true, true, true, true);
    var noRestart := p.(options := p.options.(restartAfterApply := false), hasRestart := false);
    var noLog := noRestart.(options := noRestart.options.(logPath := []), hasLog := false);
    ParseNext(normalize, HalfParsed(normalize, options), a, 7, noLog);
    ParseNext(normalize, noLog, a, 9, noRestart);
    ParseNext(normalize, noRestart, a, 11, p);
  }

  lemma {:induction false} ParseNext(normalize: Normalizer, p: Parser, arguments: seq<WideString>, index: nat,
        p': Parser)
    requires index + 1 < |arguments| && ParseOption(normalize, p, arguments[index], arguments[index + 1]) == Some(p')
    ensures ParsePairs(normalize, p, arguments[index..]) == ParsePairs(normalize, p', arguments[index + 2..])
  {
    assert arguments[index..][2..] == arguments[index + 2..];
  }

  /** The parser gives back the printed options, all but the helper's own path, exactly if the four paths
      are normalised and not empty; other paths come back normalised or are refused. */
  lemma {:induction false} ParserUndoesPrinter(normalize: Normalizer, options: Options)
    ensures ParseOptions(normalize, MakeArguments(options)) == Some(options.(helperPath := []))
       <==> PathsAreNormal(normalize, options)
  {
    FirstPairsReadBack(normalize, options);
    LastPairsReadBack(normalize, options);
  }

  predicate PathsHaveNoNul(options: Options) {
    NUL !in options.targetPath && NUL !in options.payloadPath && NUL !in options.startDirectory && NUL !in options.logPath
  }

  /** Making a path absolute and normal brings no NUL into it. */
  ghost predicate KeepsNoNul(normalize: Normalizer) {
    forall path: WideString | NUL !in path :: NUL !in normalize(path)
  }

  lemma {:induction false} PrintedHaveNoNul(options: Options)
    ensures NoNul(MakeArguments(options)) <==> PathsHaveNoNul(options)
  {
    assert NUL !in Decimal(options.targetProcessId);
    var arguments := MakeArguments(options);
    assert arguments[2] == options.targetPath && arguments[4] == options.payloadPath;
    assert arguments[8] == options.startDirectory && arguments[10] == options.logPath;
  }

  lemma {:induction false} OptionHasNoNul(normalize: Normalizer, p: Parser, key: WideString, value: WideString)
    requires KeepsNoNul(normalize) && NUL !in value && PathsHaveNoNul(p.options)
    ensures var p' := ParseOption(normalize, p, key, value); p'.Some? ==> PathsHaveNoNul(p'.value.options)
  {
    var path := normalize(value);
    assert NUL !in path;
    if key == TargetKey() {
      assert ParseOption(normalize, p, key, value).value.options == p.options.(targetPath := path);
    } else if key == PayloadKey() {
      assert ParseOption(normalize, p, key, value).value.options == p.options.(payloadPath := path);
    } else if key == ProcessIdKey() {
    } else if key == StartDirectoryKey() {
      assert ParseOption(normalize, p, key, value).value.options == p.options.(startDirectory := path);
    } else if key == LogKey() {
      assert ParseOption(normalize, p, key, value).value.options == p.options.(logPath := path);
    }
  }

  /** The parser takes paths from its arguments alone. */
  lemma {:induction false} ParsedHaveNoNul(normalize: Normalizer, p: Parser, arguments: seq<WideString>)
    requires KeepsNoNul(normalize) && NoNul(arguments) && PathsHaveNoNul(p.options)
    ensures ParsePairs(normalize, p, arguments).Some? ==> PathsHaveNoNul(ParsePairs(normalize, p, arguments).value.options)
    decreases |arguments|
  {
    if |arguments| >= 2 {
      var p' := ParseOption(normalize, p, arguments[0], arguments[1]);
      if p'.Some? {
        OptionHasNoNul(normalize, p, arguments[0], arguments[1]);
        ParsedHaveNoNul(normalize, p'.value, arguments[2..]);
      }
    }
  }

  /** From the launching process to the helper: printed, quoted, read by the system and parsed, the options come
      back exactly if their paths are normalised and not empty and neither they nor the helper's path hold a NUL. */
  lemma {:induction false} HelperSeesItsOptions(normalize: Normalizer, options: Options)
    requires QUOTE !in options.helperPath && (KeepsNoNul(normalize) || PathsHaveNoNul(options))
    ensures var commandLine := CommandLine(options.helperPath, MakeArguments(options));
      ParseOptions(normalize, DecodedArguments(commandLine)) == Some(options.(helperPath := []))
      <==> PathsAreNormal(normalize, options) && PathsHaveNoNul(options) && NUL !in options.helperPath
  {
    var decoded := DecodedArguments(CommandLine(options.helperPath, MakeArguments(options)));
    PrintedHaveNoNul(options);
    ReaderUndoesPrinter(options.helperPath, MakeArguments(options));
    ParserUndoesPrinter(normalize, options);
    if decoded != [] && !PathsHaveNoNul(options) {
      ParsedHaveNoNul(normalize, NO_OPTIONS, decoded[1..]);
    }
  }

  // ---- Which numbers are read ----

  ghost predicate AreSpaces(text: WideString) {
    forall k | 0 <= k < |text| :: text[k] == 32 || 9 <= text[k] <= 13
  }

  ghost predicate AreDigits(text: WideString) {
    text != [] && forall k | 0 <= k < |text| :: 48 <= text[k] <= 57
  }

  /** The value of signed digits in 32 bits: a minus wraps around. */
  predicate IsSigned(sign: WideString, magnitude: nat, value: ProcessId) {
    && magnitude < 0x1_0000_0000
    && ((sign in {[], [43]} && value == magnitude) || (sign == [45] && (value + magnitude) % 0x1_0000_0000 == 0))
  }

  /** Spaces, a sign and digits. */
  ghost predicate ReadsAs(text: WideString, spaces: WideString, sign: WideString, digits: WideString, value: ProcessId) {
    text == spaces + sign + digits && AreSpaces(spaces) && AreDigits(digits) && IsSigned(sign, ValueOfDigits(digits), value)
  }

  lemma {:induction false} SignedDigitsAreRead(sign: WideString, digits: WideString, value: ProcessId)
    requires ReadsAs(sign + digits, [], sign, digits, value)
    ensures ParseUnsignedLong(sign + digits) == Some(value)
  {
    if sign != [] {
      assert (sign + digits)[1..] == digits;
    } else {
      assert sign + digits == digits;
    }
  }

  lemma {:induction false} SpacedDigitsAreRead(spaces: WideString, sign: WideString, digits: WideString, value: ProcessId)
    requires ReadsAs(spaces + sign + digits, spaces, sign, digits, value)
    ensures ParseUnsignedLong(spaces + sign + digits) == Some(value)
  {
    if spaces == [] {
      assert [] + sign + digits == sign + digits;
      SignedDigitsAreRead(sign, digits, value);
    } else {
      assert (spaces + sign + digits)[1..] == spaces[1..] + sign + digits;
      SpacedDigitsAreRead(spaces[1..], sign, digits, value);
    }
  }

  lemma {:induction false} ReadAreSpacedDigits(text: WideString, value: ProcessId)
      returns (spaces: WideString, sign: WideString, digits: WideString)
    requires ParseUnsignedLong(text) == Some(value)
    ensures ReadsAs(text, spaces, sign, digits, value)
  {
    if text != [] && IsSpace(text[0]) {
      spaces, sign, digits := ReadAreSpacedDigits(text[1..], value);
      spaces := [text[0]] + spaces;
      assert text == [text[0]] + text[1..];
    } else if text != [] && (text[0] == 43 || text[0] == 45) {
      spaces, sign, digits := [], [text[0]], text[1..];
    } else {
      spaces, sign, digits := [], [], text;
    }
  }

  /** A number is read exactly if it is spaces, at most one sign and digits of a 32-bit magnitude, to the end. */
  lemma {:induction false} NumberIsReadIff(text: WideString, value: ProcessId)
    ensures ParseUnsignedLong(text) == Some(value) <==> exists spaces, sign, digits :: ReadsAs(text, spaces, sign, digits, value)
  {
    if ParseUnsignedLong(text) == Some(value) {
      var spaces, sign, digits := ReadAreSpacedDigits(text, value);
    }
    if spaces, sign, digits :| ReadsAs(text, spaces, sign, digits, value) {
      SpacedDigitsAreRead(spaces, sign, digits, value);
    }
  }

  // ---- Which arguments are accepted ----

  /** The value behind the last occurrence of a key. */
  function LastValue(pairs: seq<WideString>, key: WideString): Option<WideString>
    decreases |pairs|
  {
    if |pairs| < 2 then None
    else
      var later := LastValue(pairs[2..], key);
      if later.None? && pairs[0] == key then Some(pairs[1]) else later
  }

  datatype Field = Target | Payload | Id | StartDirectory | Log | Restart

  function Key(field: Field): WideString {
    match field
    case Target => Wide("--target")
    case Payload => Wide("--payload")
    case Id => Wide("--pid")
    case StartDirectory => Wide("--start-directory")
    case Log => Wide("--log")
    case Restart => Wide("--restart")
  }

  predicate IsSet(p: Parser, field: Field) {
    match field
    case Target => p.hasTarget
    case Payload => p.hasPayload
    case Id => p.hasProcessId
    case StartDirectory => p.hasStartDirectory
    case Log => p.hasLog
    case Restart => p.hasRestart
  }

  /** What the options hold for a field: a path, the flag as "1" or "0", the number in decimal. */
  function Held(o: Options, field: Field): WideString {
    match field
    case Target => o.targetPath
    case Payload => o.payloadPath
    case Id => Decimal(o.targetProcessId)
    case StartDirectory => o.startDirectory
    case Log => o.logPath
    case Restart => if o.restartAfterApply then Wide("1") else Wide("0")
  }

  /** What a value means for a field; nothing is made of a text that is no number. */
  function Meant(normalize: Normalizer, field: Field, value: WideString): Option<WideString> {
    match field
    case Id => if ParseUnsignedLong(value).Some? then Some(Decimal(ParseUnsignedLong(value).value)) else None
    case Restart => Some(if value in {Wide("1"), Wide("true"), Wide("TRUE")} then Wide("1") else Wide("0"))
    case _ => Some(normalize(value))
  }

  /** The field holds what the value means, or what it held if there is none. */
  predicate Takes(normalize: Normalizer, field: Field, p: Parser, value: Option<WideString>, p': Parser) {
    if value.None? then IsSet(p', field) == IsSet(p, field) && Held(p'.options, field) == Held(p.options, field)
    else IsSet(p', field) && Meant(normalize, field, value.value) == Some(Held(p'.options, field))
  }

  predicate IsReadable(key: WideString, value: WideString) {
    exists field :: Key(field) == key && (field.Id? ==> ParseUnsignedLong(value).Some?)
  }

  predicate AllReadable(pairs: seq<WideString>)
    decreases |pairs|
  {
    |pairs| < 2 || (IsReadable(pairs[0], pairs[1]) && AllReadable(pairs[2..]))
  }

  lemma {:induction false} KeysAreTheirs()
    ensures Key(Target) == TargetKey() && Key(Payload) == PayloadKey() && Key(Id) == ProcessIdKey()
    ensures Key(StartDirectory) == StartDirectoryKey() && Key(Log) == LogKey() && Key(Restart) == RestartKey()
    ensures Wide("1") == [49] && Wide("0") == [48]
  {
  }

  lemma {:induction false} KeyIsOneField(a: Field, b: Field)
    ensures Key(a) == Key(b) ==> a == b
  {
    KeysDiffer();
    KeysAreTheirs();
  }

  lemma {:induction false} PairIsRead(normalize: Normalizer, p: Parser, key: WideString, value: WideString)
    ensures ParseOption(normalize, p, key, value).Some? <==> IsReadable(key, value)
  {
    KeysAreTheirs();
    KeysDiffer();
    if field :| Key(field) == key && (field.Id? ==> ParseUnsignedLong(value).Some?) {
    }
  }

  /** One pair sets the field of its key to what its value means. */
  lemma {:induction false} FieldIsTaken(normalize: Normalizer, p: Parser, field: Field, value: WideString)
    requires ParseOption(normalize, p, Key(field), value).Some?
    ensures Takes(normalize, field, p, Some(value), ParseOption(normalize, p, Key(field), value).value)
  {
    KeysAreTheirs();
    KeysDiffer();
  }

  /** It sets no other. */
  lemma {:induction false} OtherFieldStays(normalize: Normalizer, p: Parser, taken: Field, value: WideString, field: Field)
    requires ParseOption(normalize, p, Key(taken), value).Some? && field != taken
    ensures Takes(normalize, field, p, None, ParseOption(normalize, p, Key(taken), value).value)
  {
    KeysAreTheirs();
    KeysDiffer();
  }

  /** Pairs set each field to what the last value of its key means. */
  lemma {:induction false} PairsAreTaken(normalize: Normalizer, p: Parser, pairs: seq<WideString>, field: Field)
    ensures var p' := ParsePairs(normalize, p, pairs);
      && (p'.Some? <==> AllReadable(pairs))
      && (p'.Some? ==> Takes(normalize, field, p, LastValue(pairs, Key(field)), p'.value))
    decreases |pairs|
  {
    if |pairs| >= 2 {
      var next := ParseOption(normalize, p, pairs[0], pairs[1]);
      PairIsRead(normalize, p, pairs[0], pairs[1]);
      if next.Some? {
        var taken :| Key(taken) == pairs[0];
        if taken == field {
          FieldIsTaken(normalize, p, field, pairs[1]);
        } else {
          KeyIsOneField(taken, field);
          OtherFieldStays(normalize, p, taken, pairs[1], field);
        }
        PairsAreTaken(normalize, next.value, pairs[2..], field);
      }
    }
  }

  /** Every field has a value, and no path comes out empty. */
  ghost predicate IsGiven(normalize: Normalizer, pairs: seq<WideString>, field: Field) {
    var value := LastValue(pairs, Key(field));
    value.Some? && (!field.Id? ==> Meant(normalize, field, value.value) != Some([]))
  }

  /** The arguments are an odd number: the mark of the mode, then pairs of a known key and a readable value in any
      order, with a value for every field. */
  ghost predicate AreAccepted(normalize: Normalizer, arguments: seq<WideString>) {
    && |arguments| % 2 == 1 && arguments[0] == Wide("--relaydesk-apply-update") && AllReadable(arguments[1..])
    && forall field: Field :: IsGiven(normalize, arguments[1..], field)
  }

  /** An accepted list gives options in which every field holds what its last value means. */
  lemma {:induction false} AcceptedGive(normalize: Normalizer, arguments: seq<WideString>, field: Field)
    requires ParseOptions(normalize, arguments).Some?
    ensures IsGiven(normalize, arguments[1..], field)
    ensures Meant(normalize, field, LastValue(arguments[1..], Key(field)).value)
         == Some(Held(ParseOptions(normalize, arguments).value, field))
  {
    PairsAreTaken(normalize, NO_OPTIONS, arguments[1..], field);
  }

  lemma {:induction false} GivenIsComplete(normalize: Normalizer, p: Parser, pairs: seq<WideString>)
    requires ParsePairs(normalize, NO_OPTIONS, pairs) == Some(p)
    requires forall field: Field :: IsGiven(normalize, pairs, field)
    ensures IsComplete(p)
  {
    forall field: Field ensures IsSet(p, field) && (!field.Id? ==> Held(p.options, field) != []) {
      PairsAreTaken(normalize, NO_OPTIONS, pairs, field);
      assert IsGiven(normalize, pairs, field);
    }
    assert IsSet(p, Target) && IsSet(p, Payload) && IsSet(p, Id) && IsSet(p, StartDirectory) && IsSet(p, Log);
    assert IsSet(p, Restart) && Held(p.options, Target) != [] && Held(p.options, Payload) != [];
  }

  /** The parser accepts exactly these lists. */
  lemma {:induction false} ArgumentsAreAcceptedIff(normalize: Normalizer, arguments: seq<WideString>)
    ensures ParseOptions(normalize, arguments).Some? <==> AreAccepted(normalize, arguments)
  {
    if ParseOptions(normalize, arguments).Some? {
      PairsAreTaken(normalize, NO_OPTIONS, arguments[1..], Target);
      forall field: Field ensures IsGiven(normalize, arguments[1..], field) {
        AcceptedGive(normalize, arguments, field);
      }
    }
    if AreAccepted(normalize, arguments) {
      PairsAreTaken(normalize, NO_OPTIONS, arguments[1..], Target);
      GivenIsComplete(normalize, ParsePairs(normalize, NO_OPTIONS, arguments[1..]).value, arguments[1..]);
    }
  }
}

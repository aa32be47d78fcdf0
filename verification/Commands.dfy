/** Command lines: the `sscanf` chain of the main loop, and what each command asks of the motors. */
module Commands {
  import opened Options
  import opened Bits
  import opened CText
  import opened MotorDriver
  import opened SerialLines

  const WORD_CAPACITY := 16  // the command word buffer, terminator included
  const DEFAULT_ADDRESS: Byte := 0x60

  datatype Command =
    | Move(channel: int, address: int, speed: int, direction: int)
    | StopMotor(channel: int, address: int)
    | DefaultMove(channel: int, address: int, level: int, direction: int)
    | SetSpeeds(channel: int, address: int, one: int, two: int)
    | TestAbc
    | TestA
    | TestB
    | TestC
    | TestD
    | Unrecognised
    | Overrun  // the first word does not fit the word buffer: no behaviour is defined

  function FirstWord(line: string): string {
    TakeWord(SkipSpaces(line))
  }

  function AfterWord(line: string): string {
    SkipSpaces(line)[|FirstWord(line)|..]
  }

  /** The first-match chain: each test converts the line afresh with its own number of `%d`s. */
  function Parse(line: string): Command {
    var word := FirstWord(line);
    var four, two := ScanInts(AfterWord(line), 4), ScanInts(AfterWord(line), 2);
    if |word| >= WORD_CAPACITY then Overrun
    else if |four| == 4 && word == "move" then Move(four[0], four[1], four[2], four[3])
    else if |two| == 2 && word == "stop" then StopMotor(two[0], two[1])
    else if |four| == 4 && word == "defaultmove" then DefaultMove(four[0], four[1], four[2], four[3])
    else if |four| == 4 && word == "setspeeds" then SetSpeeds(four[0], four[1], four[2], four[3])
    else if line == "abc" then TestAbc
    else if line == "a" then TestA
    else if line == "b" then TestB
    else if line == "c" then TestC
    else if line == "d" then TestD
    else Unrecognised
  }

  /** Conversion of an int argument to an 8-bit parameter. */
  function ToByte(x: int): Byte {
    x % 0x100
  }

  /** The motor call a command makes, if any. */
  function CallOf(c: Command): Option<Call> {
    match c
    case Move(channel, address, speed, direction) =>
      Some(VariableMotion(ToByte(channel), ToByte(address), ToByte(speed), direction != 0))
    case StopMotor(channel, address) => Some(Stop(ToByte(channel), ToByte(address)))
    case DefaultMove(channel, address, level, direction) =>
      Some(DefaultMotion(ToByte(channel), ToByte(address), ToByte(level), direction != 0))
    case SetSpeeds(channel, address, one, two) =>
      Some(SetMotion(ToByte(channel), ToByte(address), ToByte(one), ToByte(two)))
    case TestA => Some(RegControl(7, DEFAULT_ADDRESS, false))
    case TestB => Some(RegControl(7, DEFAULT_ADDRESS, true))
    case TestC => Some(Read(7, DEFAULT_ADDRESS, 0x01))
    case TestD => Some(Read(7, DEFAULT_ADDRESS, 0x00))
    case _ => None
  }

  /** The motor events of a sequence of dispatched buffers, in order. */
  function Events(lines: seq<string>): seq<Event> {
    if lines == [] then []
    else
      Events(lines[..|lines| - 1]) +
      match CallOf(Parse(CString(lines[|lines| - 1])))
      case Some(call) => [Motor(call)]
      case None => []
  }

  // ----- printing commands -----

  function Args(args: seq<int>): string {
    if args == [] then [] else [' '] + Decimal(args[0]) + Args(args[1..])
  }

  function Name(c: Command): string {
    match c
    case Move(_, _, _, _) => "move"
    case StopMotor(_, _) => "stop"
    case DefaultMove(_, _, _, _) => "defaultmove"
    case SetSpeeds(_, _, _, _) => "setspeeds"
    case TestAbc => "abc"
    case TestA => "a"
    case TestB => "b"
    case TestC => "c"
    case TestD => "d"
    case _ => ""
  }

  function Arguments(c: Command): seq<int> {
    match c
    case Move(channel, address, speed, direction) => [channel, address, speed, direction]
    case StopMotor(channel, address) => [channel, address]
    case DefaultMove(channel, address, level, direction) => [channel, address, level, direction]
    case SetSpeeds(channel, address, one, two) => [channel, address, one, two]
    case _ => []
  }

  function Show(c: Command): string {
    Name(c) + Args(Arguments(c))
  }

  predicate FitInt(args: seq<int>) {
    forall i :: 0 <= i < |args| ==> INT_MIN <= args[i] <= INT_MAX
  }

  predicate NoSpace(s: string) {
    forall i :: 0 <= i < |s| ==> !IsSpace(s[i])
  }

  lemma {:induction false} WordPrefix(word: string, rest: string)
    requires NoSpace(word) && (rest == [] || IsSpace(rest[0]))
    ensures TakeWord(word + rest) == word
  {
    if word == [] {
      assert word + rest == rest;
    } else {
      assert (word + rest)[1..] == word[1..] + rest;
      WordPrefix(word[1..], rest);
    }
  }

  lemma {:induction false} ScanArgs(args: seq<int>, n: nat)
    requires FitInt(args)
    ensures ScanInts(Args(args), n) == if n <= |args| then args[..n] else args
    decreases |args|
  {
    hide ScanInt, Decimal, IsDigit;
    if args == [] {
      ScanNothing();
    } else if n > 0 {
      var rest := Args(args[1..]);
      SpaceIsNoDigit();
      ScanDecimal(args[0], rest);
      ScanArgs(args[1..], n - 1);
      assert ScanInts(Args(args), n) == [args[0]] + ScanInts(rest, n - 1);
    }
  }

  lemma ScanNothing()
    ensures ScanInt([], 10) == None
  {
  }

  lemma SpaceIsNoDigit()
    ensures !IsDigit(' ', 10)
  {
  }

  /** The four argument forms and the five bare words. */
  predicate Showable(c: Command) {
    !c.Unrecognised? && !c.Overrun?
  }

  lemma ParseShown(c: Command)
    requires Showable(c) && FitInt(Arguments(c))
    ensures FirstWord(Show(c)) == Name(c)
    ensures AfterWord(Show(c)) == Args(Arguments(c))
  {
    var word, rest := Name(c), Args(Arguments(c));
    assert SkipSpaces(word + rest) == word + rest;
    WordPrefix(word, rest);
  }

  lemma BareShown(c: Command)
    requires Arguments(c) == []
    ensures Show(c) == Name(c)
  {
  }

  /** Command round trip: a printed command is recognised as itself, with its own arguments. */
  lemma CommandRoundTrip(c: Command)
    requires Showable(c) && FitInt(Arguments(c))
    ensures Parse(Show(c)) == c
  {
    hide FirstWord, AfterWord, ScanInts, Args, Show;
    if Arguments(c) == [] {
      BareShown(c);
    }
    ParseShown(c);
    ScanArgs(Arguments(c), 4);
    ScanArgs(Arguments(c), 2);
  }

  // ----- from a printed command to the byte stream and back -----

  lemma {:induction false} ArgsPrintable(args: seq<int>)
    ensures forall i :: 0 <= i < |Args(args)| ==> Args(args)[i] as int >= 32
  {
    if args != [] {
      hide NatText;
      ArgsPrintable(args[1..]);
    }
  }

  lemma {:induction false} PrintableIsWhole(s: string)
    requires forall i :: 0 <= i < |s| ==> s[i] as int >= 32
    ensures NoEnd(s) && CString(s) == s
  {
    if s != [] {
      PrintableIsWhole(s[1..]);
    }
  }

  lemma ShownIsPrintable(c: Command)
    requires Showable(c)
    ensures forall i :: 0 <= i < |Show(c)| ==> Show(c)[i] as int >= 32
  {
    ArgsPrintable(Arguments(c));
  }

  /** Sent byte by byte to an empty buffer, a printed command that fits makes exactly its own call. */
  lemma CommandArrives(c: Command, end: char)
    requires Showable(c) && FitInt(Arguments(c)) && |Show(c)| < CAPACITY && Ends(end)
    ensures Lines(Show(c) + [end]) == [Show(c)]
    ensures Events(Lines(Show(c) + [end]))
         == match CallOf(c) case Some(call) => [Motor(call)] case None => []
  {
    hide Show, CallOf, Parse;
    ShownIsPrintable(c);
    PrintableIsWhole(Show(c));
    OneLine(Show(c), end);
    CommandRoundTrip(c);
    assert [Show(c)][..0] == [];
    assert Events([]) == [];
  }
}

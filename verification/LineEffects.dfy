/** From the bytes on the serial line to the bytes in the drivers' registers, with nothing in between. */
module LineEffects {
  import opened Options
  import opened Bits
  import opened I2cMux
  import opened MotorDriver
  import opened Routing
  import opened CText
  import opened SerialLines
  import opened Commands
  import opened Console
  import opened DriverEffects

  /** Devices and cache after the bytes. */
  function After(s: System, text: string): System {
    Run(s, Events(Lines(text)))
  }

  /** The driver at (channel, address) holds the given values in the given registers; the rest of its registers and
  all other drivers are as before. */
  ghost predicate OnlyWrites(before: Devices, after: Devices, channel: int, address: Byte, values: File) {
    forall c: nat, a: Byte ::
      FileOf(after, c, a)
      == if c == channel && a == address then FileOf(before, c, a) + values else FileOf(before, c, a)
  }

  /** The channel a request reaches: itself if there is such a channel, and otherwise the one already selected. */
  function Reached(current: int, channel: int): int {
    if channel % 0x100 <= 7 then channel % 0x100 else current
  }

  // ----- one line, one call -----

  lemma OneCall(s: System, call: Call, channel: int, values: File)
    requires Agree(s.current, s.devices.control) && call.address != 0x70
    requires call.channel == channel % 0x100
    requires forall file :: Apply(file, BodyFrames(call)) == file + values
    ensures var s' := Run(s, [Motor(call)]);
            && OnlyWrites(s.devices, s'.devices, Reached(s.current, channel), call.address, values)
            && s'.current == Reached(s.current, channel) && Agree(s'.current, s'.devices.control)
  {
    hide Step, FileOf, BodyFrames, Apply, Agree;
    RunOne(s, Motor(call));
    StepRouted(s, Motor(call), 0, 0);
    StepTarget(s, call);
    forall c: nat, a: Byte
      ensures FileOf(Step(s, Motor(call)).devices, c, a)
           == if c == Reached(s.current, channel) && a == call.address then FileOf(s.devices, c, a) + values
              else FileOf(s.devices, c, a)
    {
      StepRouted(s, Motor(call), c, a);
    }
  }

  lemma RunOne(s: System, e: Event)
    ensures Run(s, [e]) == Step(s, e) && Run(s, []) == s
  {
    hide Step;
    assert [e][..0] == [];
    assert Run(s, []) == s;
  }

  lemma StepTarget(s: System, call: Call)
    ensures Step(s, Motor(call)).current == Reached(s.current, call.channel)
  {
    hide Deliver, Frames;
  }

  /** The effect of a printed command that makes a call. */
  lemma CommandLine(s: System, c: Command, channel: int, address: int, values: File, end: char)
    requires Agree(s.current, s.devices.control) && address % 0x100 != 0x70
    requires Showable(c) && FitInt(Arguments(c)) && |Show(c)| <= 31 && (end == '\n' || end == '\r')
    requires CallOf(c).Some?
    requires CallOf(c).value.channel == channel % 0x100 && CallOf(c).value.address == address % 0x100
    requires forall file :: Apply(file, BodyFrames(CallOf(c).value)) == file + values
    ensures Writes(s, Show(c) + [end], channel, address, values)
  {
    hide Run, Lines, Events, Show, CallOf, Showable, FitInt, Arguments, Agree, OnlyWrites;
    CommandArrives(c, end);
    OneCall(s, CallOf(c).value, channel, values);
  }

  /** The bytes write the values into the driver they name and nothing else; the channel reached stays selected. */
  ghost predicate Writes(s: System, text: string, channel: int, address: int, values: File) {
    var s', reached := After(s, text), Reached(s.current, channel);
    && OnlyWrites(s.devices, s'.devices, reached, address % 0x100, values)
    && s'.current == reached && Agree(s'.current, s'.devices.control)
  }

  predicate Fits(line: string, args: seq<int>, end: char) {
    && |line| <= 31 && (end == '\n' || end == '\r')
    && forall i :: 0 <= i < |args| ==> -0x8000_0000 <= args[i] <= 0x7FFF_FFFF
  }

  /** `setspeeds`: both PWM registers, inverted, the first speed in 0x03 and the second in 0x05. */
  lemma SetSpeedsLine(s: System, channel: int, address: int, one: int, two: int, end: char)
    requires Agree(s.current, s.devices.control) && address % 0x100 != 0x70
    requires Fits("setspeeds" + Args([channel, address, one, two]), [channel, address, one, two], end)
    ensures Writes(s, "setspeeds" + Args([channel, address, one, two]) + [end], channel, address,
                   map[0x03 := 255 - one % 0x100, 0x05 := 255 - two % 0x100])
  {
    hide Apply, BodyFrames, Agree, Writes, Args;
    var c := SetSpeeds(channel, address, one, two);
    forall file
      ensures Apply(file, BodyFrames(CallOf(c).value))
           == file + map[0x03 := 255 - one % 0x100, 0x05 := 255 - two % 0x100]
    {
      CallWrites(file, CallOf(c).value);
    }
    CommandLine(s, c, channel, address, map[0x03 := 255 - one % 0x100, 0x05 := 255 - two % 0x100], end);
  }

  /** `move`: the inverted speed in 0x05, and in 0x07 PWM1 with the direction, forward unless it is zero. */
  lemma MoveLine(s: System, channel: int, address: int, speed: int, direction: int, end: char)
    requires Agree(s.current, s.devices.control) && address % 0x100 != 0x70
    requires Fits("move" + Args([channel, address, speed, direction]), [channel, address, speed, direction], end)
    ensures Writes(s, "move" + Args([channel, address, speed, direction]) + [end], channel, address,
                   map[0x05 := 255 - speed % 0x100, 0x07 := if direction != 0 then 0xC4 else 0xD1])
  {
    hide Apply, BodyFrames, Agree, Writes, Args;
    var c := Move(channel, address, speed, direction);
    var values: File := map[0x05 := 255 - speed % 0x100, 0x07 := if direction != 0 then 0xC4 else 0xD1];
    forall file
      ensures Apply(file, BodyFrames(CallOf(c).value)) == file + values
    {
      CallWrites(file, CallOf(c).value);
    }
    CommandLine(s, c, channel, address, values, end);
  }

  /** `defaultmove`: one of eight bytes in 0x07, by level and direction. */
  lemma DefaultMoveLine(s: System, channel: int, address: int, level: int, direction: int, end: char)
    requires Agree(s.current, s.devices.control) && address % 0x100 != 0x70
    requires Fits("defaultmove" + Args([channel, address, level, direction]), [channel, address, level, direction], end)
    ensures Writes(s, "defaultmove" + Args([channel, address, level, direction]) + [end], channel, address,
                   map[0x07 := if level % 0x100 == 3 then (if direction != 0 then 0x04 else 0x11)
                               else if level % 0x100 == 2 then (if direction != 0 then 0xC4 else 0xD1)
                               else if level % 0x100 == 1 then (if direction != 0 then 0x84 else 0x91)
                               else (if direction != 0 then 0x44 else 0x51)])
  {
    hide Apply, BodyFrames, Agree, Writes, Args;
    var c := DefaultMove(channel, address, level, direction);
    var values: File := map[0x07 := if level % 0x100 == 3 then (if direction != 0 then 0x04 else 0x11)
                                    else if level % 0x100 == 2 then (if direction != 0 then 0xC4 else 0xD1)
                                    else if level % 0x100 == 1 then (if direction != 0 then 0x84 else 0x91)
                                    else (if direction != 0 then 0x44 else 0x51)];
    forall file
      ensures Apply(file, BodyFrames(CallOf(c).value)) == file + values
    {
      CallWrites(file, CallOf(c).value);
    }
    CommandLine(s, c, channel, address, values, end);
  }

  lemma StopLine(s: System, channel: int, address: int, end: char)
    requires Agree(s.current, s.devices.control) && address % 0x100 != 0x70
    requires Fits("stop" + Args([channel, address]), [channel, address], end)
    ensures Writes(s, "stop" + Args([channel, address]) + [end], channel, address, map[0x07 := 0x55])
  {
    hide Apply, BodyFrames, Agree, Writes, Args;
    var c := StopMotor(channel, address);
    forall file
      ensures Apply(file, BodyFrames(CallOf(c).value)) == file + map[0x07 := 0x55]
    {
      CallWrites(file, CallOf(c).value);
    }
    CommandLine(s, c, channel, address, map[0x07 := 0x55], end);
  }

  /** "a" and "b" switch the regulator of the default driver on channel 7 off and on; "c" and "d" select that channel
  and change no driver. */
  lemma TestLines(s: System, end: char)
    requires Agree(s.current, s.devices.control) && (end == '\n' || end == '\r')
    ensures Writes(s, "a" + [end], 7, 0x60, map[0x08 := 0x00])
    ensures Writes(s, "b" + [end], 7, 0x60, map[0x08 := 0x05])
    ensures Writes(s, "c" + [end], 7, 0x60, map[])
    ensures Writes(s, "d" + [end], 7, 0x60, map[])
  {
    hide Apply, BodyFrames, Agree, Writes;
    BareLine(TestA, "a");
    BareLine(TestB, "b");
    BareLine(TestC, "c");
    BareLine(TestD, "d");
    forall file
      ensures Apply(file, BodyFrames(CallOf(TestA).value)) == file + map[0x08 := 0x00]
      ensures Apply(file, BodyFrames(CallOf(TestB).value)) == file + map[0x08 := 0x05]
      ensures Apply(file, BodyFrames(CallOf(TestC).value)) == file + map[]
      ensures Apply(file, BodyFrames(CallOf(TestD).value)) == file + map[]
    {
      CallWrites(file, CallOf(TestA).value);
      CallWrites(file, CallOf(TestB).value);
      CallWrites(file, CallOf(TestC).value);
      CallWrites(file, CallOf(TestD).value);
    }
    CommandLine(s, TestA, 7, 0x60, map[0x08 := 0x00], end);
    CommandLine(s, TestB, 7, 0x60, map[0x08 := 0x05], end);
    CommandLine(s, TestC, 7, 0x60, map[], end);
    CommandLine(s, TestD, 7, 0x60, map[], end);
  }

  lemma BareLine(c: Command, text: string)
    requires Arguments(c) == [] && Name(c) == text
    ensures Show(c) == text
  {
  }

  /** The reads of "c" and "d" name the current register, 0x01, and the limit register, 0x00. */
  lemma ReadLines(current: int, end: char)
    requires end == '\n' || end == '\r'
    ensures exists select :: RunFrames(current, Events(Lines("c" + [end]))) == select + [Short(0x60, 0x01)]
    ensures exists select :: RunFrames(current, Events(Lines("d" + [end]))) == select + [Short(0x60, 0x00)]
  {
    hide Events, Lines, RunFrames;
    BareLine(TestC, "c");
    BareLine(TestD, "d");
    ReadFrames(current, TestC, 0x01, end);
    ReadFrames(current, TestD, 0x00, end);
  }

  lemma ReadFrames(current: int, c: Command, register: Byte, end: char)
    requires CallOf(c) == Some(Read(7, 0x60, register)) && (end == '\n' || end == '\r')
    requires Showable(c) && Arguments(c) == [] && |Show(c)| <= 31
    ensures RunFrames(current, Events(Lines(Show(c) + [end]))) == SelectFrames(current, 7) + [Short(0x60, register)]
  {
    hide Events, Lines, RunFrames, SelectFrames, Show, CallOf;
    CommandArrives(c, end);
    OneEvent(current, Motor(Read(7, 0x60, register)));
  }

  // ----- what surrounds a command -----

  lemma {:induction false} ScanArgsThen(args: seq<int>, tail: string)
    requires FitInt(args) && (tail == [] || !IsDigit(tail[0], 10))
    ensures ScanInts(Args(args) + tail, |args|) == args
    decreases |args|
  {
    hide ScanInt, Decimal, IsDigit;
    if args != [] {
      var rest := Args(args[1..]) + tail;
      SpaceIsNoDigit();
      ScanDecimal(args[0], rest);
      ScanArgsThen(args[1..], tail);
      assert Args(args) + tail == [' '] + Decimal(args[0]) + rest;
    }
  }

  lemma ParseInside(spaces: string, c: Command, tail: string)
    requires Spaces(spaces) && Showable(c) && FitInt(Arguments(c)) && Arguments(c) != []
    requires tail == [] || !IsDigit(tail[0], 10)
    ensures Parse(spaces + Show(c) + tail) == c
  {
    hide FirstWord, AfterWord, ScanInts, Args, FitInt, IsDigit, Spaces;
    var args := Arguments(c);
    ScanArgsThen(args, tail);
    ArgsStart(args);
    NameNoSpace(c);
    assert spaces + Show(c) + tail == spaces + Name(c) + (Args(args) + tail);
    FirstWordIs(spaces, Name(c), Args(args) + tail);
  }

  lemma NameNoSpace(c: Command)
    requires Showable(c)
    ensures Name(c) != [] && NoSpace(Name(c))
  {
  }

  /** Spaces before a command and text after its last argument change nothing. */
  lemma TailIgnored(s: System, spaces: string, c: Command, tail: string, end: char)
    requires Plain(spaces + Show(c) + tail) && |Show(c)| <= 31 && (end == '\n' || end == '\r')
    requires Spaces(spaces) && Showable(c) && FitInt(Arguments(c)) && Arguments(c) != []
    requires tail == [] || !IsDigit(tail[0], 10)
    ensures After(s, spaces + Show(c) + tail + [end]) == After(s, Show(c) + [end])
  {
    hide Parse, CallOf, Run, Lines, Events, LineEvents, Show, Plain, Spaces, FitInt, Arguments, Showable;
    ParseInside(spaces, c, tail);
    CommandRoundTrip(c);
    ShownIsPlain(c);
    PlainEvents(spaces + Show(c) + tail, end);
    PlainEvents(Show(c), end);
    SameEvents(spaces + Show(c) + tail, Show(c));
  }

  lemma PlainEvents(line: string, end: char)
    requires Plain(line) && (end == '\n' || end == '\r')
    ensures Events(Lines(line + [end])) == LineEvents(line)
  {
    hide Parse, CallOf;
    PlainIsWhole(line);
    hide CString, Lines, Rest;
    OneLine(line, end);
    EventsSnoc([], line);
    assert [] + [line] == [line];
    assert Events([]) == [];
  }

  lemma SameEvents(line: string, other: string)
    requires Parse(line) == Parse(other)
    ensures LineEvents(line) == LineEvents(other)
  {
    hide Parse, CallOf;
  }

  lemma ShownIsPlain(c: Command)
    requires Showable(c) && |Show(c)| <= 31
    ensures Plain(Show(c))
  {
    hide Show;
    ShownIsPrintable(c);
  }

  // ----- lines that do nothing -----

  predicate Spaces(s: string) {
    forall i :: 0 <= i < |s| ==> IsSpace(s[i])
  }

  lemma {:induction false} SkipAll(spaces: string, t: string)
    requires Spaces(spaces) && (t == [] || !IsSpace(t[0]))
    ensures SkipSpaces(spaces + t) == t
  {
    if spaces == [] {
      assert spaces + t == t;
    } else {
      assert (spaces + t)[1..] == spaces[1..] + t;
      SkipAll(spaces[1..], t);
    }
  }

  lemma FirstWordIs(spaces: string, word: string, rest: string)
    requires Spaces(spaces) && NoSpace(word) && (rest == [] || IsSpace(rest[0])) && (word == [] ==> rest == [])
    ensures FirstWord(spaces + word + rest) == word && AfterWord(spaces + word + rest) == rest
  {
    hide SkipSpaces, TakeWord;
    assert spaces + word + rest == spaces + (word + rest);
    SkipAll(spaces, word + rest);
    WordPrefix(word, rest);
  }

  predicate Plain(line: string) {
    |line| <= 31 && forall i :: 0 <= i < |line| ==> line[i] != '\n' && line[i] != '\r' && line[i] != '\0'
  }

  lemma {:induction false} PlainIsWhole(line: string)
    requires Plain(line)
    ensures CString(line) == line
  {
    if line != [] {
      PlainIsWhole(line[1..]);
    }
  }

  lemma PlainLine(s: System, line: string, end: char)
    requires Plain(line) && (end == '\n' || end == '\r') && CallOf(Parse(line)) == None
    ensures After(s, line + [end]) == s
  {
    hide Parse, CallOf, Step, Plain;
    PlainEvents(line, end);
    RunOne(s, Disable);
  }

  /** A line whose first word is none of the four commands, and that is not one of the four letters, does nothing:
  nothing is sent and the cache stays. */
  lemma UnknownLine(s: System, spaces: string, word: string, rest: string, end: char)
    requires Plain(spaces + word + rest) && (end == '\n' || end == '\r')
    requires Spaces(spaces) && NoSpace(word) && (rest == [] || IsSpace(rest[0])) && (word == [] ==> rest == [])
    requires |word| <= 15 && word !in {"move", "stop", "defaultmove", "setspeeds"}
    requires spaces + word + rest !in {"a", "b", "c", "d"}
    ensures After(s, spaces + word + rest + [end]) == s
  {
    hide FirstWord, AfterWord, After, Plain, ScanInts;
    FirstWordIs(spaces, word, rest);
    PlainLine(s, spaces + word + rest, end);
  }

  /** A command with too few arguments does nothing. */
  lemma ShortLine(s: System, name: string, args: seq<int>, end: char)
    requires Fits(name + Args(args), args, end)
    requires (name in {"move", "defaultmove", "setspeeds"} && |args| < 4) || (name == "stop" && |args| < 2)
    ensures After(s, name + Args(args) + [end]) == s
  {
    hide After, Args, ScanInts, FirstWord, AfterWord, FitInt, Parse, CallOf, NoSpace, Plain;
    FitsIsInt(name + Args(args), args, end);
    NameIsWord(name);
    WordThenArgs(name, args);
    ShortIsPlain(name, args);
    TooFew(name + Args(args), name);
    PlainLine(s, name + Args(args), end);
  }

  lemma NameIsWord(name: string)
    requires name in {"move", "defaultmove", "setspeeds", "stop"}
    ensures |name| >= 4 && NoSpace(name)
  {
  }

  lemma WordThenArgs(name: string, args: seq<int>)
    requires name != [] && NoSpace(name) && FitInt(args)
    ensures FirstWord(name + Args(args)) == name
    ensures |ScanInts(AfterWord(name + Args(args)), 4)| == if |args| < 4 then |args| else 4
    ensures |ScanInts(AfterWord(name + Args(args)), 2)| == if |args| < 2 then |args| else 2
  {
    hide Args, ScanInts, FirstWord, AfterWord, FitInt, NoSpace;
    ArgsStart(args);
    assert [] + name + Args(args) == name + Args(args);
    FirstWordIs([], name, Args(args));
    ScanArgs(args, 4);
    ScanArgs(args, 2);
  }

  lemma TooFew(line: string, name: string)
    requires |line| >= 4 && FirstWord(line) == name
    requires (name in {"move", "defaultmove", "setspeeds"} && |ScanInts(AfterWord(line), 4)| < 4)
          || (name == "stop" && |ScanInts(AfterWord(line), 2)| < 2)
    ensures CallOf(Parse(line)) == None
  {
    hide ScanInts, FirstWord, AfterWord;
  }

  lemma FitsIsInt(line: string, args: seq<int>, end: char)
    requires Fits(line, args, end)
    ensures FitInt(args)
  {
  }

  lemma ArgsStart(args: seq<int>)
    ensures if args == [] then Args(args) == [] else Args(args) != [] && IsSpace(Args(args)[0])
  {
  }

  lemma ShortIsPlain(name: string, args: seq<int>)
    requires name in {"move", "defaultmove", "setspeeds", "stop"} && |name + Args(args)| <= 31
    ensures Plain(name + Args(args))
  {
    hide Args;
    ArgsPrintable(args);
  }

  // ----- lines after one another, from setup on -----

  /** After complete lines the next line acts on what they left. */
  lemma ThenLine(s: System, text: string, next: string)
    requires Rest(text) == []
    ensures After(s, text + next) == After(After(s, text), next)
    ensures Rest(text + next) == Rest(next)
  {
    hide Lines, Rest, Events, Run;
    Resume(text, next);
    assert [] + next == next;
    EventsConcat(Lines(text), Lines(next));
    RunConcat(s, Events(Lines(text)), Events(Lines(next)));
  }

  /** Text whose commands are not addressed to the multiplexer keeps cache and control byte in agreement. */
  lemma TextAgrees(s: System, text: string)
    requires Agree(s.current, s.devices.control) && AllAddressed(Events(Lines(text)))
    ensures Agree(After(s, text).current, After(s, text).devices.control)
  {
    hide Lines, Events, Run;
    ElisionInvisible(s, Events(Lines(text)));
  }

  /** From any state, setup leaves the eight default drivers stopped at half speed, with its four bytes, touches no
  other driver, and ends with channel 7 selected. */
  lemma SetupLeaves(s: System)
    ensures var s' := Run(s, SetupEvents(8));
            && s'.current == 7 && Agree(s'.current, s'.devices.control)
            && forall c: nat, a: Byte ::
                 FileOf(s'.devices, c, a)
                 == if c < 8 && a == 0x60
                    then FileOf(s.devices, c, a) + map[0x02 := 0x00, 0x03 := 0x80, 0x04 := 0x00, 0x07 := 0x55]
                    else FileOf(s.devices, c, a)
  {
    hide Run, FileOf, Apply, Agree, SetupEvents, OwnFrames, Target, InitFrames;
    SetupShape(8);
    RoutedFromDisable(s, SetupEvents(8), 0, 0x60);
    SetupOwn(8, 0, 0x60);
    forall c: nat, a: Byte
      ensures FileOf(Run(s, SetupEvents(8)).devices, c, a)
           == if c < 8 && a == 0x60
              then FileOf(s.devices, c, a) + map[0x02 := 0x00, 0x03 := 0x80, 0x04 := 0x00, 0x07 := 0x55]
              else FileOf(s.devices, c, a)
    {
      RoutedFromDisable(s, SetupEvents(8), c, a);
      SetupOwn(8, c, a);
      CallWrites(FileOf(s.devices, c, a), Init(0, 0x60));
      NoFrames(FileOf(s.devices, c, a));
    }
  }

  lemma NoFrames(file: File)
    ensures Apply(file, []) == file
  {
  }

  lemma {:induction false} SetupOwn(n: nat, channel: nat, address: Byte)
    requires n <= 8
    ensures Target(SetupEvents(n)) == n - 1
    ensures OwnFrames(SetupEvents(n), channel, address)
         == if channel < n && address == 0x60 then BodyFrames(Init(0, 0x60)) else []
  {
    hide BodyFrames, OwnFrames, Target;
    if n > 0 {
      SetupOwn(n - 1, channel, address);
      OwnSnoc(SetupEvents(n - 1), Motor(Init(n - 1, 0x60)), channel, address);
      AnyInit(n - 1);
    } else {
      OnlyDisable(channel, address);
    }
  }

  lemma AnyInit(channel: Byte)
    ensures BodyFrames(Init(channel, 0x60)) == BodyFrames(Init(0, 0x60))
  {
  }

  lemma OnlyDisable(channel: nat, address: Byte)
    ensures Target([Disable]) == -1 && OwnFrames([Disable], channel, address) == []
  {
    assert [Disable][..0] == [];
  }

  /** Speeds and then a level on two lines drive that motor at the first or second speed, fully or not at all, in the
  direction given, whatever state of the bus setup or earlier commands left. */
  lemma SpeedsThenLevel(s: System, channel: Byte, address: Byte, one: Byte, two: Byte, level: Byte, direction: int,
                        end: char)
    requires Agree(s.current, s.devices.control) && channel <= 7 && address != 0x70
    requires Fits("setspeeds" + Args([channel, address, one, two]), [channel, address, one, two], end)
    requires Fits("defaultmove" + Args([channel, address, level, direction]), [channel, address, level, direction], end)
    ensures var text := ("setspeeds" + Args([channel, address, one, two]) + [end])
                        + ("defaultmove" + Args([channel, address, level, direction]) + [end]);
            var file := FileOf(After(s, text).devices, channel, address);
            && Duty(file) == Some(if level == 3 then 255 else if level == 2 then two
                                  else if level == 1 then one else 0)
            && Heading(file) == Some(if direction != 0 then 0x04 else 0x11)
  {
    hide Args, After, Agree, FileOf, Rest, Fits;
    var first := "setspeeds" + Args([channel, address, one, two]) + [end];
    var second := "defaultmove" + Args([channel, address, level, direction]) + [end];
    SetSpeedsLine(s, channel, address, one, two, end);
    SentLeavesNothing(SetSpeeds(channel, address, one, two), end);
    DefaultMoveLine(After(s, first), channel, address, level, direction, end);
    ThenLine(s, first, second);
  }

  lemma SentLeavesNothing(c: Command, end: char)
    requires c.SetSpeeds? && Fits(Show(c), Arguments(c), end)
    ensures Rest("setspeeds" + Args(Arguments(c)) + [end]) == []
  {
    hide Args, Rest;
    ShownLeavesNothing(c, end);
  }

  /** From power-on: after setup and any text not addressed to the multiplexer, from any state, every motor is driven
  at the duty and in the direction its own commands last asked for. */
  lemma SetupThenDuty(s: System, text: string, channel: nat, address: Byte)
    requires AllAddressed(Events(Lines(text)))
    ensures var events := SetupEvents(8) + Events(Lines(text));
            var file := FileOf(After(Run(s, SetupEvents(8)), text).devices, channel, address);
            var calls := OwnCalls(events, channel, address);
            && (AskedDuty(calls).Some? ==> Duty(file) == AskedDuty(calls))
            && (AskedHeading(calls).Some? ==> Heading(file) == AskedHeading(calls))
  {
    hide Lines, Events, Run, SetupEvents, OwnCalls, AskedDuty, AskedHeading, FileOf;
    SetupShape(8);
    RunConcat(s, SetupEvents(8), Events(Lines(text)));
    DutyHistory(s, SetupEvents(8) + Events(Lines(text)), channel, address);
  }
}

/** The main loop: serial bytes into the fixed input buffer, finished lines to the motors. */
module Console {
  import opened Bits
  import opened I2cMux
  import opened MotorDriver
  import opened Routing
  import opened Misrouting
  import opened CText
  import opened SerialLines
  import opened Commands

  class Console {
    const inputBuffer: array<char>
    var inputPos: nat
    const motors: Motors

    constructor (motors: Motors)
      ensures Valid() && Pending() == [] && this.motors == motors && fresh(inputBuffer)
    {
      this.motors := motors;
      inputBuffer := new char[CAPACITY](_ => '\0');
      inputPos := 0;
    }

    ghost predicate Valid()
      reads this, inputBuffer
    {
      && inputBuffer.Length == CAPACITY
      && inputPos < CAPACITY
      && NoEnd(Pending())
    }

    ghost function Pending(): string
      requires inputPos <= inputBuffer.Length
      reads this, inputBuffer
    {
      inputBuffer[..inputPos]
    }

    /** Every frame sent and the channel cached are those of the events. */
    twostate predicate Performed(events: seq<Event>)
      reads motors.mux, motors.mux.bus
    {
      && motors.mux.currentChannel == CurrentAfter(old(motors.mux.currentChannel), events)
      && motors.mux.bus.log == old(motors.mux.bus.log) + RunFrames(old(motors.mux.currentChannel), events)
    }

    /** The whole bus goes through the run of the events performed. */
    twostate lemma PerformedIsRun(events: seq<Event>)
      requires Performed(events)
      ensures motors.View() == Run(old(motors.View()), events)
    {
      var current := old(motors.mux.currentChannel);
      RunIsDelivery(old(motors.View()), events);
      DeliverConcat(motors.mux.bus.origin, old(motors.mux.bus.log), RunFrames(current, events));
    }

    /** One finished line. */
    method Dispatch(line: string)
      modifies motors.mux, motors.mux.bus
      ensures CallOf(Parse(line)).Some? ==> motors.Did(Motor(CallOf(Parse(line)).value))
      ensures CallOf(Parse(line)).None? ==> motors.mux.currentChannel == old(motors.mux.currentChannel)
      ensures CallOf(Parse(line)).None? ==> motors.mux.bus.log == old(motors.mux.bus.log)
      ensures CallOf(Parse(line)).Some? ==> motors.View() == Step(old(motors.View()), Motor(CallOf(Parse(line)).value))
    {
      hide FirstWord, AfterWord, ScanInts, Frames, NextCurrent, Step;
      var word := FirstWord(line);
      if |word| >= WORD_CAPACITY {
        return;
      }
      var four, two := ScanInts(AfterWord(line), 4), ScanInts(AfterWord(line), 2);
      if |four| == 4 && word == "move" {
        motors.VariableMotionControl(ToByte(four[0]), ToByte(four[1]), ToByte(four[2]), four[3] != 0);
      } else if |two| == 2 && word == "stop" {
        motors.MotorDriverStop(ToByte(two[0]), ToByte(two[1]));
      } else if |four| == 4 && word == "defaultmove" {
        motors.DefaultMotionControl(ToByte(four[0]), ToByte(four[1]), ToByte(four[2]), four[3] != 0);
      } else if |four| == 4 && word == "setspeeds" {
        motors.SetMotionControl(ToByte(four[0]), ToByte(four[1]), ToByte(four[2]), ToByte(four[3]));
      } else if line == "abc" {
        return;
      } else if line == "a" {
        motors.MotorDriverRegControl(7, DEFAULT_ADDRESS, false);
      } else if line == "b" {
        motors.MotorDriverRegControl(7, DEFAULT_ADDRESS, true);
      } else if line == "c" {
        var raw: Byte := *;
        var current := motors.ReadCurrentEstimate(7, DEFAULT_ADDRESS, raw);
      } else if line == "d" {
        var raw: Byte := *;
        var limits := motors.ReadLimitTriggers(7, DEFAULT_ADDRESS, raw);
      }
      if CallOf(Parse(line)).Some? {
        motors.Stepped(Motor(CallOf(Parse(line)).value));
      }
    }

    /** The terminator branch: terminate, dispatch, start an empty line. */
    method FinishLine() returns (dispatched: string)
      requires Valid()
      modifies this`inputPos, inputBuffer, motors.mux, motors.mux.bus
      ensures Valid() && Pending() == [] && dispatched == old(Pending())
      ensures Performed(LineEvents(CString(dispatched)))
    {
      hide Parse, CallOf, Frames, NextCurrent, CString;
      dispatched := inputBuffer[..inputPos];
      inputBuffer[inputPos] := '\0';
      UpToNul(inputBuffer[..], inputPos);
      assert inputBuffer[..][..inputPos] == dispatched;
      var line := CString(inputBuffer[..]);
      OneLineEvents(motors.mux.currentChannel, line);
      Dispatch(line);
      inputPos := 0;
      inputBuffer[0] := '\0';
    }

    /** Reads all bytes available. The buffers dispatched are the finished lines of what was pending and what
    came in; the motors receive the calls those lines ask for, in order. */
    method Loop(incoming: string) returns (dispatched: seq<string>)
      requires Valid()
      modifies this`inputPos, inputBuffer, motors.mux, motors.mux.bus
      ensures Valid()
      ensures dispatched == Lines(old(Pending()) + incoming)
      ensures Pending() == Rest(old(Pending()) + incoming)
      ensures Performed(Events(dispatched))
      ensures motors.View() == Run(old(motors.View()), Events(dispatched))
    {
      hide Lines, Rest, RunFrames, CurrentAfter, Events, LineEvents, CString, Run;
      ghost var p := Pending();
      ghost var current := motors.mux.currentChannel;
      Unfinished(p);
      NoEvents(current);
      dispatched := [];
      var i := 0;
      assert p + incoming[..0] == p;
      while i < |incoming|
        invariant 0 <= i <= |incoming|
        invariant Valid()
        invariant dispatched == Lines(p + incoming[..i])
        invariant Pending() == Rest(p + incoming[..i])
        invariant Performed(Events(dispatched))
      {
        var inChar := incoming[i];
        OneMore(p + incoming[..i], inChar);
        assert (p + incoming[..i]) + [inChar] == p + incoming[..i + 1];
        if inChar == '\n' || inChar == '\r' {
          var line := FinishLine();
          EventsSnoc(dispatched, line);
          RunFramesConcat(current, Events(dispatched), LineEvents(CString(line)));
          dispatched := dispatched + [line];
        } else if inputPos < CAPACITY - 1 {
          inputBuffer[inputPos] := inChar;
          inputPos := inputPos + 1;
          assert Pending() == Rest(p + incoming[..i]) + [inChar];
        }
        i := i + 1;
      }
      assert incoming[..i] == incoming;
      PerformedIsRun(Events(dispatched));
    }

    /** Any number of calls of the main loop, one per chunk of input. The lines dispatched are those of the whole
    stream, and the devices take the run of their events. */
    method Session(chunks: seq<string>) returns (dispatched: seq<string>)
      requires Valid()
      modifies this`inputPos, inputBuffer, motors.mux, motors.mux.bus
      ensures Valid()
      ensures dispatched == Lines(old(Pending()) + Flatten(chunks))
      ensures Pending() == Rest(old(Pending()) + Flatten(chunks))
      ensures Performed(Events(dispatched))
      ensures motors.View() == Run(old(motors.View()), Events(dispatched))
    {
      hide Lines, Rest, RunFrames, CurrentAfter, Events, Run, Flatten;
      ghost var p := Pending();
      ghost var current := motors.mux.currentChannel;
      NoEvents(current);
      dispatched := [];
      var i := 0;
      while i < |chunks|
        invariant 0 <= i <= |chunks|
        invariant Valid()
        invariant ReadChunks(p, chunks) == dispatched + ReadChunks(Pending(), chunks[i..])
        invariant Rest(p + Flatten(chunks)) == Rest(Pending() + Flatten(chunks[i..]))
        invariant Performed(Events(dispatched))
      {
        FlattenFirst(Pending(), chunks[i..]);
        Resume(Pending() + chunks[i], Flatten(chunks[i..][1..]));
        var lines := Loop(chunks[i]);
        assert chunks[i..][1..] == chunks[i + 1..];
        EventsConcat(dispatched, lines);
        RunFramesConcat(current, Events(dispatched), Events(lines));
        dispatched := dispatched + lines;
        i := i + 1;
      }
      NothingLeft(Pending());
      assert chunks[i..] == [];
      ChunkingInvisible(p, chunks);
      PerformedIsRun(Events(dispatched));
    }

    /** One initialisation of setup, after the events in `done`. */
    method InitDriver(channel: Byte, ghost current: int, ghost log: seq<Frame>, ghost done: seq<Event>)
      requires motors.mux.currentChannel == CurrentAfter(current, done)
      requires motors.mux.bus.log == log + RunFrames(current, done)
      modifies motors.mux, motors.mux.bus
      ensures motors.mux.currentChannel == CurrentAfter(current, done + [Motor(Init(channel, DEFAULT_ADDRESS))])
      ensures motors.mux.bus.log == log + RunFrames(current, done + [Motor(Init(channel, DEFAULT_ADDRESS))])
    {
      hide RunFrames, CurrentAfter, Frames, NextCurrent;
      RunFramesConcat(current, done, [Motor(Init(channel, DEFAULT_ADDRESS))]);
      OneEvent(CurrentAfter(current, done), Motor(Init(channel, DEFAULT_ADDRESS)));
      motors.MotorDriverInit(channel, DEFAULT_ADDRESS);
    }

    /** The motor part of setup: all channels off, then the eight drivers initialised. */
    method Setup()
      modifies motors.mux, motors.mux.bus
      ensures Performed(SetupEvents(8))
    {
      hide RunFrames, CurrentAfter, Frames, NextCurrent;
      ghost var current, log := motors.mux.currentChannel, motors.mux.bus.log;
      OneEvent(current, Disable);
      motors.DisableAll();
      InitDriver(0, current, log, SetupEvents(0));
      InitDriver(1, current, log, SetupEvents(1));
      InitDriver(2, current, log, SetupEvents(2));
      InitDriver(3, current, log, SetupEvents(3));
      InitDriver(4, current, log, SetupEvents(4));
      InitDriver(5, current, log, SetupEvents(5));
      InitDriver(6, current, log, SetupEvents(6));
      InitDriver(7, current, log, SetupEvents(7));
    }

    /** From power-on: setup, then any serial bytes in any chunks. Whatever the devices held before, as long as the
    commands addressed to the multiplexer, if any, are harmless, every driver ends with exactly what the calls of the
    complete lines, routed to it, leave there. If there are none, the drive register of each default driver holds a
    legal drive byte. */
    method Operate(chunks: seq<string>) returns (dispatched: seq<string>)
      requires Valid() && Pending() == []
      modifies this`inputPos, inputBuffer, motors.mux, motors.mux.bus
      ensures Valid() && dispatched == Lines(Flatten(chunks))
      ensures motors.View() == Run(old(motors.View()), SetupEvents(8) + Events(dispatched))
      ensures AllAddressed(Events(dispatched)) ==>
                RoutedAlone(old(motors.View()).devices, motors.View().devices, SetupEvents(8) + Events(dispatched))
      ensures AllAddressed(Events(dispatched)) ==> DrivesHeld(motors.View().devices)
      ensures AllHarmless(SetupEvents(8) + Events(dispatched)) ==>
                RoutedDrivers(old(motors.View()).devices, motors.View().devices, SetupEvents(8) + Events(dispatched))
    {
      hide Lines, Rest, RunFrames, CurrentAfter, Events, Run, Flatten;
      hide SetupEvents, RoutedAlone, RoutedDrivers, DrivesHeld, AllAddressed, AllHarmless;
      ghost var s := motors.View();
      Setup();
      PerformedIsRun(SetupEvents(8));
      dispatched := Session(chunks);
      RunConcat(s, SetupEvents(8), Events(dispatched));
      assert [] + Flatten(chunks) == Flatten(chunks);
      if AllAddressed(Events(dispatched)) {
        SetupThenRouted(s, Events(dispatched));
        SetupKeepsDrivesLegal(s, Events(dispatched));
      }
      if AllHarmless(SetupEvents(8) + Events(dispatched)) {
        SetupThenHarmless(s, Events(dispatched));
      }
    }
  }

  /** The events of one line. */
  function LineEvents(line: string): seq<Event> {
    match CallOf(Parse(line))
    case Some(call) => [Motor(call)]
    case None => []
  }

  lemma EventsSnoc(lines: seq<string>, line: string)
    ensures Events(lines + [line]) == Events(lines) + LineEvents(CString(line))
  {
    assert (lines + [line])[..|lines|] == lines;
  }

  lemma {:induction false} EventsConcat(f: seq<string>, g: seq<string>)
    ensures Events(f + g) == Events(f) + Events(g)
    decreases |g|
  {
    hide LineEvents;
    if g == [] {
      assert f + g == f;
    } else {
      var h, line := g[..|g| - 1], g[|g| - 1];
      assert f + g == (f + h) + [line] && g == h + [line];
      EventsConcat(f, h);
      hide Events, LineEvents;
      EventsSnoc(f + h, line);
      EventsSnoc(h, line);
    }
  }

  lemma FlattenFirst(pending: string, chunks: seq<string>)
    requires chunks != []
    ensures pending + Flatten(chunks) == (pending + chunks[0]) + Flatten(chunks[1..])
  {
  }

  lemma NothingLeft(pending: string)
    requires NoEnd(pending) && |pending| < CAPACITY
    ensures ReadChunks(pending, []) == [] && Rest(pending + Flatten([])) == pending
  {
    Unfinished(pending);
    assert pending + Flatten([]) == pending;
  }

  lemma OneLineEvents(current: int, line: string)
    ensures CurrentAfter(current, LineEvents(line))
         == match CallOf(Parse(line)) case Some(call) => NextCurrent(current, Motor(call)) case None => current
    ensures RunFrames(current, LineEvents(line))
         == match CallOf(Parse(line)) case Some(call) => Frames(current, Motor(call)) case None => []
  {
    hide Frames, NextCurrent, Parse, CallOf;
    match CallOf(Parse(line))
    case Some(call) => OneEvent(current, Motor(call));
    case None =>
  }

  lemma NoEvents(current: int)
    ensures Events([]) == [] && RunFrames(current, []) == [] && CurrentAfter(current, []) == current
  {
  }

  lemma {:induction false} UpToNul(s: string, p: nat)
    requires p < |s| && s[p] == '\0'
    ensures CString(s) == CString(s[..p])
  {
    if p > 0 && s[0] != '\0' {
      UpToNul(s[1..], p - 1);
      assert s[..p][1..] == s[1..][..p - 1];
    }
  }

  // ----- from setup and serial bytes to driver registers -----

  /** Setup's disable and its first n driver initialisations. */
  function SetupEvents(n: nat): seq<Event>
    requires n <= 8
  {
    if n == 0 then [Disable] else SetupEvents(n - 1) + [Motor(Init(n - 1, DEFAULT_ADDRESS))]
  }

  lemma {:induction false} SetupShape(n: nat)
    requires n <= 8
    ensures |SetupEvents(n)| == n + 1 && SetupEvents(n)[0] == Disable && AllAddressed(SetupEvents(n))
    ensures forall c :: 0 <= c < n ==> SetupEvents(n)[c + 1] == Motor(Init(c, DEFAULT_ADDRESS))
  {
    if n > 0 {
      SetupShape(n - 1);
    }
  }

  /** After setup and any commands not addressed to the multiplexer, from any state of bus and cache. */
  lemma SetupThenRouted(s: System, commands: seq<Event>)
    requires AllAddressed(commands)
    ensures RoutedAlone(s.devices, Run(s, SetupEvents(8) + commands).devices, SetupEvents(8) + commands)
  {
    hide Run, FileOf, Apply, OwnFrames, SetupEvents;
    SetupShape(8);
    var events := SetupEvents(8) + commands;
    forall channel: nat, address: Byte
      ensures FileOf(Run(s, events).devices, channel, address)
           == Apply(FileOf(s.devices, channel, address), OwnFrames(events, channel, address))
    {
      RoutedFromDisable(s, events, channel, address);
    }
  }

  /** The same with harmless commands to the multiplexer among them. */
  lemma SetupThenHarmless(s: System, commands: seq<Event>)
    requires AllHarmless(SetupEvents(8) + commands)
    ensures RoutedDrivers(s.devices, Run(s, SetupEvents(8) + commands).devices, SetupEvents(8) + commands)
  {
    hide Run, SetupEvents, AllHarmless, RoutedDrivers;
    SetupShape(8);
    HarmlessRoutes(s, SetupEvents(8) + commands);
  }

  /** Exactly those commands: unless all are harmless, after some of them and further calls to drivers a driver is
  not as its own frames left it. */
  lemma SetupRoutingExactly(s: System, commands: seq<Event>)
    ensures (forall k: nat, more: seq<Event> ::
               k <= |commands| && AllAddressed(more) ==> RoutesOn(s, SetupEvents(8) + commands[..k], more))
       <==> AllHarmless(SetupEvents(8) + commands)
  {
    hide Run, SetupEvents, AllHarmless, AllAddressed, Harmless, RoutesOn;
    SetupShape(8);
    var events := SetupEvents(8) + commands;
    if AllHarmless(events) {
      forall k: nat, more: seq<Event> | k <= |commands| && AllAddressed(more)
        ensures RoutesOn(s, SetupEvents(8) + commands[..k], more)
      {
        assert events[..9 + k] == SetupEvents(8) + commands[..k];
        HarmlessThenRouted(s, events, 9 + k, more);
      }
    } else {
      var i := FirstHarm(events);
      SetupIsHarmless(commands, i);
      HarmShows(s, events, i);
      var more: seq<Event> :| AllAddressed(more) && !RoutesOn(s, events[..i + 1], more);
      assert events[..i + 1] == SetupEvents(8) + commands[..i - 8];
    }
  }

  lemma SetupIsHarmless(commands: seq<Event>, i: nat)
    requires |SetupEvents(8)| == 9 && AllAddressed(SetupEvents(8))
    requires i < |SetupEvents(8) + commands|
    requires var events := SetupEvents(8) + commands; !Harmless(Target(events[..i]), events[i])
    ensures i >= 9
  {
    hide SetupEvents, Target;
    HarmIsMuxCall(Target((SetupEvents(8) + commands)[..i]), (SetupEvents(8) + commands)[i]);
    assert forall j :: 0 <= j < 9 ==> Addressed((SetupEvents(8) + commands)[j]);
  }

  /** The drive register of each default driver is set and legal. */
  ghost predicate DrivesHeld(d: Devices) {
    forall channel: nat :: channel < 8 ==> DriveHeld(FileOf(d, channel, DEFAULT_ADDRESS))
  }

  predicate DriveHeld(file: File) {
    0x07 in file && DriveLegal(file[0x07])
  }

  lemma SetupKeepsDrivesLegal(s: System, commands: seq<Event>)
    requires AllAddressed(commands)
    ensures DrivesHeld(Run(s, SetupEvents(8) + commands).devices)
  {
    hide Run, FileOf, SetupEvents, DriveLegal, Frames;
    SetupShape(8);
    var events := SetupEvents(8) + commands;
    var rest := events[1..];
    RunFromDisable(s, events);
    DisableAgrees(s);
    forall channel: nat | channel < 8
      ensures DriveHeld(FileOf(Run(s, events).devices, channel, DEFAULT_ADDRESS))
    {
      assert rest[channel] == events[channel + 1] == Motor(Init(channel, DEFAULT_ADDRESS));
      assert rest[..channel + 1][channel] == rest[channel];
      DriveInvariant(Step(s, Disable), rest, channel, channel, DEFAULT_ADDRESS);
    }
  }

  /** Printed commands sent one after the other, each with its terminator. */
  function Sent(commands: seq<Command>, end: char): string {
    if commands == [] then [] else Sent(commands[..|commands| - 1], end) + (Show(commands[|commands| - 1]) + [end])
  }

  /** The calls of a sequence of commands, in order. */
  function CallsOf(commands: seq<Command>): seq<Event> {
    if commands == [] then []
    else
      CallsOf(commands[..|commands| - 1]) +
      match CallOf(commands[|commands| - 1])
      case Some(call) => [Motor(call)]
      case None => []
  }

  predicate Sendable(c: Command) {
    Showable(c) && FitInt(Arguments(c)) && |Show(c)| < CAPACITY
  }

  /** Any printed commands that fit the buffer, sent in a row, make exactly their own calls and leave nothing
  pending. */
  lemma {:induction false} CommandsArrive(commands: seq<Command>, end: char)
    requires Ends(end) && forall i :: 0 <= i < |commands| ==> Sendable(commands[i])
    ensures Events(Lines(Sent(commands, end))) == CallsOf(commands)
    ensures Rest(Sent(commands, end)) == []
    decreases |commands|
  {
    hide Show, CallOf, Lines, Rest, Events, Showable, FitInt, Arguments;
    if commands == [] {
      EmptyStream();
      NoEvents(0);
    } else {
      var before, c := commands[..|commands| - 1], commands[|commands| - 1];
      assert Sendable(c);
      CommandsArrive(before, end);
      CommandArrives(c, end);
      ShownLeavesNothing(c, end);
      Resume(Sent(before, end), Show(c) + [end]);
      assert [] + (Show(c) + [end]) == Show(c) + [end];
      EventsConcat(Lines(Sent(before, end)), Lines(Show(c) + [end]));
    }
  }

  lemma ShownLeavesNothing(c: Command, end: char)
    requires Showable(c) && |Show(c)| < CAPACITY && Ends(end)
    ensures Rest(Show(c) + [end]) == []
  {
    hide Show, Lines, Rest;
    ShownIsPrintable(c);
    PrintableIsWhole(Show(c));
    OneLine(Show(c), end);
  }

  /** Three lines of serial input after setup make the routing refinement fail, whatever the state before setup: the
  driver at 0x60 on channel 2, whose own calls left it driving, has been stopped. */
  lemma MuxLinesLeak(s: System, end: char)
    requires Ends(end)
    ensures var text := "move 2 96 100 1" + [end] + "stop 0 112" + [end] + "stop 0 96" + [end];
            var events := SetupEvents(8) + Events(Lines(text));
            var held := FileOf(Run(s, events).devices, 2, 0x60);
            var own := Apply(FileOf(s.devices, 2, 0x60), OwnFrames(events, 2, 0x60));
            && 0x07 in held && held[0x07] == STOP_BYTE
            && 0x07 in own && own[0x07] == VariableByte(true)
            && held != own
  {
    hide Lines, Events, Run, FileOf, Apply, OwnFrames, SetupEvents, LeakRun, VariableByte;
    LeakText(end);
    SetupShape(8);
    MuxCallLeaks(s, SetupEvents(8));
  }

  lemma LeakText(end: char)
    requires Ends(end)
    ensures Events(Lines("move 2 96 100 1" + [end] + "stop 0 112" + [end] + "stop 0 96" + [end])) == LeakRun()
  {
    hide Show, Lines, Rest, Events, Args, Sent, CallsOf;
    var move, first, second := Move(2, 96, 100, 1), StopMotor(0, 112), StopMotor(0, 96);
    ShowMove();
    ShowStops();
    NothingSent(end);
    SentSnoc([], move, end);
    SentSnoc([] + [move], first, end);
    SentSnoc([] + [move] + [first], second, end);
    CommandsArrive([] + [move] + [first] + [second], end);
    assert [] + ("move 2 96 100 1" + [end]) + ("stop 0 112" + [end]) + ("stop 0 96" + [end])
        == "move 2 96 100 1" + [end] + "stop 0 112" + [end] + "stop 0 96" + [end];
  }

  lemma NothingSent(end: char)
    ensures Sent([], end) == [] && CallsOf([]) == []
  {
  }

  lemma SentSnoc(commands: seq<Command>, c: Command, end: char)
    ensures Sent(commands + [c], end) == Sent(commands, end) + (Show(c) + [end])
    ensures CallsOf(commands + [c])
         == CallsOf(commands) + match CallOf(c) case Some(call) => [Motor(call)] case None => []
  {
    assert (commands + [c])[..|commands|] == commands;
  }

  lemma SmallTexts()
    ensures NatText(0) == "0" && NatText(1) == "1" && NatText(2) == "2"
    ensures NatText(96) == "96" && NatText(100) == "100" && NatText(112) == "112"
  {
    assert NatText(9) == "9" && NatText(10) == "10" && NatText(11) == "11";
  }

  lemma NoArgs()
    ensures Args([]) == []
  {
  }

  lemma ArgsCons(arg: nat, args: seq<int>)
    ensures Args([arg] + args) == " " + NatText(arg) + Args(args)
  {
    assert ([arg] + args)[1..] == args;
  }

  lemma ShowMove()
    ensures "move 2 96 100 1" == Show(Move(2, 96, 100, 1))
  {
    hide NatText, Args;
    NoArgs();
    SmallTexts();
    ArgsCons(1, []);
    ArgsCons(100, [1]);
    ArgsCons(96, [100, 1]);
    ArgsCons(2, [96, 100, 1]);
    assert [1] + [] == [1] && [100] + [1] == [100, 1];
    assert [96] + [100, 1] == [96, 100, 1] && [2] + [96, 100, 1] == [2, 96, 100, 1];
    assert Args([1]) == " 1" && Args([100, 1]) == " 100 1" && Args([96, 100, 1]) == " 96 100 1";
  }

  lemma ShowStops()
    ensures "stop 0 112" == Show(StopMotor(0, 112)) && "stop 0 96" == Show(StopMotor(0, 96))
  {
    hide NatText, Args;
    NoArgs();
    SmallTexts();
    ArgsCons(112, []);
    ArgsCons(96, []);
    ArgsCons(0, [112]);
    ArgsCons(0, [96]);
    assert [112] + [] == [112] && [96] + [] == [96] && [0] + [112] == [0, 112] && [0] + [96] == [0, 96];
    assert Args([112]) == " 112" && Args([96]) == " 96";
  }
}

/** Motor calls addressed to the multiplexer: exactly when they break the routing of the drivers, and a run that
shows it. */
module Misrouting {
  import opened Bits
  import opened I2cMux
  import opened MotorDriver
  import opened Routing

  // ----- what a call to the multiplexer leaves behind -----

  /** The last byte a non-empty sequence of frames transmits. */
  function LastData(frames: seq<Frame>): Byte
    requires frames != []
  {
    match frames[|frames| - 1]
    case Short(_, data) => data
    case Long(_, _, data) => data
  }

  /** Frames to the multiplexer reach no driver, and the last of them sets the control byte. */
  lemma {:induction false} MuxFrames(d: Devices, frames: seq<Frame>)
    requires AllTo(frames, MUX_ADDRESS)
    ensures Deliver(d, frames).cells == d.cells
    ensures frames != [] ==> Deliver(d, frames).control == LastData(frames)
    decreases |frames|
  {
    if frames != [] {
      MuxFrames(d, frames[..|frames| - 1]);
    }
  }

  /** The control byte that agrees with a cached channel. */
  function ControlFor(current: int): Byte
    requires -1 <= current <= 7
  {
    if current == -1 then 0 else ControlByte(current)
  }

  lemma AgreeIsControlFor(current: int, control: Byte)
    requires -1 <= current <= 7
    ensures Agree(current, control) <==> control == ControlFor(current)
  {
  }

  lemma BodyNonEmpty(call: Call)
    ensures BodyFrames(call) != []
  {
  }

  /** A call is harmless if it is not addressed to the multiplexer, or if the last byte it sends is the control byte
  of the channel then cached. Call and cached channel decide it; the devices are not consulted. */
  predicate Harmless(current: int, e: Event)
    requires -1 <= current <= 7
  {
    e.Motor? && e.call.address == MUX_ADDRESS ==>
      BodyFrames(e.call) != [] &&
      LastData(BodyFrames(e.call)) == ControlFor(SelectCurrent(current, e.call.channel))
  }

  /** After a call to the multiplexer the drivers are as before, and cache and control byte agree if and only if the
  call was harmless. */
  lemma MuxCallAgreesExactly(s: System, call: Call)
    requires -1 <= s.current <= 7 && Agree(s.current, s.devices.control) && call.address == MUX_ADDRESS
    ensures var s' := Step(s, Motor(call));
            && s'.devices.cells == s.devices.cells && -1 <= s'.current <= 7
            && (Agree(s'.current, s'.devices.control) <==> Harmless(s.current, Motor(call)))
  {
    hide SelectFrames, BodyFrames, Deliver, Agree, ControlFor;
    var select, body := SelectFrames(s.current, call.channel), BodyFrames(call);
    BodyAddress(call);
    BodyNonEmpty(call);
    Select(s.devices, s.current, call.channel);
    DeliverConcat(s.devices, select, body);
    MuxFrames(Deliver(s.devices, select), body);
    AgreeIsControlFor(SelectCurrent(s.current, call.channel), LastData(body));
  }

  /** Initialising, stopping, driving at variable speed or enabling a "driver" at the multiplexer's address is never
  harmless. */
  lemma NeverHarmless(current: int, call: Call)
    requires -1 <= current <= 7 && call.address == MUX_ADDRESS
    requires call.Init? || call.Stop? || call.VariableMotion? || (call.RegControl? && call.enable)
    ensures !Harmless(current, Motor(call))
  {
    hide ControlByte;
    ControlValues(SelectCurrent(current, call.channel));
  }

  lemma ControlValues(current: int)
    requires -1 <= current <= 7
    ensures ControlFor(current) in {0, 1, 2, 4, 8, 16, 32, 64, 128}
  {
    Pow2Values();
    if current >= 0 {
      ShlIsTimes(1, current);
    }
    assert Pow2(0) == 1;
  }

  // ----- routing holds over runs of harmless calls -----

  /** Every event of the run is harmless for the channel the run has cached by then. */
  predicate AllHarmless(events: seq<Event>) {
    forall i :: 0 <= i < |events| ==> Harmless(Target(events[..i]), events[i])
  }

  lemma StepCurrent(s: System, e: Event)
    ensures Step(s, e).current == NextCurrent(s.current, e)
  {
  }

  lemma HarmlessStep(s: System, e: Event, channel: nat, address: Byte)
    requires -1 <= s.current <= 7 && Agree(s.current, s.devices.control) && Harmless(s.current, e)
    requires address != MUX_ADDRESS
    ensures var s' := Step(s, e);
            && Agree(s'.current, s'.devices.control)
            && FileOf(s'.devices, channel, address)
               == if e.Motor? && channel == s'.current && e.call.address == address
                  then Apply(FileOf(s.devices, channel, address), BodyFrames(e.call))
                  else FileOf(s.devices, channel, address)
  {
    hide Step, Harmless, Agree, BodyFrames;
    if e.Motor? && e.call.address == MUX_ADDRESS {
      MuxCallAgreesExactly(s, e.call);
    } else {
      StepRouted(s, e, channel, address);
    }
  }

  /** Routing refinement with calls to the multiplexer: as long as each is harmless, every driver still ends with
  exactly what its own frames leave. */
  lemma {:induction false} HarmlessRefinement(s: System, events: seq<Event>, channel: nat, address: Byte)
    requires s.current == -1 && s.devices.control == 0
    requires AllHarmless(events) && address != MUX_ADDRESS
    ensures var s' := Run(s, events);
            && Agree(s'.current, s'.devices.control)
            && s'.current == Target(events)
            && FileOf(s'.devices, channel, address)
               == Apply(FileOf(s.devices, channel, address), OwnFrames(events, channel, address))
    decreases |events|
  {
    hide BodyFrames, Harmless, Step, FileOf, Receive;
    if events != [] {
      var e, before := events[|events| - 1], events[..|events| - 1];
      HarmlessPrefix(events, |events| - 1);
      HarmlessRefinement(s, before, channel, address);
      HarmlessStep(Run(s, before), e, channel, address);
      StepCurrent(Run(s, before), e);
      if e.Motor? {
        ApplyConcat(FileOf(s.devices, channel, address), OwnFrames(before, channel, address), BodyFrames(e.call));
      }
    }
  }

  lemma HarmlessPrefix(events: seq<Event>, k: nat)
    requires AllHarmless(events) && k <= |events|
    ensures AllHarmless(events[..k])
  {
    hide Harmless;
    forall i | 0 <= i < k
      ensures Harmless(Target(events[..k][..i]), events[..k][i])
    {
      assert events[..k][..i] == events[..i];
    }
  }

  lemma HarmlessThenAddressed(events: seq<Event>, more: seq<Event>)
    requires AllHarmless(events) && AllAddressed(more)
    ensures AllHarmless(events + more)
  {
    forall i | 0 <= i < |events + more|
      ensures Harmless(Target((events + more)[..i]), (events + more)[i])
    {
      if i < |events| {
        assert (events + more)[..i] == events[..i];
      } else {
        assert Addressed(more[i - |events|]);
      }
    }
  }

  /** The run starts disabled: in the state, or by its first event. */
  predicate Started(s: System, events: seq<Event>) {
    (s.current == -1 && s.devices.control == 0) || (events != [] && events[0] == Disable)
  }

  /** The same from any state, for runs that start with a disable. */
  lemma HarmlessRouted(s: System, events: seq<Event>, channel: nat, address: Byte)
    requires Started(s, events) && AllHarmless(events) && address != MUX_ADDRESS
    ensures var s' := Run(s, events);
            && Agree(s'.current, s'.devices.control)
            && s'.current == Target(events)
            && FileOf(s'.devices, channel, address)
               == Apply(FileOf(s.devices, channel, address), OwnFrames(events, channel, address))
  {
    hide Run, Apply, OwnFrames, AllHarmless, Agree, FileOf;
    if s.current == -1 && s.devices.control == 0 {
      HarmlessRefinement(s, events, channel, address);
    } else {
      HarmlessFromDisable(s, events, channel, address);
    }
  }

  lemma HarmlessFromDisable(s: System, events: seq<Event>, channel: nat, address: Byte)
    requires events != [] && events[0] == Disable && AllHarmless(events) && address != MUX_ADDRESS
    ensures var s' := Run(s, events);
            && Agree(s'.current, s'.devices.control)
            && s'.current == Target(events)
            && FileOf(s'.devices, channel, address)
               == Apply(FileOf(s.devices, channel, address), OwnFrames(events, channel, address))
  {
    hide Run, Apply, OwnFrames, Step, Harmless;
    var rest := events[1..];
    forall i | 0 <= i < |rest|
      ensures Harmless(Target(rest[..i]), rest[i])
    {
      OwnFromDisable(events[..i + 1], channel, address);
      assert events[..i + 1][1..] == rest[..i];
      assert Harmless(Target(events[..i + 1]), events[i + 1]);
    }
    RunFromDisable(s, events);
    OwnFromDisable(events, channel, address);
    DisableAgrees(s);
    HarmlessRefinement(Step(s, Disable), rest, channel, address);
  }

  // ----- disagreement always shows -----

  /** After the call, the driver's file is not what routing calls for. */
  ghost predicate Misroutes(s: System, call: Call, channel: nat, address: Byte) {
    FileOf(Step(s, Motor(call)).devices, channel, address)
    != if channel == SelectCurrent(s.current, call.channel) && call.address == address
       then Apply(FileOf(s.devices, channel, address), BodyFrames(call))
       else FileOf(s.devices, channel, address)
  }

  /** Two bytes that differ, differ in one of their eight bits. */
  lemma {:induction false} DifferInABit(a: nat, b: nat, n: nat)
    requires a < Pow2(n) && b < Pow2(n) && a != b
    ensures exists k: nat :: k < n && BitSet(a, k) != BitSet(b, k)
    decreases n
  {
    if a % 2 != b % 2 {
      assert BitSet(a, 0) != BitSet(b, 0);
    } else {
      DifferInABit(a / 2, b / 2, n - 1);
      var k: nat :| k < n - 1 && BitSet(a / 2, k) != BitSet(b / 2, k);
      assert BitSet(a, k + 1) != BitSet(b, k + 1);
    }
  }

  /** A disagreeing control byte enables a channel that is not cached, or not the one that is. */
  lemma SomeChannelDiffers(current: int, control: Byte)
    requires -1 <= current <= 7 && !Agree(current, control)
    ensures exists c: nat :: c < 8 && BitSet(control, c) != (c == current)
  {
    AgreeIsControlFor(current, control);
    Pow2Values();
    DifferInABit(control, ControlFor(current), 8);
    var c: nat :| c < 8 && BitSet(control, c) != BitSet(ControlFor(current), c);
    EnabledIsCached(current, ControlFor(current), c);
  }

  /** The channel whose request changes nothing: the cached one, or an invalid one if none is cached. */
  function Idle(current: int): Byte
    requires -1 <= current <= 7
  {
    if current == -1 then 8 else current
  }

  /** A register write reaches the addressed chip on every enabled channel and on no other. */
  lemma LongReaches(d: Devices, f: Frame, channel: nat)
    requires f.Long? && f.address != MUX_ADDRESS && channel < 8
    ensures var d' := Receive(d, f);
            && d'.control == d.control
            && if BitSet(d.control, channel)
               then Cell(channel, f.address, f.register) in d'.cells
                    && d'.cells[Cell(channel, f.address, f.register)] == f.data
               else FileOf(d', channel, f.address) == FileOf(d, channel, f.address)
  {
    hide BitSet;
  }

  /** A driving call on that channel writes register 0x07 on every enabled channel, and nowhere else. */
  lemma DriveReaches(s: System, direction: bool, channel: nat)
    requires -1 <= s.current <= 7 && channel < 8
    ensures var d := Step(s, Motor(VariableMotion(Idle(s.current), 0x60, 0, direction))).devices;
            if BitSet(s.devices.control, channel)
            then Cell(channel, 0x60, 0x07) in d.cells && d.cells[Cell(channel, 0x60, 0x07)] == VariableByte(direction)
            else FileOf(d, channel, 0x60) == FileOf(s.devices, channel, 0x60)
  {
    hide BitSet, Receive, FileOf, Deliver, Frames;
    var f, g := Long(0x60, 0x05, 255), Long(0x60, 0x07, VariableByte(direction));
    IdleDriveFrames(s.current, direction);
    assert [f, g] == [f] + [g];
    DeliverConcat(s.devices, [f], [g]);
    DeliverOne(s.devices, f);
    DeliverOne(Receive(s.devices, f), g);
    LongReaches(s.devices, f, channel);
    LongReaches(Receive(s.devices, f), g, channel);
  }

  lemma IdleDriveFrames(current: int, direction: bool)
    requires -1 <= current <= 7
    ensures Frames(current, Motor(VariableMotion(Idle(current), 0x60, 0, direction)))
         == [Long(0x60, 0x05, 255), Long(0x60, 0x07, VariableByte(direction))]
  {
    hide VariableByte;
  }

  /** From any disagreeing state some single call to a driver is misrouted. */
  lemma DisagreementMisroutes(s: System)
    requires -1 <= s.current <= 7 && !Agree(s.current, s.devices.control)
    ensures exists call: Call, channel: nat :: call.address != MUX_ADDRESS && Misroutes(s, call, channel, 0x60)
  {
    SomeChannelDiffers(s.current, s.devices.control);
    var c: nat :| c < 8 && BitSet(s.devices.control, c) != (c == s.current);
    var file := FileOf(s.devices, c, 0x60);
    // the direction the register does not already hold
    var direction := 0x07 in file && file[0x07] == VariableByte(false);
    var call := VariableMotion(Idle(s.current), 0x60, 0, direction);
    DriveReaches(s, direction, c);
    MissedDrive(s, c, direction);
    assert Misroutes(s, call, c, 0x60);
  }

  lemma MissedDrive(s: System, c: nat, direction: bool)
    requires -1 <= s.current <= 7 && c < 8 && BitSet(s.devices.control, c) != (c == s.current)
    requires var file := FileOf(s.devices, c, 0x60);
             direction == (0x07 in file && file[0x07] == VariableByte(false))
    ensures Misroutes(s, VariableMotion(Idle(s.current), 0x60, 0, direction), c, 0x60)
  {
    hide BitSet, Step;
    var call := VariableMotion(Idle(s.current), 0x60, 0, direction);
    var file := FileOf(s.devices, c, 0x60);
    DriveReaches(s, direction, c);
    LevelTwoIsVariable(true);
    DriveApplied(file, call);
    var after := FileOf(Step(s, Motor(call)).devices, c, 0x60);
    if c == s.current {
      assert after == file;
    } else {
      assert 0x07 in after && after[0x07] == VariableByte(direction);
    }
  }

  lemma DriveApplied(file: File, call: Call)
    requires call.VariableMotion?
    ensures 0x07 in Apply(file, BodyFrames(call)) && Apply(file, BodyFrames(call))[0x07] == VariableByte(call.direction)
  {
    var f := BodyFrames(call);
    assert f[..1] == [f[0]];
  }

  /** Agreement is exactly what routing rests on: it holds if and only if every single call to a driver is routed. */
  lemma AgreementIsRouting(s: System)
    requires -1 <= s.current <= 7
    ensures Agree(s.current, s.devices.control)
       <==> forall call: Call, channel: nat, address: Byte ::
              call.address != MUX_ADDRESS ==> !Misroutes(s, call, channel, address)
  {
    hide Step, FileOf, BodyFrames, Apply;
    if Agree(s.current, s.devices.control) {
      forall call: Call, channel: nat, address: Byte | call.address != MUX_ADDRESS
        ensures !Misroutes(s, call, channel, address)
      {
        StepRouted(s, Motor(call), channel, address);
        StepCurrent(s, Motor(call));
      }
    } else {
      DisagreementMisroutes(s);
    }
  }

  // ----- the exact condition over runs -----

  /** Every driver's file changed by exactly its own frames of the events. */
  ghost predicate RoutedDrivers(before: Devices, after: Devices, events: seq<Event>) {
    forall channel: nat, address: Byte :: address != MUX_ADDRESS ==>
      FileOf(after, channel, address)
      == Apply(FileOf(before, channel, address), OwnFrames(events, channel, address))
  }

  /** The run, continued, routes every driver. */
  ghost predicate RoutesOn(s: System, events: seq<Event>, more: seq<Event>) {
    RoutedDrivers(s.devices, Run(s, events + more).devices, events + more)
  }

  lemma HarmlessRoutes(s: System, events: seq<Event>)
    requires Started(s, events) && AllHarmless(events)
    ensures RoutedDrivers(s.devices, Run(s, events).devices, events)
  {
    hide Run, FileOf, Apply, OwnFrames, AllHarmless, Started;
    forall channel: nat, address: Byte | address != MUX_ADDRESS
      ensures FileOf(Run(s, events).devices, channel, address)
           == Apply(FileOf(s.devices, channel, address), OwnFrames(events, channel, address))
    {
      HarmlessRouted(s, events, channel, address);
    }
  }

  /** A run that is not harmless has a first call that is not. */
  lemma {:induction false} FirstHarm(events: seq<Event>) returns (i: nat)
    requires !AllHarmless(events)
    ensures i < |events| && AllHarmless(events[..i]) && !Harmless(Target(events[..i]), events[i])
    decreases |events|
  {
    hide Harmless;
    var init := events[..|events| - 1];
    if AllHarmless(init) {
      i := |events| - 1;
      HarmlessSnoc(events);
    } else {
      i := FirstHarm(init);
      assert init[..i] == events[..i];
    }
  }

  lemma HarmlessSnoc(events: seq<Event>)
    requires events != [] && AllHarmless(events[..|events| - 1])
    ensures Harmless(Target(events[..|events| - 1]), events[|events| - 1]) ==> AllHarmless(events)
  {
    hide Harmless;
    var init := events[..|events| - 1];
    forall i | 0 <= i < |events| && Harmless(Target(init), events[|events| - 1])
      ensures Harmless(Target(events[..i]), events[i])
    {
      if i < |init| {
        assert init[..i] == events[..i] && init[i] == events[i];
      }
    }
  }

  /** After the first harmful call one more call to a driver goes astray. */
  lemma HarmShows(s: System, events: seq<Event>, i: nat)
    requires i < |events| && Started(s, events[..i]) && AllHarmless(events[..i])
    requires !Harmless(Target(events[..i]), events[i])
    ensures exists more: seq<Event> :: AllAddressed(more) && !RoutesOn(s, events[..i + 1], more)
  {
    hide Run, Step, OwnFrames, Apply, FileOf, BodyFrames, Harmless, AllHarmless, Misroutes, Agree, Started;
    var prefix, e := events[..i], events[i];
    HarmIsMuxCall(Target(prefix), e);
    HarmlessRouted(s, prefix, 0, 0x60);
    var t := Run(s, prefix);
    MuxCallAgreesExactly(t, e.call);
    var t' := Step(t, e);
    DisagreementMisroutes(t');
    var call: Call, channel: nat :| call.address != MUX_ADDRESS && Misroutes(t', call, channel, 0x60);
    assert events[..i + 1] == prefix + [e];
    OneMoreAstray(s, prefix, e, call, channel);
    assert AllAddressed([Motor(call)]);
  }

  lemma HarmIsMuxCall(current: int, e: Event)
    requires -1 <= current <= 7 && !Harmless(current, e)
    ensures e.Motor? && e.call.address == MUX_ADDRESS
  {
  }

  lemma OneMoreAstray(s: System, prefix: seq<Event>, e: Event, call: Call, channel: nat)
    requires Started(s, prefix) && AllHarmless(prefix)
    requires e.Motor? && e.call.address == MUX_ADDRESS && call.address != MUX_ADDRESS
    requires Misroutes(Step(Run(s, prefix), e), call, channel, 0x60)
    ensures !RoutesOn(s, prefix + [e], [Motor(call)])
  {
    hide Run, Step, OwnFrames, Apply, BodyFrames, AllHarmless, Agree, Target, Started;
    var t := Run(s, prefix);
    var run := (prefix + [e]) + [Motor(call)];
    HarmlessRouted(s, prefix, channel, 0x60);
    MuxCallAgreesExactly(t, e.call);
    RunSnoc(s, prefix, e);
    RunSnoc(s, prefix + [e], Motor(call));
    StepCurrent(t, e);
    OwnSnoc(prefix, e, channel, 0x60);
    OwnSnoc(prefix + [e], Motor(call), channel, 0x60);
    ApplyConcat(FileOf(s.devices, channel, 0x60), OwnFrames(prefix, channel, 0x60), BodyFrames(call));
    assert FileOf(Step(t, e).devices, channel, 0x60) == FileOf(t.devices, channel, 0x60);
    assert FileOf(Run(s, run).devices, channel, 0x60)
        != Apply(FileOf(s.devices, channel, 0x60), OwnFrames(run, channel, 0x60));
  }

  /** The exact condition. Once the run has started disabled, whatever further calls to drivers may follow at any
  point of it, all drivers are routed, if and only if every call of the run addressed to the multiplexer is
  harmless. */
  lemma RoutingExactly(s: System, events: seq<Event>)
    requires Started(s, events)
    ensures (forall k: nat, more: seq<Event> ::
               k <= |events| && Started(s, events[..k]) && AllAddressed(more) ==> RoutesOn(s, events[..k], more))
       <==> AllHarmless(events)
  {
    hide AllHarmless, AllAddressed, RoutedDrivers, Run, Harmless, RoutesOn;
    if AllHarmless(events) {
      forall k: nat, more: seq<Event> | k <= |events| && Started(s, events[..k]) && AllAddressed(more)
        ensures RoutesOn(s, events[..k], more)
      {
        HarmlessThenRouted(s, events, k, more);
      }
    } else {
      var i := FirstHarm(events);
      DisableIsHarmless(events, i);
      HarmShows(s, events, i);
      var more: seq<Event> :| AllAddressed(more) && !RoutesOn(s, events[..i + 1], more);
      assert Started(s, events[..i + 1]);
    }
  }

  lemma HarmlessThenRouted(s: System, events: seq<Event>, k: nat, more: seq<Event>)
    requires AllHarmless(events) && k <= |events| && Started(s, events[..k]) && AllAddressed(more)
    ensures RoutesOn(s, events[..k], more)
  {
    hide AllHarmless, AllAddressed, RoutedDrivers, Run;
    HarmlessPrefix(events, k);
    HarmlessThenAddressed(events[..k], more);
    HarmlessRoutes(s, events[..k] + more);
  }

  lemma DisableIsHarmless(events: seq<Event>, i: nat)
    requires i < |events| && !Harmless(Target(events[..i]), events[i])
    ensures events[i] != Disable
  {
  }

  // ----- a run that fails -----

  /** Driving channel 2 forward, stopping a "driver" at 0x70 on channel 0, then stopping the driver at 0x60 there. */
  function LeakRun(): seq<Event> {
    [Motor(VariableMotion(2, 0x60, 100, true)), Motor(Stop(0, MUX_ADDRESS)), Motor(Stop(0, 0x60))]
  }

  /** The refinement fails: after any calls to drivers that start with a disable, from any state, the second stop
  also stops channel 2, whose own calls left it driving forward. */
  lemma MuxCallLeaks(s: System, setup: seq<Event>)
    requires setup != [] && setup[0] == Disable && AllAddressed(setup)
    ensures var held := FileOf(Run(s, setup + LeakRun()).devices, 2, 0x60);
            var own := Apply(FileOf(s.devices, 2, 0x60), OwnFrames(setup + LeakRun(), 2, 0x60));
            && 0x07 in held && held[0x07] == STOP_BYTE
            && 0x07 in own && own[0x07] == VariableByte(true)
            && held != own
  {
    hide Run, Step, OwnFrames, Apply, BodyFrames, Target;
    var move, first, second := LeakRun()[0], LeakRun()[1], LeakRun()[2];
    var moved := setup + [move];
    assert setup + LeakRun() == (moved + [first]) + [second];
    RoutedFromDisable(s, moved, 2, 0x60);
    OwnSnoc(setup, move, 2, 0x60);
    OwnSnoc(moved, first, 2, 0x60);
    OwnSnoc(moved + [first], second, 2, 0x60);
    ApplyConcat(FileOf(s.devices, 2, 0x60), OwnFrames(setup, 2, 0x60), BodyFrames(move.call));
    DriveApplied(Apply(FileOf(s.devices, 2, 0x60), OwnFrames(setup, 2, 0x60)), move.call);
    RunSnoc(s, moved, first);
    RunSnoc(s, moved + [first], second);
    TwoStops(Run(s, moved));
    assert STOP_BYTE != VariableByte(true);
  }

  lemma TwoStops(s: System)
    requires Agree(s.current, s.devices.control)
    ensures var s2 := Step(Step(s, Motor(Stop(0, MUX_ADDRESS))), Motor(Stop(0, 0x60)));
            Cell(2, 0x60, 0x07) in s2.devices.cells && s2.devices.cells[Cell(2, 0x60, 0x07)] == STOP_BYTE
  {
    hide BitSet;
    var first, second := Long(MUX_ADDRESS, 0x07, STOP_BYTE), Long(0x60, 0x07, STOP_BYTE);
    var select := SelectFrames(s.current, 0);
    DeliverConcat(s.devices, select, [first]);
    DeliverOne(Deliver(s.devices, select), first);
    var s1 := Step(s, Motor(Stop(0, MUX_ADDRESS)));
    assert s1.devices.control == STOP_BYTE && s1.current == 0;
    assert Frames(s1.current, Motor(Stop(0, 0x60))) == [second];
    DeliverOne(s1.devices, second);
    StopByteBits();
  }

  lemma StopByteBits()
    ensures BitSet(STOP_BYTE, 2)
  {
    Pow2Values();
    BitSetIs(STOP_BYTE, 2);
  }
}

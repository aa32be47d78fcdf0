/** Whole runs over the shared bus: the cached multiplexer behaves like separate drivers, each with its own
registers, and skipping redundant selections cannot be observed. */
module Routing {
  import opened Bits
  import opened I2cMux
  import opened MotorDriver

  function Run(s: System, events: seq<Event>): System {
    if events == [] then s else Step(Run(s, events[..|events| - 1]), events[|events| - 1])
  }

  // ----- reference: one register file per driver -----

  type File = map<Byte, Byte>

  /** The registers of the chip at (channel, address). */
  ghost function FileOf(d: Devices, channel: nat, address: Byte): File {
    map r: int | 0 <= r < 0x100 && Cell(channel, address, r) in d.cells :: d.cells[Cell(channel, address, r)]
  }

  function Apply(file: File, frames: seq<Frame>): File {
    if frames == [] then file
    else
      var before := Apply(file, frames[..|frames| - 1]);
      match frames[|frames| - 1]
      case Long(_, register, data) => before[register := data]
      case Short(_, _) => before
  }

  /** The most recent in-range channel requested since the last disable; -1 if there is none. */
  function Target(events: seq<Event>): (t: int)
    ensures -1 <= t <= 7
  {
    if events == [] then -1
    else
      match events[|events| - 1]
      case Disable => -1
      case Motor(call) => if call.channel <= 7 then call.channel else Target(events[..|events| - 1])
  }

  /** The frames of the run that belong to the driver at (channel, address), and no others. */
  function OwnFrames(events: seq<Event>, channel: nat, address: Byte): seq<Frame> {
    if events == [] then []
    else
      var before := OwnFrames(events[..|events| - 1], channel, address);
      match events[|events| - 1]
      case Disable => before
      case Motor(call) =>
        if Target(events) == channel && call.address == address then before + BodyFrames(call) else before
  }

  /** No call is addressed to the multiplexer itself. */
  predicate Addressed(e: Event) {
    e.Motor? ==> e.call.address != MUX_ADDRESS
  }

  predicate AllAddressed(events: seq<Event>) {
    forall i :: 0 <= i < |events| ==> Addressed(events[i])
  }

  lemma {:induction false} ApplyConcat(file: File, f: seq<Frame>, g: seq<Frame>)
    ensures Apply(file, f + g) == Apply(Apply(file, f), g)
    decreases |g|
  {
    if g == [] {
      assert f + g == f;
    } else {
      assert (f + g)[..|f + g| - 1] == f + g[..|g| - 1];
      ApplyConcat(file, f, g[..|g| - 1]);
    }
  }

  /** A frame to a chip changes that chip's file on the enabled channel and nothing else. */
  lemma ReceiveRouted(d: Devices, current: int, f: Frame, channel: nat, address: Byte)
    requires Agree(current, d.control) && f.address != MUX_ADDRESS
    ensures Receive(d, f).control == d.control
    ensures FileOf(Receive(d, f), channel, address)
         == if channel == current && f.address == address then Apply(FileOf(d, channel, address), [f])
            else FileOf(d, channel, address)
  {
    assert [f][..0] == [];
    EnabledIsCached(current, d.control, channel);
  }

  predicate AllTo(frames: seq<Frame>, address: Byte) {
    forall i :: 0 <= i < |frames| ==> frames[i].address == address
  }

  lemma {:induction false} DeliverRouted(d: Devices, current: int, frames: seq<Frame>, target: Byte,
                                         channel: nat, address: Byte)
    requires Agree(current, d.control) && AllTo(frames, target) && target != MUX_ADDRESS
    ensures Deliver(d, frames).control == d.control
    ensures FileOf(Deliver(d, frames), channel, address)
         == if channel == current && target == address then Apply(FileOf(d, channel, address), frames)
            else FileOf(d, channel, address)
    decreases |frames|
  {
    if frames != [] {
      var f := frames[|frames| - 1];
      var before := frames[..|frames| - 1];
      DeliverRouted(d, current, before, target, channel, address);
      ReceiveRouted(Deliver(d, before), current, f, channel, address);
      assert before + [f] == frames;
      ApplyConcat(FileOf(d, channel, address), before, [f]);
    }
  }

  /** A request brings cache and multiplexer to the same place, whatever it skipped. */
  lemma Select(d: Devices, current: int, channel: Byte)
    requires Agree(current, d.control)
    ensures var d' := Deliver(d, SelectFrames(current, channel));
            Agree(SelectCurrent(current, channel), d'.control) && d'.cells == d.cells
  {
    var frames := SelectFrames(current, channel);
    if frames != [] {
      DeliverOne(d, frames[0]);
    }
  }

  /** A disable establishes the premise of the refinement from any state. */
  lemma DisableAgrees(s: System)
    ensures var s' := Step(s, Disable);
            s'.current == -1 && s'.devices.control == 0 && s'.devices.cells == s.devices.cells
  {
    DeliverOne(s.devices, Short(MUX_ADDRESS, 0));
  }

  /** A request followed by frames for one address: they reach the channel then cached. */
  lemma SelectThenDeliver(s: System, request: Byte, frames: seq<Frame>, target: Byte, channel: nat, address: Byte)
    requires Agree(s.current, s.devices.control) && AllTo(frames, target) && target != MUX_ADDRESS
    ensures var d := Deliver(s.devices, SelectFrames(s.current, request) + frames);
            var current := SelectCurrent(s.current, request);
            && Agree(current, d.control)
            && FileOf(d, channel, address)
               == if channel == current && target == address
                  then Apply(FileOf(s.devices, channel, address), frames)
                  else FileOf(s.devices, channel, address)
  {
    var select := SelectFrames(s.current, request);
    var selected := Deliver(s.devices, select);
    Select(s.devices, s.current, request);
    DeliverConcat(s.devices, select, frames);
    DeliverRouted(selected, SelectCurrent(s.current, request), frames, target, channel, address);
    assert FileOf(selected, channel, address) == FileOf(s.devices, channel, address);
  }

  lemma BodyAddress(call: Call)
    ensures AllTo(BodyFrames(call), call.address)
  {
  }

  lemma StepRouted(s: System, e: Event, channel: nat, address: Byte)
    requires Agree(s.current, s.devices.control) && Addressed(e)
    ensures var s' := Step(s, e);
            && Agree(s'.current, s'.devices.control)
            && FileOf(s'.devices, channel, address)
               == if e.Motor? && channel == s'.current && e.call.address == address
                  then Apply(FileOf(s.devices, channel, address), BodyFrames(e.call))
                  else FileOf(s.devices, channel, address)
  {
    match e
    case Disable => DisableAgrees(s);
    case Motor(call) =>
      BodyAddress(call);
      SelectThenDeliver(s, call.channel, BodyFrames(call), call.address, channel, address);
  }

  /** Routing refinement. After a disable, every run keeps cache and multiplexer in agreement, ends on the
  most recently requested in-range channel, and leaves in every driver exactly what its own frames, taken
  alone, would leave there. */
  lemma {:induction false} RoutingRefinement(s: System, events: seq<Event>, channel: nat, address: Byte)
    requires s.current == -1 && s.devices.control == 0
    requires AllAddressed(events)
    ensures var s' := Run(s, events);
            && Agree(s'.current, s'.devices.control)
            && s'.current == Target(events)
            && FileOf(s'.devices, channel, address)
               == Apply(FileOf(s.devices, channel, address), OwnFrames(events, channel, address))
    decreases |events|
  {
    if events != [] {
      var e, before := events[|events| - 1], events[..|events| - 1];
      RoutingRefinement(s, before, channel, address);
      StepRouted(Run(s, before), e, channel, address);
      if e.Motor? {
        ApplyConcat(FileOf(s.devices, channel, address), OwnFrames(before, channel, address), BodyFrames(e.call));
      }
    }
  }

  // ----- eliding redundant selections -----

  /** As Frames, but every in-range request writes the control byte. */
  function EagerFrames(e: Event): seq<Frame> {
    match e
    case Disable => [Short(MUX_ADDRESS, 0)]
    case Motor(call) =>
      (if call.channel <= 7 then [Short(MUX_ADDRESS, ControlByte(call.channel))] else []) + BodyFrames(call)
  }

  function RunEager(d: Devices, events: seq<Event>): Devices {
    if events == [] then d
    else Deliver(RunEager(d, events[..|events| - 1]), EagerFrames(events[|events| - 1]))
  }

  /** Skipping a request for the cached channel leaves every device as if the control byte had been written. */
  lemma {:induction false} ElisionInvisible(s: System, events: seq<Event>)
    requires Agree(s.current, s.devices.control)
    requires AllAddressed(events)
    ensures RunEager(s.devices, events) == Run(s, events).devices
    ensures Agree(Run(s, events).current, Run(s, events).devices.control)
    decreases |events|
  {
    if events != [] {
      var e, before := events[|events| - 1], events[..|events| - 1];
      ElisionInvisible(s, before);
      var t := Run(s, before);
      StepRouted(t, e, 0, 0);
      if e.Motor? {
        var sel := if e.call.channel <= 7 then [Short(MUX_ADDRESS, ControlByte(e.call.channel))] else [];
        DeliverConcat(t.devices, sel, BodyFrames(e.call));
        DeliverConcat(t.devices, SelectFrames(t.current, e.call.channel), BodyFrames(e.call));
        if sel != [] {
          DeliverOne(t.devices, sel[0]);
        }
        assert Deliver(t.devices, sel) == Deliver(t.devices, SelectFrames(t.current, e.call.channel));
      }
    }
  }

  /** All frames of a run, oldest first. */
  function RunFrames(current: int, events: seq<Event>): seq<Frame>
    decreases events
  {
    if events == [] then []
    else Frames(current, events[0]) + RunFrames(NextCurrent(current, events[0]), events[1..])
  }

  function CurrentAfter(current: int, events: seq<Event>): int
    decreases events
  {
    if events == [] then current else CurrentAfter(NextCurrent(current, events[0]), events[1..])
  }

  lemma {:induction false} RunFramesConcat(current: int, f: seq<Event>, g: seq<Event>)
    ensures RunFrames(current, f + g) == RunFrames(current, f) + RunFrames(CurrentAfter(current, f), g)
    ensures CurrentAfter(current, f + g) == CurrentAfter(CurrentAfter(current, f), g)
    decreases |f|
  {
    if f == [] {
      assert f + g == g;
    } else {
      hide Frames, NextCurrent;
      assert (f + g)[1..] == f[1..] + g;
      RunFramesConcat(NextCurrent(current, f[0]), f[1..], g);
    }
  }

  lemma OneEvent(current: int, e: Event)
    ensures RunFrames(current, [e]) == Frames(current, e) && CurrentAfter(current, [e]) == NextCurrent(current, e)
  {
    assert [e][1..] == [];
    assert RunFrames(NextCurrent(current, e), []) == [];
  }

  /** Delivering all frames of a run at once is the run, event by event. */
  lemma {:induction false} RunIsDelivery(s: System, events: seq<Event>)
    ensures Run(s, events) == System(Deliver(s.devices, RunFrames(s.current, events)), CurrentAfter(s.current, events))
    decreases |events|
  {
    if events != [] {
      hide Frames, NextCurrent, Deliver;
      var e, before := events[|events| - 1], events[..|events| - 1];
      RunIsDelivery(s, before);
      assert events == before + [e];
      RunFramesConcat(s.current, before, [e]);
      OneEvent(CurrentAfter(s.current, before), e);
      DeliverConcat(s.devices, RunFrames(s.current, before), Frames(CurrentAfter(s.current, before), e));
    }
  }

  lemma {:induction false} RunConcat(s: System, f: seq<Event>, g: seq<Event>)
    ensures Run(s, f + g) == Run(Run(s, f), g)
    decreases |g|
  {
    if g == [] {
      assert f + g == f;
    } else {
      hide Step;
      assert (f + g)[..|f + g| - 1] == f + g[..|g| - 1];
      RunConcat(s, f, g[..|g| - 1]);
    }
  }

  /** From `before` to `after`, every driver's file changed by exactly its own frames of the events. */
  ghost predicate RoutedAlone(before: Devices, after: Devices, events: seq<Event>) {
    forall channel: nat, address: Byte ::
      FileOf(after, channel, address)
      == Apply(FileOf(before, channel, address), OwnFrames(events, channel, address))
  }

  lemma RunSnoc(s: System, events: seq<Event>, e: Event)
    ensures Run(s, events + [e]) == Step(Run(s, events), e)
  {
    hide Step;
    assert (events + [e])[..|events|] == events;
  }

  lemma OwnSnoc(events: seq<Event>, e: Event, channel: nat, address: Byte)
    ensures Target(events + [e]) == NextCurrent(Target(events), e)
    ensures OwnFrames(events + [e], channel, address)
         == if e.Motor? && Target(events + [e]) == channel && e.call.address == address
            then OwnFrames(events, channel, address) + BodyFrames(e.call)
            else OwnFrames(events, channel, address)
  {
    hide BodyFrames;
    assert (events + [e])[..|events|] == events;
  }

  /** A run that starts with a disable is the run of the rest from the disabled state. */
  lemma RunFromDisable(s: System, events: seq<Event>)
    requires events != [] && events[0] == Disable
    ensures Run(s, events) == Run(Step(s, Disable), events[1..])
  {
    assert events == [Disable] + events[1..];
    RunConcat(s, [Disable], events[1..]);
    assert [Disable][..0] == [] && Run(s, []) == s;
  }

  lemma {:induction false} OwnFromDisable(events: seq<Event>, channel: nat, address: Byte)
    requires events != [] && events[0] == Disable
    ensures OwnFrames(events, channel, address) == OwnFrames(events[1..], channel, address)
    ensures Target(events) == Target(events[1..])
    decreases |events|
  {
    hide BodyFrames;
    if |events| == 1 {
      assert events[..0] == [] && events[1..] == [];
    } else {
      var init, tail := events[..|events| - 1], events[1..];
      OwnFromDisable(init, channel, address);
      assert init[1..] == tail[..|tail| - 1];
      assert tail[|tail| - 1] == events[|events| - 1];
    }
  }

  /** Routing refinement from any state, for runs that start with a disable. */
  lemma RoutedFromDisable(s: System, events: seq<Event>, channel: nat, address: Byte)
    requires events != [] && events[0] == Disable && AllAddressed(events)
    ensures var s' := Run(s, events);
            && Agree(s'.current, s'.devices.control)
            && s'.current == Target(events)
            && FileOf(s'.devices, channel, address)
               == Apply(FileOf(s.devices, channel, address), OwnFrames(events, channel, address))
  {
    hide Run, Apply, OwnFrames, Step;
    RunFromDisable(s, events);
    OwnFromDisable(events, channel, address);
    DisableAgrees(s);
    RoutingRefinement(Step(s, Disable), events[1..], channel, address);
  }

  function ToMux(frames: seq<Frame>): nat {
    if frames == [] then 0
    else ToMux(frames[1..]) + (if frames[0].address == MUX_ADDRESS then 1 else 0)
  }

  function InRange(calls: seq<Event>): seq<int> {
    if calls == [] then []
    else if calls[0].Motor? && calls[0].call.channel <= 7 then [calls[0].call.channel as int] + InRange(calls[1..])
    else InRange(calls[1..])
  }

  /** How often xs, read after `last`, takes a new value. */
  function Changes(last: int, xs: seq<int>): nat
    decreases xs
  {
    if xs == [] then 0 else Changes(xs[0], xs[1..]) + (if xs[0] == last then 0 else 1)
  }

  lemma {:induction false} ToMuxConcat(f: seq<Frame>, g: seq<Frame>)
    ensures ToMux(f + g) == ToMux(f) + ToMux(g)
  {
    if f == [] {
      assert f + g == g;
    } else {
      assert (f + g)[1..] == f[1..] + g;
      ToMuxConcat(f[1..], g);
    }
  }

  lemma {:induction false} NoneToMux(frames: seq<Frame>, address: Byte)
    requires AllTo(frames, address) && address != MUX_ADDRESS
    ensures ToMux(frames) == 0
  {
    if frames != [] {
      NoneToMux(frames[1..], address);
    }
  }

  /** The multiplexer is written once for every change in the in-range requests, and not otherwise. */
  lemma {:induction false} SelectWritesAreChanges(current: int, calls: seq<Event>)
    requires AllAddressed(calls) && forall i :: 0 <= i < |calls| ==> calls[i].Motor?
    ensures ToMux(RunFrames(current, calls)) == Changes(current, InRange(calls))
    decreases |calls|
  {
    if calls != [] {
      var call := calls[0].call;
      var rest := RunFrames(NextCurrent(current, calls[0]), calls[1..]);
      SelectWritesAreChanges(NextCurrent(current, calls[0]), calls[1..]);
      ToMuxConcat(SelectFrames(current, call.channel) + BodyFrames(call), rest);
      ToMuxConcat(SelectFrames(current, call.channel), BodyFrames(call));
      BodyAddress(call);
      NoneToMux(BodyFrames(call), call.address);
      if call.channel <= 7 {
        assert InRange(calls)[1..] == InRange(calls[1..]);
      }
    }
  }

  // ----- what the drive register can hold -----

  /** One of the four two-bit output selectors of register 0x07. */
  function Selector(b: Byte, k: nat): nat
    requires k < 4
  {
    if k == 0 then b % 4 else if k == 1 then (b / 4) % 4 else if k == 2 then (b / 16) % 4 else b / 64
  }

  predicate Driving(b: Byte) {
    exists level: Byte, direction: bool :: b == DriveByte(level, direction)
  }

  /** Stopped, or driving one way: the outer direction selectors agree, and the middle one differs from them
  exactly when the byte is not the stop value. */
  predicate DriveLegal(b: Byte) {
    && (b == STOP_BYTE || Driving(b))
    && Selector(b, 0) == Selector(b, 2)
    && (Selector(b, 1) != Selector(b, 0) <==> b != STOP_BYTE)
  }

  lemma DriveSelectors(b: Byte)
    requires b == STOP_BYTE || Driving(b)
    ensures DriveLegal(b)
  {
    DriveValues(b);
  }

  /** The stop byte and the eight combinations of four speeds and two directions are nine different bytes. */
  lemma DriveValues(b: Byte)
    ensures Driving(b) <==> b in {0x04, 0x44, 0x84, 0xC4, 0x11, 0x51, 0x91, 0xD1}
    ensures !Driving(STOP_BYTE)
  {
    assert DriveByte(3, true) == 0x04 && DriveByte(0, true) == 0x44 && DriveByte(1, true) == 0x84;
    assert DriveByte(2, true) == 0xC4 && DriveByte(3, false) == 0x11 && DriveByte(0, false) == 0x51;
    assert DriveByte(1, false) == 0x91 && DriveByte(2, false) == 0xD1;
  }

  /** Level 2 and variable speed use the same byte for each direction, and the two directions differ. */
  lemma LevelTwoIsVariable(direction: bool)
    ensures DriveByte(2, direction) == VariableByte(direction)
    ensures Driving(VariableByte(direction))
    ensures VariableByte(true) != VariableByte(false)
  {
  }

  predicate DriveOk(file: File) {
    0x07 in file ==> file[0x07] == STOP_BYTE || Driving(file[0x07])
  }

  predicate DriveFrame(f: Frame) {
    f.Long? && f.register == 0x07 ==> f.data == STOP_BYTE || Driving(f.data)
  }

  predicate AllDrive(frames: seq<Frame>) {
    forall i :: 0 <= i < |frames| ==> DriveFrame(frames[i])
  }

  lemma BodyDrives(call: Call)
    ensures AllDrive(BodyFrames(call))
  {
    if call.VariableMotion? {
      LevelTwoIsVariable(call.direction);
    }
    if call.DefaultMotion? {
      assert Driving(DriveByte(call.level, call.direction));
    }
  }

  lemma {:induction false} OwnDrives(events: seq<Event>, channel: nat, address: Byte)
    ensures AllDrive(OwnFrames(events, channel, address))
    decreases |events|
  {
    if events != [] {
      OwnDrives(events[..|events| - 1], channel, address);
      if events[|events| - 1].Motor? {
        BodyDrives(events[|events| - 1].call);
      }
    }
  }

  /** Some frame sets the drive register. */
  predicate SetsDrive(frames: seq<Frame>) {
    exists i :: 0 <= i < |frames| && frames[i].Long? && frames[i].register == 0x07
  }

  lemma SetsDriveConcat(f: seq<Frame>, g: seq<Frame>)
    requires SetsDrive(f) || SetsDrive(g)
    ensures SetsDrive(f + g)
  {
    if SetsDrive(f) {
      var i :| 0 <= i < |f| && f[i].Long? && f[i].register == 0x07;
      assert (f + g)[i] == f[i];
    } else {
      var i :| 0 <= i < |g| && g[i].Long? && g[i].register == 0x07;
      assert (f + g)[|f| + i] == g[i];
    }
  }

  /** Drive frames keep a sound file sound, and one that sets the drive register settles it whatever it held. */
  lemma {:induction false} ApplyDrives(file: File, frames: seq<Frame>)
    requires AllDrive(frames)
    ensures DriveOk(file) || SetsDrive(frames) ==> DriveOk(Apply(file, frames))
    ensures 0x07 in file || SetsDrive(frames) ==> 0x07 in Apply(file, frames)
    decreases |frames|
  {
    if frames != [] {
      var f, before := frames[|frames| - 1], frames[..|frames| - 1];
      ApplyDrives(file, before);
      if SetsDrive(frames) && !(f.Long? && f.register == 0x07) {
        var i :| 0 <= i < |frames| && frames[i].Long? && frames[i].register == 0x07;
        assert before[i] == frames[i];
      }
    }
  }

  lemma {:induction false} OwnInit(events: seq<Event>, k: nat, channel: nat, address: Byte)
    requires k < |events| && events[k].Motor? && events[k].call.Init?
    requires events[k].call.address == address && Target(events[..k + 1]) == channel
    ensures SetsDrive(OwnFrames(events, channel, address))
    decreases |events|
  {
    var e, before := events[|events| - 1], events[..|events| - 1];
    var prior := OwnFrames(before, channel, address);
    if k == |events| - 1 {
      assert events[..k + 1] == events;
      assert InitFrames(address)[3].register == 0x07;
      SetsDriveConcat(prior, InitFrames(address));
    } else {
      assert before[..k + 1] == events[..k + 1];
      OwnInit(before, k, channel, address);
      if e.Motor? {
        SetsDriveConcat(prior, BodyFrames(e.call));
      }
    }
  }

  /** Drive-byte invariant. After any run in which an initialisation was routed to the driver at (channel,
  address), whatever the chip held before, its drive register holds the stop byte or one of the eight drive
  bytes. */
  lemma DriveInvariant(s: System, events: seq<Event>, k: nat, channel: nat, address: Byte)
    requires s.current == -1 && s.devices.control == 0
    requires AllAddressed(events)
    requires k < |events| && events[k].Motor? && events[k].call.Init?
    requires events[k].call.address == address && Target(events[..k + 1]) == channel
    ensures var file := FileOf(Run(s, events).devices, channel, address);
            0x07 in file && DriveLegal(file[0x07])
  {
    hide Apply, OwnFrames, Run, FileOf;
    RoutingRefinement(s, events, channel, address);
    OwnDrives(events, channel, address);
    OwnInit(events, k, channel, address);
    ApplyDrives(FileOf(s.devices, channel, address), OwnFrames(events, channel, address));
    DriveSelectors(FileOf(Run(s, events).devices, channel, address)[0x07]);
  }
}

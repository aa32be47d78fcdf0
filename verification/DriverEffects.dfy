/** What the drivers are left doing: how the chip reads its registers, against the calls that reached it. */
module DriverEffects {
  import opened Options
  import opened Bits
  import opened I2cMux
  import opened MotorDriver
  import opened Routing

  // ----- the chip -----

  /** The on share, of 255, of a PWM register: the register holds the off share. */
  function OnShare(file: File, register: Byte): Option<nat> {
    if register in file then Some(255 - file[register]) else None
  }

  /** The share, of 255, of each period the motor is driven. The top two bits of register 0x07 choose: always,
  never, as PWM0 (register 0x03) says, or as PWM1 (register 0x05) says. */
  function Duty(file: File): Option<nat> {
    if 0x07 !in file then None
    else
      match file[0x07] / 64
      case 0 => Some(255)
      case 1 => Some(0)
      case 2 => OnShare(file, 0x03)
      case _ => OnShare(file, 0x05)
  }

  /** The six direction bits. */
  function Heading(file: File): Option<nat> {
    if 0x07 in file then Some(file[0x07] % 64) else None
  }

  // ----- single calls -----

  lemma ApplyOne(file: File, f: Frame)
    requires f.Long?
    ensures Apply(file, [f]) == file[f.register := f.data]
  {
    assert [f][..0] == [];
  }

  lemma ApplyTwo(file: File, f: Frame, g: Frame)
    requires f.Long? && g.Long?
    ensures Apply(file, [f, g]) == file[f.register := f.data][g.register := g.data]
  {
    hide Apply;
    assert [f, g] == [f] + [g];
    ApplyConcat(file, [f], [g]);
    ApplyOne(file, f);
    ApplyOne(file[f.register := f.data], g);
  }

  /** What each call leaves in the registers of the driver it reaches. */
  lemma CallWrites(file: File, call: Call)
    ensures Apply(file, BodyFrames(call)) == file +
      match call
      case Init(_, _) => map[0x02 := 0x00, 0x03 := 0x80, 0x04 := 0x00, 0x07 := 0x55]
      case RegControl(_, _, enable) => map[0x08 := if enable then 0x05 else 0x00]
      case VariableMotion(_, _, speed, direction) => map[0x05 := 255 - speed, 0x07 := if direction then 0xC4 else 0xD1]
      case SetMotion(_, _, one, two) => map[0x03 := 255 - one, 0x05 := 255 - two]
      case DefaultMotion(_, _, level, direction) =>
        map[0x07 := (if level == 3 then 0x00 else if level == 2 then 0xC0 else if level == 1 then 0x80 else 0x40)
                    + (if direction then 0x04 else 0x11)]
      case Stop(_, _) => map[0x07 := 0x55]
      case Read(_, _, _) => map[]
  {
    hide Apply;
    var f := BodyFrames(call);
    match call
    case Init(_, address) =>
      assert f == [f[0], f[1]] + [f[2], f[3]];
      ApplyConcat(file, [f[0], f[1]], [f[2], f[3]]);
      ApplyTwo(file, f[0], f[1]);
      ApplyTwo(file[0x02 := 0x00][0x03 := 0x80], f[2], f[3]);
    case RegControl(_, _, enable) =>
      if enable {
        ApplyTwo(file, f[0], f[1]);
      } else {
        ApplyOne(file, f[0]);
      }
    case VariableMotion(_, _, _, _) => ApplyTwo(file, f[0], f[1]);
    case SetMotion(_, _, _, _) => ApplyTwo(file, f[0], f[1]);
    case DefaultMotion(_, _, _, _) => ApplyOne(file, f[0]);
    case Stop(_, _) => ApplyOne(file, f[0]);
    case Read(_, _, _) => ApplyRead(file, f[0]);
  }

  lemma ApplyRead(file: File, f: Frame)
    requires f.Short?
    ensures Apply(file, [f]) == file
  {
    assert [f][..0] == [];
  }

  /** Speeds set and then a level: full, the second speed, the first speed, or off, whatever the driver held. */
  lemma DutyAfterLevel(file: File, speeds: Call, drive: Call)
    requires speeds.SetMotion? && drive.DefaultMotion?
    ensures var after := Apply(Apply(file, BodyFrames(speeds)), BodyFrames(drive));
            && Duty(after) == Some(if drive.level == 3 then 255 else if drive.level == 2 then speeds.speedTwo
                                   else if drive.level == 1 then speeds.speedOne else 0)
            && Heading(after) == Some(if drive.direction then 0x04 else 0x11)
  {
    hide Apply, BodyFrames;
    CallWrites(file, speeds);
    CallWrites(Apply(file, BodyFrames(speeds)), drive);
  }

  /** Variable motion drives at the speed given, whatever the driver held; a stop or an initialisation at none. */
  lemma DutyAfterCall(file: File, call: Call)
    requires call.VariableMotion? || call.Stop? || call.Init?
    ensures var after := Apply(file, BodyFrames(call));
            && Duty(after) == Some(if call.VariableMotion? then call.speed else 0)
            && Heading(after) == Some(if !call.VariableMotion? then 0x15 else if call.direction then 0x04 else 0x11)
  {
    hide Apply, BodyFrames;
    CallWrites(file, call);
  }

  // ----- whole runs -----

  /** The calls of the run that belong to the driver at (channel, address). */
  function OwnCalls(events: seq<Event>, channel: nat, address: Byte): seq<Call> {
    if events == [] then []
    else
      var before := OwnCalls(events[..|events| - 1], channel, address);
      match events[|events| - 1]
      case Disable => before
      case Motor(call) => if Target(events) == channel && call.address == address then before + [call] else before
  }

  /** The first speed last set; initialising sets it to 127. */
  function SpeedOne(calls: seq<Call>): Option<nat> {
    if calls == [] then None
    else
      match calls[|calls| - 1]
      case SetMotion(_, _, one, _) => Some(one)
      case Init(_, _) => Some(127)
      case _ => SpeedOne(calls[..|calls| - 1])
  }

  /** The second speed last set; variable motion sets it too. */
  function SpeedTwo(calls: seq<Call>): Option<nat> {
    if calls == [] then None
    else
      match calls[|calls| - 1]
      case SetMotion(_, _, _, two) => Some(two)
      case VariableMotion(_, _, speed, _) => Some(speed)
      case _ => SpeedTwo(calls[..|calls| - 1])
  }

  predicate Drives(call: Call) {
    call.Init? || call.Stop? || call.VariableMotion? || call.DefaultMotion?
  }

  /** The last call that told the motor to move or to stop. */
  function LastDrive(calls: seq<Call>): Option<Call> {
    if calls == [] then None
    else if Drives(calls[|calls| - 1]) then Some(calls[|calls| - 1])
    else LastDrive(calls[..|calls| - 1])
  }

  /** The duty the calls ask for, in speeds and levels; None if they leave it open. */
  function AskedDuty(calls: seq<Call>): Option<nat> {
    match LastDrive(calls)
    case None => None
    case Some(call) =>
      match call
      case VariableMotion(_, _, _, _) => SpeedTwo(calls)
      case DefaultMotion(_, _, level, _) =>
        if level == 3 then Some(255) else if level == 2 then SpeedTwo(calls)
        else if level == 1 then SpeedOne(calls) else Some(0)
      case _ => Some(0)
  }

  function AskedHeading(calls: seq<Call>): Option<nat> {
    match LastDrive(calls)
    case None => None
    case Some(call) =>
      match call
      case VariableMotion(_, _, _, direction) => Some(if direction then 0x04 else 0x11)
      case DefaultMotion(_, _, _, direction) => Some(if direction then 0x04 else 0x11)
      case _ => Some(0x15)
  }

  /** Where the chip is to take its duty from after the call. */
  function Source(call: Call): nat {
    match call
    case VariableMotion(_, _, _, _) => 3
    case DefaultMotion(_, _, level, _) =>
      if level == 3 then 0 else if level == 2 then 3 else if level == 1 then 2 else 1
    case _ => 1
  }

  /** The file carries out the calls. */
  predicate CarriesOut(file: File, calls: seq<Call>) {
    && (SpeedOne(calls).Some? ==> OnShare(file, 0x03) == SpeedOne(calls))
    && (SpeedTwo(calls).Some? ==> OnShare(file, 0x05) == SpeedTwo(calls))
    && (LastDrive(calls).Some? ==>
          0x07 in file && file[0x07] / 64 == Source(LastDrive(calls).value) && Heading(file) == AskedHeading(calls))
  }

  lemma OneMoreCall(file: File, calls: seq<Call>, call: Call)
    requires CarriesOut(file, calls)
    ensures CarriesOut(Apply(file, BodyFrames(call)), calls + [call])
  {
    hide Apply, BodyFrames;
    CallWrites(file, call);
    assert (calls + [call])[..|calls|] == calls;
  }

  lemma {:induction false} OwnCallsCarriedOut(file: File, events: seq<Event>, channel: nat, address: Byte)
    ensures CarriesOut(Apply(file, OwnFrames(events, channel, address)), OwnCalls(events, channel, address))
    decreases |events|
  {
    hide BodyFrames, CarriesOut;
    if events == [] {
      NothingAsked(file);
    } else {
      var before, e := events[..|events| - 1], events[|events| - 1];
      OwnCallsCarriedOut(file, before, channel, address);
      if e.Motor? {
        ApplyConcat(file, OwnFrames(before, channel, address), BodyFrames(e.call));
        OneMoreCall(Apply(file, OwnFrames(before, channel, address)), OwnCalls(before, channel, address), e.call);
      }
    }
  }

  lemma NothingAsked(file: File)
    ensures CarriesOut(file, [])
  {
  }

  lemma CarriedOutDuty(file: File, calls: seq<Call>)
    requires CarriesOut(file, calls)
    ensures AskedDuty(calls).Some? ==> Duty(file) == AskedDuty(calls)
    ensures AskedHeading(calls).Some? ==> Heading(file) == AskedHeading(calls)
  {
  }

  /** Duty history. After every run from a disable, from any state, each motor is driven at the duty and in the
  direction its own calls last asked for: other drivers' calls do not enter, and a speed set earlier holds until it
  is set again. */
  lemma DutyHistory(s: System, events: seq<Event>, channel: nat, address: Byte)
    requires events != [] && events[0] == Disable && AllAddressed(events)
    ensures var file := FileOf(Run(s, events).devices, channel, address);
            var calls := OwnCalls(events, channel, address);
            && (AskedDuty(calls).Some? ==> Duty(file) == AskedDuty(calls))
            && (AskedHeading(calls).Some? ==> Heading(file) == AskedHeading(calls))
  {
    hide Run, Apply, OwnFrames, OwnCalls, CarriesOut, FileOf, AskedDuty, AskedHeading;
    RoutedFromDisable(s, events, channel, address);
    OwnCallsCarriedOut(FileOf(s.devices, channel, address), events, channel, address);
    CarriedOutDuty(FileOf(Run(s, events).devices, channel, address), OwnCalls(events, channel, address));
  }
}

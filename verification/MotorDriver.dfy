/** LP3943 motor drivers reached through the cached multiplexer. */
module MotorDriver {
  import opened Bits
  import opened I2cMux

  datatype Call =
    | Init(channel: Byte, address: Byte)
    | RegControl(channel: Byte, address: Byte, enable: bool)
    | VariableMotion(channel: Byte, address: Byte, speed: Byte, direction: bool)
    | SetMotion(channel: Byte, address: Byte, speedOne: Byte, speedTwo: Byte)
    | DefaultMotion(channel: Byte, address: Byte, level: Byte, direction: bool)
    | Stop(channel: Byte, address: Byte)
    | Read(channel: Byte, address: Byte, register: Byte)

  datatype Event = Disable | Motor(call: Call)

  const STOP_BYTE: Byte := 0x55

  function SpeedBits(level: Byte): Byte {
    if level == 3 then 0 else if level == 2 then 0xC0 else if level == 1 then 0x80 else 0x40
  }

  function DirectionCode(direction: bool): Byte {
    if direction then 0x04 else 0x11
  }

  function VariableByte(direction: bool): Byte {
    if direction then 0xC4 else 0xD1
  }

  /** The byte `defaultMotionControl` is to write: speed bits above six direction bits. */
  function DriveByte(level: Byte, direction: bool): Byte {
    SpeedBits(level) + DirectionCode(direction)
  }

  lemma DriveFieldsJoin(speedBits: Byte, directionCode: Byte)
    requires speedBits % 64 == 0 && directionCode < 64
    ensures Or(speedBits, And(directionCode, 0x3F)) == speedBits + directionCode
  {
    hide And, Or;
    Pow2Values();
    Mask(directionCode, 0x3F, 6);
    OrIsSum(speedBits, directionCode, 6);
  }

  function InitFrames(address: Byte): seq<Frame> {
    [Long(address, 0x02, 0x00), Long(address, 0x03, 0x80), Long(address, 0x04, 0x00), Long(address, 0x07, STOP_BYTE)]
  }

  /** What one call sends after channel selection. A read sends the register address alone. */
  function BodyFrames(call: Call): seq<Frame> {
    match call
    case Init(_, address) => InitFrames(address)
    case RegControl(_, address, enable) =>
      if enable then [Long(address, 0x08, 0x15), Long(address, 0x08, 0x05)] else [Long(address, 0x08, 0x00)]
    case VariableMotion(_, address, speed, direction) =>
      [Long(address, 0x05, 255 - speed), Long(address, 0x07, VariableByte(direction))]
    case SetMotion(_, address, speedOne, speedTwo) =>
      [Long(address, 0x03, 255 - speedOne), Long(address, 0x05, 255 - speedTwo)]
    case DefaultMotion(_, address, level, direction) => [Long(address, 0x07, DriveByte(level, direction))]
    case Stop(_, address) => [Long(address, 0x07, STOP_BYTE)]
    case Read(_, address, register) => [Short(address, register)]
  }

  function Frames(current: int, e: Event): seq<Frame> {
    match e
    case Disable => [Short(MUX_ADDRESS, 0)]
    case Motor(call) => SelectFrames(current, call.channel) + BodyFrames(call)
  }

  function NextCurrent(current: int, e: Event): int {
    match e
    case Disable => -1
    case Motor(call) => SelectCurrent(current, call.channel)
  }

  /** The devices on the bus together with the software cache. */
  datatype System = System(devices: Devices, current: int)

  function Step(s: System, e: Event): System {
    System(Deliver(s.devices, Frames(s.current, e)), NextCurrent(s.current, e))
  }

  class Motors {
    const mux: Mux

    constructor (mux: Mux)
      ensures this.mux == mux
    {
      this.mux := mux;
    }

    ghost function View(): System
      reads mux, mux.bus
    {
      System(mux.bus.Devices(), mux.currentChannel)
    }

    /** The frames sent and the channel cached are those of event e. */
    twostate predicate Did(e: Event)
      reads mux, mux.bus
    {
      && mux.currentChannel == NextCurrent(old(mux.currentChannel), e)
      && mux.bus.log == old(mux.bus.log) + Frames(old(mux.currentChannel), e)
    }

    /** The channel was requested and then these frames went out, in this order. */
    twostate predicate Sent(channel: Byte, frames: seq<Frame>)
      reads mux, mux.bus
    {
      mux.bus.log == old(mux.bus.log) + (SelectFrames(old(mux.currentChannel), channel) + frames)
    }

    /** Sending the frames of e takes the devices and the cache through the step of e. */
    twostate lemma Stepped(e: Event)
      requires Did(e)
      ensures View() == Step(old(View()), e)
    {
      DeliverConcat(mux.bus.origin, old(mux.bus.log), Frames(old(mux.currentChannel), e));
    }

    method DisableAll()
      modifies mux, mux.bus
      ensures Did(Disable)
    {
      mux.DisableAllChannels();
    }

    method MotorDriverInit(channel: Byte, address: Byte)
      modifies mux, mux.bus
      ensures Did(Motor(Init(channel, address)))
      ensures Sent(channel, [Long(address, 0x02, 0x00), Long(address, 0x03, 0x80), Long(address, 0x04, 0x00),
                             Long(address, 0x07, 0x55)])
    {
      hide SelectFrames;
      mux.SelectChannel(channel);
      var registers: seq<Byte> := [0x02, 0x03, 0x04, 0x07];
      var values: seq<Byte> := [0x00, 0x80, 0x00, 0x55];
      label Selected:
      var i := 0;
      while i < |registers|
        invariant 0 <= i <= |registers|
        invariant mux.currentChannel == SelectCurrent(old(mux.currentChannel), channel)
        invariant mux.bus.log == old@Selected(mux.bus.log) + InitFrames(address)[..i]
      {
        mux.bus.Transmit(Long(address, registers[i], values[i]));
        assert InitFrames(address)[..i + 1] == InitFrames(address)[..i] + [InitFrames(address)[i]];
        i := i + 1;
      }
      assert InitFrames(address)[..i] == InitFrames(address);
    }

    method MotorDriverRegControl(channel: Byte, address: Byte, enable: bool)
      modifies mux, mux.bus
      ensures Did(Motor(RegControl(channel, address, enable)))
      ensures Sent(channel, if enable then [Long(address, 0x08, 0x15), Long(address, 0x08, 0x05)]
                            else [Long(address, 0x08, 0x00)])
    {
      hide SelectFrames;
      mux.SelectChannel(channel);
      if enable {
        mux.bus.Transmit(Long(address, 0x08, 0x15));
        mux.bus.Transmit(Long(address, 0x08, 0x05));
      } else {
        mux.bus.Transmit(Long(address, 0x08, 0x00));
      }
    }

    method VariableMotionControl(channel: Byte, address: Byte, speed: Byte, direction: bool)
      modifies mux, mux.bus
      ensures Did(Motor(VariableMotion(channel, address, speed, direction)))
      ensures Sent(channel, [Long(address, 0x05, 255 - speed), Long(address, 0x07, if direction then 0xC4 else 0xD1)])
    {
      hide SelectFrames, VariableByte;
      VariableBytes(direction);
      mux.SelectChannel(channel);
      mux.bus.Transmit(Long(address, 0x05, 255 - speed));
      if direction {
        mux.bus.Transmit(Long(address, 0x07, 0xC4));
      } else {
        mux.bus.Transmit(Long(address, 0x07, 0xD1));
      }
      assert mux.bus.log == old(mux.bus.log) + SelectFrames(old(mux.currentChannel), channel)
                          + [Long(address, 0x05, 255 - speed), Long(address, 0x07, VariableByte(direction))];
    }

    method SetMotionControl(channel: Byte, address: Byte, speedOne: Byte, speedTwo: Byte)
      modifies mux, mux.bus
      ensures Did(Motor(SetMotion(channel, address, speedOne, speedTwo)))
      ensures Sent(channel, [Long(address, 0x03, 255 - speedOne), Long(address, 0x05, 255 - speedTwo)])
    {
      hide SelectFrames;
      mux.SelectChannel(channel);
      mux.bus.Transmit(Long(address, 0x03, 255 - speedOne));
      mux.bus.Transmit(Long(address, 0x05, 255 - speedTwo));
    }

    method DefaultMotionControl(channel: Byte, address: Byte, speedLevel: Byte, direction: bool)
      modifies mux, mux.bus
      ensures Did(Motor(DefaultMotion(channel, address, speedLevel, direction)))
      ensures Sent(channel, [Long(address, 0x07, (if speedLevel == 3 then 0x00 else if speedLevel == 2 then 0xC0
                                                  else if speedLevel == 1 then 0x80 else 0x40)
                                                 + (if direction then 0x04 else 0x11))])
    {
      hide And, Or;
      mux.SelectChannel(channel);
      var speedBits: Byte := 0;
      if speedLevel == 3 {
        speedBits := 0;
      } else if speedLevel == 2 {
        speedBits := 0xC0;
      } else if speedLevel == 1 {
        speedBits := 0x80;
      } else {
        speedBits := 0x40;
      }
      var directionCode: Byte;
      if direction {
        directionCode := 0x04;
      } else {
        directionCode := 0x11;
      }
      DriveFieldsJoin(speedBits, directionCode);
      var regValue := Or(speedBits, And(directionCode, 0x3F));
      mux.bus.Transmit(Long(address, 0x07, regValue));
    }

    method MotorDriverStop(channel: Byte, address: Byte)
      modifies mux, mux.bus
      ensures Did(Motor(Stop(channel, address)))
      ensures Sent(channel, [Long(address, 0x07, 0x55)])
    {
      mux.SelectChannel(channel);
      mux.bus.Transmit(Long(address, 0x07, 0x55));
    }

    /** raw is the byte the selected chip answers with. */
    method ReadLimitTriggers(channel: Byte, address: Byte, raw: Byte) returns (limits: Byte)
      modifies mux, mux.bus
      ensures Did(Motor(Read(channel, address, 0x00)))
      ensures Sent(channel, [Short(address, 0x00)])
      ensures limits == raw % 16
    {
      mux.SelectChannel(channel);
      mux.bus.Transmit(Short(address, 0x00));
      Pow2Values();
      Mask(raw, 0x0F, 4);
      limits := And(raw, 0x0F);
    }

    method ReadCurrentEstimate(channel: Byte, address: Byte, raw: Byte) returns (current: real)
      modifies mux, mux.bus
      ensures Did(Motor(Read(channel, address, 0x01)))
      ensures Sent(channel, [Short(address, 0x01)])
      ensures current == (raw / 8) as real / 31.0 * 6.1467
    {
      hide And, Shr;
      mux.SelectChannel(channel);
      mux.bus.Transmit(Short(address, 0x01));
      CurrentBits(raw);
      var count := Shr(And(raw, 0xF8), 3);
      current := (count as real / 31.0) * 6.1467;
    }
  }

  lemma VariableBytes(direction: bool)
    ensures VariableByte(direction) == if direction then 0xC4 else 0xD1
  {
  }

  /** The upper five bits of a byte. */
  lemma CurrentBits(raw: Byte)
    ensures Shr(And(raw, 0xF8), 3) == raw / 8
  {
    hide And, Shr;
    Pow2Values();
    ShrAnd(raw, 0xF8, 3);
    ShrIsDiv(raw, 3);
    ShrIsDiv(0xF8, 3);
    MaskKeeps(raw / 8, 31, 5);
  }
}

/** The shared I2C bus behind a PCA9548A multiplexer, and the cached channel selection in front of it.

Device model: the multiplexer holds one control byte and keeps the last byte of a transmission to its
address; a write to any other address reaches every enabled channel. Transmissions always succeed. */
module I2cMux {
  import opened Bits

  const MUX_ADDRESS: Byte := 0x70

  /** The two write overloads: one data byte, or a register address and a data byte. */
  datatype Frame =
    | Short(address: Byte, data: Byte)
    | Long(address: Byte, register: Byte, data: Byte)

  /** One register of one chip on one downstream channel. */
  datatype Cell = Cell(channel: nat, address: Byte, register: Byte)

  datatype Devices = Devices(control: Byte, cells: map<Cell, Byte>)

  function Receive(d: Devices, f: Frame): Devices {
    match f
    case Short(address, data) =>
      if address == MUX_ADDRESS then d.(control := data) else d
    case Long(address, register, data) =>
      if address == MUX_ADDRESS then d.(control := data)
      else d.(cells := d.cells +
        map c: nat | c < 8 && BitSet(d.control, c) :: Cell(c, address, register) := data)
  }

  function Deliver(d: Devices, frames: seq<Frame>): Devices {
    if frames == [] then d
    else Receive(Deliver(d, frames[..|frames| - 1]), frames[|frames| - 1])
  }

  lemma DeliverOne(d: Devices, f: Frame)
    ensures Deliver(d, [f]) == Receive(d, f)
  {
    assert [f][..0] == [];
  }

  lemma {:induction false} DeliverConcat(d: Devices, f: seq<Frame>, g: seq<Frame>)
    ensures Deliver(d, f + g) == Deliver(Deliver(d, f), g)
    decreases |g|
  {
    if g == [] {
      assert f + g == f;
    } else {
      var g' := g[..|g| - 1];
      assert (f + g)[..|f + g| - 1] == f + g';
      DeliverConcat(d, f, g');
    }
  }

  function ControlByte(channel: nat): (b: Byte)
    requires channel <= 7
    ensures b == Shl(1, channel)
  {
    assert Shl(1, 0) == 1 && Shl(1, 1) == 2 && Shl(1, 2) == 4 && Shl(1, 3) == 8;
    assert Shl(1, 4) == 16 && Shl(1, 5) == 32 && Shl(1, 6) == 64 && Shl(1, 7) == 128;
    Shl(1, channel)
  }

  /** What a request for a channel sends, given the cached channel. */
  function SelectFrames(current: int, channel: Byte): seq<Frame> {
    if channel > 7 || current == channel then []
    else [Short(MUX_ADDRESS, ControlByte(channel))]
  }

  function SelectCurrent(current: int, channel: Byte): int {
    if channel > 7 then current else channel
  }

  /** The cache tells the truth about the control byte. */
  predicate Agree(current: int, control: Byte) {
    || (current == -1 && control == 0)
    || (0 <= current <= 7 && control == ControlByte(current))
  }

  /** Under agreement at most one channel is enabled, and it is the cached one. */
  lemma EnabledIsCached(current: int, control: Byte, channel: nat)
    requires Agree(current, control)
    ensures BitSet(control, channel) <==> channel == current
  {
    if current == -1 {
      NoBits(channel);
    } else {
      OneHot(current, channel);
    }
  }

  /** The wire. What the devices hold is what the frames sent since `origin` made of them. */
  class Bus {
    ghost const origin: Devices
    var log: seq<Frame>

    constructor (ghost origin: Devices)
      ensures this.origin == origin && log == []
    {
      this.origin, log := origin, [];
    }

    method Transmit(f: Frame)
      modifies this
      ensures log == old(log) + [f]
    {
      log := log + [f];
    }

    ghost function Devices(): Devices
      reads this
    {
      Deliver(origin, log)
    }
  }

  class Mux {
    const bus: Bus
    var currentChannel: int  // -1: no channel selected

    constructor (bus: Bus)
      ensures this.bus == bus && currentChannel == -1
    {
      this.bus, currentChannel := bus, -1;
    }

    method SelectChannel(channel: Byte)
      modifies this, bus
      ensures currentChannel == SelectCurrent(old(currentChannel), channel)
      ensures bus.log == old(bus.log) + SelectFrames(old(currentChannel), channel)
    {
      if channel > 7 {
        return;
      }
      if currentChannel == channel {
        return;
      }
      var controlByte := ControlByte(channel);
      bus.Transmit(Short(MUX_ADDRESS, controlByte));
      currentChannel := channel;
    }

    method DisableAllChannels()
      modifies this, bus
      ensures currentChannel == -1
      ensures bus.log == old(bus.log) + [Short(MUX_ADDRESS, 0)]
    {
      bus.Transmit(Short(MUX_ADDRESS, 0));
      currentChannel := -1;
    }
  }
}

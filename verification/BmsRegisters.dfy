/** The L9961 register file as the firmware sees it: 16-bit words moved as big-endian byte pairs.

Device model: a write replaces the register and has no other effect; a register never written reads 0.
Bus writes succeed. */
module BmsRegisters {
  import opened Bits

  datatype Pair = Pair(high: Byte, low: Byte)

  type Registers = map<Byte, Pair>

  function Join(p: Pair): Word {
    p.high * 0x100 + p.low
  }

  function Split(w: Word): Pair {
    Pair(w / 0x100, w % 0x100)
  }

  function ReadWord(registers: Registers, register: Byte): Word {
    if register in registers then Join(registers[register]) else 0
  }

  const CONVERSION: Byte := 0x02
  const COULOMB_MSB: Byte := 0x2D
  const COULOMB_LSB: Byte := 0x2E

  /** One register write and what the conversion register held when it happened. */
  datatype Entry = Entry(register: Byte, data: Word, conversion: Word)

  /** Registers, the software's conversion flag, and the writes so far. */
  datatype State = State(registers: Registers, active: int, log: seq<Entry>)

  function Store(s: State, register: Byte, data: Word): State {
    s.(registers := s.registers[register := Split(data)],
       log := s.log + [Entry(register, data, ReadWord(s.registers, CONVERSION))])
  }

  lemma SplitBits(data: Word)
    ensures And(Shr(data, 8), 0xFF) == Split(data).high
    ensures And(data, 0xFF) == Split(data).low
  {
    hide And, Shr;
    Pow2Values();
    ShrIsDiv(data, 8);
    Mask(Shr(data, 8), 0xFF, 8);
    Mask(data, 0xFF, 8);
  }

  lemma JoinBits(p: Pair)
    ensures Or(Shl(p.high, 8), p.low) == Join(p)
  {
    hide Or, Shl;
    Pow2Values();
    JoinIsSum(p.high, p.low, 8);
  }

  /** What was stored is what is read back; no other register changes. */
  lemma StoreThenRead(s: State, register: Byte, data: Word, other: Byte)
    ensures ReadWord(Store(s, register, data).registers, other)
         == if other == register then data else ReadWord(s.registers, other)
  {
    assert (data / 0x100) * 0x100 + data % 0x100 == data;
  }

  /** Cell and pack voltages: twelve bits over 5 V and 25 V. */
  function DecodeCell(raw: Word): real {
    (raw % 0x1000) as real / 4095.0 * 5.0
  }

  function DecodePack(raw: Word): real {
    (raw % 0x1000) as real / 4095.0 * 25.0
  }
}

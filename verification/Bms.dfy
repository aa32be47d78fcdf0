/** The BMS driver: commands, reads and the coulomb accumulator over one register file. */
module Bms {
  import opened Options
  import opened Bits
  import opened CText
  import opened BmsRegisters
  import opened BmsCommands
  import opened Coulombs
  import opened Quantiser

  datatype CoulombCountResult =
    CoulombCountResult(coulombs: real, sampleCount: Byte, totalCoulombs: real, totalSampleCount: nat)

  /** Microseconds per current sample: 528 times 2^(3 + currentFilter). */
  function CurrentFilterInt(currentFilter: Byte): nat {
    528 * Pow2(3 + currentFilter)
  }

  /** Charge of an accumulator reading, in coulombs. */
  function Charge(n: int, senseResistor: real, filterInt: nat): real
    requires senseResistor > 0.0
  {
    (n as real * (0.3 / 32767.0)) / senseResistor * filterInt as real / 1000000.0
  }

  /** A reading of one is 0.3 V over 32767, over the resistor, for one sample of the current filter's time: 528
  microseconds times 2^(3 + filter). */
  lemma ChargeProduct(n: int, senseResistor: real, currentFilter: Byte)
    requires senseResistor > 0.0
    ensures Charge(n, senseResistor, CurrentFilterInt(currentFilter)) * senseResistor * 32767.0 * 1000000.0
         == 0.3 * n as real * (528 * Pow2(3 + currentFilter)) as real
  {
    hide Pow2;
    var filterInt := 528 * Pow2(3 + currentFilter);
    var volts := n as real * (0.3 / 32767.0);
    var amperes := volts / senseResistor;
    assert amperes * senseResistor == volts;
    assert volts * 32767.0 == 0.3 * n as real;
    ReorderProduct(amperes, filterInt as real, senseResistor);
  }

  /** Charge has the sign of the reading, adds up over readings, and varies inversely with the resistor. */
  lemma ChargeLaws(n: int, m: int, senseResistor: real, other: real, currentFilter: Byte)
    requires senseResistor > 0.0 && other > 0.0
    ensures var f := CurrentFilterInt(currentFilter);
            && (Charge(n, senseResistor, f) > 0.0 <==> n > 0)
            && (Charge(n, senseResistor, f) < 0.0 <==> n < 0)
            && Charge(n + m, senseResistor, f) == Charge(n, senseResistor, f) + Charge(m, senseResistor, f)
            && Charge(n, senseResistor, f) * senseResistor == Charge(n, other, f) * other
  {
    hide Pow2, Charge, CurrentFilterInt;
    ChargeProduct(n, senseResistor, currentFilter);
    ChargeProduct(m, senseResistor, currentFilter);
    ChargeProduct(n + m, senseResistor, currentFilter);
    ChargeProduct(n, other, currentFilter);
    var f := CurrentFilterInt(currentFilter);
    var time := (528 * Pow2(3 + currentFilter)) as real;
    SameProduct(Charge(n, senseResistor, f), Charge(m, senseResistor, f), Charge(n + m, senseResistor, f),
                senseResistor, n, m, time);
  }

  lemma SameProduct(a: real, b: real, sum: real, r: real, n: int, m: int, time: real)
    requires r > 0.0 && time > 0.0
    requires a * r * 32767.0 * 1000000.0 == 0.3 * n as real * time
    requires b * r * 32767.0 * 1000000.0 == 0.3 * m as real * time
    requires sum * r * 32767.0 * 1000000.0 == 0.3 * (n + m) as real * time
    ensures (a > 0.0 <==> n > 0) && (a < 0.0 <==> n < 0) && sum == a + b
  {
    assert a * r * 32767000000.0 == 0.3 * (n as real * time);
    assert sum * r == (a + b) * r;
    assert (sum - (a + b)) * r == 0.0;
  }

  lemma ReorderProduct(amperes: real, time: real, r: real)
    ensures (amperes * time / 1000000.0) * r * 32767.0 * 1000000.0 == (amperes * r) * 32767.0 * time
  {
  }

  lemma ConversionLayout(s: Settings)
    ensures ConversionWord(s)
         == s.measureCycle % 32 * 128 + s.currentFilter % 4 * 32 + s.shortcircuitFilter % 8 * 4 + s.cellFilter % 4
  {
  }

  class Bms {
    const settings: Settings
    const senseResistor: real
    var registers: Registers
    var conversionActive: int
    var totalCoulombs: real
    var totalSampleCount: nat
    ghost var log: seq<Entry>

    constructor (settings: Settings, senseResistor: real, registers: Registers)
      requires senseResistor > 0.0
      ensures this.settings == settings && this.senseResistor == senseResistor
      ensures View() == State(registers, 0, []) && totalCoulombs == 0.0 && totalSampleCount == 0
    {
      this.settings, this.senseResistor, this.registers := settings, senseResistor, registers;
      conversionActive, totalCoulombs, totalSampleCount, log := 0, 0.0, 0, [];
    }

    ghost function View(): State
      reads this
    {
      State(registers, conversionActive, log)
    }

    method ReadBMSData(register: Byte) returns (data: Word)
      ensures data == ReadWord(registers, register)
      ensures data == if register in registers then registers[register].high * 256 + registers[register].low else 0
    {
      data := 0;
      if register in registers {
        var highByte, lowByte := registers[register].high, registers[register].low;
        JoinBits(registers[register]);
        data := Or(Shl(highByte, 8), lowByte);
      }
    }

    method WriteBMSData(register: Byte, data: Word)
      modifies this`registers, this`log
      ensures View() == Store(old(View()), register, data)
      ensures registers == old(registers)[register := Pair(data / 256, data % 256)]
      ensures log == old(log) + [Entry(register, data, ReadWord(old(registers), 0x02))]
    {
      hide And, Shr;
      log := log + [Entry(register, data, ReadWord(registers, CONVERSION))];
      SplitBits(data);
      var highByte := And(Shr(data, 8), 0xFF);
      var lowByte := And(data, 0xFF);
      registers := registers[register := Pair(highByte, lowByte)];
    }

    method SetBMSConversionState(state: string)
      modifies this`registers, this`conversionActive, this`log
      ensures View() == Step(settings, old(View()), Conversion(state))
      ensures state == "CONVERSION_OFF" ==> ReadWord(registers, 0x02) == 0 && conversionActive == 0
      ensures state == "CONVERSION_ON" ==>
        && conversionActive == 1
        && ReadWord(registers, 0x02)
           == settings.measureCycle % 32 * 128 + settings.currentFilter % 4 * 32
              + settings.shortcircuitFilter % 8 * 4 + settings.cellFilter % 4
    {
      hide And, Or, Shl, ConversionWord, ReadWord;
      ConversionLayout(settings);
      StoreThenRead(View(), 0x02, 0, 0x02);
      StoreThenRead(View(), 0x02, ConversionWord(settings), 0x02);
      if state == "CONVERSION_OFF" {
        WriteBMSData(CONVERSION, 0);
        conversionActive := 0;
      } else if state == "CONVERSION_ON" {
        ConversionBits(settings);
        var conversionOnValue := Or(Or(Or(Shl(And(settings.measureCycle, 0x1F), 7),
                                          Shl(And(settings.currentFilter, 0x03), 5)),
                                       Shl(And(settings.shortcircuitFilter, 0x07), 2)),
                                    Shl(And(settings.cellFilter, 0x03), 0));
        WriteBMSData(CONVERSION, conversionOnValue);
        conversionActive := 1;
      }
    }

    /** The tail of every guarded command. */
    method GuardedWrite(register: Byte, data: Word)
      modifies this`registers, this`conversionActive, this`log
      ensures View() == Store(Guard(old(View())), register, data)
    {
      hide ReadWord;
      if conversionActive == 1 {
        SetBMSConversionState("CONVERSION_OFF");
      }
      WriteBMSData(register, data);
    }

    /** The sixteen digits of the bit-printing loop. */
    method PrintBits(data: Word) returns (text: string)
      ensures text == BinaryText(data, 16)
    {
      hide And, Shr;
      text := [];
      var i := 15;
      assert Shr(data, 16) == 0 by {
        Pow2Values();
        ShrIsDiv(data, 16);
      }
      while i >= 0
        invariant -1 <= i <= 15
        invariant text == BinaryText(Shr(data, i + 1), 15 - i)
      {
        Pow2Values();
        Mask(Shr(data, i), 1, 1);
        ShrHalves(data, i);
        var bit := And(Shr(data, i), 1);
        text := text + [(48 + bit) as char];
        i := i - 1;
      }
      ShrZero(data);
    }

    /** shown: the binary digits reported for the data written. */
    method SendBMSConfigCommand(command: string, valueStr: string) returns (shown: Option<string>)
      modifies this`registers, this`conversionActive, this`log
      ensures View() == Step(settings, old(View()), Config(command, valueStr))
      ensures shown == match Plan(Config(command, valueStr))
                       case Some(target) => Some(BinaryText(target.data, 16))
                       case None => None
    {
      hide Strtol, ReadWord, BinaryText;
      shown := None;
      var registerAddress: Byte;
      var defaultData: Word;
      var maxData: Word;
      if command == "CFG2_ENABLES" {
        registerAddress, defaultData, maxData := 0x04, 0x19FF, 0x3FFF;
      } else if command == "TO_PRDV_BAL_MSK" {
        registerAddress, defaultData, maxData := 0x13, 0x7FFF, 0x7FFF;
      } else if command == "TO_FUSE_RST_MSK" {
        registerAddress, defaultData, maxData := 0x14, 0x007F, 0x007F;
      } else if command == "TO_FAULTN_MSK" {
        registerAddress, defaultData, maxData := 0x15, 0x0FFF, 0x0FFF;
      } else if command == "CURR_MSK" {
        registerAddress, defaultData, maxData := 0x16, 0x0FFF, 0x0FFF;
      } else if command == "DIAG_OV_OT_UT" {
        registerAddress, defaultData, maxData := 0x2A, 0x0000, 0xFFFF;
      } else if command == "DIAG_UV" {
        registerAddress, defaultData, maxData := 0x2B, 0x0000, 0xFFFF;
      } else if command == "DIAG_CURR" {
        registerAddress, defaultData, maxData := 0x2F, 0x0000, 0xFFFF;
      } else {
        return;
      }
      assert ConfigRowOf(command) == Some(ConfigRow(registerAddress, defaultData, maxData));
      hide ConfigRowOf;
      var data: Word := 0;
      if valueStr == "default" {
        data := defaultData;
      } else if "0b" <= valueStr {
        data := Strtol(valueStr[2..], 2) % 0x1_0000;
        if data > maxData {
          var capped := PrintBits(maxData);
          data := maxData;
        }
      } else {
        return;
      }
      GuardedWrite(registerAddress, data);
      var digits := PrintBits(data);
      shown := Some(digits);
    }

    method SendBMSIdentityCommand(command: string, data: Word)
      modifies this`registers, this`conversionActive, this`log
      ensures View() == Step(settings, old(View()), Identity(command, data))
    {
      hide ReadWord;
      if data == 0 {
        return;
      }
      var registerAddress: Byte;
      if command == "MANUFACTURE_NAME_MSB" {
        registerAddress := 0x17;
      } else if command == "MANUFACTURE_NAME_LSB" {
        registerAddress := 0x18;
      } else if command == "MANUFACTURING_DATE" {
        registerAddress := 0x19;
      } else if command == "FIRST_USAGE_DATE" {
        registerAddress := 0x1A;
      } else if command == "SERIAL_NUMBER_MSB" {
        registerAddress := 0x1B;
      } else if command == "SERIAL_NUMBER_LSB" {
        registerAddress := 0x1C;
      } else if command == "DEVICE_NAME_MSB" {
        registerAddress := 0x1D;
      } else if command == "DEVICE_NAME_LSB" {
        registerAddress := 0x1E;
      } else {
        return;
      }
      assert IdentityRegister(command) == Some(registerAddress);
      hide IdentityRegister;
      GuardedWrite(registerAddress, data);
    }

    method RWBMSNVM(command: string)
      modifies this`registers, this`conversionActive, this`log
      ensures View() == Step(settings, old(View()), Nvm(command))
    {
      hide ReadWord;
      var registerAddress: Byte;
      var data: Word;
      if command == "NVM_2_DL" {
        registerAddress, data := 0x20, 0xAAAA;
      } else if command == "NVM_2_UL" {
        registerAddress, data := 0x20, 0x5555;
      } else {
        return;
      }
      assert NvmTarget(command) == Some(Target(registerAddress, data));
      hide NvmTarget;
      GuardedWrite(registerAddress, data);
    }

    method SendBMSRealTimeCommand(command: string)
      modifies this`registers, this`conversionActive, this`log
      ensures View() == Step(settings, old(View()), RealTime(command))
    {
      hide ReadWord;
      var registerAddress: Byte;
      var data: Word;
      if command == "BAL_ENABLE" {
        registerAddress, data := 0x01, 0x001F;
      } else if command == "BAL_DISABLE" {
        registerAddress, data := 0x01, 0x0000;
      } else if command == "GO2SHIP" {
        registerAddress, data := 0x21, 0x2000;
      } else if command == "GO2STBY" {
        registerAddress, data := 0x22, 0x2000;
      } else if command == "FUSE_TRIG_DISARM" {
        registerAddress, data := 0x23, 0x1000;
      } else if command == "FUSE_TRIG_ARM" {
        registerAddress, data := 0x23, 0x2000;
      } else if command == "FUSE_TRIG_FIRE_INTERRUPT" {
        registerAddress, data := 0x24, 0x1000;
      } else if command == "FUSE_TRIG_FIRE" {
        registerAddress, data := 0x24, 0x2000;
      } else {
        return;
      }
      assert RealTimeTarget(command) == Some(Target(registerAddress, data));
      hide RealTimeTarget;
      GuardedWrite(registerAddress, data);
    }

    /** msb, lsb: the counter words the device presents after the reset write. The total is kept rounded to
    hundredths, the sample total modulo 2^32. */
    method ReadCoulombCounter(msb: Word, lsb: Word) returns (result: CoulombCountResult)
      requires senseResistor > 0.0
      modifies this`registers, this`log, this`totalCoulombs, this`totalSampleCount
      ensures View() == Step(settings, old(View()), Coulomb(msb, lsb))
      ensures result.coulombs == Charge(Decode24(msb, lsb), senseResistor, CurrentFilterInt(settings.currentFilter))
      ensures result.coulombs * senseResistor * 32767.0 * 1000000.0
           == 0.3 * Decode24(msb, lsb) as real * (528 * Pow2(3 + settings.currentFilter)) as real
      ensures ReadWord(registers, 0x2D) == msb && ReadWord(registers, 0x2E) == lsb
      ensures |log| == |old(log)| + 1 && log[|old(log)|].register == 0x2D && log[|old(log)|].data == 0xFFFF
      ensures result.sampleCount == lsb % 0x100
      ensures totalCoulombs == result.totalCoulombs == Accumulate(old(totalCoulombs), result.coulombs)
      ensures totalSampleCount == result.totalSampleCount == AddSamples(old(totalSampleCount), result.sampleCount)
    {
      hide And, Or, Shl, Shr, Decode24, ConversionWord, CurrentFilterInt, Charge, RoundF, Pow2;
      hide ReadWord, Store, Split, Plan;
      WriteBMSData(COULOMB_MSB, 0xFFFF);
      // the device answers the reset write by latching its counters
      CountersRead(registers, msb, lsb);
      registers := registers[COULOMB_MSB := Split(msb)][COULOMB_LSB := Split(lsb)];
      var high := ReadBMSData(COULOMB_MSB);
      var lsbAndCount := ReadBMSData(COULOMB_LSB);
      var acc24 := Or(Shl(high, 8), Shr(lsbAndCount, 8));
      DecodeBits(msb, lsb);
      if And(acc24, 0x80_0000) != 0 {
        acc24 := Or(acc24, 0xFF00_0000);
      }
      var signedAcc := ToInt32(acc24);
      var coulombs := Charge(signedAcc, senseResistor, CurrentFilterInt(settings.currentFilter));
      ChargeProduct(signedAcc, senseResistor, settings.currentFilter);
      Pow2Values();
      Mask(lsbAndCount, 0xFF, 8);
      var sampleCount := And(lsbAndCount, 0xFF);
      totalCoulombs := totalCoulombs + coulombs;
      totalCoulombs := RoundF(totalCoulombs * 100.0) as real / 100.0;
      totalSampleCount := (totalSampleCount + sampleCount) % TWO_32;
      result := CoulombCountResult(coulombs, sampleCount, totalCoulombs, totalSampleCount);
    }

    method ReadVCell(cell: nat) returns (voltage: real)
      requires 1 <= cell <= 5
      ensures voltage == DecodeCell(ReadWord(registers, 0x20 + cell))
      ensures voltage * 4095.0 == 5.0 * (ReadWord(registers, 0x20 + cell) % 4096) as real
    {
      hide And;
      var raw := ReadBMSData(0x20 + cell);
      Pow2Values();
      Mask(raw, 0x0FFF, 12);
      var cellBits := And(raw, 0x0FFF);
      voltage := (cellBits as real / 4095.0) * 5.0;
    }

    method ReadVB() returns (voltage: real)
      ensures voltage == DecodePack(ReadWord(registers, 0x27))
      ensures voltage * 4095.0 == 25.0 * (ReadWord(registers, 0x27) % 4096) as real
    {
      hide And;
      var raw := ReadBMSData(0x27);
      Pow2Values();
      Mask(raw, 0x0FFF, 12);
      var vbBits := And(raw, 0x0FFF);
      voltage := (vbBits as real / 4095.0) * 25.0;
    }

    /** One command of any kind. */
    method Perform(c: Command)
      requires senseResistor > 0.0
      modifies this`registers, this`conversionActive, this`log, this`totalCoulombs, this`totalSampleCount
      ensures View() == Step(settings, old(View()), c)
      ensures totalCoulombs == if c.Coulomb? then Accumulate(old(totalCoulombs), BatchOf(c)) else old(totalCoulombs)
      ensures totalSampleCount == if c.Coulomb? then AddSamples(old(totalSampleCount), c.lsb % 0x100)
                                  else old(totalSampleCount)
    {
      hide Step, Charge, Accumulate;
      match c
      case Conversion(state) => SetBMSConversionState(state);
      case Config(command, value) => var shown := SendBMSConfigCommand(command, value);
      case Identity(command, data) => SendBMSIdentityCommand(command, data);
      case Nvm(command) => RWBMSNVM(command);
      case RealTime(command) => SendBMSRealTimeCommand(command);
      case Coulomb(msb, lsb) => var result := ReadCoulombCounter(msb, lsb);
      case Numerical(command) => NumericalStep(settings, View(), command);  // nothing reaches the device
    }

    /** The charge one coulomb read adds. */
    function BatchOf(c: Command): real
      requires senseResistor > 0.0 && c.Coulomb?
    {
      Charge(Decode24(c.msb, c.lsb), senseResistor, CurrentFilterInt(settings.currentFilter))
    }

    /** The charges of all coulomb reads of the commands, in order. */
    function Batches(commands: seq<Command>): seq<real>
      requires senseResistor > 0.0
    {
      if commands == [] then []
      else
        var c := commands[|commands| - 1];
        Batches(commands[..|commands| - 1]) + (if c.Coulomb? then [BatchOf(c)] else [])
    }

    /** Any sequence of commands on a fresh driver: the device and the flag take the run, and the total is the
    rounded total of the batches read. If nothing was converting at the start, every guarded write of the run
    happens with conversion off. */
    method Session(commands: seq<Command>)
      requires senseResistor > 0.0 && totalCoulombs == 0.0 && totalSampleCount == 0 && log == []
      modifies this`registers, this`conversionActive, this`log, this`totalCoulombs, this`totalSampleCount
      ensures View() == Run(settings, old(View()), commands)
      ensures totalCoulombs == Total(Batches(commands))
      ensures Within(totalCoulombs, Sum(Batches(commands)), |Batches(commands)| as real * 0.005)
      ensures totalSampleCount == SumSamples(Counts(commands)) % TWO_32
      ensures FlagCovers(old(View())) ==> WrittenIdle(log)
    {
      hide Step, Accumulate, AddSamples, FlagCovers, WrittenIdle;
      var i := 0;
      assert commands[..0] == [];
      while i < |commands|
        invariant 0 <= i <= |commands|
        invariant View() == Run(settings, old(View()), commands[..i])
        invariant totalCoulombs == Total(Batches(commands[..i]))
        invariant totalSampleCount == SampleTotal(Counts(commands[..i]))
      {
        ghost var before := commands[..i];
        assert commands[..i + 1] == before + [commands[i]];
        RunSnoc(settings, old(View()), before, commands[i]);
        BatchesSnoc(before, commands[i]);
        Perform(commands[i]);
        i := i + 1;
      }
      assert commands[..i] == commands;
      TotalDrift(Batches(commands));
      SamplesWrap(Counts(commands));
      NothingWritten(old(View()));
      if FlagCovers(old(View())) {
        ConversionGuard(settings, old(View()), commands);
      }
    }

    lemma BatchesSnoc(before: seq<Command>, c: Command)
      requires senseResistor > 0.0
      ensures Total(Batches(before + [c]))
           == if c.Coulomb? then Accumulate(Total(Batches(before)), BatchOf(c)) else Total(Batches(before))
      ensures SampleTotal(Counts(before + [c]))
           == if c.Coulomb? then AddSamples(SampleTotal(Counts(before)), c.lsb % 0x100) else SampleTotal(Counts(before))
    {
      hide BatchOf, Accumulate, AddSamples;
      assert (before + [c])[..|before|] == before;
      var batches, counts := Batches(before), Counts(before);
      if c.Coulomb? {
        assert (batches + [BatchOf(c)])[..|batches|] == batches;
        assert (counts + [c.lsb % 0x100])[..|counts|] == counts;
      } else {
        assert batches + [] == batches && counts + [] == counts;
      }
    }

    /** A 32-bit identity value from its two registers. */
    method ReadPair(msbRegister: Byte, lsbRegister: Byte) returns (value: nat)
      ensures value == ReadWord(registers, msbRegister) * 0x1_0000 + ReadWord(registers, lsbRegister)
    {
      var msb := ReadBMSData(msbRegister);
      var lsb := ReadBMSData(lsbRegister);
      hide Or, Shl;
      Pow2Values();
      JoinIsSum(msb, lsb, 16);
      value := Or(Shl(msb, 16), lsb);
    }

    method ReadManufacturerName() returns (value: nat)
      ensures value == ReadWord(registers, 0x17) * 0x1_0000 + ReadWord(registers, 0x18)
    {
      value := ReadPair(0x17, 0x18);
    }

    method ReadSerialNumber() returns (value: nat)
      ensures value == ReadWord(registers, 0x1B) * 0x1_0000 + ReadWord(registers, 0x1C)
    {
      value := ReadPair(0x1B, 0x1C);
    }

    method ReadDeviceName() returns (value: nat)
      ensures value == ReadWord(registers, 0x1D) * 0x1_0000 + ReadWord(registers, 0x1E)
    {
      value := ReadPair(0x1D, 0x1E);
    }
  }

  /** The sample counts of all coulomb reads of the commands, in order. */
  function Counts(commands: seq<Command>): seq<Byte> {
    if commands == [] then []
    else
      var c := commands[|commands| - 1];
      Counts(commands[..|commands| - 1]) + (if c.Coulomb? then [c.lsb % 0x100] else [])
  }

  lemma RunSnoc(settings: Settings, s: State, before: seq<Command>, c: Command)
    ensures Run(settings, s, before + [c]) == Step(settings, Run(settings, s, before), c)
  {
    hide Step;
    assert (before + [c])[..|before|] == before;
  }

  lemma NumericalStep(settings: Settings, s: State, command: string)
    ensures Step(settings, s, Numerical(command)) == s
  {
  }

  lemma NothingWritten(s: State)
    requires s.log == []
    ensures WrittenIdle(s.log)
  {
  }

  lemma CountersRead(registers: Registers, msb: Word, lsb: Word)
    ensures var latched := registers[COULOMB_MSB := Split(msb)][COULOMB_LSB := Split(lsb)];
            ReadWord(latched, COULOMB_MSB) == msb && ReadWord(latched, COULOMB_LSB) == lsb
  {
  }

  /** With the shipped 8 milliohm resistor and current filter 3, a reading disappears from the total exactly when the
  signed counter lies within 129 of zero. */
  lemma ShippedReadingLost(total: real, n: int)
    requires Hundredths(total)
    ensures Accumulate(total, Charge(n, 0.008, CurrentFilterInt(3))) == total <==> -129 <= n <= 129
  {
    hide Accumulate, Hundredths;
    ShippedCharge(n);
    BatchLostExactly(total, Charge(n, 0.008, CurrentFilterInt(3)));
  }

  lemma ShippedCharge(n: int)
    ensures var charge := Charge(n, 0.008, CurrentFilterInt(3));
            && (-0.005 < charge < 0.005 <==> -129 <= n <= 129)
            && charge != 0.005 && charge != -0.005
  {
    Pow2Values();
    assert Pow2(6) == 64;
    var charge := Charge(n, 0.008, CurrentFilterInt(3));
    assert charge == n as real * 10137.6 / 262136000.0;
  }

  /** Both halves of an identity value, sent in either order among any other commands, come back joined. */
  lemma IdentityHalves(settings: Settings, s: State, commands: seq<Command>, name: string, msb: Word, lsb: Word)
    requires name in {"MANUFACTURE_NAME", "SERIAL_NUMBER", "DEVICE_NAME"}
    requires LastSent(commands, name + "_MSB") == Some(msb) && LastSent(commands, name + "_LSB") == Some(lsb)
    ensures var registers := Run(settings, s, commands).registers;
            var r := PairRegister(name);
            ReadWord(registers, r) * 0x1_0000 + ReadWord(registers, r + 1) == msb * 0x1_0000 + lsb
  {
    hide ReadWord, LastSent, Run;
    HalfRegisters(name);
    hide IdentityRegister;
    IdentityRoundTrip(settings, s, commands, name + "_MSB");
    IdentityRoundTrip(settings, s, commands, name + "_LSB");
  }

  /** The first of the two registers the 32-bit reads join. */
  function PairRegister(name: string): Byte {
    if name == "MANUFACTURE_NAME" then 0x17 else if name == "SERIAL_NUMBER" then 0x1B else 0x1D
  }

  lemma HalfRegisters(name: string)
    requires name in {"MANUFACTURE_NAME", "SERIAL_NUMBER", "DEVICE_NAME"}
    ensures IdentityRegister(name + "_MSB") == Some(PairRegister(name))
    ensures IdentityRegister(name + "_LSB") == Some(PairRegister(name) + 1)
  {
    assert "MANUFACTURE_NAME" + "_MSB" == "MANUFACTURE_NAME_MSB";
    assert "MANUFACTURE_NAME" + "_LSB" == "MANUFACTURE_NAME_LSB";
    assert "SERIAL_NUMBER" + "_MSB" == "SERIAL_NUMBER_MSB" && "SERIAL_NUMBER" + "_LSB" == "SERIAL_NUMBER_LSB";
    assert "DEVICE_NAME" + "_MSB" == "DEVICE_NAME_MSB" && "DEVICE_NAME" + "_LSB" == "DEVICE_NAME_LSB";
  }
}

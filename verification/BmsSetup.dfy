/** The setup sequence of the battery monitor, and what it leaves behind. */
module BmsSetup {
  import opened Options
  import opened Bits
  import opened BmsRegisters
  import opened BmsCommands
  import opened BmsEffects
  import opened Thresholds
  import opened ThresholdWords
  import opened Bms

  method ConfigDefault(bms: Bms, name: string, ghost register: Byte, ghost dflt: Word, ghost max: Word)
    requires Configures(name, register, dflt, max)
    modifies bms`registers, bms`conversionActive, bms`log
    ensures Written(old(bms.View()), bms.View(), register, dflt)
  {
    hide Step, Written;
    var shown := bms.SendBMSConfigCommand(name, "default");
  }

  method SendIdentity(bms: Bms, name: string, data: Word, ghost register: Byte)
    requires Leaves(Identity(name, data), register, data)
    modifies bms`registers, bms`conversionActive, bms`log
    ensures Written(old(bms.View()), bms.View(), register, data)
  {
    hide Step, Written;
    bms.SendBMSIdentityCommand(name, data);
  }

  method SendNumerical(command: string, arg1: Arg, arg2: Arg, r: real, atof: string -> real, ghost register: Byte,
                       ghost word: Word)
    returns (target: Target)
    requires r > 0.0 && Computes(command, arg1, arg2, r, register, word)
    ensures target == Target(register, word)
  {
    hide RowOf, Encodes;
    var result := SendBMSNumericalCommand(command, arg1, arg2, r, atof);
    target := result.value;
  }

  /** The eight configuration commands, all with their defaults. */
  method SendConfigs(bms: Bms)
    modifies bms`registers, bms`conversionActive, bms`log
    ensures bms.conversionActive == if old(bms.conversionActive) == 1 then 0 else old(bms.conversionActive)
    ensures forall r: Byte ::
      ReadWord(bms.registers, r)
      == var values: map<Byte, Word> := map[0x04 := 0x19FF, 0x13 := 0x7FFF, 0x14 := 0x007F, 0x15 := 0x0FFF,
                                            0x16 := 0x0FFF, 0x2A := 0x0000, 0x2B := 0x0000, 0x2F := 0x0000];
         if r in values then values[r]
         else if r == 0x02 && old(bms.conversionActive) == 1 then 0 else ReadWord(old(bms.registers), r)
  {
    hide ReadWord, Configures;
    ConfigEffects();
    ConfigDefault(bms, "CFG2_ENABLES", 0x04, 0x19FF, 0x3FFF);
    ConfigDefault(bms, "TO_PRDV_BAL_MSK", 0x13, 0x7FFF, 0x7FFF);
    ConfigDefault(bms, "TO_FUSE_RST_MSK", 0x14, 0x007F, 0x007F);
    ConfigDefault(bms, "TO_FAULTN_MSK", 0x15, 0x0FFF, 0x0FFF);
    ConfigDefault(bms, "CURR_MSK", 0x16, 0x0FFF, 0x0FFF);
    ConfigDefault(bms, "DIAG_OV_OT_UT", 0x2A, 0x0000, 0xFFFF);
    ConfigDefault(bms, "DIAG_UV", 0x2B, 0x0000, 0xFFFF);
    ConfigDefault(bms, "DIAG_CURR", 0x2F, 0x0000, 0xFFFF);
  }

  /** The eight identity commands. */
  method SendIdentities(bms: Bms)
    modifies bms`registers, bms`conversionActive, bms`log
    ensures bms.conversionActive == if old(bms.conversionActive) == 1 then 0 else old(bms.conversionActive)
    ensures forall r: Byte ::
      ReadWord(bms.registers, r)
      == var values: map<Byte, Word> := map[0x17 := 0x1234, 0x18 := 0x5678, 0x19 := 0x2025, 0x1A := 0x2025,
                                            0x1B := 0xABCD, 0x1C := 0xEF01, 0x1D := 0x1357, 0x1E := 0x2468];
         if r in values then values[r]
         else if r == 0x02 && old(bms.conversionActive) == 1 then 0 else ReadWord(old(bms.registers), r)
  {
    hide ReadWord, Leaves;
    IdentityEffects(0x1234);
    IdentityEffects(0x5678);
    IdentityEffects(0x2025);
    IdentityEffects(0xABCD);
    IdentityEffects(0xEF01);
    IdentityEffects(0x1357);
    IdentityEffects(0x2468);
    SendIdentity(bms, "MANUFACTURE_NAME_MSB", 0x1234, 0x17);
    SendIdentity(bms, "MANUFACTURE_NAME_LSB", 0x5678, 0x18);
    SendIdentity(bms, "MANUFACTURING_DATE", 0x2025, 0x19);
    SendIdentity(bms, "FIRST_USAGE_DATE", 0x2025, 0x1A);
    SendIdentity(bms, "SERIAL_NUMBER_MSB", 0xABCD, 0x1B);
    SendIdentity(bms, "SERIAL_NUMBER_LSB", 0xEF01, 0x1C);
    SendIdentity(bms, "DEVICE_NAME_MSB", 0x1357, 0x1D);
    SendIdentity(bms, "DEVICE_NAME_LSB", 0x2468, 0x1E);
  }

  /** The fourteen threshold calls and the words they compute, which go nowhere. */
  method SendNumericals(r: real, atof: string -> real) returns (words: seq<Target>)
    requires r > 0.0
    ensures |words| == 14
    ensures words[..13] == [Target(0x05, 0x8000), Target(0x06, 0x0FFF), Target(0x07, 0x0F00), Target(0x08, 0x00FF),
                            Target(0x09, 0x0F00), Target(0x0A, 0x0FFF), Target(0x0B, 0x0F00), Target(0x0C, 0x00FF),
                            Target(0x0D, 0xFFFE), Target(0x0E, 0xF000), Target(0x0F, 0x0FFE), Target(0x10, 0xFFFF),
                            Target(0x11, 0x00FF)]
    ensures words[13].register == 0x12
    ensures r >= 0.00025272 ==> words[13].data == 0x00FF
  {
    hide Computes, Encodes;
    GainWords(r);
    CellWords(r);
    PackWords(r);
    NtcWords(r);
    CurrentWords(r);
    var w0 := SendNumerical("CSA_GAIN_FACTOR", DEFAULT, Null, r, atof, 0x05, 0x8000);
    var w1 := SendNumerical("VCELL_OV_TH", MAX, MAX, r, atof, 0x06, 0x0FFF);
    var w2 := SendNumerical("VCELL_UV_TH", MIN, MAX, r, atof, 0x07, 0x0F00);
    var w3 := SendNumerical("VCELL_SEVERE_DELTA_THRS", MAX, MIN, r, atof, 0x08, 0x00FF);
    var w4 := SendNumerical("VCELL_BAL_UV_DELTA_TH", MIN, MAX, r, atof, 0x09, 0x0F00);
    var w5 := SendNumerical("VB_OV_TH", MAX, MAX, r, atof, 0x0A, 0x0FFF);
    var w6 := SendNumerical("VB_UV_TH", MIN, MAX, r, atof, 0x0B, 0x0F00);
    var w7 := SendNumerical("VB_SUM_MAX_DIFF_TH", MAX, Null, r, atof, 0x0C, 0x00FF);
    var w8 := SendNumerical("VNTC_OT_TH", MAX, MAX, r, atof, 0x0D, 0xFFFE);
    var w9 := SendNumerical("VNTC_UT_TH", MIN, MAX, r, atof, 0x0E, 0xF000);
    var w10 := SendNumerical("VNTC_SEVERE_OT_DELTA_TH", MAX, Null, r, atof, 0x0F, 0x0FFE);
    var w11 := SendNumerical("OVC_THRESHOLDS", MAX, MAX, r, atof, 0x10, 0xFFFF);
    var w12 := SendNumerical("PERSISTENT_OVC_THRESHOLDS", MAX, Null, r, atof, 0x11, 0x00FF);
    var w13 := SendShortCircuit(r, atof);
    words := [w0, w1, w2, w3, w4, w5, w6, w7, w8, w9, w10, w11, w12, w13];
  }

  method SendShortCircuit(r: real, atof: string -> real) returns (target: Target)
    requires r > 0.0
    ensures target.register == 0x12 && (r >= 0.00025272 ==> target.data == 0x00FF)
  {
    hide Encodes, Imax;
    ShortCircuitWords(r);
    var result := SendBMSNumericalCommand("SC_THRESHOLD", MAX, MAX, r, atof);
    target := result.value;
  }

  /** `SetUpBMS`, from any state: the eight configuration defaults and the eight identity words are in their
  registers, conversion is off if the flag was on, and nothing else has changed; in particular no threshold register,
  0x05 to 0x12, has received the word computed for it. */
  method SetUpBMS(bms: Bms, atof: string -> real) returns (words: seq<Target>)
    requires bms.senseResistor > 0.0
    modifies bms`registers, bms`conversionActive, bms`log
    ensures forall r: Byte ::
      ReadWord(bms.registers, r)
      == var values: map<Byte, Word> := map[0x04 := 0x19FF, 0x13 := 0x7FFF, 0x14 := 0x007F, 0x15 := 0x0FFF,
                                            0x16 := 0x0FFF, 0x2A := 0x0000, 0x2B := 0x0000, 0x2F := 0x0000,
                                            0x17 := 0x1234, 0x18 := 0x5678, 0x19 := 0x2025, 0x1A := 0x2025,
                                            0x1B := 0xABCD, 0x1C := 0xEF01, 0x1D := 0x1357, 0x1E := 0x2468];
         if r in values then values[r]
         else if r == 0x02 && old(bms.conversionActive) == 1 then 0 else ReadWord(old(bms.registers), r)
    ensures |words| == 14
    ensures words[..13] == [Target(0x05, 0x8000), Target(0x06, 0x0FFF), Target(0x07, 0x0F00), Target(0x08, 0x00FF),
                            Target(0x09, 0x0F00), Target(0x0A, 0x0FFF), Target(0x0B, 0x0F00), Target(0x0C, 0x00FF),
                            Target(0x0D, 0xFFFE), Target(0x0E, 0xF000), Target(0x0F, 0x0FFE), Target(0x10, 0xFFFF),
                            Target(0x11, 0x00FF)]
    ensures words[13].register == 0x12
    ensures bms.senseResistor >= 0.00025272 ==> words[13].data == 0x00FF
  {
    hide ReadWord;
    SendConfigs(bms);
    SendIdentities(bms);
    words := SendNumericals(bms.senseResistor, atof);
  }
}

/** The BMS command set: what each command writes, and the conversion-off guard in front of it. */
module BmsCommands {
  import opened Options
  import opened Bits
  import opened CText
  import opened BmsRegisters

  datatype Settings = Settings(measureCycle: Byte, currentFilter: Byte, shortcircuitFilter: Byte, cellFilter: Byte)

  /** [11:7] measure cycle, [6:5] current filter, [4:2] short-circuit filter, [1:0] cell filter. */
  function ConversionWord(s: Settings): (w: Word)
    ensures w < 0x1000
  {
    (s.measureCycle % 32) * 128 + (s.currentFilter % 4) * 32 + (s.shortcircuitFilter % 8) * 4 + s.cellFilter % 4
  }

  /** The shifts and masks of the code give that layout. */
  lemma ConversionBits(s: Settings)
    ensures Or(Or(Or(Shl(And(s.measureCycle, 0x1F), 7), Shl(And(s.currentFilter, 0x03), 5)),
                  Shl(And(s.shortcircuitFilter, 0x07), 2)), Shl(And(s.cellFilter, 0x03), 0))
         == ConversionWord(s)
  {
    hide And, Or, Shl;
    Pow2Values();
    Mask(s.measureCycle, 0x1F, 5);
    Mask(s.currentFilter, 0x03, 2);
    Mask(s.shortcircuitFilter, 0x07, 3);
    Mask(s.cellFilter, 0x03, 2);
    var m, c, f, v := s.measureCycle % 32, s.currentFilter % 4, s.shortcircuitFilter % 8, s.cellFilter % 4;
    ShlIsTimes(m, 7);
    ShlIsTimes(c, 5);
    ShlIsTimes(f, 2);
    ShlIsTimes(v, 0);
    assert Pow2(0) == 1;
    OrIsSum(m * 128, c * 32, 7);
    OrIsSum(m * 128 + c * 32, f * 4, 5);
    OrIsSum(m * 128 + c * 32 + f * 4, v, 2);
  }

  /** Each field of the conversion word unpacks to its setting; the reserved bits stay clear. */
  lemma ConversionUnpacks(s: Settings)
    ensures var w := ConversionWord(s);
            && w / 128 == s.measureCycle % 32 && (w / 32) % 4 == s.currentFilter % 4
            && (w / 4) % 8 == s.shortcircuitFilter % 8 && w % 4 == s.cellFilter % 4
  {
    var m, c, f, v := s.measureCycle % 32, s.currentFilter % 4, s.shortcircuitFilter % 8, s.cellFilter % 4;
    var w := ConversionWord(s);
    hide ConversionWord;
    DivModUnique(w, 128, m, c * 32 + f * 4 + v);
    DivModUnique(w, 32, m * 4 + c, f * 4 + v);
    DivModUnique(m * 4 + c, 4, m, c);
    DivModUnique(w, 4, m * 32 + c * 8 + f, v);
    DivModUnique(m * 32 + c * 8 + f, 8, m * 4 + c, f);
  }

  datatype Command =
    | Conversion(state: string)
    | Config(command: string, value: string)
    | Identity(command: string, data: Word)
    | Nvm(command: string)
    | RealTime(command: string)
    | Numerical(command: string)
    | Coulomb(msb: Word, lsb: Word)  // the counters the device latches on the reset write

  datatype Target = Target(register: Byte, data: Word)

  // ----- what each guarded command is to write -----

  datatype ConfigRow = ConfigRow(register: Byte, default: Word, max: Word)

  function ConfigRowOf(command: string): Option<ConfigRow> {
    if command == "CFG2_ENABLES" then Some(ConfigRow(0x04, 0x19FF, 0x3FFF))
    else if command == "TO_PRDV_BAL_MSK" then Some(ConfigRow(0x13, 0x7FFF, 0x7FFF))
    else if command == "TO_FUSE_RST_MSK" then Some(ConfigRow(0x14, 0x007F, 0x007F))
    else if command == "TO_FAULTN_MSK" then Some(ConfigRow(0x15, 0x0FFF, 0x0FFF))
    else if command == "CURR_MSK" then Some(ConfigRow(0x16, 0x0FFF, 0x0FFF))
    else if command == "DIAG_OV_OT_UT" then Some(ConfigRow(0x2A, 0x0000, 0xFFFF))
    else if command == "DIAG_UV" then Some(ConfigRow(0x2B, 0x0000, 0xFFFF))
    else if command == "DIAG_CURR" then Some(ConfigRow(0x2F, 0x0000, 0xFFFF))
    else None
  }

  function Cap(value: int, max: Word): Word {
    var word := value % 0x1_0000;
    if word > max then max else word
  }

  function ConfigData(row: ConfigRow, value: string): Option<Word> {
    if value == "default" then Some(row.default)
    else if "0b" <= value then Some(Cap(Strtol(value[2..], 2), row.max))
    else None
  }

  function IdentityRegister(command: string): Option<Byte> {
    if command == "MANUFACTURE_NAME_MSB" then Some(0x17)
    else if command == "MANUFACTURE_NAME_LSB" then Some(0x18)
    else if command == "MANUFACTURING_DATE" then Some(0x19)
    else if command == "FIRST_USAGE_DATE" then Some(0x1A)
    else if command == "SERIAL_NUMBER_MSB" then Some(0x1B)
    else if command == "SERIAL_NUMBER_LSB" then Some(0x1C)
    else if command == "DEVICE_NAME_MSB" then Some(0x1D)
    else if command == "DEVICE_NAME_LSB" then Some(0x1E)
    else None
  }

  function NvmTarget(command: string): Option<Target> {
    if command == "NVM_2_DL" then Some(Target(0x20, 0xAAAA))
    else if command == "NVM_2_UL" then Some(Target(0x20, 0x5555))
    else None
  }

  function RealTimeTarget(command: string): Option<Target> {
    if command == "BAL_ENABLE" then Some(Target(0x01, 0x001F))
    else if command == "BAL_DISABLE" then Some(Target(0x01, 0x0000))
    else if command == "GO2SHIP" then Some(Target(0x21, 0x2000))
    else if command == "GO2STBY" then Some(Target(0x22, 0x2000))
    else if command == "FUSE_TRIG_DISARM" then Some(Target(0x23, 0x1000))
    else if command == "FUSE_TRIG_ARM" then Some(Target(0x23, 0x2000))
    else if command == "FUSE_TRIG_FIRE_INTERRUPT" then Some(Target(0x24, 0x1000))
    else if command == "FUSE_TRIG_FIRE" then Some(Target(0x24, 0x2000))
    else None
  }

  /** The register and word a guarded command writes; None if it is rejected. */
  function Plan(c: Command): Option<Target> {
    match c
    case Config(command, value) =>
      (match ConfigRowOf(command)
       case None => None
       case Some(row) =>
         match ConfigData(row, value)
         case None => None
         case Some(data) => Some(Target(row.register, data)))
    case Identity(command, data) =>
      (match IdentityRegister(command)
       case Some(register) => if data != 0 then Some(Target(register, data)) else None
       case None => None)
    case Nvm(command) => NvmTarget(command)
    case RealTime(command) => RealTimeTarget(command)
    case _ => None
  }

  /** Conversion off first, if the flag says it is on. */
  function Guard(s: State): State {
    if s.active == 1 then Store(s, CONVERSION, 0).(active := 0) else s
  }

  function Step(settings: Settings, s: State, c: Command): State {
    match c
    case Conversion(state) =>
      if state == "CONVERSION_OFF" then Store(s, CONVERSION, 0).(active := 0)
      else if state == "CONVERSION_ON" then Store(s, CONVERSION, ConversionWord(settings)).(active := 1)
      else s
    case Numerical(_) => s
    case Coulomb(msb, lsb) =>
      var reset := Store(s, COULOMB_MSB, 0xFFFF);
      reset.(registers := reset.registers[COULOMB_MSB := Split(msb)][COULOMB_LSB := Split(lsb)])
    case _ =>
      match Plan(c)
      case None => s
      case Some(target) => Store(Guard(s), target.register, target.data)
  }

  function Run(settings: Settings, s: State, commands: seq<Command>): State {
    if commands == [] then s
    else Step(settings, Run(settings, s, commands[..|commands| - 1]), commands[|commands| - 1])
  }

  // ----- the guard over runs -----

  /** The flag is 0 or 1 and says whether the conversion register is nonzero. */
  predicate FlagAgrees(s: State) {
    (s.active == 0 || s.active == 1) && (s.active == 1 <==> ReadWord(s.registers, CONVERSION) != 0)
  }

  /** Conversion was off at every write, except to the conversion register itself and the coulomb reset. */
  predicate WrittenIdle(log: seq<Entry>) {
    forall i :: 0 <= i < |log| ==>
      log[i].register == CONVERSION || log[i].register == COULOMB_MSB || log[i].conversion == 0
  }

  /** The flag may be on without the register, never the other way round. */
  predicate FlagCovers(s: State) {
    (s.active == 0 || s.active == 1) && (ReadWord(s.registers, CONVERSION) != 0 ==> s.active == 1)
  }

  lemma PlanAvoidsConversion(c: Command)
    requires Plan(c).Some?
    ensures Plan(c).value.register != CONVERSION && Plan(c).value.register != COULOMB_MSB
         && Plan(c).value.register != COULOMB_LSB
  {
    hide ConfigData;
  }

  /** One write: the log stays sound if conversion is off or the register is exempt, and register 0x02 reads what
  was last stored there. */
  lemma StoreGuarded(s: State, register: Byte, data: Word)
    requires WrittenIdle(s.log)
    requires register == CONVERSION || register == COULOMB_MSB || ReadWord(s.registers, CONVERSION) == 0
    ensures WrittenIdle(Store(s, register, data).log) && Store(s, register, data).active == s.active
    ensures ReadWord(Store(s, register, data).registers, CONVERSION)
         == if register == CONVERSION then data else ReadWord(s.registers, CONVERSION)
  {
    hide ReadWord, Split;
    StoreThenRead(s, register, data, CONVERSION);
  }

  /** After the guard the flag and the conversion register are both clear. */
  lemma GuardClears(s: State)
    requires FlagCovers(s) && WrittenIdle(s.log)
    ensures var g := Guard(s);
            g.active == 0 && ReadWord(g.registers, CONVERSION) == 0 && WrittenIdle(g.log)
  {
    hide ReadWord, Store, WrittenIdle;
    StoreGuarded(s, CONVERSION, 0);
  }

  lemma ConversionStep(settings: Settings, s: State, state: string)
    requires FlagCovers(s) && WrittenIdle(s.log)
    ensures var s' := Step(settings, s, Conversion(state));
            FlagCovers(s') && WrittenIdle(s'.log)
  {
    hide ReadWord, Store, WrittenIdle, ConversionWord;
    StoreGuarded(s, CONVERSION, 0);
    StoreGuarded(s, CONVERSION, ConversionWord(settings));
  }

  lemma CoulombStep(settings: Settings, s: State, msb: Word, lsb: Word)
    ensures var s' := Step(settings, s, Coulomb(msb, lsb));
            && s'.active == s.active && s'.log == Store(s, COULOMB_MSB, 0xFFFF).log
            && ReadWord(s'.registers, CONVERSION) == ReadWord(s.registers, CONVERSION)
  {
  }

  lemma WriteStep(settings: Settings, s: State, c: Command)
    requires FlagCovers(s) && WrittenIdle(s.log) && Plan(c).Some?
    ensures var s' := Step(settings, s, c);
            FlagCovers(s') && WrittenIdle(s'.log) && s'.active == 0 && ReadWord(s'.registers, CONVERSION) == 0
  {
    PlanAvoidsConversion(c);
    GuardClears(s);
    hide Plan, ReadWord, Store, Guard, WrittenIdle;
    StoreGuarded(Guard(s), Plan(c).value.register, Plan(c).value.data);
  }

  lemma StepGuarded(settings: Settings, s: State, c: Command)
    requires FlagCovers(s) && WrittenIdle(s.log)
    ensures var s' := Step(settings, s, c);
            FlagCovers(s') && WrittenIdle(s'.log)
  {
    if Plan(c).Some? {
      WriteStep(settings, s, c);
    }
    hide Plan, ReadWord, Store, Guard, WrittenIdle;
    match c
    case Conversion(state) => ConversionStep(settings, s, state);
    case Coulomb(msb, lsb) =>
      CoulombStep(settings, s, msb, lsb);
      StoreGuarded(s, COULOMB_MSB, 0xFFFF);
    case _ =>
  }

  /** Conversion guard. From any state whose flag covers the conversion register, over every run of every command,
  each config, identity, NVM and real-time write happens with conversion off; the settings do not matter. */
  lemma {:induction false} ConversionGuard(settings: Settings, s: State, commands: seq<Command>)
    requires FlagCovers(s) && WrittenIdle(s.log)
    ensures WrittenIdle(Run(settings, s, commands).log) && FlagCovers(Run(settings, s, commands))
    decreases |commands|
  {
    if commands != [] {
      hide Step, FlagCovers, WrittenIdle;
      var before := commands[..|commands| - 1];
      ConversionGuard(settings, s, before);
      StepGuarded(settings, Run(settings, s, before), commands[|commands| - 1]);
    }
  }

  /** The start premise is exact: the guard protects every run if and only if the flag is not clear while the
  device still converts. */
  lemma GuardExactly(settings: Settings, s: State)
    requires WrittenIdle(s.log) && (s.active == 0 || s.active == 1)
    ensures (forall commands :: WrittenIdle(Run(settings, s, commands).log)) <==> FlagCovers(s)
  {
    hide Run, WrittenIdle;
    if FlagCovers(s) {
      forall commands
        ensures WrittenIdle(Run(settings, s, commands).log)
      {
        ConversionGuard(settings, s, commands);
      }
    } else {
      StaleConversion(settings, s);
    }
  }

  /** A controller restarted while the chip converts: its first identity write happens with conversion on. */
  lemma StaleConversion(settings: Settings, s: State)
    requires s.active == 0 && ReadWord(s.registers, CONVERSION) != 0
    ensures !WrittenIdle(Run(settings, s, [Identity("SERIAL_NUMBER_MSB", 1)]).log)
  {
    var c := Identity("SERIAL_NUMBER_MSB", 1);
    assert Plan(c) == Some(Target(0x1B, 1));
    hide Plan, ReadWord;
    assert [c][..0] == [];
    assert Run(settings, s, []) == s;
    assert Run(settings, s, [c]) == Store(s, 0x1B, 1);
    assert Store(s, 0x1B, 1).log[|s.log|].register == 0x1B;
  }

  /** Any conversion command the code knows establishes the premise, whatever the flag and the device held. */
  lemma ConversionEstablishes(settings: Settings, s: State, state: string)
    requires state == "CONVERSION_OFF" || state == "CONVERSION_ON"
    ensures FlagCovers(Step(settings, s, Conversion(state)))
  {
    assert |"CONVERSION_ON"| != |"CONVERSION_OFF"|;
    hide ReadWord, Store, ConversionWord;
    StoreThenRead(s, CONVERSION, 0, CONVERSION);
    StoreThenRead(s, CONVERSION, ConversionWord(settings), CONVERSION);
    assert Store(s, CONVERSION, 0).(active := 0).registers == Store(s, CONVERSION, 0).registers;
  }

  lemma WriteAgrees(s: State, target: Target)
    requires FlagAgrees(s) && target.register != CONVERSION
    ensures FlagAgrees(Store(Guard(s), target.register, target.data))
  {
    hide ReadWord, Store;
    StoreThenRead(s, CONVERSION, 0, CONVERSION);
    StoreThenRead(Guard(s), target.register, target.data, CONVERSION);
    StoreActive(Guard(s), target.register, target.data);
  }

  lemma ConversionAgrees(settings: Settings, s: State, state: string)
    requires FlagAgrees(s) && ConversionWord(settings) != 0
    ensures FlagAgrees(Step(settings, s, Conversion(state)))
  {
    hide ReadWord, Store, ConversionWord;
    StoreThenRead(s, CONVERSION, 0, CONVERSION);
    StoreThenRead(s, CONVERSION, ConversionWord(settings), CONVERSION);
  }

  lemma StepAgrees(settings: Settings, s: State, c: Command)
    requires FlagAgrees(s) && ConversionWord(settings) != 0
    ensures FlagAgrees(Step(settings, s, c))
  {
    hide Plan, ReadWord, Store, Guard, ConversionWord;
    match c
    case Conversion(state) => ConversionAgrees(settings, s, state);
    case Coulomb(msb, lsb) => CoulombStep(settings, s, msb, lsb);
    case _ =>
      if Plan(c).Some? {
        PlanAvoidsConversion(c);
        WriteAgrees(s, Plan(c).value);
      }
  }

  lemma StoreActive(s: State, register: Byte, data: Word)
    ensures Store(s, register, data).active == s.active
  {
  }

  lemma {:induction false} FlagFollows(settings: Settings, s: State, commands: seq<Command>)
    requires FlagAgrees(s) && ConversionWord(settings) != 0
    ensures FlagAgrees(Run(settings, s, commands))
    decreases |commands|
  {
    if commands != [] {
      hide Step, FlagAgrees, ConversionWord;
      FlagFollows(settings, s, commands[..|commands| - 1]);
      StepAgrees(settings, Run(settings, s, commands[..|commands| - 1]), commands[|commands| - 1]);
    }
  }

  lemma EmptyRun(settings: Settings, s: State)
    ensures Run(settings, s, []) == s
  {
  }

  /** Over all runs the flag is 1 exactly while the conversion register is nonzero, if and only if it is so at the
  start and some field of the conversion word is nonzero, as for every measure cycle from 1 to 31. */
  lemma FlagAgreesExactly(settings: Settings, s: State)
    ensures (forall commands :: FlagAgrees(Run(settings, s, commands)))
       <==> FlagAgrees(s) && (settings.measureCycle % 32 != 0 || settings.currentFilter % 4 != 0
                              || settings.shortcircuitFilter % 8 != 0 || settings.cellFilter % 4 != 0)
  {
    hide FlagAgrees, Run;
    EmptyRun(settings, s);
    if FlagAgrees(s) && ConversionWord(settings) != 0 {
      forall commands
        ensures FlagAgrees(Run(settings, s, commands))
      {
        FlagFollows(settings, s, commands);
      }
    } else if FlagAgrees(s) {
      ZeroWordMisleads(settings, s);
    }
  }

  /** With every field zero, switching conversion on sets the flag and leaves the register zero. */
  lemma ZeroWordMisleads(settings: Settings, s: State)
    requires ConversionWord(settings) == 0
    ensures !FlagAgrees(Run(settings, s, [Conversion("CONVERSION_ON")]))
  {
    hide ConversionWord, Step;
    var on := Conversion("CONVERSION_ON");
    assert [on][..0] == [];
    assert Run(settings, s, []) == s;
    assert Run(settings, s, [on]) == Step(settings, s, on);
    StepOn(settings, s);
    StoreThenRead(s, CONVERSION, 0, CONVERSION);
  }

  lemma StepOn(settings: Settings, s: State)
    ensures Step(settings, s, Conversion("CONVERSION_ON"))
         == Store(s, CONVERSION, ConversionWord(settings)).(active := 1)
  {
    assert |"CONVERSION_ON"| != |"CONVERSION_OFF"|;
  }

  // ----- what the registers hold after a run -----

  /** The last word an accepted command of the run meant for the register. */
  function LastPlanned(commands: seq<Command>, register: Byte): Option<Word> {
    if commands == [] then None
    else
      match Plan(commands[|commands| - 1])
      case Some(target) =>
        if target.register == register then Some(target.data)
        else LastPlanned(commands[..|commands| - 1], register)
      case None => LastPlanned(commands[..|commands| - 1], register)
  }

  lemma StepWrites(settings: Settings, s: State, c: Command, register: Byte)
    requires register != CONVERSION && register != COULOMB_MSB && register != COULOMB_LSB
    ensures ReadWord(Step(settings, s, c).registers, register)
         == if Plan(c).Some? && Plan(c).value.register == register then Plan(c).value.data
            else ReadWord(s.registers, register)
  {
    hide ConfigRowOf, ConfigData, IdentityRegister, NvmTarget, RealTimeTarget, ConversionWord;
    if c.Conversion? {
      StoreThenRead(s, CONVERSION, 0, register);
      StoreThenRead(s, CONVERSION, ConversionWord(settings), register);
    } else if Plan(c).Some? {
      StoreThenRead(s, CONVERSION, 0, register);
      StoreThenRead(Guard(s), Plan(c).value.register, Plan(c).value.data, register);
    }
  }

  /** Register history. After any run every register outside conversion and coulomb counting holds the last word
  an accepted command meant for it; the guard's own writes and rejected commands leave no trace. */
  lemma {:induction false} RegisterHistory(settings: Settings, s: State, commands: seq<Command>, register: Byte)
    requires register != CONVERSION && register != COULOMB_MSB && register != COULOMB_LSB
    ensures ReadWord(Run(settings, s, commands).registers, register)
         == match LastPlanned(commands, register)
            case Some(data) => data
            case None => ReadWord(s.registers, register)
    decreases |commands|
  {
    if commands != [] {
      hide Step, Plan;
      var before := commands[..|commands| - 1];
      RegisterHistory(settings, s, before, register);
      StepWrites(settings, Run(settings, s, before), commands[|commands| - 1], register);
    }
  }

  /** The command that owns a configuration or identity register. */
  function OwnerOf(register: Byte): string {
    if register == 0x04 then "CFG2_ENABLES"
    else if register == 0x13 then "TO_PRDV_BAL_MSK"
    else if register == 0x14 then "TO_FUSE_RST_MSK"
    else if register == 0x15 then "TO_FAULTN_MSK"
    else if register == 0x16 then "CURR_MSK"
    else if register == 0x2A then "DIAG_OV_OT_UT"
    else if register == 0x2B then "DIAG_UV"
    else if register == 0x2F then "DIAG_CURR"
    else if register == 0x17 then "MANUFACTURE_NAME_MSB"
    else if register == 0x18 then "MANUFACTURE_NAME_LSB"
    else if register == 0x19 then "MANUFACTURING_DATE"
    else if register == 0x1A then "FIRST_USAGE_DATE"
    else if register == 0x1B then "SERIAL_NUMBER_MSB"
    else if register == 0x1C then "SERIAL_NUMBER_LSB"
    else if register == 0x1D then "DEVICE_NAME_MSB"
    else if register == 0x1E then "DEVICE_NAME_LSB"
    else ""
  }

  lemma ConfigOwner(command: string)
    requires ConfigRowOf(command).Some?
    ensures var r := ConfigRowOf(command).value.register;
            command == OwnerOf(r) && r in {0x04, 0x13, 0x14, 0x15, 0x16, 0x2A, 0x2B, 0x2F}
  {
  }

  lemma IdentityOwner(command: string)
    requires IdentityRegister(command).Some?
    ensures var r := IdentityRegister(command).value;
            command == OwnerOf(r) && 0x17 <= r <= 0x1E
  {
  }

  lemma OtherOwner(command: string)
    ensures NvmTarget(command).Some? ==> NvmTarget(command).value.register == 0x20
    ensures RealTimeTarget(command).Some? ==> RealTimeTarget(command).value.register in {0x01, 0x21, 0x22, 0x23, 0x24}
  {
  }

  /** The register of an accepted command lies with its family, and names its command where it is unique. */
  predicate Owned(c: Command, register: Byte) {
    match c
    case Config(command, _) =>
      command == OwnerOf(register) && register in {0x04, 0x13, 0x14, 0x15, 0x16, 0x2A, 0x2B, 0x2F}
    case Identity(command, _) => command == OwnerOf(register) && 0x17 <= register <= 0x1E
    case Nvm(_) => register == 0x20
    case RealTime(_) => register in {0x01, 0x21, 0x22, 0x23, 0x24}
    case _ => false
  }

  lemma PlanOwned(c: Command)
    requires Plan(c).Some?
    ensures Owned(c, Plan(c).value.register)
  {
    hide ConfigRowOf, ConfigData, IdentityRegister, NvmTarget, RealTimeTarget, OwnerOf;
    match c
    case Config(command, _) => ConfigOwner(command);
    case Identity(command, _) => IdentityOwner(command);
    case Nvm(command) => OtherOwner(command);
    case RealTime(command) => OtherOwner(command);
  }

  /** No two families share a register, and within configuration and identity no two commands do. */
  lemma RegisterOwner(a: Command, b: Command)
    requires Plan(a).Some? && Plan(b).Some? && Plan(a).value.register == Plan(b).value.register
    ensures a.Config? == b.Config? && a.Identity? == b.Identity? && a.Nvm? == b.Nvm? && a.RealTime? == b.RealTime?
    ensures a.Config? || a.Identity? ==> a.command == b.command
  {
    hide Plan, OwnerOf;
    PlanOwned(a);
    PlanOwned(b);
  }

  /** The last nonzero data sent by the identity command of that name. */
  function LastSent(commands: seq<Command>, name: string): Option<Word> {
    if commands == [] then None
    else
      var c := commands[|commands| - 1];
      if c.Identity? && c.command == name && c.data != 0 then Some(c.data)
      else LastSent(commands[..|commands| - 1], name)
  }

  lemma {:induction false} SentIsPlanned(commands: seq<Command>, name: string)
    requires IdentityRegister(name).Some?
    ensures LastSent(commands, name) == LastPlanned(commands, IdentityRegister(name).value)
    decreases |commands|
  {
    hide ConfigRowOf, ConfigData, IdentityRegister, NvmTarget, RealTimeTarget;
    if commands != [] {
      var c := commands[|commands| - 1];
      SentIsPlanned(commands[..|commands| - 1], name);
      if Plan(c).Some? && Plan(c).value.register == IdentityRegister(name).value {
        RegisterOwner(c, Identity(name, 1));
      }
    }
  }

  /** Identity round trip. After any run, each identity register reads the last nonzero data its own command
  sent, through the byte split and join, whatever commands of any kind came between. */
  lemma IdentityRoundTrip(settings: Settings, s: State, commands: seq<Command>, name: string)
    requires IdentityRegister(name).Some?
    ensures ReadWord(Run(settings, s, commands).registers, IdentityRegister(name).value)
         == match LastSent(commands, name)
            case Some(data) => data
            case None => ReadWord(s.registers, IdentityRegister(name).value)
  {
    hide Run, LastSent, LastPlanned;
    IdentityOwner(name);
    hide IdentityRegister;
    SentIsPlanned(commands, name);
    RegisterHistory(settings, s, commands, IdentityRegister(name).value);
  }

  // ----- binary values in configuration commands -----

  /** n binary digits of d, most significant first. */
  function BinaryText(d: nat, n: nat): (s: string)
    ensures |s| == n && AllDigits(s, 2)
  {
    if n == 0 then [] else BinaryText(d / 2, n - 1) + [(48 + d % 2) as char]
  }

  lemma {:induction false} BinaryTextValue(d: nat, n: nat)
    requires d < Pow2(n)
    ensures NumberOf(BinaryText(d, n), 2) == d
  {
    if n == 0 {
      NumberOfNone(2);
    } else {
      var prefix, digit := BinaryText(d / 2, n - 1), (48 + d % 2) as char;
      assert d / 2 < Pow2(n - 1) && d == (d / 2) * 2 + d % 2;
      BinaryTextValue(d / 2, n - 1);
      NumberOfSnoc(prefix, digit, 2);
      assert BinaryText(d, n) == prefix + [digit];
    }
  }

  lemma StrtolOfDigits(digits: string, base: Base)
    requires AllDigits(digits, base)
    ensures Strtol(digits, base) == Saturate(NumberOf(digits, base))
  {
    hide NumberOf;
    assert digits + [] == digits;
    DigitsPrefix(digits, [], base);
    if digits == [] {
      assert NumberOf(digits, base) == 0 by { NumberOfNone(base); }
    } else {
      assert IsDigit(digits[0], base);
      assert SkipSpaces(digits) == digits;
    }
  }

  /** What a binary string of any length stores: its value, saturated to 32 bits, reduced to 16 and capped. */
  lemma BinaryConfigValue(row: ConfigRow, digits: string)
    requires AllDigits(digits, 2)
    ensures ConfigData(row, "0b" + digits) == Some(Cap(Saturate(NumberOf(digits, 2)), row.max))
  {
    hide NumberOf;
    var value := "0b" + digits;
    assert value[2..] == digits;
    assert value[0] == '0' && "default"[0] == 'd';
    StrtolOfDigits(digits, 2);
  }

  lemma {:induction false} ValueBound(digits: string, n: nat)
    requires AllDigits(digits, 2) && |digits| <= n
    ensures NumberOf(digits, 2) < Pow2(n)
    decreases n
  {
    if digits != [] {
      ValueBound(digits[..|digits| - 1], n - 1);
    }
  }

  /** Up to 31 digits nothing saturates: the value modulo 2^16, capped. */
  lemma ShortBinaryConfig(row: ConfigRow, digits: string)
    requires AllDigits(digits, 2) && |digits| <= 31
    ensures ConfigData(row, "0b" + digits) == Some(Cap(NumberOf(digits, 2), row.max))
  {
    hide NumberOf, ConfigData, Cap, Pow2;
    BinaryConfigValue(row, digits);
    ValueBound(digits, 31);
    Pow2Of31();
  }

  /** Binary config round trip: the sixteen digits printed for a value in range store that value again. */
  lemma BinaryRoundTrip(row: ConfigRow, data: Word)
    requires data <= row.max
    ensures ConfigData(row, "0b" + BinaryText(data, 16)) == Some(data)
  {
    hide NumberOf, BinaryText, ConfigData, Pow2;
    Pow2Values();
    BinaryTextValue(data, 16);
    ShortBinaryConfig(row, BinaryText(data, 16));
  }
}

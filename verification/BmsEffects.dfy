/** What each BMS command leaves in the device, name by name. */
module BmsEffects {
  import opened Options
  import opened Bits
  import opened CText
  import opened BmsRegisters
  import opened BmsCommands

  /** Every register reads as before, except that one holds the word, and that conversion is off if the flag was on. */
  ghost predicate Written(before: State, after: State, register: Byte, word: Word) {
    && after.active == (if before.active == 1 then 0 else before.active)
    && forall r: Byte ::
         ReadWord(after.registers, r)
         == if r == register then word else if r == 0x02 && before.active == 1 then 0 else ReadWord(before.registers, r)
  }

  /** From any state and with any settings the command leaves the word in the register. */
  ghost predicate Leaves(c: Command, register: Byte, word: Word) {
    forall settings: Settings, s: State :: Written(s, Step(settings, s, c), register, word)
  }

  /** The command changes nothing at all. */
  ghost predicate Ignored(c: Command) {
    forall settings: Settings, s: State :: Step(settings, s, c) == s
  }

  lemma PlanLeaves(c: Command, register: Byte, word: Word)
    requires Plan(c) == Some(Target(register, word)) && register != 0x02
    ensures Leaves(c, register, word)
  {
    hide Plan, ReadWord, Store;
    forall settings: Settings, s: State
      ensures Written(s, Step(settings, s, c), register, word)
    {
      PlannedStep(settings, s, c);
      GuardedStore(s, register, word);
    }
  }

  lemma GuardedStore(s: State, register: Byte, word: Word)
    requires register != 0x02
    ensures Written(s, Store(Guard(s), register, word), register, word)
  {
    hide ReadWord, Store;
    StoreActive(Guard(s), register, word);
    forall r: Byte
      ensures ReadWord(Store(Guard(s), register, word).registers, r)
           == if r == register then word else if r == 0x02 && s.active == 1 then 0 else ReadWord(s.registers, r)
    {
      StoreThenRead(s, 0x02, 0, r);
      StoreThenRead(Guard(s), register, word, r);
    }
  }

  lemma PlannedStep(settings: Settings, s: State, c: Command)
    requires Plan(c).Some?
    ensures Step(settings, s, c) == Store(Guard(s), Plan(c).value.register, Plan(c).value.data)
  {
    hide ConfigRowOf, ConfigData, IdentityRegister, NvmTarget, RealTimeTarget, Store, Guard;
  }

  lemma UnplannedStep(c: Command)
    requires Plan(c) == None && (c.Config? || c.Identity? || c.Nvm? || c.RealTime?)
    ensures Ignored(c)
  {
    hide Plan;
  }

  /** Balancing, ship mode, standby and the fuse: the word each name sends, and to which register. */
  lemma RealTimeEffects()
    ensures Leaves(RealTime("BAL_ENABLE"), 0x01, 0x001F) && Leaves(RealTime("BAL_DISABLE"), 0x01, 0x0000)
    ensures Leaves(RealTime("GO2SHIP"), 0x21, 0x2000) && Leaves(RealTime("GO2STBY"), 0x22, 0x2000)
    ensures Leaves(RealTime("FUSE_TRIG_DISARM"), 0x23, 0x1000) && Leaves(RealTime("FUSE_TRIG_ARM"), 0x23, 0x2000)
    ensures Leaves(RealTime("FUSE_TRIG_FIRE_INTERRUPT"), 0x24, 0x1000)
    ensures Leaves(RealTime("FUSE_TRIG_FIRE"), 0x24, 0x2000)
    ensures Leaves(Nvm("NVM_2_DL"), 0x20, 0xAAAA) && Leaves(Nvm("NVM_2_UL"), 0x20, 0x5555)
  {
    hide Leaves;
    PlanLeaves(RealTime("BAL_ENABLE"), 0x01, 0x001F);
    PlanLeaves(RealTime("BAL_DISABLE"), 0x01, 0x0000);
    PlanLeaves(RealTime("GO2SHIP"), 0x21, 0x2000);
    PlanLeaves(RealTime("GO2STBY"), 0x22, 0x2000);
    PlanLeaves(RealTime("FUSE_TRIG_DISARM"), 0x23, 0x1000);
    PlanLeaves(RealTime("FUSE_TRIG_ARM"), 0x23, 0x2000);
    PlanLeaves(RealTime("FUSE_TRIG_FIRE_INTERRUPT"), 0x24, 0x1000);
    PlanLeaves(RealTime("FUSE_TRIG_FIRE"), 0x24, 0x2000);
    PlanLeaves(Nvm("NVM_2_DL"), 0x20, 0xAAAA);
    PlanLeaves(Nvm("NVM_2_UL"), 0x20, 0x5555);
  }

  /** Identity data goes to the register of its name. */
  lemma IdentityEffects(data: Word)
    requires data != 0
    ensures Leaves(Identity("MANUFACTURE_NAME_MSB", data), 0x17, data)
    ensures Leaves(Identity("MANUFACTURE_NAME_LSB", data), 0x18, data)
    ensures Leaves(Identity("MANUFACTURING_DATE", data), 0x19, data)
    ensures Leaves(Identity("FIRST_USAGE_DATE", data), 0x1A, data)
    ensures Leaves(Identity("SERIAL_NUMBER_MSB", data), 0x1B, data)
    ensures Leaves(Identity("SERIAL_NUMBER_LSB", data), 0x1C, data)
    ensures Leaves(Identity("DEVICE_NAME_MSB", data), 0x1D, data)
    ensures Leaves(Identity("DEVICE_NAME_LSB", data), 0x1E, data)
  {
    hide Leaves;
    PlanLeaves(Identity("MANUFACTURE_NAME_MSB", data), 0x17, data);
    PlanLeaves(Identity("MANUFACTURE_NAME_LSB", data), 0x18, data);
    PlanLeaves(Identity("MANUFACTURING_DATE", data), 0x19, data);
    PlanLeaves(Identity("FIRST_USAGE_DATE", data), 0x1A, data);
    PlanLeaves(Identity("SERIAL_NUMBER_MSB", data), 0x1B, data);
    PlanLeaves(Identity("SERIAL_NUMBER_LSB", data), 0x1C, data);
    PlanLeaves(Identity("DEVICE_NAME_MSB", data), 0x1D, data);
    PlanLeaves(Identity("DEVICE_NAME_LSB", data), 0x1E, data);
  }

  /** A configuration command: its default, and for a binary string of any length the value modulo 2^16, or the
  register's maximum if that is exceeded or the value does not fit 32 bits. */
  ghost predicate Configures(name: string, register: Byte, dflt: Word, max: Word) {
    && Leaves(Config(name, "default"), register, dflt)
    && forall digits: string | AllDigits(digits, 2) ::
         var n := NumberOf(digits, 2);
         Leaves(Config(name, "0b" + digits), register,
                if n > 0x7FFF_FFFF || n % 0x1_0000 > max then max else n % 0x1_0000)
  }

  lemma ConfigTable(name: string, register: Byte, dflt: Word, max: Word)
    requires ConfigRowOf(name) == Some(ConfigRow(register, dflt, max)) && register != 0x02
    ensures Configures(name, register, dflt, max)
  {
    hide ConfigRowOf, Leaves, NumberOf;
    PlanLeaves(Config(name, "default"), register, dflt);
    forall digits: string | AllDigits(digits, 2)
      ensures var n := NumberOf(digits, 2);
              Leaves(Config(name, "0b" + digits), register,
                     if n > 0x7FFF_FFFF || n % 0x1_0000 > max then max else n % 0x1_0000)
    {
      BinaryPlan(name, ConfigRow(register, dflt, max), digits);
      PlanLeaves(Config(name, "0b" + digits), register, Cap(Saturate(NumberOf(digits, 2)), max));
    }
  }

  lemma BinaryPlan(name: string, row: ConfigRow, digits: string)
    requires ConfigRowOf(name) == Some(row) && AllDigits(digits, 2)
    ensures Plan(Config(name, "0b" + digits)) == Some(Target(row.register, Cap(Saturate(NumberOf(digits, 2)), row.max)))
  {
    hide ConfigRowOf, ConfigData, NumberOf, Cap, Saturate;
    BinaryConfigValue(row, digits);
  }

  /** Register, default and maximum of the eight configuration commands. */
  lemma ConfigEffects()
    ensures Configures("CFG2_ENABLES", 0x04, 0x19FF, 0x3FFF)
    ensures Configures("TO_PRDV_BAL_MSK", 0x13, 0x7FFF, 0x7FFF)
    ensures Configures("TO_FUSE_RST_MSK", 0x14, 0x007F, 0x007F)
    ensures Configures("TO_FAULTN_MSK", 0x15, 0x0FFF, 0x0FFF)
    ensures Configures("CURR_MSK", 0x16, 0x0FFF, 0x0FFF)
    ensures Configures("DIAG_OV_OT_UT", 0x2A, 0x0000, 0xFFFF)
    ensures Configures("DIAG_UV", 0x2B, 0x0000, 0xFFFF)
    ensures Configures("DIAG_CURR", 0x2F, 0x0000, 0xFFFF)
  {
    hide Configures;
    ConfigTable("CFG2_ENABLES", 0x04, 0x19FF, 0x3FFF);
    ConfigTable("TO_PRDV_BAL_MSK", 0x13, 0x7FFF, 0x7FFF);
    ConfigTable("TO_FUSE_RST_MSK", 0x14, 0x007F, 0x007F);
    ConfigTable("TO_FAULTN_MSK", 0x15, 0x0FFF, 0x0FFF);
    ConfigTable("CURR_MSK", 0x16, 0x0FFF, 0x0FFF);
    ConfigTable("DIAG_OV_OT_UT", 0x2A, 0x0000, 0xFFFF);
    ConfigTable("DIAG_UV", 0x2B, 0x0000, 0xFFFF);
    ConfigTable("DIAG_CURR", 0x2F, 0x0000, 0xFFFF);
  }

  /** Everything else is ignored: unknown names, zero identity data, and configuration values that are neither
  "default" nor start with "0b". */
  lemma ConfigIgnored(name: string, value: string)
    requires name !in {"CFG2_ENABLES", "TO_PRDV_BAL_MSK", "TO_FUSE_RST_MSK", "TO_FAULTN_MSK", "CURR_MSK",
                       "DIAG_OV_OT_UT", "DIAG_UV", "DIAG_CURR"}
          || (value != "default" && !("0b" <= value))
    ensures Ignored(Config(name, value))
  {
    hide Ignored, Strtol, Cap;
    UnplannedStep(Config(name, value));
  }

  lemma IdentityIgnored(name: string, data: Word)
    requires name !in {"MANUFACTURE_NAME_MSB", "MANUFACTURE_NAME_LSB", "MANUFACTURING_DATE", "FIRST_USAGE_DATE",
                       "SERIAL_NUMBER_MSB", "SERIAL_NUMBER_LSB", "DEVICE_NAME_MSB", "DEVICE_NAME_LSB"}
          || data == 0
    ensures Ignored(Identity(name, data))
  {
    hide Ignored;
    UnplannedStep(Identity(name, data));
  }

  lemma RealTimeIgnored(name: string)
    requires name !in {"BAL_ENABLE", "BAL_DISABLE", "GO2SHIP", "GO2STBY", "FUSE_TRIG_DISARM", "FUSE_TRIG_ARM",
                       "FUSE_TRIG_FIRE_INTERRUPT", "FUSE_TRIG_FIRE"}
    ensures Ignored(RealTime(name))
  {
    hide Ignored;
    UnplannedStep(RealTime(name));
  }

  lemma NvmIgnored(name: string)
    requires name != "NVM_2_DL" && name != "NVM_2_UL"
    ensures Ignored(Nvm(name))
  {
    hide Ignored;
    UnplannedStep(Nvm(name));
  }
}

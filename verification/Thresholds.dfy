/** The numerical commands: threshold arguments to register words, and how the codes relate to the decoded
measurements. Arithmetic is over the reals; text to number conversion is a parameter (`atof`). */
module Thresholds {
  import opened Options
  import opened Bits
  import opened CText
  import opened BmsCommands
  import opened Quantiser

  const VCELL_STEP: real := 16.0 * 0.00122
  const VB_STEP: real := 16.0 * 0.0061
  const VNTC_STEP: real := 0.000806
  const SC_BASE: real := 0.04914
  const SC_STEP: real := 0.01404

  function Imax(senseResistor: real): real
    requires senseResistor > 0.0
  {
    0.3 / senseResistor
  }

  // ----- arguments -----

  datatype Arg = Null | Text(text: string)

  function Lower(s: string): string {
    seq(|s|, i requires 0 <= i < |s| => if 'A' <= s[i] <= 'Z' then (s[i] as int + 32) as char else s[i])
  }

  predicate Is(arg: Arg, word: string) {
    arg.Text? && Lower(arg.text) == word
  }

  /** INT_MIN stands for "default". */
  function ParseIntArg(arg: Arg, minVal: int, maxVal: int): int {
    if arg.Null? then minVal
    else if Is(arg, "max") then maxVal
    else if Is(arg, "min") then minVal
    else if Is(arg, "default") then INT_MIN
    else
      var val := Strtol(arg.text, 10);
      if val < minVal then minVal else if val > maxVal then maxVal else val
  }

  /** None stands for "default". */
  function ParseFloatArg(arg: Arg, minVal: real, maxVal: real, atof: string -> real): Option<real> {
    if arg.Null? then Some(minVal)
    else if Is(arg, "max") then Some(maxVal)
    else if Is(arg, "min") then Some(minVal)
    else if Is(arg, "default") then None
    else Some(Clamp(atof(arg.text), minVal, maxVal))
  }

  /** The sentinel is never mistaken for a value: everything but "default" lands in the range. */
  lemma IntSentinel(arg: Arg, minVal: int, maxVal: int)
    requires INT_MIN < minVal <= maxVal
    ensures ParseIntArg(arg, minVal, maxVal) == INT_MIN <==> Is(arg, "default")
    ensures !Is(arg, "default") ==> minVal <= ParseIntArg(arg, minVal, maxVal) <= maxVal
  {
    hide Strtol, Lower;
    assert |"max"| != |"default"| && |"min"| != |"default"|;
  }

  /** The count a command uses. */
  function CountOf(arg: Arg, minVal: int, maxVal: int, dflt: int): int {
    var val := ParseIntArg(arg, minVal, maxVal);
    if val == INT_MIN then dflt else val
  }

  /** The voltage or current a command uses. */
  function ValueOf(arg: Arg, minVal: real, maxVal: real, dflt: real, atof: string -> real): real {
    match ParseFloatArg(arg, minVal, maxVal, atof)
    case None => dflt
    case Some(v) => v
  }

  lemma CountInRange(arg: Arg, minVal: int, maxVal: int, dflt: int)
    requires INT_MIN < minVal <= dflt <= maxVal
    ensures minVal <= CountOf(arg, minVal, maxVal, dflt) <= maxVal
  {
    IntSentinel(arg, minVal, maxVal);
  }

  lemma ValueInRange(arg: Arg, minVal: real, maxVal: real, dflt: real, atof: string -> real)
    requires minVal <= dflt <= maxVal
    ensures minVal <= ValueOf(arg, minVal, maxVal, dflt, atof) <= maxVal
  {
  }

  // ----- what a register word must hold -----

  datatype Layout =
    | Gain
    | Counted(lo: real, hi: real, dflt: real, step: real, codes: nat)  // count above, code below
    | Pair(hi: real, dflt: real, step: real)  // second argument above, first below, eight bits each
    | Single(hi: real, dflt: real, step: real, codes: nat)
    | ShortCircuit  // persistent threshold above, threshold below, four bits each

  datatype Row = Row(register: Byte, layout: Layout)

  function RowOf(command: string, senseResistor: real): Option<Row>
    requires senseResistor > 0.0
  {
    var imax := Imax(senseResistor);
    if command == "CSA_GAIN_FACTOR" then Some(Row(0x05, Gain))
    else if command == "VCELL_OV_TH" then Some(Row(0x06, Counted(0.0, 5.0, 4.3, VCELL_STEP, 0x100)))
    else if command == "VCELL_UV_TH" then Some(Row(0x07, Counted(0.0, 5.0, 2.2, VCELL_STEP, 0x100)))
    else if command == "VCELL_SEVERE_DELTA_THRS" then Some(Row(0x08, Pair(5.0, 0.2, VCELL_STEP)))
    else if command == "VCELL_BAL_UV_DELTA_TH" then Some(Row(0x09, Counted(0.0, 5.0, 0.2, VCELL_STEP, 0x100)))
    else if command == "VB_OV_TH" then Some(Row(0x0A, Counted(0.0, 25.0, 23.0, VB_STEP, 0x100)))
    else if command == "VB_UV_TH" then Some(Row(0x0B, Counted(0.0, 25.0, 10.93, VB_STEP, 0x100)))
    else if command == "VB_SUM_MAX_DIFF_TH" then Some(Row(0x0C, Single(25.0, 2.0, VB_STEP, 0x100)))
    else if command == "VNTC_OT_TH" then Some(Row(0x0D, Counted(0.2, 3.3, 2.5, VNTC_STEP, 0x1000)))
    else if command == "VNTC_UT_TH" then Some(Row(0x0E, Counted(0.0, 3.3, 0.5, VNTC_STEP, 0x1000)))
    else if command == "VNTC_SEVERE_OT_DELTA_TH" then Some(Row(0x0F, Single(3.3, 0.5, VNTC_STEP, 0x1000)))
    else if command == "OVC_THRESHOLDS" then Some(Row(0x10, Pair(imax, imax, imax / 255.0)))
    else if command == "PERSISTENT_OVC_THRESHOLDS" then Some(Row(0x11, Single(imax, imax, imax / 255.0, 0x100)))
    else if command == "SC_THRESHOLD" then Some(Row(0x12, ShortCircuit))
    else None
  }

  /** The voltage above SC_BASE that a short-circuit current asks for, within the sixteen codes' span. */
  function ScExcess(current: real, senseResistor: real): real {
    Clamp(current * senseResistor, SC_BASE, SC_BASE + 15.0 * SC_STEP) - SC_BASE
  }

  function ScCurrent(arg: Arg, atof: string -> real): real {
    ValueOf(arg, 0.0, 1000.0, 100.0, atof)
  }

  /** data holds, field by field, the nearest codes to the values asked for, and nothing else. */
  predicate Encodes(layout: Layout, arg1: Arg, arg2: Arg, senseResistor: real, atof: string -> real, data: Word) {
    match layout
    case Gain => data == CountOf(arg1, 0, 0xFFFF, 0x8000)
    case Counted(lo, hi, dflt, step, codes) =>
      && codes > 0
      && Nearest(data % codes, ValueOf(arg1, lo, hi, dflt, atof), step, codes - 1)
      && data / codes == CountOf(arg2, 1, 15, 15)
    case Pair(hi, dflt, step) =>
      && Nearest(data % 0x100, ValueOf(arg1, 0.0, hi, dflt, atof), step, 0xFF)
      && Nearest(data / 0x100, ValueOf(arg2, 0.0, hi, dflt, atof), step, 0xFF)
    case Single(hi, dflt, step, codes) =>
      codes > 0 && Nearest(data, ValueOf(arg1, 0.0, hi, dflt, atof), step, codes - 1)
    case ShortCircuit =>
      && Nearest(data % 0x10, ScExcess(ScCurrent(arg1, atof), senseResistor), SC_STEP, 0xF)
      && Nearest(data / 0x10, ScExcess(ScCurrent(arg2, atof), senseResistor), SC_STEP, 0xF)
  }

  // ----- the command -----

  /** `((high & highMask) << k) | (low & (2^k - 1))`, with both fields in range. */
  method Pack(high: nat, highMask: nat, highBits: nat, low: nat, lowMask: nat, lowBits: nat) returns (data: nat)
    requires highMask + 1 == Pow2(highBits) && high <= highMask
    requires lowMask + 1 == Pow2(lowBits) && low <= lowMask
    ensures data == high * (lowMask + 1) + low
    ensures data / (lowMask + 1) == high && data % (lowMask + 1) == low
  {
    hide And, Or, Shl, Pow2;
    MaskKeeps(high, highMask, highBits);
    MaskKeeps(low, lowMask, lowBits);
    JoinIsSum(high, low, lowBits);
    data := Or(Shl(And(high, highMask), lowBits), And(low, lowMask));
  }

  method CountedWord(arg1: Arg, arg2: Arg, layout: Layout, atof: string -> real) returns (data: nat)
    requires layout.Counted? && layout.step > 0.0 && (layout.codes == 0x100 || layout.codes == 0x1000)
    ensures data < 0x1_0000
    ensures forall r :: Encodes(layout, arg1, arg2, r, atof, data)
  {
    hide Pow2, ParseIntArg, ParseFloatArg, Nearest;
    var parsed := ParseFloatArg(arg1, layout.lo, layout.hi, atof);
    var voltage := layout.dflt;
    if parsed.Some? {
      voltage := parsed.value;
    }
    var code := Quantise(voltage, layout.step, layout.codes - 1);
    var count := ParseIntArg(arg2, 1, 15);
    if count == INT_MIN {
      count := 15;
    }
    CountInRange(arg2, 1, 15, 15);
    Pow2Values();
    if layout.codes == 0x100 {
      data := Pack(count, 0xF, 4, code, 0xFF, 8);
    } else {
      data := Pack(count, 0xF, 4, code, 0xFFF, 12);
    }
  }

  method CodeOf(arg: Arg, hi: real, dflt: real, step: real, codes: nat, atof: string -> real) returns (code: nat)
    requires step > 0.0 && codes > 0
    ensures code < codes && Nearest(code, ValueOf(arg, 0.0, hi, dflt, atof), step, codes - 1)
  {
    hide ParseFloatArg;
    var parsed := ParseFloatArg(arg, 0.0, hi, atof);
    var v := dflt;
    if parsed.Some? {
      v := parsed.value;
    }
    code := Quantise(v, step, codes - 1);
  }

  /** `currentToCode`: clamps the current to the span of the codes before converting it. */
  method CurrentToCode(current: real, senseResistor: real) returns (code: nat)
    requires senseResistor > 0.0
    ensures code <= 15 && Nearest(code, ScExcess(current, senseResistor), SC_STEP, 15)
  {
    assert SC_BASE / senseResistor <= (SC_BASE + SC_STEP * 15.0) / senseResistor by {
      Scale(SC_BASE, SC_BASE + SC_STEP * 15.0, 1.0 / senseResistor);
    }
    var minCurrent := SC_BASE / senseResistor;
    var maxCurrent := (SC_BASE + SC_STEP * 15.0) / senseResistor;
    var clamped := current;
    if clamped < minCurrent {
      clamped := minCurrent;
    }
    if clamped > maxCurrent {
      clamped := maxCurrent;
    }
    var voltage := clamped * senseResistor;
    ClampScales(current, minCurrent, maxCurrent, senseResistor);
    DivideMultiply(SC_BASE, senseResistor);
    DivideMultiply(SC_BASE + SC_STEP * 15.0, senseResistor);
    code := Quantise(voltage - SC_BASE, SC_STEP, 15);
  }

  method GainWord(arg: Arg) returns (data: nat)
    ensures data < 0x1_0000
    ensures forall arg2, r, atof :: Encodes(Gain, arg, arg2, r, atof, data)
  {
    var val := ParseIntArg(arg, 0x0000, 0xFFFF);
    if val == INT_MIN {
      val := 0x8000;
    }
    CountInRange(arg, 0, 0xFFFF, 0x8000);
    data := val;
  }

  method PairWord(arg1: Arg, arg2: Arg, hi: real, dflt: real, step: real, atof: string -> real) returns (data: nat)
    requires step > 0.0
    ensures data < 0x1_0000
    ensures forall r :: Encodes(Pair(hi, dflt, step), arg1, arg2, r, atof, data)
  {
    hide ParseFloatArg, Nearest, Pow2, ValueOf;
    var low := CodeOf(arg1, hi, dflt, step, 0x100, atof);
    var high := CodeOf(arg2, hi, dflt, step, 0x100, atof);
    Pow2Values();
    data := Pack(high, 0xFF, 8, low, 0xFF, 8);
  }

  method SingleWord(arg: Arg, hi: real, dflt: real, step: real, codes: nat, atof: string -> real) returns (data: nat)
    requires step > 0.0 && 0 < codes <= 0x1000
    ensures data < 0x1_0000
    ensures forall arg2, r :: Encodes(Single(hi, dflt, step, codes), arg, arg2, r, atof, data)
  {
    hide Nearest, ValueOf;
    data := CodeOf(arg, hi, dflt, step, codes, atof);
  }

  method ShortCircuitWord(arg1: Arg, arg2: Arg, senseResistor: real, atof: string -> real) returns (data: nat)
    requires senseResistor > 0.0
    ensures data < 0x1_0000 && Encodes(ShortCircuit, arg1, arg2, senseResistor, atof, data)
  {
    hide ParseFloatArg, Nearest, Pow2, ValueOf, ScExcess;
    var code := CurrentToCode(ScCurrent(arg1, atof), senseResistor);
    var persistCode := CurrentToCode(ScCurrent(arg2, atof), senseResistor);
    Pow2Values();
    data := Pack(persistCode, 0xF, 4, code, 0xF, 4);
  }

  /** The register and word each command computes. Nothing is written: the bus write of `sendBMSNumericalCommand`
  follows a `return` and cannot be reached. */
  method SendBMSNumericalCommand(command: string, arg1: Arg, arg2: Arg, senseResistor: real, atof: string -> real)
    returns (result: Option<Target>)
    requires senseResistor > 0.0
    ensures result.Some? <==> RowOf(command, senseResistor).Some?
    ensures result.Some? ==>
      && result.value.register == RowOf(command, senseResistor).value.register
      && Encodes(RowOf(command, senseResistor).value.layout, arg1, arg2, senseResistor, atof, result.value.data)
  {
    hide Encodes, Pow2, Imax;
    var imax := Imax(senseResistor);
    StepPositive(senseResistor);
    var registerAddress: Byte;
    var data: nat;
    if command == "CSA_GAIN_FACTOR" {
      registerAddress := 0x05;
      data := GainWord(arg1);
    } else if command == "VCELL_OV_TH" {
      registerAddress := 0x06;
      data := CountedWord(arg1, arg2, Counted(0.0, 5.0, 4.3, VCELL_STEP, 0x100), atof);
    } else if command == "VCELL_UV_TH" {
      registerAddress := 0x07;
      data := CountedWord(arg1, arg2, Counted(0.0, 5.0, 2.2, VCELL_STEP, 0x100), atof);
    } else if command == "VCELL_SEVERE_DELTA_THRS" {
      registerAddress := 0x08;
      data := PairWord(arg1, arg2, 5.0, 0.2, VCELL_STEP, atof);
    } else if command == "VCELL_BAL_UV_DELTA_TH" {
      registerAddress := 0x09;
      data := CountedWord(arg1, arg2, Counted(0.0, 5.0, 0.2, VCELL_STEP, 0x100), atof);
    } else if command == "VB_OV_TH" {
      registerAddress := 0x0A;
      data := CountedWord(arg1, arg2, Counted(0.0, 25.0, 23.0, VB_STEP, 0x100), atof);
    } else if command == "VB_UV_TH" {
      registerAddress := 0x0B;
      data := CountedWord(arg1, arg2, Counted(0.0, 25.0, 10.93, VB_STEP, 0x100), atof);
    } else if command == "VB_SUM_MAX_DIFF_TH" {
      registerAddress := 0x0C;
      data := SingleWord(arg1, 25.0, 2.0, VB_STEP, 0x100, atof);
    } else if command == "VNTC_OT_TH" {
      registerAddress := 0x0D;
      data := CountedWord(arg1, arg2, Counted(0.2, 3.3, 2.5, VNTC_STEP, 0x1000), atof);
    } else if command == "VNTC_UT_TH" {
      registerAddress := 0x0E;
      data := CountedWord(arg1, arg2, Counted(0.0, 3.3, 0.5, VNTC_STEP, 0x1000), atof);
    } else if command == "VNTC_SEVERE_OT_DELTA_TH" {
      registerAddress := 0x0F;
      data := SingleWord(arg1, 3.3, 0.5, VNTC_STEP, 0x1000, atof);
    } else if command == "OVC_THRESHOLDS" {
      registerAddress := 0x10;
      data := PairWord(arg1, arg2, imax, imax, imax / 255.0, atof);
    } else if command == "PERSISTENT_OVC_THRESHOLDS" {
      registerAddress := 0x11;
      data := SingleWord(arg1, imax, imax, imax / 255.0, 0x100, atof);
    } else if command == "SC_THRESHOLD" {
      registerAddress := 0x12;
      data := ShortCircuitWord(arg1, arg2, senseResistor, atof);
    } else {
      return None;
    }
    result := Some(Target(registerAddress, data));
  }

  lemma StepPositive(senseResistor: real)
    requires senseResistor > 0.0
    ensures Imax(senseResistor) / 255.0 > 0.0
  {
    Scale(0.0, 0.3, 1.0 / senseResistor);
  }
}

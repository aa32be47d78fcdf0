/** What the threshold codes mean: which are attainable, how far they are from the value asked for, and how they
compare with the decoded measurements. */
module ThresholdLaws {
  import opened Options
  import opened Bits
  import opened BmsRegisters
  import opened Quantiser
  import opened Thresholds

  /** The quantised field of a command: its argument range, step and number of codes. */
  datatype Field = Field(lo: real, hi: real, step: real, codes: nat)

  function FieldOf(layout: Layout): Option<Field> {
    match layout
    case Counted(lo, hi, _, step, codes) => Some(Field(lo, hi, step, codes))
    case Pair(hi, _, step) => Some(Field(0.0, hi, step, 0x100))
    case Single(hi, _, step, codes) => Some(Field(0.0, hi, step, codes))
    case _ => None
  }

  /** Code c stands for c steps; encoding that value, clamped like any argument, gives c back. */
  predicate RoundTrips(f: Field, c: int) {
    f.codes > 0 && Nearest(c, Clamp(c as real * f.step, f.lo, f.hi), f.step, f.codes - 1)
  }

  /** Some argument in range, v, is encoded as c. */
  predicate Yields(f: Field, v: real, c: int) {
    f.codes > 0 && f.lo <= v <= f.hi && Nearest(c, v, f.step, f.codes - 1)
  }

  /** Every code from first to last comes back, and no argument in range yields any other. */
  ghost predicate AttainsExactly(f: Field, first: int, last: int) {
    && f.codes > 0
    && (forall c :: RoundTrips(f, c) <==> first <= c <= last)
    && (forall c, v :: Yields(f, v, c) ==> first <= c <= last)
  }

  lemma CellCodes()
    ensures AttainsExactly(Field(0.0, 5.0, VCELL_STEP, 0x100), 0, 255)
  {
  }

  lemma PackCodes()
    ensures AttainsExactly(Field(0.0, 25.0, VB_STEP, 0x100), 0, 255)
  {
  }

  lemma NtcCodes()
    ensures AttainsExactly(Field(0.0, 3.3, VNTC_STEP, 0x1000), 0, 4094)
  {
  }

  lemma NtcOvertemperatureCodes()
    ensures AttainsExactly(Field(0.2, 3.3, VNTC_STEP, 0x1000), 248, 4094)
  {
  }

  lemma CurrentCodes(imax: real)
    requires imax > 0.0
    ensures AttainsExactly(Field(0.0, imax, imax / 255.0, 0x100), 0, 255)
  {
    var f := Field(0.0, imax, imax / 255.0, 0x100);
    forall c: int
      ensures RoundTrips(f, c) <==> 0 <= c <= 255
    {
      if 0 <= c <= 255 {
        NearestOfMultiple(c, f.step, 255);
        Scale(0.0, c as real, f.step);
        Scale(c as real, 255.0, f.step);
      }
    }
  }

  /** The first and last code of each command's field. */
  function CodeRange(command: string): (int, int) {
    if command == "VNTC_OT_TH" then (248, 4094)
    else if command == "VNTC_UT_TH" || command == "VNTC_SEVERE_OT_DELTA_TH" then (0, 4094)
    else (0, 255)
  }

  /** Exact attainable codes, for every command with a quantised field: 0..255, except that the thermistor
  registers stop at 4094 and overtemperature starts at 248. */
  lemma AttainableCodes(command: string, senseResistor: real)
    requires senseResistor > 0.0
    requires RowOf(command, senseResistor).Some? && FieldOf(RowOf(command, senseResistor).value.layout).Some?
    ensures AttainsExactly(FieldOf(RowOf(command, senseResistor).value.layout).value,
                           CodeRange(command).0, CodeRange(command).1)
  {
    hide AttainsExactly;
    CellCodes();
    PackCodes();
    NtcCodes();
    NtcOvertemperatureCodes();
    hide Imax;
    ImaxPositive(senseResistor);
    CurrentCodes(Imax(senseResistor));
  }

  /** Saturation of a field: some argument in range lies more than half a step above the last code. */
  predicate CanSaturate(f: Field) {
    f.hi > (f.codes as real - 0.5) * f.step
  }

  /** Within half a step, as long as the value does not lie beyond the last code. */
  predicate AccurateUnlessSaturated(f: Field, v: real, c: int) {
    v <= (f.codes as real - 0.5) * f.step ==> Within(c as real * f.step, v, 0.5 * f.step)
  }

  predicate CellCommand(command: string) {
    || command == "VCELL_OV_TH" || command == "VCELL_UV_TH"
    || command == "VCELL_SEVERE_DELTA_THRS" || command == "VCELL_BAL_UV_DELTA_TH"
  }

  predicate PackCommand(command: string) {
    command == "VB_OV_TH" || command == "VB_UV_TH" || command == "VB_SUM_MAX_DIFF_TH"
  }

  /** Accuracy. A code that is not saturated is within half a step of the value; the seven cell and pack commands
  can saturate, above 255.5 steps, and no other can. */
  lemma FieldAccuracy(command: string, senseResistor: real, c: int, v: real)
    requires senseResistor > 0.0
    requires RowOf(command, senseResistor).Some? && FieldOf(RowOf(command, senseResistor).value.layout).Some?
    requires Yields(FieldOf(RowOf(command, senseResistor).value.layout).value, v, c)
    ensures var f := FieldOf(RowOf(command, senseResistor).value.layout).value;
            && AccurateUnlessSaturated(f, v, c)
            && (CanSaturate(f) <==> CellCommand(command) || PackCommand(command))
  {
    hide RowOf, FieldOf, CanSaturate, CellCommand, PackCommand;
    var f := FieldOf(RowOf(command, senseResistor).value.layout).value;
    FieldShape(command, senseResistor);
    FieldSaturation(command, senseResistor);
    if v <= (f.codes as real - 0.5) * f.step {
      Scale(-0.5, 0.0, f.step);
      NearestHalfStep(c, v, f.step, f.codes - 1);
    }
  }

  /** The fields of every command have a positive step and a default in range. */
  lemma FieldShape(command: string, senseResistor: real)
    requires senseResistor > 0.0
    requires RowOf(command, senseResistor).Some? && FieldOf(RowOf(command, senseResistor).value.layout).Some?
    ensures var layout := RowOf(command, senseResistor).value.layout;
            var f := FieldOf(layout).value;
            f.step > 0.0 && f.codes > 0 && 0.0 <= f.lo <= layout.dflt <= f.hi
  {
    hide Imax;
    ImaxPositive(senseResistor);
    CurrentFits(Imax(senseResistor));
  }

  lemma FieldTable(command: string, senseResistor: real)
    requires senseResistor > 0.0
    requires RowOf(command, senseResistor).Some? && FieldOf(RowOf(command, senseResistor).value.layout).Some?
    ensures var f := FieldOf(RowOf(command, senseResistor).value.layout).value;
            var imax := Imax(senseResistor);
            && (CellCommand(command) ==> f == Field(0.0, 5.0, VCELL_STEP, 0x100))
            && (PackCommand(command) ==> f == Field(0.0, 25.0, VB_STEP, 0x100))
            && (CellCommand(command) || PackCommand(command)
                || f == Field(0.0, 3.3, VNTC_STEP, 0x1000) || f == Field(0.2, 3.3, VNTC_STEP, 0x1000)
                || f == Field(0.0, imax, imax / 255.0, 0x100))
  {
    hide Imax;
  }

  /** Saturation is for the cell and pack commands alone, whose fields are these. */
  lemma FieldSaturation(command: string, senseResistor: real)
    requires senseResistor > 0.0
    requires RowOf(command, senseResistor).Some? && FieldOf(RowOf(command, senseResistor).value.layout).Some?
    ensures var f := FieldOf(RowOf(command, senseResistor).value.layout).value;
            && (CanSaturate(f) <==> CellCommand(command) || PackCommand(command))
            && (CellCommand(command) ==> f == Field(0.0, 5.0, VCELL_STEP, 0x100))
            && (PackCommand(command) ==> f == Field(0.0, 25.0, VB_STEP, 0x100))
  {
    hide CanSaturate, Imax, RowOf, FieldOf, CellCommand, PackCommand;
    FieldTable(command, senseResistor);
    ImaxPositive(senseResistor);
    VoltagesFit();
    CurrentFits(Imax(senseResistor));
  }

  lemma ImaxPositive(senseResistor: real)
    requires senseResistor > 0.0
    ensures Imax(senseResistor) > 0.0
  {
    Scale(0.0, 0.3, 1.0 / senseResistor);
  }

  lemma VoltagesFit()
    ensures CanSaturate(Field(0.0, 5.0, VCELL_STEP, 0x100)) && CanSaturate(Field(0.0, 25.0, VB_STEP, 0x100))
    ensures !CanSaturate(Field(0.0, 3.3, VNTC_STEP, 0x1000)) && !CanSaturate(Field(0.2, 3.3, VNTC_STEP, 0x1000))
  {
  }

  lemma CurrentFits(imax: real)
    requires imax > 0.0
    ensures imax / 255.0 > 0.0 && !CanSaturate(Field(0.0, imax, imax / 255.0, 0x100))
  {
    Scale(255.0, 255.5, imax / 255.0);
  }

  // ----- against the measurements -----

  /** Threshold against measurement. A code is sixteen measurement steps; despite the different resolutions and
  the saturation, decoding it is never further from the voltage asked for than at full scale. */
  lemma CellThresholdMeasured(v: real, code: nat)
    requires 0.0 <= v <= 5.0 && Nearest(code, v, VCELL_STEP, 255)
    ensures Within(DecodeCell(16 * code), v, 75.0 / 4095.0)
  {
  }

  lemma PackThresholdMeasured(v: real, code: nat)
    requires 0.0 <= v <= 25.0 && Nearest(code, v, VB_STEP, 255)
    ensures Within(DecodePack(16 * code), v, 375.0 / 4095.0)
  {
  }

  /** Both bounds are attained at full scale. */
  lemma MeasuredBoundsTight(cell: nat, pack: nat)
    requires Nearest(cell, 5.0, VCELL_STEP, 255) && Nearest(pack, 25.0, VB_STEP, 255)
    ensures 5.0 - DecodeCell(16 * cell) == 75.0 / 4095.0
    ensures 25.0 - DecodePack(16 * pack) == 375.0 / 4095.0
  {
    assert cell == 255 && pack == 255;
  }

  // ----- the words the commands compute -----

  /** Whether the second argument, or the first, has a quantised field of its own. */
  predicate HasField(layout: Layout, second: bool) {
    layout.Pair? || (!second && (layout.Counted? || layout.Single?))
  }

  /** The code an argument's field of the word holds. */
  function CodeIn(layout: Layout, second: bool, data: Word): nat
    requires HasField(layout, second) && FieldOf(layout).value.codes > 0
  {
    match layout
    case Counted(_, _, _, _, codes) => data % codes
    case Pair(_, _, _) => if second then data / 0x100 else data % 0x100
    case _ => data
  }

  /** The value the argument asks for, after keywords, default and clamping. */
  function AskedFor(layout: Layout, arg: Arg, atof: string -> real): real
    requires FieldOf(layout).Some?
  {
    var f := FieldOf(layout).value;
    ValueOf(arg, f.lo, f.hi, layout.dflt, atof)
  }

  /** A word that meets the command's contract holds, for each argument, the code of the value asked for. */
  lemma WordYields(command: string, senseResistor: real, arg1: Arg, arg2: Arg, second: bool, atof: string -> real,
                   data: Word)
    requires senseResistor > 0.0
    requires RowOf(command, senseResistor).Some? && HasField(RowOf(command, senseResistor).value.layout, second)
    requires Encodes(RowOf(command, senseResistor).value.layout, arg1, arg2, senseResistor, atof, data)
    ensures var layout := RowOf(command, senseResistor).value.layout;
            && FieldOf(layout).value.codes > 0
            && Yields(FieldOf(layout).value, AskedFor(layout, if second then arg2 else arg1, atof),
                      CodeIn(layout, second, data))
  {
    FieldShape(command, senseResistor);
    hide RowOf, Nearest, ValueOf, CellCommand, PackCommand, CanSaturate;
    var layout := RowOf(command, senseResistor).value.layout;
    var f := FieldOf(layout).value;
    ValueInRange(if second then arg2 else arg1, f.lo, f.hi, layout.dflt, atof);
  }

  /** Every command, every argument pair, every word that meets its contract: each quantised field lies in the
  command's attainable range, is within half a step of what its argument asks for unless saturated, and for cell
  and pack commands decodes, at the measurement scale, to within the full-scale bound. */
  lemma CommandWord(command: string, senseResistor: real, arg1: Arg, arg2: Arg, second: bool, atof: string -> real,
                    data: Word)
    requires senseResistor > 0.0
    requires RowOf(command, senseResistor).Some? && HasField(RowOf(command, senseResistor).value.layout, second)
    requires Encodes(RowOf(command, senseResistor).value.layout, arg1, arg2, senseResistor, atof, data)
    ensures var layout := RowOf(command, senseResistor).value.layout;
            var f := FieldOf(layout).value;
            f.codes > 0 &&
            var v, c := AskedFor(layout, if second then arg2 else arg1, atof), CodeIn(layout, second, data);
            && CodeRange(command).0 <= c <= CodeRange(command).1
            && AccurateUnlessSaturated(f, v, c)
            && (CellCommand(command) ==> c <= 0xFF && Within(DecodeCell(16 * c), v, 75.0 / 4095.0))
            && (PackCommand(command) ==> c <= 0xFF && Within(DecodePack(16 * c), v, 375.0 / 4095.0))
  {
    hide RowOf, Encodes, AskedFor, CodeIn, CodeRange, CellCommand, PackCommand, CanSaturate, Yields, Within,
         AccurateUnlessSaturated;
    WordYields(command, senseResistor, arg1, arg2, second, atof, data);
    var layout := RowOf(command, senseResistor).value.layout;
    var v, c := AskedFor(layout, if second then arg2 else arg1, atof), CodeIn(layout, second, data);
    YieldsInRange(command, senseResistor, v, c);
    FieldAccuracy(command, senseResistor, c, v);
    YieldsMeasured(command, senseResistor, v, c);
  }

  /** Two words that meet the same command's contract: the argument that asks for more does not get the smaller
  code. */
  lemma CommandMonotone(command: string, senseResistor: real, args: (Arg, Arg), larger: (Arg, Arg), second: bool,
                        atof: string -> real, data: Word, data': Word)
    requires senseResistor > 0.0
    requires RowOf(command, senseResistor).Some? && HasField(RowOf(command, senseResistor).value.layout, second)
    requires Encodes(RowOf(command, senseResistor).value.layout, args.0, args.1, senseResistor, atof, data)
    requires Encodes(RowOf(command, senseResistor).value.layout, larger.0, larger.1, senseResistor, atof, data')
    requires var layout := RowOf(command, senseResistor).value.layout;
             AskedFor(layout, if second then args.1 else args.0, atof)
             <= AskedFor(layout, if second then larger.1 else larger.0, atof)
    ensures var layout := RowOf(command, senseResistor).value.layout;
            FieldOf(layout).value.codes > 0 && CodeIn(layout, second, data) <= CodeIn(layout, second, data')
  {
    FieldShape(command, senseResistor);
    WordYields(command, senseResistor, args.0, args.1, second, atof, data);
    WordYields(command, senseResistor, larger.0, larger.1, second, atof, data');
    hide RowOf, Encodes, AskedFor, CodeIn, Nearest;
    var layout := RowOf(command, senseResistor).value.layout;
    var f := FieldOf(layout).value;
    NearestMonotone(CodeIn(layout, second, data), CodeIn(layout, second, data'),
                    AskedFor(layout, if second then args.1 else args.0, atof),
                    AskedFor(layout, if second then larger.1 else larger.0, atof), f.step, f.codes - 1);
  }

  lemma YieldsInRange(command: string, senseResistor: real, v: real, c: int)
    requires senseResistor > 0.0
    requires RowOf(command, senseResistor).Some? && FieldOf(RowOf(command, senseResistor).value.layout).Some?
    requires Yields(FieldOf(RowOf(command, senseResistor).value.layout).value, v, c)
    ensures CodeRange(command).0 <= c <= CodeRange(command).1
  {
    hide RowOf, FieldOf, CodeRange, Yields, RoundTrips;
    AttainableCodes(command, senseResistor);
  }

  lemma YieldsMeasured(command: string, senseResistor: real, v: real, c: nat)
    requires senseResistor > 0.0
    requires RowOf(command, senseResistor).Some? && FieldOf(RowOf(command, senseResistor).value.layout).Some?
    requires Yields(FieldOf(RowOf(command, senseResistor).value.layout).value, v, c)
    ensures CellCommand(command) ==> c <= 0xFF && Within(DecodeCell(16 * c), v, 75.0 / 4095.0)
    ensures PackCommand(command) ==> c <= 0xFF && Within(DecodePack(16 * c), v, 375.0 / 4095.0)
  {
    hide RowOf, FieldOf, CellCommand, PackCommand, CanSaturate, Nearest, DecodeCell, DecodePack, Within;
    FieldSaturation(command, senseResistor);
    if CellCommand(command) {
      NearestInWidth(c, v, VCELL_STEP, 0xFF);
      CellThresholdMeasured(v, c);
    }
    if PackCommand(command) {
      NearestInWidth(c, v, VB_STEP, 0xFF);
      PackThresholdMeasured(v, c);
    }
  }

  lemma NearestInWidth(c: int, v: real, step: real, max: nat)
    requires Nearest(c, v, step, max)
    ensures 0 <= c <= max
  {
  }

  /** The same for the short-circuit word: both codes are within half a step of the clamped voltage. */
  lemma ShortCircuitCodes(senseResistor: real, arg1: Arg, arg2: Arg, atof: string -> real, data: Word)
    requires senseResistor > 0.0 && Encodes(ShortCircuit, arg1, arg2, senseResistor, atof, data)
    ensures Within((data % 0x10) as real * SC_STEP, ScExcess(ScCurrent(arg1, atof), senseResistor), 0.5 * SC_STEP)
    ensures Within((data / 0x10) as real * SC_STEP, ScExcess(ScCurrent(arg2, atof), senseResistor), 0.5 * SC_STEP)
  {
    hide Nearest, ScExcess, ScCurrent;
    var threshold, persistent := ScCurrent(arg1, atof), ScCurrent(arg2, atof);
    ScAccuracy(threshold, threshold, senseResistor, data % 0x10, data % 0x10);
    ScAccuracy(persistent, persistent, senseResistor, data / 0x10, data / 0x10);
  }

  // ----- short-circuit codes -----

  /** Asking for the current short-circuit code k stands for, through the 0..1000 A argument clamp, gives k back. */
  predicate ScRoundTrips(k: int, senseResistor: real)
    requires senseResistor > 0.0
  {
    var current := Clamp((SC_BASE + k as real * SC_STEP) / senseResistor, 0.0, 1000.0);
    Nearest(k, ScExcess(current, senseResistor), SC_STEP, 15)
  }

  lemma ScVoltage(k: nat, r: real)
    requires r > 0.0 && k <= 15
    ensures Clamp((SC_BASE + k as real * SC_STEP) / r, 0.0, 1000.0) * r
         == Clamp(SC_BASE + k as real * SC_STEP, 0.0, 1000.0 * r)
  {
    var x := SC_BASE + k as real * SC_STEP;
    ClampScales(x / r, 0.0, 1000.0, r);
    DivideMultiply(x, r);
  }

  /** All sixteen codes are attainable if and only if the sense resistor lets 1000 A reach the rounding edge of
  the last code. */
  lemma ScCodesExactly(senseResistor: real)
    requires senseResistor > 0.0
    ensures (forall k :: 0 <= k <= 15 ==> ScRoundTrips(k, senseResistor)) <==> senseResistor >= 0.00025272
  {
    forall k: nat | k <= 15
      ensures senseResistor >= 0.00025272 ==> ScRoundTrips(k, senseResistor)
    {
      ScVoltage(k, senseResistor);
    }
    ScVoltage(15, senseResistor);
    assert senseResistor < 0.00025272 ==> !ScRoundTrips(15, senseResistor);
  }

  lemma ScExcessSpan(current: real, larger: real, senseResistor: real)
    requires senseResistor > 0.0 && current <= larger
    ensures 0.0 <= ScExcess(current, senseResistor) <= ScExcess(larger, senseResistor) <= 15.0 * SC_STEP
  {
    hide Clamp;
    Scale(current, larger, senseResistor);
    ClampMonotone(current * senseResistor, larger * senseResistor, SC_BASE, SC_BASE + 15.0 * SC_STEP);
  }

  /** Short-circuit codes never saturate: each is within half a step of the clamped voltage, and a larger current
  never gets a smaller code. */
  lemma ScAccuracy(current: real, larger: real, senseResistor: real, c: int, d: int)
    requires senseResistor > 0.0 && current <= larger
    requires Nearest(c, ScExcess(current, senseResistor), SC_STEP, 15)
    requires Nearest(d, ScExcess(larger, senseResistor), SC_STEP, 15)
    ensures Within(c as real * SC_STEP, ScExcess(current, senseResistor), 0.5 * SC_STEP)
    ensures c <= d
  {
    hide ScExcess;
    ScExcessSpan(current, larger, senseResistor);
    NearestHalfStep(c, ScExcess(current, senseResistor), SC_STEP, 15);
    NearestMonotone(c, d, ScExcess(current, senseResistor), ScExcess(larger, senseResistor), SC_STEP, 15);
  }
}

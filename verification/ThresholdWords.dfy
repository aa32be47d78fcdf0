/** What the keyword arguments of the numerical commands ask for, and the words they become. */
module ThresholdWords {
  import opened Options
  import opened Bits
  import opened CText
  import opened Quantiser
  import opened Thresholds
  import opened ThresholdLaws

  // ----- keywords -----

  /** Keywords are recognised in any mixture of upper and lower case, and nothing else is. */
  lemma AnyCase(text: string, word: string)
    requires forall i :: 0 <= i < |word| ==> 'a' <= word[i] <= 'z'
    ensures Is(Text(text), word)
       <==> |text| == |word|
            && forall i :: 0 <= i < |word| ==> text[i] == word[i] || text[i] as int == word[i] as int - 32
  {
    var lower := Lower(text);
    if |text| == |word| && forall i :: 0 <= i < |word| ==> text[i] == word[i] || text[i] as int == word[i] as int - 32 {
      assert forall i :: 0 <= i < |word| ==> lower[i] == word[i];
      assert lower == word;
    } else if |text| == |word| {
      var i :| 0 <= i < |word| && text[i] != word[i] && text[i] as int != word[i] as int - 32;
      assert lower[i] != word[i];
    }
  }

  lemma KeywordsDiffer()
    ensures "max" != "min" && "max" != "default" && "min" != "default"
  {
    assert "max"[1] != "min"[1];
    assert |"max"| != |"default"| && |"min"| != |"default"|;
  }

  /** "max" asks for the upper end, "min" or no argument for the lower end, "default" for the default, and any other
  text for the number it converts to, held within the range. */
  lemma ValueMeaning(arg: Arg, lo: real, hi: real, dflt: real, atof: string -> real)
    requires lo <= hi
    ensures var v := ValueOf(arg, lo, hi, dflt, atof);
            && (Is(arg, "max") ==> v == hi)
            && (arg.Null? || Is(arg, "min") ==> v == lo)
            && (Is(arg, "default") ==> v == dflt)
            && (arg.Text? && !Is(arg, "max") && !Is(arg, "min") && !Is(arg, "default") ==>
                  v == if atof(arg.text) < lo then lo else if atof(arg.text) > hi then hi else atof(arg.text))
  {
    hide Lower;
    KeywordsDiffer();
  }

  /** The same for counts. */
  lemma CountMeaning(arg: Arg, lo: int, hi: int, dflt: int)
    requires -0x8000_0000 < lo <= hi
    ensures var n := CountOf(arg, lo, hi, dflt);
            && (Is(arg, "max") ==> n == hi)
            && (arg.Null? || Is(arg, "min") ==> n == lo)
            && (Is(arg, "default") ==> n == dflt)
            && (arg.Text? && !Is(arg, "max") && !Is(arg, "min") && !Is(arg, "default") ==>
                  n == if Strtol(arg.text, 10) < lo then lo
                       else if Strtol(arg.text, 10) > hi then hi else Strtol(arg.text, 10))
  {
    hide Lower, Strtol;
    KeywordsDiffer();
  }

  /** A printed number is the count it says, held within the range. */
  lemma PrintedCount(n: int, lo: int, hi: int, dflt: int)
    requires -0x8000_0000 <= n <= 0x7FFF_FFFF && -0x8000_0000 < lo <= hi
    ensures CountOf(Text(Decimal(n)), lo, hi, dflt) == if n < lo then lo else if n > hi then hi else n
  {
    hide Decimal, Strtol, Lower;
    StrtolOfDecimal(n);
    DecimalIsNoWord(n);
    KeywordsDiffer();
    CountMeaning(Text(Decimal(n)), lo, hi, dflt);
  }

  lemma StrtolOfDecimal(n: int)
    requires -0x8000_0000 <= n <= 0x7FFF_FFFF
    ensures Strtol(Decimal(n), 10) == n
  {
    hide Decimal, NumberOf, Digits;
    ScanDecimal(n, []);
    var text := Decimal(n);
    assert [' '] + text + [] == [' '] + text;
    assert ([' '] + text)[1..] == text;
    assert SkipSpaces([' '] + text) == SkipSpaces(text);
  }

  lemma DecimalIsNoWord(n: int)
    ensures !Is(Text(Decimal(n)), "max") && !Is(Text(Decimal(n)), "min") && !Is(Text(Decimal(n)), "default")
  {
    hide NatText;
    var text := Decimal(n);
    assert text[0] == '-' || IsDigit(text[0], 10);
    assert Lower(text)[0] == text[0];
  }

  /** Every command, every word that meets its contract: what each keyword makes of each quantised field. */
  lemma KeywordCode(command: string, senseResistor: real, arg1: Arg, arg2: Arg, second: bool, atof: string -> real,
                    data: Word)
    requires senseResistor > 0.0
    requires RowOf(command, senseResistor).Some? && HasField(RowOf(command, senseResistor).value.layout, second)
    requires Encodes(RowOf(command, senseResistor).value.layout, arg1, arg2, senseResistor, atof, data)
    ensures var layout := RowOf(command, senseResistor).value.layout;
            var f := FieldOf(layout).value;
            var arg := if second then arg2 else arg1;
            f.codes > 0 &&
            var c := CodeIn(layout, second, data);
            && (Is(arg, "max") ==> Nearest(c, f.hi, f.step, f.codes - 1))
            && (arg.Null? || Is(arg, "min") ==> Nearest(c, f.lo, f.step, f.codes - 1))
            && (Is(arg, "default") ==> Nearest(c, layout.dflt, f.step, f.codes - 1))
            && (arg.Text? && !Is(arg, "max") && !Is(arg, "min") && !Is(arg, "default") ==>
                  var v := atof(arg.text);
                  Nearest(c, if v < f.lo then f.lo else if v > f.hi then f.hi else v, f.step, f.codes - 1))
  {
    hide RowOf, Encodes, CodeIn, Nearest, Is, ValueOf;
    FieldShape(command, senseResistor);
    WordYields(command, senseResistor, arg1, arg2, second, atof, data);
    var layout := RowOf(command, senseResistor).value.layout;
    var f := FieldOf(layout).value;
    ValueMeaning(if second then arg2 else arg1, f.lo, f.hi, layout.dflt, atof);
  }

  /** The count fields and the gain word, by keyword. */
  lemma KeywordCount(command: string, senseResistor: real, arg1: Arg, arg2: Arg, atof: string -> real, data: Word)
    requires senseResistor > 0.0 && RowOf(command, senseResistor).Some?
    requires Encodes(RowOf(command, senseResistor).value.layout, arg1, arg2, senseResistor, atof, data)
    ensures var layout := RowOf(command, senseResistor).value.layout;
            && (layout.Counted? ==>
                  && layout.codes > 0
                  && (Is(arg2, "max") || Is(arg2, "default") ==> data / layout.codes == 15)
                  && (arg2.Null? || Is(arg2, "min") ==> data / layout.codes == 1)
                  && (arg2.Text? && !Is(arg2, "max") && !Is(arg2, "min") && !Is(arg2, "default") ==>
                        var n := Strtol(arg2.text, 10);
                        data / layout.codes == if n < 1 then 1 else if n > 15 then 15 else n))
            && (layout.Gain? ==>
                  && (Is(arg1, "max") ==> data == 0xFFFF)
                  && (arg1.Null? || Is(arg1, "min") ==> data == 0)
                  && (Is(arg1, "default") ==> data == 0x8000)
                  && (arg1.Text? && !Is(arg1, "max") && !Is(arg1, "min") && !Is(arg1, "default") ==>
                        var n := Strtol(arg1.text, 10);
                        data == if n < 0 then 0 else if n > 0xFFFF then 0xFFFF else n))
  {
    hide RowOf, Nearest, Is, CountOf, ValueOf, Strtol;
    CountMeaning(arg2, 1, 15, 15);
    CountMeaning(arg1, 0, 0xFFFF, 0x8000);
  }

  /** The short-circuit currents, by keyword: 1000 A, none, 100 A, or the number given held within 0 to 1000 A. */
  lemma KeywordShortCircuit(r: real, arg1: Arg, arg2: Arg, second: bool, atof: string -> real, data: Word)
    requires r > 0.0 && Encodes(ShortCircuit, arg1, arg2, r, atof, data)
    ensures var arg := if second then arg2 else arg1;
            var c := if second then data / 0x10 else data % 0x10;
            && (Is(arg, "max") ==> Nearest(c, ScExcess(1000.0, r), SC_STEP, 15))
            && (arg.Null? || Is(arg, "min") ==> Nearest(c, ScExcess(0.0, r), SC_STEP, 15))
            && (Is(arg, "default") ==> Nearest(c, ScExcess(100.0, r), SC_STEP, 15))
            && (arg.Text? && !Is(arg, "max") && !Is(arg, "min") && !Is(arg, "default") ==>
                  var v := atof(arg.text);
                  Nearest(c, ScExcess(if v < 0.0 then 0.0 else if v > 1000.0 then 1000.0 else v, r), SC_STEP, 15))
  {
    hide Nearest, Is, ValueOf, ScExcess;
    ValueMeaning(if second then arg2 else arg1, 0.0, 1000.0, 100.0, atof);
  }

  // ----- the words -----

  /** Whatever meets the contract of the command with these arguments is this word for this register. */
  ghost predicate Computes(command: string, arg1: Arg, arg2: Arg, senseResistor: real, register: Byte, word: int)
    requires senseResistor > 0.0
  {
    && RowOf(command, senseResistor).Some?
    && RowOf(command, senseResistor).value.register == register
    && forall atof: string -> real, data: Word ::
         Encodes(RowOf(command, senseResistor).value.layout, arg1, arg2, senseResistor, atof, data) ==> data == word
  }

  const MAX := Text("max")
  const MIN := Text("min")
  const DEFAULT := Text("default")

  lemma Keywords()
    ensures Is(MAX, "max") && Is(MIN, "min") && Is(DEFAULT, "default")
  {
    AnyCase("max", "max");
    AnyCase("min", "min");
    AnyCase("default", "default");
  }

  /** The value a keyword asks for. */
  predicate Asks(arg: Arg, lo: real, hi: real, dflt: real, v: real) {
    || (arg == MAX && v == hi) || (arg == MIN && v == lo) || (arg == Null && v == lo) || (arg == DEFAULT && v == dflt)
  }

  lemma AsksFor(arg: Arg, lo: real, hi: real, dflt: real, v: real, atof: string -> real)
    requires lo <= hi && Asks(arg, lo, hi, dflt, v)
    ensures ValueOf(arg, lo, hi, dflt, atof) == v
  {
    hide Is, ValueOf;
    Keywords();
    ValueMeaning(arg, lo, hi, dflt, atof);
  }

  lemma CountedComputes(command: string, arg1: Arg, arg2: Arg, senseResistor: real, register: Byte, layout: Layout,
                        v: real, code: nat, count: nat)
    requires senseResistor > 0.0 && RowOf(command, senseResistor) == Some(Row(register, layout))
    requires layout.Counted? && layout.codes > 0 && layout.step > 0.0 && layout.lo <= layout.hi
    requires Asks(arg1, layout.lo, layout.hi, layout.dflt, v) && Nearest(code, v, layout.step, layout.codes - 1)
    requires (count == 15 && (arg2 == MAX || arg2 == DEFAULT)) || (count == 1 && (arg2 == MIN || arg2 == Null))
    ensures Computes(command, arg1, arg2, senseResistor, register, count * layout.codes + code)
  {
    hide RowOf, Nearest, Is, ValueOf, CountOf;
    Keywords();
    CountMeaning(arg2, 1, 15, 15);
    forall atof: string -> real, data: Word | Encodes(layout, arg1, arg2, senseResistor, atof, data)
      ensures data == count * layout.codes + code
    {
      AsksFor(arg1, layout.lo, layout.hi, layout.dflt, v, atof);
      NearestUnique(data % layout.codes, code, v, layout.step, layout.codes - 1);
    }
  }

  lemma SingleComputes(command: string, arg1: Arg, arg2: Arg, senseResistor: real, register: Byte, layout: Layout,
                       v: real, code: nat)
    requires senseResistor > 0.0 && RowOf(command, senseResistor) == Some(Row(register, layout))
    requires layout.Single? && layout.codes > 0 && layout.step > 0.0 && 0.0 <= layout.hi
    requires Asks(arg1, 0.0, layout.hi, layout.dflt, v) && Nearest(code, v, layout.step, layout.codes - 1)
    ensures Computes(command, arg1, arg2, senseResistor, register, code)
  {
    hide RowOf, Nearest, Is, ValueOf, CountOf;
    forall atof: string -> real, data: Word | Encodes(layout, arg1, arg2, senseResistor, atof, data)
      ensures data == code
    {
      AsksFor(arg1, 0.0, layout.hi, layout.dflt, v, atof);
      NearestUnique(data, code, v, layout.step, layout.codes - 1);
    }
  }

  lemma PairComputes(command: string, arg1: Arg, arg2: Arg, senseResistor: real, register: Byte, layout: Layout,
                     v: real, low: nat, w: real, high: nat)
    requires senseResistor > 0.0 && RowOf(command, senseResistor) == Some(Row(register, layout))
    requires layout.Pair? && layout.step > 0.0 && 0.0 <= layout.hi
    requires Asks(arg1, 0.0, layout.hi, layout.dflt, v) && Nearest(low, v, layout.step, 0xFF)
    requires Asks(arg2, 0.0, layout.hi, layout.dflt, w) && Nearest(high, w, layout.step, 0xFF)
    ensures Computes(command, arg1, arg2, senseResistor, register, high * 0x100 + low)
  {
    hide RowOf, Nearest, Is, ValueOf, CountOf;
    forall atof: string -> real, data: Word | Encodes(layout, arg1, arg2, senseResistor, atof, data)
      ensures data == high * 0x100 + low
    {
      AsksFor(arg1, 0.0, layout.hi, layout.dflt, v, atof);
      AsksFor(arg2, 0.0, layout.hi, layout.dflt, w, atof);
      NearestUnique(data % 0x100, low, v, layout.step, 0xFF);
      NearestUnique(data / 0x100, high, w, layout.step, 0xFF);
    }
  }

  /** The gain command. */
  lemma GainWords(r: real)
    requires r > 0.0
    ensures Computes("CSA_GAIN_FACTOR", MIN, Null, r, 0x05, 0x0000)
    ensures Computes("CSA_GAIN_FACTOR", MAX, Null, r, 0x05, 0xFFFF)
    ensures Computes("CSA_GAIN_FACTOR", DEFAULT, Null, r, 0x05, 0x8000)
  {
    hide Is, CountOf, Imax;
    Keywords();
    CountMeaning(MIN, 0, 0xFFFF, 0x8000);
    CountMeaning(MAX, 0, 0xFFFF, 0x8000);
    CountMeaning(DEFAULT, 0, 0xFFFF, 0x8000);
  }

  /** A count command's words for both arguments at their lower end, upper end and default, and for the mixture the
  setup uses. */
  ghost predicate CountedWords(command: string, r: real, register: Byte, codes: nat, lo: nat, hi: nat, dflt: nat)
    requires r > 0.0
  {
    && Computes(command, MIN, MIN, r, register, 1 * codes + lo)
    && Computes(command, MAX, MAX, r, register, 15 * codes + hi)
    && Computes(command, DEFAULT, DEFAULT, r, register, 15 * codes + dflt)
    && Computes(command, MIN, MAX, r, register, 15 * codes + lo)
    && Computes(command, Null, Null, r, register, 1 * codes + lo)
  }

  lemma CountedTable(command: string, r: real, register: Byte, layout: Layout, lo: nat, hi: nat, dflt: nat)
    requires r > 0.0 && RowOf(command, r) == Some(Row(register, layout))
    requires layout.Counted? && layout.codes > 0 && layout.step > 0.0 && layout.lo <= layout.hi
    requires Nearest(lo, layout.lo, layout.step, layout.codes - 1)
    requires Nearest(hi, layout.hi, layout.step, layout.codes - 1)
    requires Nearest(dflt, layout.dflt, layout.step, layout.codes - 1)
    ensures CountedWords(command, r, register, layout.codes, lo, hi, dflt)
  {
    hide RowOf, Nearest, Computes;
    CountedComputes(command, MIN, MIN, r, register, layout, layout.lo, lo, 1);
    CountedComputes(command, MAX, MAX, r, register, layout, layout.hi, hi, 15);
    CountedComputes(command, DEFAULT, DEFAULT, r, register, layout, layout.dflt, dflt, 15);
    CountedComputes(command, MIN, MAX, r, register, layout, layout.lo, lo, 15);
    CountedComputes(command, Null, Null, r, register, layout, layout.lo, lo, 1);
  }

  /** Cell commands: 0 to 255, with the defaults 4.3 V, 2.2 V and 0.2 V. */
  lemma CellWords(r: real)
    requires r > 0.0
    ensures CountedWords("VCELL_OV_TH", r, 0x06, 0x100, 0, 255, 220)
    ensures CountedWords("VCELL_UV_TH", r, 0x07, 0x100, 0, 255, 113)
    ensures CountedWords("VCELL_BAL_UV_DELTA_TH", r, 0x09, 0x100, 0, 255, 10)
    ensures Computes("VCELL_SEVERE_DELTA_THRS", MIN, MIN, r, 0x08, 0x0000)
    ensures Computes("VCELL_SEVERE_DELTA_THRS", MAX, MIN, r, 0x08, 0x00FF)
    ensures Computes("VCELL_SEVERE_DELTA_THRS", MIN, MAX, r, 0x08, 0xFF00)
    ensures Computes("VCELL_SEVERE_DELTA_THRS", DEFAULT, DEFAULT, r, 0x08, 0x0A0A)
  {
    hide Imax, Computes, CountedWords;
    CountedTable("VCELL_OV_TH", r, 0x06, Counted(0.0, 5.0, 4.3, VCELL_STEP, 0x100), 0, 255, 220);
    CountedTable("VCELL_UV_TH", r, 0x07, Counted(0.0, 5.0, 2.2, VCELL_STEP, 0x100), 0, 255, 113);
    CountedTable("VCELL_BAL_UV_DELTA_TH", r, 0x09, Counted(0.0, 5.0, 0.2, VCELL_STEP, 0x100), 0, 255, 10);
    var layout := Pair(5.0, 0.2, VCELL_STEP);
    PairComputes("VCELL_SEVERE_DELTA_THRS", MIN, MIN, r, 0x08, layout, 0.0, 0, 0.0, 0);
    PairComputes("VCELL_SEVERE_DELTA_THRS", MAX, MIN, r, 0x08, layout, 5.0, 255, 0.0, 0);
    PairComputes("VCELL_SEVERE_DELTA_THRS", MIN, MAX, r, 0x08, layout, 0.0, 0, 5.0, 255);
    PairComputes("VCELL_SEVERE_DELTA_THRS", DEFAULT, DEFAULT, r, 0x08, layout, 0.2, 10, 0.2, 10);
  }

  /** Pack commands: 0 to 255, with the defaults 23 V, 10.93 V and 2 V. */
  lemma PackWords(r: real)
    requires r > 0.0
    ensures CountedWords("VB_OV_TH", r, 0x0A, 0x100, 0, 255, 236)
    ensures CountedWords("VB_UV_TH", r, 0x0B, 0x100, 0, 255, 112)
    ensures Computes("VB_SUM_MAX_DIFF_TH", MIN, Null, r, 0x0C, 0x0000)
    ensures Computes("VB_SUM_MAX_DIFF_TH", MAX, Null, r, 0x0C, 0x00FF)
    ensures Computes("VB_SUM_MAX_DIFF_TH", DEFAULT, Null, r, 0x0C, 0x0014)
  {
    hide Imax, Computes, CountedWords;
    CountedTable("VB_OV_TH", r, 0x0A, Counted(0.0, 25.0, 23.0, VB_STEP, 0x100), 0, 255, 236);
    CountedTable("VB_UV_TH", r, 0x0B, Counted(0.0, 25.0, 10.93, VB_STEP, 0x100), 0, 255, 112);
    var layout := Single(25.0, 2.0, VB_STEP, 0x100);
    SingleComputes("VB_SUM_MAX_DIFF_TH", MIN, Null, r, 0x0C, layout, 0.0, 0);
    SingleComputes("VB_SUM_MAX_DIFF_TH", MAX, Null, r, 0x0C, layout, 25.0, 255);
    SingleComputes("VB_SUM_MAX_DIFF_TH", DEFAULT, Null, r, 0x0C, layout, 2.0, 20);
  }

  /** Thermistor commands: up to 4094, from 248 for overtemperature, with the defaults 2.5 V and 0.5 V. */
  lemma NtcWords(r: real)
    requires r > 0.0
    ensures CountedWords("VNTC_OT_TH", r, 0x0D, 0x1000, 248, 4094, 3102)
    ensures CountedWords("VNTC_UT_TH", r, 0x0E, 0x1000, 0, 4094, 620)
    ensures Computes("VNTC_SEVERE_OT_DELTA_TH", MIN, Null, r, 0x0F, 0x0000)
    ensures Computes("VNTC_SEVERE_OT_DELTA_TH", MAX, Null, r, 0x0F, 0x0FFE)
    ensures Computes("VNTC_SEVERE_OT_DELTA_TH", DEFAULT, Null, r, 0x0F, 0x026C)
  {
    hide Imax, Computes, CountedWords;
    CountedTable("VNTC_OT_TH", r, 0x0D, Counted(0.2, 3.3, 2.5, VNTC_STEP, 0x1000), 248, 4094, 3102);
    CountedTable("VNTC_UT_TH", r, 0x0E, Counted(0.0, 3.3, 0.5, VNTC_STEP, 0x1000), 0, 4094, 620);
    var layout := Single(3.3, 0.5, VNTC_STEP, 0x1000);
    SingleComputes("VNTC_SEVERE_OT_DELTA_TH", MIN, Null, r, 0x0F, layout, 0.0, 0);
    SingleComputes("VNTC_SEVERE_OT_DELTA_TH", MAX, Null, r, 0x0F, layout, 3.3, 4094);
    SingleComputes("VNTC_SEVERE_OT_DELTA_TH", DEFAULT, Null, r, 0x0F, layout, 0.5, 620);
  }

  /** Overcurrent commands: 0 to 255 at any sense resistor, and full scale by default. */
  lemma CurrentWords(r: real)
    requires r > 0.0
    ensures Computes("OVC_THRESHOLDS", MIN, MIN, r, 0x10, 0x0000)
    ensures Computes("OVC_THRESHOLDS", MAX, MIN, r, 0x10, 0x00FF)
    ensures Computes("OVC_THRESHOLDS", MAX, MAX, r, 0x10, 0xFFFF)
    ensures Computes("OVC_THRESHOLDS", DEFAULT, DEFAULT, r, 0x10, 0xFFFF)
    ensures Computes("PERSISTENT_OVC_THRESHOLDS", MIN, Null, r, 0x11, 0x0000)
    ensures Computes("PERSISTENT_OVC_THRESHOLDS", MAX, Null, r, 0x11, 0x00FF)
    ensures Computes("PERSISTENT_OVC_THRESHOLDS", DEFAULT, Null, r, 0x11, 0x00FF)
  {
    hide Imax, Computes, Nearest, Asks, RowOf;
    CurrentRows(r);
    var imax := Imax(r);
    EndsAsked(imax);
    ImaxPositive(r);
    FullScale(imax);
    var layout := Pair(imax, imax, imax / 255.0);
    PairComputes("OVC_THRESHOLDS", MIN, MIN, r, 0x10, layout, 0.0, 0, 0.0, 0);
    PairComputes("OVC_THRESHOLDS", MAX, MIN, r, 0x10, layout, imax, 255, 0.0, 0);
    PairComputes("OVC_THRESHOLDS", MAX, MAX, r, 0x10, layout, imax, 255, imax, 255);
    PairComputes("OVC_THRESHOLDS", DEFAULT, DEFAULT, r, 0x10, layout, imax, 255, imax, 255);
    var single := Single(imax, imax, imax / 255.0, 0x100);
    SingleComputes("PERSISTENT_OVC_THRESHOLDS", MIN, Null, r, 0x11, single, 0.0, 0);
    SingleComputes("PERSISTENT_OVC_THRESHOLDS", MAX, Null, r, 0x11, single, imax, 255);
    SingleComputes("PERSISTENT_OVC_THRESHOLDS", DEFAULT, Null, r, 0x11, single, imax, 255);
  }

  lemma EndsAsked(hi: real)
    ensures Asks(MIN, 0.0, hi, hi, 0.0) && Asks(MAX, 0.0, hi, hi, hi) && Asks(DEFAULT, 0.0, hi, hi, hi)
  {
  }

  lemma FullScale(imax: real)
    requires imax > 0.0
    ensures imax / 255.0 > 0.0
    ensures Nearest(0, 0.0, imax / 255.0, 0xFF) && Nearest(255, imax, imax / 255.0, 0xFF)
  {
    NearestOfMultiple(0, imax / 255.0, 255);
    NearestOfMultiple(255, imax / 255.0, 255);
  }

  /** Full scale of the overcurrent codes is 0.3 V across the resistor: a current below that is within half a code of
  what its field stands for, and one above saturates. */
  lemma CurrentScale(command: string, r: real, arg1: Arg, arg2: Arg, second: bool, atof: string -> real, data: Word)
    requires r > 0.0 && (command == "OVC_THRESHOLDS" || (command == "PERSISTENT_OVC_THRESHOLDS" && !second))
    requires RowOf(command, r).Some?
    requires Encodes(RowOf(command, r).value.layout, arg1, arg2, r, atof, data)
    requires var arg := if second then arg2 else arg1;
             arg.Text? && !Is(arg, "max") && !Is(arg, "min") && !Is(arg, "default")
    ensures var arg := if second then arg2 else arg1;
            var c := if command != "OVC_THRESHOLDS" then data else if second then data / 0x100 else data % 0x100;
            var volts := atof(arg.text) * r;
            && (0.0 <= volts <= 0.3 ==> -0.15 <= c as real * 0.3 - 255.0 * volts <= 0.15)
            && (volts > 0.3 ==> c == 255)
            && (volts < 0.0 ==> c == 0)
  {
    hide Is, Nearest, Imax, RowOf, ValueOf;
    var imax := Imax(r);
    CurrentRows(r);
    var arg := if second then arg2 else arg1;
    var c := if command != "OVC_THRESHOLDS" then data else if second then data / 0x100 else data % 0x100;
    ImaxPositive(r);
    ValueMeaning(arg, 0.0, imax, imax, atof);
    CodeInVolts(c, atof(arg.text), r, imax);
  }

  lemma CurrentRows(r: real)
    requires r > 0.0
    ensures RowOf("OVC_THRESHOLDS", r) == Some(Row(0x10, Pair(Imax(r), Imax(r), Imax(r) / 255.0)))
    ensures RowOf("PERSISTENT_OVC_THRESHOLDS", r) == Some(Row(0x11, Single(Imax(r), Imax(r), Imax(r) / 255.0, 0x100)))
  {
  }

  lemma CodeInVolts(c: nat, amperes: real, r: real, imax: real)
    requires r > 0.0 && imax == Imax(r)
    requires Nearest(c, if amperes < 0.0 then 0.0 else if amperes > imax then imax else amperes, imax / 255.0, 0xFF)
    ensures var volts := amperes * r;
            && (0.0 <= volts <= 0.3 ==> -0.15 <= c as real * 0.3 - 255.0 * volts <= 0.15)
            && (volts > 0.3 ==> c == 255)
            && (volts < 0.0 ==> c == 0)
  {
    hide Nearest;
    ImaxPositive(r);
    FullScale(imax);
    DivideMultiply(0.3, r);
    InVolts(amperes, r, imax);
    var step := imax / 255.0;
    if amperes < 0.0 {
      NearestUnique(c, 0, 0.0, step, 0xFF);
    } else if amperes > imax {
      NearestUnique(c, 255, imax, step, 0xFF);
    } else {
      ScaleBounds(step);
      NearestHalfStep(c, amperes, step, 255);
      HalfStepInVolts(c as real, amperes, step, r);
    }
  }

  lemma InVolts(amperes: real, r: real, imax: real)
    requires r > 0.0 && imax * r == 0.3
    ensures (amperes < 0.0 <==> amperes * r < 0.0) && (amperes > imax <==> amperes * r > 0.3)
    ensures (imax / 255.0) * r == 0.3 / 255.0
  {
    Above(amperes, imax, r, 0.3);
    Above(0.0, amperes, r, amperes * r);
    assert (imax / 255.0) * r == imax * r / 255.0;
  }

  lemma Above(v: real, w: real, unit: real, product: real)
    requires unit > 0.0 && w * unit == product
    ensures v > w <==> v * unit > product
  {
    var d := v - w;
    assert v * unit == d * unit + product;
    if d > 0.0 {
      assert d * unit > 0.0;
    } else {
      assert d * unit <= 0.0;
    }
  }

  lemma ScaleBounds(step: real)
    requires step > 0.0
    ensures -0.5 * step <= 0.0 && step * 255.0 <= 255.5 * step
  {
  }

  lemma HalfStepInVolts(c: real, v: real, step: real, r: real)
    requires r > 0.0 && step * r == 0.3 / 255.0 && -0.5 * step <= c * step - v <= 0.5 * step
    ensures -0.15 <= c * 0.3 - 255.0 * (v * r) <= 0.15
  {
    var d := c * step - v;
    Scale(-0.5 * step, d, r);
    Scale(d, 0.5 * step, r);
    assert d * r == c * (step * r) - v * r;
    assert (0.5 * step) * r == 0.5 * (step * r) && (-0.5 * step) * r == -0.5 * (step * r);
  }

  /** The short-circuit command: the lowest codes at zero, and the highest at 1000 A or at the default 100 A,
  from the resistor on that lets that current reach the last code's rounding edge. */
  lemma ShortCircuitWords(r: real)
    requires r > 0.0
    ensures Computes("SC_THRESHOLD", MIN, MIN, r, 0x12, 0x0000)
    ensures r >= 0.00025272 ==> Computes("SC_THRESHOLD", MAX, MAX, r, 0x12, 0x00FF)
    ensures r >= 0.00025272 ==> Computes("SC_THRESHOLD", MAX, MIN, r, 0x12, 0x000F)
    ensures r >= 0.0025272 ==> Computes("SC_THRESHOLD", DEFAULT, DEFAULT, r, 0x12, 0x00FF)
  {
    hide Imax, Computes;
    ScComputes(MIN, MIN, r, 0.0, 0, 0.0, 0);
    if r >= 0.00025272 {
      ScComputes(MAX, MAX, r, 1000.0, 15, 1000.0, 15);
      ScComputes(MAX, MIN, r, 1000.0, 15, 0.0, 0);
    }
    if r >= 0.0025272 {
      ScComputes(DEFAULT, DEFAULT, r, 100.0, 15, 100.0, 15);
    }
  }

  lemma ScComputes(arg1: Arg, arg2: Arg, r: real, current: real, low: nat, persistent: real, high: nat)
    requires r > 0.0
    requires Asks(arg1, 0.0, 1000.0, 100.0, current) && Nearest(low, ScExcess(current, r), SC_STEP, 15)
    requires Asks(arg2, 0.0, 1000.0, 100.0, persistent) && Nearest(high, ScExcess(persistent, r), SC_STEP, 15)
    ensures Computes("SC_THRESHOLD", arg1, arg2, r, 0x12, high * 0x10 + low)
  {
    hide Nearest, Is, ValueOf, ScExcess, Imax;
    forall atof: string -> real, data: Word | Encodes(ShortCircuit, arg1, arg2, r, atof, data)
      ensures data == high * 0x10 + low
    {
      AsksFor(arg1, 0.0, 1000.0, 100.0, current, atof);
      AsksFor(arg2, 0.0, 1000.0, 100.0, persistent, atof);
      NearestUnique(data % 0x10, low, ScExcess(current, r), SC_STEP, 15);
      NearestUnique(data / 0x10, high, ScExcess(persistent, r), SC_STEP, 15);
    }
  }
}

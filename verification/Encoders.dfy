/** The encoder bank: positions relative to per-channel offsets, read through the chip-select decoder. */
module Encoders {
  import opened Bits
  import opened SpiMux

  datatype Op =
    | Position(channel: Byte, answers: Answers)
    | Turns(channel: Byte, answers: Answers)
    | Reset(channel: Byte, answers: Answers)  // answers: what the encoders hold once rebooted

  /** Every pin write and transfer of one operation. */
  function OpActions(op: Op): seq<Action> {
    match op
    case Position(channel, _) => Transaction(channel, [0x00, 0x00])
    case Turns(channel, _) => Transaction(channel, [0x00, 0xA0, 0x00, 0x00])
    case Reset(channel, _) => Transaction(channel, [0x00, 0x60]) + Transaction(channel, [0x00, 0x00])
  }

  function RunActions(ops: seq<Op>): seq<Action> {
    if ops == [] then [] else RunActions(ops[..|ops| - 1]) + OpActions(ops[|ops| - 1])
  }

  lemma OpSafe(b: Board, op: Op)
    requires Idle(b) && op.channel <= 15
    ensures Idle(Exec(b, OpActions(op)))
    ensures SafeThroughout(b, OpActions(op), op.channel)
  {
    match op
    case Position(channel, _) => TransactionSafe(b, channel, [0x00, 0x00]);
    case Turns(channel, _) => TransactionSafe(b, channel, [0x00, 0xA0, 0x00, 0x00]);
    case Reset(channel, _) =>
      var reboot, read := Transaction(channel, [0x00, 0x60]), Transaction(channel, [0x00, 0x00]);
      TransactionSafe(b, channel, [0x00, 0x60]);
      TransactionSafe(Exec(b, reboot), channel, [0x00, 0x00]);
      ExecConcat(b, reboot, read);
      SafeConcat(b, reboot, read, channel);
  }

  /** Chip-select exclusion. From the state setup leaves, before every operation of every run nothing is selected
  and the latch is closed; after every single pin write and transfer of that operation nothing but its own
  channel is selected, nothing at all while the latch is open, and exactly its channel at each transfer. */
  lemma {:induction false} ChipSelectExclusion(b: Board, ops: seq<Op>, i: nat)
    requires Idle(b) && AllInRange(ops)
    requires i <= |ops|
    ensures Idle(Exec(b, RunActions(ops[..i])))
    ensures Asserted(Exec(b, RunActions(ops[..i]))) == {}
    ensures i < |ops| ==> SafeThroughout(Exec(b, RunActions(ops[..i])), OpActions(ops[i]), ops[i].channel)
    decreases i
  {
    hide OpActions, SafeThroughout;
    if i > 0 {
      ChipSelectExclusion(b, ops, i - 1);
      assert ops[..i][..i - 1] == ops[..i - 1];
      OpSafe(Exec(b, RunActions(ops[..i - 1])), ops[i - 1]);
      ExecConcat(b, RunActions(ops[..i - 1]), OpActions(ops[i - 1]));
    }
    OneHotOutputs(Exec(b, RunActions(ops[..i])));
    if i < |ops| {
      OpSafe(Exec(b, RunActions(ops[..i])), ops[i]);
    }
  }

  /** Chip selects are exclusive after every action of every operation of the run. */
  predicate RunSafe(b: Board, ops: seq<Op>) {
    forall j :: 0 <= j < |ops| ==>
      SafeThroughout(Exec(b, RunActions(ops[..j])), OpActions(ops[j]), ops[j].channel)
  }

  lemma RunIsSafe(b: Board, ops: seq<Op>)
    requires Idle(b) && AllInRange(ops)
    ensures RunSafe(b, ops)
  {
    hide SafeThroughout, Exec, OpActions, RunActions;
    forall j | 0 <= j < |ops|
      ensures SafeThroughout(Exec(b, RunActions(ops[..j])), OpActions(ops[j]), ops[j].channel)
    {
      ChipSelectExclusion(b, ops, j);
    }
  }

  /** The twelve position bits of two answer bytes. */
  function Middle12(high: Byte, low: Byte): (r: nat)
    ensures r < 4096
  {
    ((high * 0x100 + low) / 4) % 4096
  }

  function RawPosition(answers: Answers, channel: nat): (r: nat)
    ensures r < 4096
  {
    Middle12(answers(channel, 0), answers(channel, 1))
  }

  lemma Middle12Bits(high: Byte, low: Byte)
    ensures Or(Shl(high, 8), low) < 0x1_0000
    ensures And(Shr(Or(Shl(high, 8), low), 2), 0x0FFF) == Middle12(high, low)
    ensures Middle12(high, low) == (high * 256 + low) / 4 % 4096
  {
    hide And, Or, Shl, Shr;
    Pow2Values();
    JoinIsSum(high, low, 8);
    var word := Or(Shl(high, 8), low);
    ShrIsDiv(word, 2);
    Mask(Shr(word, 2), 0x0FFF, 12);
  }

  // ----- offsets over a run -----

  const ZEROED: seq<nat> := seq(16, _ => 0)

  function StepOffsets(offsets: seq<nat>, op: Op): seq<nat>
    requires |offsets| == 16 && op.channel <= 15
  {
    if op.Reset? then offsets[op.channel := RawPosition(op.answers, op.channel)] else offsets
  }

  function RunOffsets(offsets: seq<nat>, ops: seq<Op>): (r: seq<nat>)
    requires |offsets| == 16 && AllInRange(ops)
    ensures |r| == 16
  {
    if ops == [] then offsets else StepOffsets(RunOffsets(offsets, ops[..|ops| - 1]), ops[|ops| - 1])
  }

  /** The raw position the last reset of `channel` captured, or 0 if there was none. */
  function Captured(ops: seq<Op>, channel: nat): nat {
    if ops == [] then 0
    else
      var last := ops[|ops| - 1];
      if last.Reset? && last.channel == channel then RawPosition(last.answers, channel)
      else Captured(ops[..|ops| - 1], channel)
  }

  function Degrees(position: int): real {
    position as real * 360.0 / 4096.0
  }

  /** What the history says reading `channel` yields after the operations. */
  function HistoryReading(ops: seq<Op>, answers: Answers, channel: nat): real {
    Degrees((RawPosition(answers, channel) - Captured(ops, channel)) % 4096)
  }

  /** What reading `channel` yields against its offset. */
  function Reading(offsets: seq<nat>, answers: Answers, channel: nat): real
    requires |offsets| == 16 && channel <= 15
  {
    Degrees((RawPosition(answers, channel) - offsets[channel]) % 4096)
  }

  predicate ValidOffsets(offsets: seq<nat>) {
    |offsets| == 16 && forall c :: 0 <= c < 16 ==> offsets[c] < 4096
  }

  /** Encoder history. After every run from zeroed offsets, each channel reads its raw position less what its own
  last reset captured, modulo one turn; resets of other channels do not enter. */
  lemma {:induction false} EncoderHistory(ops: seq<Op>, channel: nat, answers: Answers)
    requires channel <= 15 && AllInRange(ops)
    ensures var offsets := RunOffsets(ZEROED, ops);
            && ValidOffsets(offsets)
            && offsets[channel] == Captured(ops, channel)
            && Reading(offsets, answers, channel) == HistoryReading(ops, answers, channel)
            && Reading(offsets, answers, channel) * 4096.0
               == 360.0 * ((RawPosition(answers, channel) - Captured(ops, channel)) % 4096) as real
            && 0.0 <= Reading(offsets, answers, channel) < 360.0
    decreases |ops|
  {
    if ops != [] {
      EncoderHistory(ops[..|ops| - 1], channel, answers);
    }
  }

  /** Between resets. After a reset of the channel and any operations without another, a read yields the angle from
  the position held at that reset, in the bytes the encoder answered both times; the same bytes read zero. */
  lemma ReadSinceReset(before: seq<Op>, reset: Op, between: seq<Op>, answers: Answers)
    requires AllInRange(before) && AllInRange(between)
    requires reset.Reset? && reset.channel <= 15
    requires forall j :: 0 <= j < |between| ==> !(between[j].Reset? && between[j].channel == reset.channel)
    ensures var offsets := RunOffsets(ZEROED, before + [reset] + between);
            var c := reset.channel;
            var now := (answers(c, 0) * 256 + answers(c, 1)) / 4 % 4096;
            var held := (reset.answers(c, 0) * 256 + reset.answers(c, 1)) / 4 % 4096;
            Reading(offsets, answers, c) * 4096.0 == 360.0 * ((now - held) % 4096) as real
  {
    hide RunOffsets, Captured, Reading, HistoryReading, RawPosition, ValidOffsets;
    var ops := before + [reset] + between;
    EncoderHistory(ops, reset.channel, answers);
    RawIs(answers, reset.channel);
    RawIs(reset.answers, reset.channel);
    CapturedSince(before + [reset], between, reset.channel);
    CapturedLast(before, reset);
  }

  /** A channel never reset reads its raw position. */
  lemma ReadUnreset(ops: seq<Op>, channel: nat, answers: Answers)
    requires channel <= 15 && AllInRange(ops)
    requires forall j :: 0 <= j < |ops| ==> !(ops[j].Reset? && ops[j].channel == channel)
    ensures Reading(RunOffsets(ZEROED, ops), answers, channel) * 4096.0
         == 360.0 * ((answers(channel, 0) * 256 + answers(channel, 1)) / 4 % 4096) as real
  {
    hide RunOffsets, Captured, Reading, HistoryReading, RawPosition, ValidOffsets;
    EncoderHistory(ops, channel, answers);
    RawIs(answers, channel);
    assert [] + ops == ops;
    CapturedSince([], ops, channel);
    NothingCaptured(channel);
  }

  lemma RawIs(answers: Answers, channel: nat)
    ensures RawPosition(answers, channel) == (answers(channel, 0) * 256 + answers(channel, 1)) / 4 % 4096
  {
    hide And, Or, Shl, Shr;
    Middle12Bits(answers(channel, 0), answers(channel, 1));
  }

  lemma NothingCaptured(channel: nat)
    ensures Captured([], channel) == 0
  {
  }

  lemma CapturedLast(before: seq<Op>, reset: Op)
    requires reset.Reset?
    ensures Captured(before + [reset], reset.channel) == RawPosition(reset.answers, reset.channel)
  {
  }

  lemma {:induction false} CapturedSince(before: seq<Op>, between: seq<Op>, channel: nat)
    requires forall j :: 0 <= j < |between| ==> !(between[j].Reset? && between[j].channel == channel)
    ensures Captured(before + between, channel) == Captured(before, channel)
    decreases |between|
  {
    hide RawPosition;
    if between == [] {
      assert before + between == before;
    } else {
      var init := between[..|between| - 1];
      assert (before + between)[..|before + between| - 1] == before + init;
      CapturedSince(before, init, channel);
    }
  }

  // ----- what the encoders are told -----

  /** A position read sends two zero bytes to its own encoder, a turns read 0x00 0xA0 0x00 0x00, a reset the reboot
  command 0x00 0x60 and then two zero bytes; no other encoder hears anything. */
  lemma OpHeard(b: Board, op: Op, k: nat)
    requires Idle(b) && op.channel <= 15
    ensures Heard(b, OpActions(op), k)
         == if k != op.channel then []
            else match op
                 case Position(_, _) => [0x00, 0x00]
                 case Turns(_, _) => [0x00, 0xA0, 0x00, 0x00]
                 case Reset(_, _) => [0x00, 0x60, 0x00, 0x00]
  {
    hide Heard, Exec, Transaction;
    match op
    case Position(channel, _) => TransactionHeard(b, channel, [0x00, 0x00], k);
    case Turns(channel, _) => TransactionHeard(b, channel, [0x00, 0xA0, 0x00, 0x00], k);
    case Reset(channel, _) =>
      var reboot, read := Transaction(channel, [0x00, 0x60]), Transaction(channel, [0x00, 0x00]);
      TransactionSafe(b, channel, [0x00, 0x60]);
      HeardConcat(b, reboot, read, k);
      TransactionHeard(b, channel, [0x00, 0x60], k);
      TransactionHeard(Exec(b, reboot), channel, [0x00, 0x00], k);
  }

  /** The bytes the operations on encoder k send. */
  function OwnBytes(ops: seq<Op>, k: nat): seq<Byte> {
    if ops == [] then []
    else
      OwnBytes(ops[..|ops| - 1], k)
      + if ops[|ops| - 1].channel != k then []
        else match ops[|ops| - 1]
             case Position(_, _) => [0x00, 0x00]
             case Turns(_, _) => [0x00, 0xA0, 0x00, 0x00]
             case Reset(_, _) => [0x00, 0x60, 0x00, 0x00]
  }

  /** Over every run each encoder hears exactly the bytes of its own operations, in order. */
  lemma {:induction false} RunHeard(b: Board, ops: seq<Op>, k: nat)
    requires Idle(b) && AllInRange(ops)
    ensures Heard(b, RunActions(ops), k) == OwnBytes(ops, k)
    decreases |ops|
  {
    hide Heard, Exec, OpActions, SafeThroughout, Asserted;
    if ops == [] {
      assert Heard(b, [], k) == [] by { PinsUnheard(b, [], k); }
    } else {
      var before, op := ops[..|ops| - 1], ops[|ops| - 1];
      RunHeard(b, before, k);
      ChipSelectExclusion(b, ops, |before|);
      HeardConcat(b, RunActions(before), OpActions(op), k);
      OpHeard(Exec(b, RunActions(before)), op, k);
    }
  }

  /** Both branches of the offset correction, with 16-bit truncation, are subtraction modulo 4096. */
  lemma OffsetWraps(position: nat, offset: nat)
    requires position < 4096 && offset < 4096
    ensures position >= offset ==> (position - offset) % 0x1_0000 == (position - offset) % 4096
    ensures position < offset ==> (4096 + position - offset) % 0x1_0000 == (position - offset) % 4096
  {
  }

  class Bank {
    const spi: Spi
    const offsets: array<nat>

    constructor (spi: Spi)
      ensures this.spi == spi && fresh(offsets)
      ensures offsets[..] == ZEROED
    {
      this.spi := spi;
      offsets := new nat[16](_ => 0);
    }

    ghost predicate Valid()
      reads spi, offsets
    {
      ValidOffsets(offsets[..]) && Idle(spi.Board())
    }

    /** The reading is the selected encoder's own position less the channel's offset, modulo one turn. */
    method ReadEncoderPosition(channel: Byte, answers: Answers) returns (degrees: real)
      requires Valid() && channel <= 15
      modifies spi
      ensures Valid() && offsets[..] == old(offsets[..])
      ensures spi.log == old(spi.log) + OpActions(Position(channel, answers))
      ensures degrees == Reading(offsets[..], answers, channel)
      ensures var raw := (answers(channel, 0) * 256 + answers(channel, 1)) / 4 % 4096;
              degrees * 4096.0 == 360.0 * ((raw - offsets[channel]) % 4096) as real
    {
      hide And, Or, Shl, Shr, Exec, Middle12;
      var position := ReadWord(channel, answers);
      Middle12Bits(answers(channel, 0), answers(channel, 1));
      position := And(Shr(position, 2), 0x0FFF);
      OffsetWraps(position, offsets[channel]);
      // 16-bit unsigned arithmetic; neither branch wraps
      if position >= offsets[channel] {
        position := (position - offsets[channel]) % 0x1_0000;
      } else {
        position := ((4096 + position) - offsets[channel]) % 0x1_0000;
      }
      degrees := (position as real * 360.0) / 4096.0;
    }

    /** One transaction reading a big-endian 16-bit word. */
    method ReadWord(channel: Byte, answers: Answers) returns (word: nat)
      requires Idle(spi.Board()) && channel <= 15
      modifies spi
      ensures Idle(spi.Board())
      ensures spi.log == old(spi.log) + Transaction(channel, [0x00, 0x00])
      ensures word == Or(Shl(answers(channel, 0), 8), answers(channel, 1))
    {
      hide And, Or, Shl, Exec, Asserted, ActivateActions, SafeThroughout, Value;
      ActivateSafe(spi.Board(), channel);
      spi.Activate(channel);
      var high := spi.TransferByte(0x00, answers);
      var low := spi.TransferByte(0x00, answers);
      DeactivateSafe(spi.Board(), channel);
      spi.Deactivate();
      word := Or(Shl(high, 8), low);
      assert Transfers([0x00, 0x00]) == [Transfer(0x00), Transfer(0x00)];
    }

    method ReadTurns(channel: Byte, answers: Answers) returns (turns: nat)
      requires Valid() && channel <= 15
      modifies spi
      ensures Valid() && offsets[..] == old(offsets[..])
      ensures spi.log == old(spi.log) + OpActions(Turns(channel, answers))
      ensures turns == Middle12(answers(channel, 2), answers(channel, 3))
      ensures turns == (answers(channel, 2) * 256 + answers(channel, 3)) / 4 % 4096
    {
      hide And, Or, Shl, Shr, Exec, Asserted, ActivateActions, SafeThroughout, Value, Middle12;
      ActivateSafe(spi.Board(), channel);
      spi.Activate(channel);
      var discarded := spi.TransferByte(0x00, answers);
      discarded := spi.TransferByte(0xA0, answers);
      var high := spi.TransferByte(0x00, answers);
      var low := spi.TransferByte(0x00, answers);
      DeactivateSafe(spi.Board(), channel);
      spi.Deactivate();
      Middle12Bits(high, low);
      turns := And(Shr(Or(Shl(high, 8), low), 2), 0x0FFF);
      var sent := [0x00, 0xA0, 0x00, 0x00];
      assert Transfers(sent) == [Transfer(0x00), Transfer(0xA0), Transfer(0x00), Transfer(0x00)];
      assert spi.log == old(spi.log) + (ActivateActions(channel) + Transfers(sent) + DISABLE);
    }

    /** Sends the reboot command; what the encoders answer meanwhile is discarded. */
    method Reboot(channel: Byte, reboot: Answers)
      requires Idle(spi.Board()) && channel <= 15
      modifies spi
      ensures Idle(spi.Board())
      ensures spi.log == old(spi.log) + Transaction(channel, [0x00, 0x60])
    {
      hide Exec, Asserted, ActivateActions, SafeThroughout, Value;
      ActivateSafe(spi.Board(), channel);
      spi.Activate(channel);
      var discarded := spi.TransferByte(0x00, reboot);
      discarded := spi.TransferByte(0x60, reboot);
      DeactivateSafe(spi.Board(), channel);
      spi.Deactivate();
      assert Transfers([0x00, 0x60]) == [Transfer(0x00), Transfer(0x60)];
    }

    /** reboot: what the encoders answer during the reboot command; answers: what they hold afterwards. */
    method ResetEncoder(channel: Byte, reboot: Answers, answers: Answers)
      requires Valid() && channel <= 15
      modifies spi, offsets
      ensures Valid() && offsets[..] == StepOffsets(old(offsets[..]), Reset(channel, answers))
      ensures offsets[channel] == (answers(channel, 0) * 256 + answers(channel, 1)) / 4 % 4096
      ensures spi.log == old(spi.log) + OpActions(Reset(channel, answers))
    {
      hide And, Or, Shl, Shr, Exec, Transaction, Middle12;
      Reboot(channel, reboot);
      offsets[channel] := 0;
      var rawPosition := ReadWord(channel, answers);
      Middle12Bits(answers(channel, 0), answers(channel, 1));
      rawPosition := And(Shr(rawPosition, 2), 0x0FFF);
      offsets[channel] := rawPosition;
    }

    /** One operation; degrees is what a position read returned. */
    method Perform(op: Op) returns (degrees: real)
      requires Valid() && op.channel <= 15
      modifies spi, offsets
      ensures Valid() && offsets[..] == StepOffsets(old(offsets[..]), op)
      ensures spi.log == old(spi.log) + OpActions(op)
      ensures op.Position? ==> degrees == Reading(old(offsets[..]), op.answers, op.channel)
    {
      hide OpActions, Reading;
      degrees := 0.0;
      match op
      case Position(channel, answers) => degrees := ReadEncoderPosition(channel, answers);
      case Turns(channel, answers) => var turns := ReadTurns(channel, answers);
      case Reset(channel, answers) => ResetEncoder(channel, answers, answers);
    }

    /** Any sequence of operations from zeroed offsets. The chip selects stay exclusive after every pin write and
    transfer, and each position read yields its raw position less what its own channel's last reset captured. */
    method Session(ops: seq<Op>) returns (degrees: seq<real>)
      requires Valid() && offsets[..] == ZEROED && AllInRange(ops)
      modifies spi, offsets
      ensures Valid() && offsets[..] == RunOffsets(ZEROED, ops)
      ensures spi.log == old(spi.log) + RunActions(ops)
      ensures HistoryReadings(ops, degrees)
      ensures RunSafe(old(spi.Board()), ops)
      ensures forall k: nat :: Heard(old(spi.Board()), RunActions(ops), k) == OwnBytes(ops, k)
    {
      hide RunSafe, Heard, OwnBytes, Exec, RunActions, RunOffsets, StepOffsets, OpActions, Reading, HistoryReading;
      RunIsSafe(spi.Board(), ops);
      forall k: nat
        ensures Heard(spi.Board(), RunActions(ops), k) == OwnBytes(ops, k)
      {
        RunHeard(spi.Board(), ops, k);
      }
      NoOps();
      degrees := [];
      var i := 0;
      assert ops[..0] == [];
      while i < |ops|
        invariant 0 <= i <= |ops|
        invariant Valid()
        invariant offsets[..] == RunOffsets(ZEROED, ops[..i])
        invariant spi.log == old(spi.log) + RunActions(ops[..i])
        invariant HistoryReadings(ops[..i], degrees)
      {
        RunSnoc(ops, i);
        EncoderHistory(ops[..i], ops[i].channel, ops[i].answers);
        var d := Perform(ops[i]);
        ReadingsSnoc(ops, i, degrees, d);
        degrees := degrees + [d];
        i := i + 1;
      }
      assert ops[..i] == ops;
    }
  }

  predicate AllInRange(ops: seq<Op>) {
    forall j :: 0 <= j < |ops| ==> ops[j].channel <= 15
  }

  /** One value per operation, and at each position read the one its history calls for. */
  predicate HistoryReadings(ops: seq<Op>, degrees: seq<real>) {
    && |degrees| == |ops|
    && forall j :: 0 <= j < |ops| && ops[j].Position? ==>
         degrees[j] == HistoryReading(ops[..j], ops[j].answers, ops[j].channel)
  }

  lemma NoOps()
    ensures RunOffsets(ZEROED, []) == ZEROED && RunActions([]) == []
  {
  }

  lemma RunSnoc(ops: seq<Op>, i: nat)
    requires i < |ops| && AllInRange(ops)
    ensures RunOffsets(ZEROED, ops[..i + 1]) == StepOffsets(RunOffsets(ZEROED, ops[..i]), ops[i])
    ensures RunActions(ops[..i + 1]) == RunActions(ops[..i]) + OpActions(ops[i])
  {
    hide StepOffsets, OpActions;
    assert ops[..i + 1][..i] == ops[..i];
  }

  lemma ReadingsSnoc(ops: seq<Op>, i: nat, degrees: seq<real>, d: real)
    requires i < |ops| && HistoryReadings(ops[..i], degrees)
    requires ops[i].Position? ==> d == HistoryReading(ops[..i], ops[i].answers, ops[i].channel)
    ensures HistoryReadings(ops[..i + 1], degrees + [d])
  {
    hide HistoryReading;
    forall j | 0 <= j < i && ops[j].Position?
      ensures (degrees + [d])[j] == HistoryReading(ops[..i + 1][..j], ops[j].answers, ops[j].channel)
    {
      assert ops[..i][j] == ops[j];
      assert ops[..i][..j] == ops[..j] == ops[..i + 1][..j];
    }
    assert ops[..i + 1][..i] == ops[..i];
  }
}

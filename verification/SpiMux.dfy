/** Sixteen encoder chip selects behind a latched four-bit decoder, modelled pin write by pin write.

Device model: while STROBE is high the latch follows the four address pins, while it is low the latch holds;
INHIBIT high forces all sixteen outputs off. Output k is a gate of its own over the latched bits, so that at
most one is on is something to prove. An encoder answers a transaction byte by byte, counted from the moment
its select came on. */
module SpiMux {
  import opened Bits

  datatype Nibble = Nibble(b0: bool, b1: bool, b2: bool, b3: bool)

  datatype Pin = CS1 | CS2 | CS3 | CS4 | STROBE | INHIBIT

  datatype Board = Board(address: Nibble, strobe: bool, inhibit: bool, latch: Nibble, shifted: nat)

  datatype Action = Write(pin: Pin, level: bool) | Transfer(sent: Byte)

  /** What each encoder would answer: encoder number and position in the transaction to a byte. */
  type Answers = (nat, nat) -> Byte

  function Drive(b: Board, pin: Pin, level: bool): Board {
    match pin
    case CS1 => b.(address := b.address.(b0 := level))
    case CS2 => b.(address := b.address.(b1 := level))
    case CS3 => b.(address := b.address.(b2 := level))
    case CS4 => b.(address := b.address.(b3 := level))
    case STROBE => b.(strobe := level)
    case INHIBIT => b.(inhibit := level, shifted := 0)
  }

  function Act(b: Board, a: Action): Board {
    match a
    case Write(pin, level) =>
      var driven := Drive(b, pin, level);
      if driven.strobe then driven.(latch := driven.address) else driven
    case Transfer(_) => b.(shifted := b.shifted + 1)
  }

  function Exec(b: Board, actions: seq<Action>): Board
    decreases |actions|
  {
    if actions == [] then b else Exec(Act(b, actions[0]), actions[1..])
  }

  predicate Gate(n: Nibble, k: nat) {
    && n.b0 == (k % 2 == 1)
    && n.b1 == ((k / 2) % 2 == 1)
    && n.b2 == ((k / 4) % 2 == 1)
    && n.b3 == ((k / 8) % 2 == 1)
  }

  function Asserted(b: Board): set<nat> {
    set k: nat | k < 16 && !b.inhibit && Gate(b.latch, k)
  }

  function Value(n: Nibble): nat {
    (if n.b0 then 1 else 0) + (if n.b1 then 2 else 0) + (if n.b2 then 4 else 0) + (if n.b3 then 8 else 0)
  }

  lemma GateIsValue(n: Nibble, k: nat)
    requires k < 16
    ensures Gate(n, k) <==> k == Value(n)
  {
    var k2 := k / 2;
    var k4 := k2 / 2;
    assert k4 == k / 4 && k4 / 2 == k / 8;
  }

  /** The sixteen gates never overlap: outputs on are the decoded latch, or none under INHIBIT. */
  lemma OneHotOutputs(b: Board)
    ensures Asserted(b) == if b.inhibit then {} else {Value(b.latch)}
    ensures |Asserted(b)| <= 1
  {
    forall k: nat | k < 16
      ensures Gate(b.latch, k) <==> k == Value(b.latch)
    {
      GateIsValue(b.latch, k);
    }
    assert b.inhibit ==> Asserted(b) == {};
    assert !b.inhibit ==> Asserted(b) == {Value(b.latch)};
  }

  /** The byte on the bus during a transfer; an undriven bus reads 0xFF. */
  function Response(b: Board, answers: Answers): Byte {
    if b.inhibit then 0xFF else answers(Value(b.latch), b.shifted)
  }

  // ----- what the firmware does with the pins -----

  function AddressActions(channel: nat): seq<Action> {
    [Write(CS1, channel % 2 == 1), Write(CS2, (channel / 2) % 2 == 1),
     Write(CS3, (channel / 4) % 2 == 1), Write(CS4, (channel / 8) % 2 == 1)]
  }

  const ENABLE: seq<Action> := [Write(STROBE, true), Write(STROBE, false), Write(INHIBIT, false)]
  const DISABLE: seq<Action> := [Write(INHIBIT, true)]

  function SelectActions(channel: nat): seq<Action> {
    if channel > 15 then [] else AddressActions(channel)
  }

  function ActivateActions(channel: nat): seq<Action> {
    SelectActions(channel) + ENABLE
  }

  /** One transaction: activate, exchange the given bytes, deactivate. */
  function Transaction(channel: nat, sent: seq<Byte>): seq<Action> {
    ActivateActions(channel) + Transfers(sent) + DISABLE
  }

  function Transfers(sent: seq<Byte>): seq<Action> {
    seq(|sent|, i requires 0 <= i < |sent| => Transfer(sent[i]))
  }

  // ----- exclusion -----

  /** Between operations: nothing selected, latch closed. */
  predicate Idle(b: Board) {
    b.inhibit && !b.strobe
  }

  /** Channel selected, latch closed, n bytes exchanged. */
  predicate Ready(b: Board, channel: nat, n: nat) {
    !b.inhibit && !b.strobe && Value(b.latch) == channel && b.shifted == n
  }

  /** What must hold right after action a of an operation on `channel`. */
  predicate Safe(b: Board, a: Action, channel: nat) {
    && Asserted(b) <= {channel}
    && |Asserted(b)| <= 1
    && (b.strobe ==> Asserted(b) == {})
    && (a.Transfer? ==> Asserted(b) == {channel})
  }

  /** Safe after every single action of the sequence. */
  predicate SafeThroughout(b: Board, actions: seq<Action>, channel: nat)
    decreases |actions|
  {
    actions == [] || (Safe(Act(b, actions[0]), actions[0], channel)
                      && SafeThroughout(Act(b, actions[0]), actions[1..], channel))
  }

  lemma {:induction false} ExecConcat(b: Board, f: seq<Action>, g: seq<Action>)
    ensures Exec(b, f + g) == Exec(Exec(b, f), g)
    decreases |f|
  {
    if f == [] {
      assert f + g == g;
    } else {
      assert (f + g)[1..] == f[1..] + g;
      ExecConcat(Act(b, f[0]), f[1..], g);
    }
  }

  lemma ExecSnoc(b: Board, f: seq<Action>, a: Action)
    ensures Exec(b, f + [a]) == Act(Exec(b, f), a)
  {
    ExecConcat(b, f, [a]);
    assert [a][1..] == [];
  }

  lemma {:induction false} SafeConcat(b: Board, f: seq<Action>, g: seq<Action>, channel: nat)
    requires SafeThroughout(b, f, channel) && SafeThroughout(Exec(b, f), g, channel)
    ensures SafeThroughout(b, f + g, channel)
    decreases |f|
  {
    if f == [] {
      assert f + g == g;
    } else {
      assert (f + g)[1..] == f[1..] + g;
      SafeConcat(Act(b, f[0]), f[1..], g, channel);
    }
  }

  /** Nothing is selected after writing a pin other than INHIBIT while INHIBIT is high. */
  lemma QuietWrite(b: Board, a: Action, channel: nat)
    requires b.inhibit && a.Write? && a.pin != INHIBIT
    ensures Act(b, a).inhibit && Safe(Act(b, a), a, channel)
  {
    OneHotOutputs(Act(b, a));
  }

  lemma AddressSafe(b: Board, channel: nat)
    requires Idle(b) && channel <= 15
    ensures var b' := Exec(b, AddressActions(channel));
            Idle(b') && Gate(b'.address, channel)
    ensures SafeThroughout(b, AddressActions(channel), channel)
  {
    var w := AddressActions(channel);
    var b1 := Act(b, w[0]);
    var b2 := Act(b1, w[1]);
    var b3 := Act(b2, w[2]);
    var b4 := Act(b3, w[3]);
    QuietWrite(b, w[0], channel);
    QuietWrite(b1, w[1], channel);
    QuietWrite(b2, w[2], channel);
    QuietWrite(b3, w[3], channel);
    assert w[1..][1..][1..][1..] == [];
    assert w[1..][0] == w[1] && w[1..][1..][0] == w[2] && w[1..][1..][1..][0] == w[3];
    assert SafeThroughout(b3, w[1..][1..][1..], channel);
    assert SafeThroughout(b2, w[1..][1..], channel);
    assert SafeThroughout(b1, w[1..], channel);
    assert Exec(b3, w[1..][1..][1..]) == b4;
    assert Exec(b1, w[1..]) == b4;
  }

  /** Latching the address pins and enabling the outputs selects the channel on those pins, whatever it is. */
  lemma EnableSelects(b: Board)
    requires Idle(b)
    ensures var b' := Exec(b, ENABLE);
            Ready(b', Value(b.address), 0) && b'.address == b.address
    ensures SafeThroughout(b, ENABLE, Value(b.address))
  {
    var w := ENABLE;
    var b1 := Act(b, w[0]);
    var b2 := Act(b1, w[1]);
    var b3 := Act(b2, w[2]);
    QuietWrite(b, w[0], Value(b.address));
    QuietWrite(b1, w[1], Value(b.address));
    OneHotOutputs(b3);
    assert w[1..][1..][1..] == [];
    assert w[1..][0] == w[1] && w[1..][1..][0] == w[2];
    assert SafeThroughout(b2, w[1..][1..], Value(b.address));
    assert SafeThroughout(b1, w[1..], Value(b.address));
    assert Exec(b2, w[1..][1..]) == b3;
    assert Exec(b1, w[1..]) == b3;
  }

  lemma {:induction false} TransfersSafe(b: Board, sent: seq<Byte>, channel: nat, n: nat)
    requires Ready(b, channel, n)
    ensures Ready(Exec(b, Transfers(sent)), channel, n + |sent|)
    ensures SafeThroughout(b, Transfers(sent), channel)
    decreases |sent|
  {
    if sent != [] {
      var b' := Act(b, Transfers(sent)[0]);
      OneHotOutputs(b');
      assert Transfers(sent)[1..] == Transfers(sent[1..]);
      TransfersSafe(b', sent[1..], channel, n + 1);
    }
  }

  lemma DeactivateSafe(b: Board, channel: nat)
    requires !b.strobe
    ensures Idle(Exec(b, DISABLE)) && SafeThroughout(b, DISABLE, channel)
    ensures Exec(b, DISABLE).address == b.address
  {
    OneHotOutputs(Act(b, DISABLE[0]));
    assert DISABLE[1..] == [];
  }

  lemma ActivateSafe(b: Board, channel: nat)
    requires Idle(b) && channel <= 15
    ensures Ready(Exec(b, ActivateActions(channel)), channel, 0)
    ensures SafeThroughout(b, ActivateActions(channel), channel)
  {
    var addressed := Exec(b, AddressActions(channel));
    AddressSafe(b, channel);
    GateIsValue(addressed.address, channel);
    EnableSelects(addressed);
    ExecConcat(b, AddressActions(channel), ENABLE);
    SafeConcat(b, AddressActions(channel), ENABLE, channel);
  }

  /** One transaction, from idle to idle. */
  lemma TransactionSafe(b: Board, channel: nat, sent: seq<Byte>)
    requires Idle(b) && channel <= 15
    ensures Idle(Exec(b, Transaction(channel, sent)))
    ensures SafeThroughout(b, Transaction(channel, sent), channel)
  {
    var activate, transfers := ActivateActions(channel), Transfers(sent);
    ActivateSafe(b, channel);
    var ready := Exec(b, activate);
    TransfersSafe(ready, sent, channel, 0);
    var done := Exec(ready, transfers);
    DeactivateSafe(done, channel);
    ExecConcat(b, activate, transfers);
    SafeConcat(b, activate, transfers, channel);
    ExecConcat(b, activate + transfers, DISABLE);
    SafeConcat(b, activate + transfers, DISABLE, channel);
  }

  // ----- what an encoder hears -----

  /** The bytes sent while encoder k is selected. */
  function Heard(b: Board, actions: seq<Action>, k: nat): seq<Byte>
    decreases |actions|
  {
    if actions == [] then []
    else
      (if actions[0].Transfer? && k in Asserted(b) then [actions[0].sent] else [])
      + Heard(Act(b, actions[0]), actions[1..], k)
  }

  lemma {:induction false} HeardConcat(b: Board, f: seq<Action>, g: seq<Action>, k: nat)
    ensures Heard(b, f + g, k) == Heard(b, f, k) + Heard(Exec(b, f), g, k)
    decreases |f|
  {
    hide Asserted, Act;
    if f == [] {
      assert f + g == g;
    } else {
      assert (f + g)[1..] == f[1..] + g;
      HeardConcat(Act(b, f[0]), f[1..], g, k);
    }
  }

  lemma {:induction false} PinsUnheard(b: Board, actions: seq<Action>, k: nat)
    requires forall i :: 0 <= i < |actions| ==> actions[i].Write?
    ensures Heard(b, actions, k) == []
    decreases |actions|
  {
    hide Asserted, Act;
    if actions != [] {
      PinsUnheard(Act(b, actions[0]), actions[1..], k);
    }
  }

  lemma {:induction false} TransfersHeard(b: Board, sent: seq<Byte>, channel: nat, n: nat, k: nat)
    requires Ready(b, channel, n)
    ensures Heard(b, Transfers(sent), k) == if k == channel then sent else []
    decreases |sent|
  {
    if sent != [] {
      OneHotOutputs(b);
      assert Transfers(sent)[1..] == Transfers(sent[1..]);
      TransfersHeard(Act(b, Transfers(sent)[0]), sent[1..], channel, n + 1, k);
    }
  }

  /** In a transaction the encoder addressed hears the bytes sent, and no other encoder hears anything. */
  lemma TransactionHeard(b: Board, channel: nat, sent: seq<Byte>, k: nat)
    requires Idle(b) && channel <= 15
    ensures Heard(b, Transaction(channel, sent), k) == if k == channel then sent else []
  {
    var activate, transfers := ActivateActions(channel), Transfers(sent);
    hide Heard, Exec;
    ActivateSafe(b, channel);
    HeardConcat(b, activate + transfers, DISABLE, k);
    HeardConcat(b, activate, transfers, k);
    PinsUnheard(b, activate, k);
    TransfersHeard(Exec(b, activate), sent, channel, 0, k);
    PinsUnheard(Exec(b, activate + transfers), DISABLE, k);
  }

  /** An out-of-range channel leaves the address pins alone, so activation selects the last channel set on them. */
  lemma RejectedChannelSelectsStale(b: Board, channel: nat)
    requires Idle(b) && channel > 15
    ensures Asserted(Exec(b, ActivateActions(channel))) == {Value(b.address)}
  {
    assert ActivateActions(channel) == ENABLE;
    EnableSelects(b);
    OneHotOutputs(Exec(b, ENABLE));
  }

  // ----- the driver -----

  class Spi {
    const origin: Board
    var log: seq<Action>  // every pin write and transfer since origin
    var muxChannel: nat

    constructor (origin: Board)
      ensures this.origin == origin && log == []
    {
      this.origin, log, muxChannel := origin, [], 0;
    }

    function Board(): Board
      reads this
    {
      Exec(origin, log)
    }

    method DigitalWrite(pin: Pin, level: bool)
      modifies this`log
      ensures log == old(log) + [Write(pin, level)]
    {
      log := log + [Write(pin, level)];
    }

    /** The byte received comes from whichever encoder is selected at that moment. */
    method TransferByte(sent: Byte, answers: Answers) returns (received: Byte)
      modifies this`log
      ensures log == old(log) + [Transfer(sent)]
      ensures received == Response(old(Board()), answers)
      ensures Board() == Act(old(Board()), Transfer(sent))
    {
      received := Response(Board(), answers);
      ExecSnoc(origin, log, Transfer(sent));
      log := log + [Transfer(sent)];
    }

    /** `SPI_CS_MUX` */
    method SelectChannel(newChannel: Byte)
      modifies this
      ensures log == old(log) + SelectActions(newChannel)
      ensures muxChannel == if newChannel > 15 then old(muxChannel) else newChannel
    {
      if newChannel > 15 {
        return;
      }
      hide And, Shr;
      muxChannel := newChannel;
      AddressBits(newChannel);
      DigitalWrite(CS1, And(muxChannel, 1) != 0);
      DigitalWrite(CS2, And(Shr(muxChannel, 1), 1) != 0);
      DigitalWrite(CS3, And(Shr(muxChannel, 2), 1) != 0);
      DigitalWrite(CS4, And(Shr(muxChannel, 3), 1) != 0);
    }

    /** `ACTIVATE_MUX` */
    method Activate(channel: Byte)
      modifies this
      ensures log == old(log) + ActivateActions(channel)
      ensures Board() == Exec(old(Board()), ActivateActions(channel))
    {
      hide Exec;
      SelectChannel(channel);
      DigitalWrite(STROBE, true);
      DigitalWrite(STROBE, false);
      DigitalWrite(INHIBIT, false);
      assert log == old(log) + ActivateActions(channel);
      ExecConcat(origin, old(log), ActivateActions(channel));
    }

    /** `DEACTIVATE_MUX` */
    method Deactivate()
      modifies this`log
      ensures log == old(log) + DISABLE
      ensures Board() == Exec(old(Board()), DISABLE)
    {
      ExecConcat(origin, log, DISABLE);
      DigitalWrite(INHIBIT, true);
    }
  }

  lemma AddressBits(channel: nat)
    ensures And(channel, 1) == channel % 2
    ensures And(Shr(channel, 1), 1) == (channel / 2) % 2
    ensures And(Shr(channel, 2), 1) == (channel / 4) % 2
    ensures And(Shr(channel, 3), 1) == (channel / 8) % 2
  {
    hide And, Shr;
    Pow2Values();
    Mask(channel, 1, 1);
    Mask(Shr(channel, 1), 1, 1);
    Mask(Shr(channel, 2), 1, 1);
    Mask(Shr(channel, 3), 1, 1);
    ShrIsDiv(channel, 1);
    ShrIsDiv(channel, 2);
    ShrIsDiv(channel, 3);
  }
}

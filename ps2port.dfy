/**
 * The i8042 PS/2 controller driver of src/hw/ps2port.c and src/hw/ps2port.h.
 *
 * The controller is modelled as a script of samples: each read of the
 * status port polls the next sample, and gives the three status bits the
 * driver tests; a read of the data port gives the output-buffer byte of the
 * sample polled last. Past the script the controller is idle (output buffer
 * empty, input buffer free). The answers of successive `timer_check` calls
 * are scripted as well (past that list every timer has expired). A `Bus`
 * records how many samples and timer checks have been used and every `outb`
 * made so far. Each routine is a specification function from the script
 * and the bus to its result; the driver class runs the routines as the C
 * code does, with its loops, and is proved equal to them.
 */
module Ps2Port {
  import opened Bits
  import opened Wrappers

  // ---------------------------------------------------------------------
  // Ports, command words and register bits (ps2port.h)
  // ---------------------------------------------------------------------

  const PORT_PS2_DATA: int := 0x60
  const PORT_PS2_STATUS: int := 0x64

  /** Command words: opcode in bits 0-7, bytes received in 8-11, bytes sent in 12-15. */
  const I8042_CMD_CTL_RCTR: bv16 := 0x0120
  const I8042_CMD_CTL_WCTR: bv16 := 0x1060
  const I8042_CMD_CTL_TEST: bv16 := 0x01aa
  const I8042_CMD_KBD_TEST: bv16 := 0x01ab
  const I8042_CMD_KBD_DISABLE: bv16 := 0x00ad
  const I8042_CMD_KBD_ENABLE: bv16 := 0x00ae
  const I8042_CMD_AUX_DISABLE: bv16 := 0x00a7
  const I8042_CMD_AUX_ENABLE: bv16 := 0x00a8
  const I8042_CMD_AUX_SEND: bv16 := 0x10d4

  const ATKBD_CMD_SETLEDS: bv16 := 0x10ed
  const ATKBD_CMD_SSCANSET: bv16 := 0x10f0
  const ATKBD_CMD_GETID: bv16 := 0x02f2
  const ATKBD_CMD_ENABLE: bv16 := 0x00f4
  const ATKBD_CMD_RESET_DIS: bv16 := 0x00f5
  const ATKBD_CMD_RESET_BAT: bv16 := 0x01ff

  const PSMOUSE_CMD_SETSCALE11: bv16 := 0x00e6
  const PSMOUSE_CMD_SETSCALE21: bv16 := 0x00e7
  const PSMOUSE_CMD_SETRES: bv16 := 0x10e8
  const PSMOUSE_CMD_GETINFO: bv16 := 0x03e9
  const PSMOUSE_CMD_GETID: bv16 := 0x02f2
  const PSMOUSE_CMD_SETRATE: bv16 := 0x10f3
  const PSMOUSE_CMD_ENABLE: bv16 := 0x00f4
  const PSMOUSE_CMD_DISABLE: bv16 := 0x00f5
  const PSMOUSE_CMD_RESET_BAT: bv16 := 0x02ff

  /** Status register bits. */
  const I8042_STR_PARITY: bv8 := 0x80
  const I8042_STR_TIMEOUT: bv8 := 0x40
  const I8042_STR_AUXDATA: bv8 := 0x20
  const I8042_STR_KEYLOCK: bv8 := 0x10
  const I8042_STR_CMDDAT: bv8 := 0x08
  const I8042_STR_MUXERR: bv8 := 0x04
  const I8042_STR_IBF: bv8 := 0x02
  const I8042_STR_OBF: bv8 := 0x01

  /** Control register bits. */
  const I8042_CTR_KBDINT: bv8 := 0x01
  const I8042_CTR_AUXINT: bv8 := 0x02
  const I8042_CTR_IGNKEYLOCK: bv8 := 0x08
  const I8042_CTR_KBDDIS: bv8 := 0x10
  const I8042_CTR_AUXDIS: bv8 := 0x20
  const I8042_CTR_XLATE: bv8 := 0x40

  const I8042_CTL_TIMEOUT: nat := 10000
  const I8042_BUFFER_SIZE: nat := 16

  const PS2_RET_ACK: bv8 := 0xfa
  const PS2_RET_NAK: bv8 := 0xfe

  /** The initial value of the Ps2ctr global: both ports disabled. */
  const PS2CTR_INIT: bv8 := I8042_CTR_KBDDIS | I8042_CTR_AUXDIS

  /** `(command >> 8) & 0xf`, the count of bytes read back, as a bit field. */
  function ReceiveField(cmd: bv16): bv16 {
    (cmd >> 8) & 0xf
  }

  /** `(command >> 12) & 0xf`, the count of parameter bytes sent, as a bit field. */
  function SendField(cmd: bv16): bv16 {
    (cmd >> 12) & 0xf
  }

  /** Bytes read back. */
  function Receive(cmd: bv16): (n: nat)
    ensures n < 16
  {
    ReceiveField(cmd) as nat
  }

  /** Parameter bytes sent. */
  function Send(cmd: bv16): (n: nat)
    ensures n < 16
  {
    SendField(cmd) as nat
  }

  /** `(u8)command`, the byte `outb(command, ...)` puts on the port. */
  function Opcode(cmd: bv16): bv8 {
    (cmd & 0xff) as bv8
  }

  /** A command word from its three fields. */
  function CommandWord(op: bv8, receive: bv16, send: bv16): bv16
    requires receive < 16 && send < 16
  {
    op as bv16 | (receive << 8) | (send << 12)
  }

  /** Encoding then decoding a command word gives back its fields. */
  lemma CommandWordFields(op: bv8, receive: bv16, send: bv16)
    requires receive < 16 && send < 16
    ensures Opcode(CommandWord(op, receive, send)) == op
    ensures Receive(CommandWord(op, receive, send)) == receive as nat
    ensures Send(CommandWord(op, receive, send)) == send as nat
  {
    assert ReceiveField(CommandWord(op, receive, send)) == receive;
    assert SendField(CommandWord(op, receive, send)) == send;
  }

  /** WCTR writes the control register: opcode 0x60, one byte sent, none received. */
  lemma WctrCommand()
    ensures Opcode(I8042_CMD_CTL_WCTR) == 0x60 && Send(I8042_CMD_CTL_WCTR) == 1 && Receive(I8042_CMD_CTL_WCTR) == 0
  {}

  /** AUX_SEND forwards one byte to the mouse: opcode 0xd4, one byte sent, none received. */
  lemma AuxSendCommand()
    ensures Opcode(I8042_CMD_AUX_SEND) == 0xd4 && Send(I8042_CMD_AUX_SEND) == 1 && Receive(I8042_CMD_AUX_SEND) == 0
  {}

  /** KBD_ENABLE carries no bytes: opcode 0xae. */
  lemma KbdEnableCommand()
    ensures Opcode(I8042_CMD_KBD_ENABLE) == 0xae && Send(I8042_CMD_KBD_ENABLE) == 0 && Receive(I8042_CMD_KBD_ENABLE) == 0
  {}

  /** The byte counts the other command words of the header encode. */
  lemma CommandTable()
    ensures Send(I8042_CMD_CTL_RCTR) == 0 && Receive(I8042_CMD_CTL_RCTR) == 1
    ensures Receive(I8042_CMD_CTL_TEST) == 1 && Receive(I8042_CMD_KBD_TEST) == 1
    ensures Receive(ATKBD_CMD_GETID) == 2 && Send(ATKBD_CMD_GETID) == 0 && ATKBD_CMD_GETID == PSMOUSE_CMD_GETID
    ensures Receive(ATKBD_CMD_RESET_BAT) == 1 && Receive(PSMOUSE_CMD_RESET_BAT) == 2
    ensures Send(ATKBD_CMD_SETLEDS) == 1 && Send(ATKBD_CMD_SSCANSET) == 1
    ensures Send(PSMOUSE_CMD_SETRES) == 1 && Send(PSMOUSE_CMD_SETRATE) == 1 && Receive(PSMOUSE_CMD_GETINFO) == 3
  {}

  /** Both RESET_BAT words, and only they among the device commands, have opcode 0xff. */
  lemma ResetBatOpcodes()
    ensures Opcode(ATKBD_CMD_RESET_BAT) == 0xff && Opcode(PSMOUSE_CMD_RESET_BAT) == 0xff
    ensures Opcode(ATKBD_CMD_GETID) == 0xf2 && Opcode(PSMOUSE_CMD_ENABLE) == 0xf4
  {}

  /** `v & m` is not zero. */
  predicate HasBit(v: bv8, m: bv8) {
    v & m != 0
  }

  /** `v` has exactly one bit set. */
  predicate SingleBit(v: bv8) {
    v != 0 && v & (v - 1) == 0
  }

  /** The status bits the driver tests, and the control bits it changes, are distinct single bits. */
  lemma RegisterBits()
    ensures SingleBit(I8042_STR_OBF) && SingleBit(I8042_STR_IBF) && SingleBit(I8042_STR_AUXDATA)
    ensures I8042_STR_OBF & I8042_STR_IBF == 0 && I8042_STR_OBF & I8042_STR_AUXDATA == 0
    ensures I8042_STR_IBF & I8042_STR_AUXDATA == 0
    ensures SingleBit(I8042_CTR_KBDINT) && SingleBit(I8042_CTR_AUXINT) && SingleBit(I8042_CTR_KBDDIS)
    ensures SingleBit(I8042_CTR_AUXDIS) && SingleBit(I8042_CTR_XLATE)
    ensures I8042_CTR_KBDINT | I8042_CTR_AUXINT | I8042_CTR_KBDDIS | I8042_CTR_AUXDIS | I8042_CTR_XLATE == 0x73
  {
  }

  // ---------------------------------------------------------------------
  // The scripted controller
  // ---------------------------------------------------------------------

  /** The status bits the driver looks at. */
  datatype Status = Status(obf: bool, ibf: bool, auxdata: bool)

  /** What one poll of the controller shows: its status and the byte in its output buffer. */
  datatype Sample = Sample(status: Status, data: bv8)

  /** The status byte a status reads as (the bits the driver ignores read as 0). */
  function StatusByte(st: Status): bv8 {
    (if st.obf then I8042_STR_OBF else 0) | (if st.ibf then I8042_STR_IBF else 0) |
    (if st.auxdata then I8042_STR_AUXDATA else 0)
  }

  /** The bits of a status byte the driver tests. */
  function DecodeStatus(v: bv8): Status {
    Status(HasBit(v, I8042_STR_OBF), HasBit(v, I8042_STR_IBF), HasBit(v, I8042_STR_AUXDATA))
  }

  /** Decoding a status byte gives back the status. */
  lemma StatusRoundTrip(st: Status)
    ensures DecodeStatus(StatusByte(st)) == st
  {}

  /** Decoding keeps exactly the three status bits the driver reads, for any byte. */
  lemma StatusBitsKept(v: bv8)
    ensures StatusByte(DecodeStatus(v)) == v & (I8042_STR_OBF | I8042_STR_IBF | I8042_STR_AUXDATA)
  {}

  /** Successive samples, and what successive `timer_check`s answer. */
  datatype Script = Script(samples: seq<Sample>, expiries: seq<bool>)

  /** One `outb`. */
  datatype Write = Write(port: int, value: bv8)

  /** Samples polled, timer checks made, writes made. */
  datatype Bus = Bus(pos: nat, tpos: nat, sent: seq<Write>)

  /** A return code and the bus afterwards. */
  datatype Res = Res(ret: int, bus: Bus)

  /** A return code, the bus afterwards and the contents of the `param` buffer. */
  datatype Reply = Reply(ret: int, bus: Bus, param: seq<bv8>)

  /** The idle controller: nothing to read, room to write. */
  const IDLE: Sample := Sample(Status(false, false, false), 0)

  /** The k-th sample. */
  function At(sc: Script, k: nat): Sample {
    if k < |sc.samples| then sc.samples[k] else IDLE
  }

  /** What the data port reads: the output byte of the sample polled last. */
  function LastData(sc: Script, b: Bus): bv8 {
    if b.pos == 0 then 0 else At(sc, b.pos - 1).data
  }

  /** The k-th `timer_check`; past the list every timer has expired. */
  predicate Expired(sc: Script, k: nat) {
    k >= |sc.expiries| || sc.expiries[k]
  }

  function Poll(b: Bus): Bus { b.(pos := b.pos + 1) }

  function Tick(b: Bus): Bus { b.(tpos := b.tpos + 1) }

  function Emit(b: Bus, port: int, v: bv8): Bus { b.(sent := b.sent + [Write(port, v)]) }

  /** The status test of i8042_wait_read (OBF set) or i8042_wait_write (IBF clear). */
  predicate Ready(st: Status, forRead: bool) {
    if forRead then st.obf else !st.ibf
  }

  /** The sample at position p passes the wait's test. */
  predicate ReadyAt(sc: Script, p: nat, forRead: bool) {
    Ready(At(sc, p).status, forRead)
  }

  /** Of the n samples from pos, the k-th is the first that is ready. */
  predicate FirstReady(sc: Script, pos: nat, forRead: bool, k: nat, n: nat) {
    k < n && ReadyAt(sc, pos + k, forRead) &&
    forall p :: pos <= p < pos + k ==> !ReadyAt(sc, p, forRead)
  }

  /**
   * i8042_wait_read / i8042_wait_write with n attempts left: the wait
   * succeeds at the first ready sample among the next n, having polled up
   * to it; without one it fails after polling all n.
   */
  ghost function Wait(sc: Script, b: Bus, forRead: bool, n: nat): (r: Res)
    ensures r.ret == 0 || r.ret == -1
    ensures r.bus.sent == b.sent && r.bus.tpos == b.tpos && b.pos <= r.bus.pos
    ensures r.ret == 0 ==> b.pos < r.bus.pos && ReadyAt(sc, r.bus.pos - 1, forRead)
  {
    if exists k: nat :: FirstReady(sc, b.pos, forRead, k, n) then
      var k: nat :| FirstReady(sc, b.pos, forRead, k, n);
      Res(0, b.(pos := b.pos + k + 1))
    else
      Res(-1, b.(pos := b.pos + n))
  }

  /** A ready sample at position q among the n means there is a first one, no later than q. */
  lemma {:induction false} FirstReadyExists(sc: Script, pos: nat, forRead: bool, q: nat, n: nat) returns (k: nat)
    requires pos <= q < pos + n && ReadyAt(sc, q, forRead)
    ensures FirstReady(sc, pos, forRead, k, n) && pos + k <= q
    decreases q
  {
    if forall p :: pos <= p < q ==> !ReadyAt(sc, p, forRead) {
      k := q - pos;
    } else {
      var q' :| pos <= q' < q && ReadyAt(sc, q', forRead);
      k := FirstReadyExists(sc, pos, forRead, q', n);
    }
  }

  /**
   * One attempt of the wait loop: a ready sample ends the wait with 0, an
   * unready one leaves the same wait with one attempt fewer from the next
   * sample, and with no attempt left the wait fails without polling.
   */
  lemma WaitStep(sc: Script, b: Bus, forRead: bool, n: nat)
    ensures n == 0 ==> Wait(sc, b, forRead, n) == Res(-1, b)
    ensures n > 0 && ReadyAt(sc, b.pos, forRead) ==> Wait(sc, b, forRead, n) == Res(0, Poll(b))
    ensures n > 0 && !ReadyAt(sc, b.pos, forRead) ==> Wait(sc, b, forRead, n) == Wait(sc, Poll(b), forRead, n - 1)
  {
    if n > 0 {
      var m: nat := n - 1;
      var b' := Poll(b);
      if ReadyAt(sc, b.pos, forRead) {
        assert FirstReady(sc, b.pos, forRead, 0, n);
      } else if exists k: nat :: FirstReady(sc, b.pos, forRead, k, n) {
        var k: nat :| FirstReady(sc, b.pos, forRead, k, n);
        assert FirstReady(sc, b'.pos, forRead, k - 1, m);
      } else {
        forall k': nat | FirstReady(sc, b'.pos, forRead, k', m)
          ensures false
        {
          assert FirstReady(sc, b.pos, forRead, k' + 1, n);
        }
      }
    }
  }

  /**
   * A wait that succeeds stops within its n attempts; one that fails has
   * polled all n; no sample it passed over was ready.
   */
  lemma WaitPolls(sc: Script, b: Bus, forRead: bool, n: nat)
    ensures var r := Wait(sc, b, forRead, n);
      r.ret == 0 ==> r.bus.pos <= b.pos + n
    ensures var r := Wait(sc, b, forRead, n);
      r.ret == -1 ==> r.bus.pos == b.pos + n
    ensures var r := Wait(sc, b, forRead, n);
      forall k :: b.pos <= k < r.bus.pos - 1 - r.ret ==> !ReadyAt(sc, k, forRead)
  {
    var r := Wait(sc, b, forRead, n);
    forall k | b.pos <= k < r.bus.pos - 1 - r.ret
      ensures !ReadyAt(sc, k, forRead)
    {
      if r.ret == -1 && ReadyAt(sc, k, forRead) {
        var k0 := FirstReadyExists(sc, b.pos, forRead, k, n);
      }
    }
  }

  /** i8042_flush from step i: poll; stop with 0 when OBF is clear, otherwise read and drop the byte. */
  function Flush(sc: Script, b: Bus, i: nat): (r: Res)
    requires i <= I8042_BUFFER_SIZE
    ensures r.ret == 0 || r.ret == -1
    ensures r.bus.sent == b.sent && r.bus.tpos == b.tpos
    decreases I8042_BUFFER_SIZE - i
  {
    if i == I8042_BUFFER_SIZE then Res(-1, b)
    else if !At(sc, b.pos).status.obf then Res(0, Poll(b))
    else Flush(sc, Poll(b), i + 1)
  }

  /**
   * A flush returns 0 after dropping k < 16 - i bytes, at the first sample
   * with OBF clear; it returns -1 after dropping all 16 - i bytes it may.
   * Every byte dropped was announced by OBF.
   */
  lemma {:induction false} FlushDrains(sc: Script, b: Bus, i: nat) returns (k: nat)
    requires i <= I8042_BUFFER_SIZE
    ensures var r := Flush(sc, b, i);
      r.ret == 0 ==> k < I8042_BUFFER_SIZE - i && r.bus.pos == b.pos + k + 1 && !At(sc, b.pos + k).status.obf
    ensures var r := Flush(sc, b, i);
      r.ret == -1 ==> k == I8042_BUFFER_SIZE - i && r.bus.pos == b.pos + k
    ensures forall j :: b.pos <= j < b.pos + k ==> At(sc, j).status.obf
    decreases I8042_BUFFER_SIZE - i
  {
    if i == I8042_BUFFER_SIZE || !At(sc, b.pos).status.obf {
      k := 0;
    } else {
      var k' := FlushDrains(sc, Poll(b), i + 1);
      k := k' + 1;
    }
  }

  // ---------------------------------------------------------------------
  // __i8042_command
  // ---------------------------------------------------------------------

  /** `outb(param[k], PORT_PS2_DATA)` for k from i below n. */
  function DataWrites(param: seq<bv8>, i: nat, n: nat): (w: seq<Write>)
    requires i <= n <= |param|
    ensures |w| == n - i
    ensures forall k :: 0 <= k < n - i ==> w[k] == Write(PORT_PS2_DATA, param[i + k])
    decreases n - i
  {
    if i == n then [] else [Write(PORT_PS2_DATA, param[i])] + DataWrites(param, i + 1, n)
  }

  /** The send loop of __i8042_command from byte i. */
  ghost function SendParams(sc: Script, b: Bus, param: seq<bv8>, i: nat, n: nat): (r: Res)
    requires i <= n <= |param|
    ensures r.ret == 0 || r.ret == -1
    ensures b.sent <= r.bus.sent && r.bus.tpos == b.tpos
    decreases n - i
  {
    if i == n then Res(0, b)
    else
      var w := Wait(sc, b, false, I8042_CTL_TIMEOUT);
      if w.ret != 0 then w else SendParams(sc, Emit(w.bus, PORT_PS2_DATA, param[i]), param, i + 1, n)
  }

  /** The receive loop of __i8042_command from byte i: each byte is read once the output buffer is full. */
  ghost function RecvParams(sc: Script, b: Bus, param: seq<bv8>, i: nat, n: nat): (r: Reply)
    requires i <= n <= |param|
    ensures r.ret == 0 || r.ret == -1
    ensures |r.param| == |param| && r.bus.sent == b.sent && r.bus.tpos == b.tpos && b.pos <= r.bus.pos
    decreases n - i
  {
    if i == n then Reply(0, b, param)
    else
      var w := Wait(sc, b, true, I8042_CTL_TIMEOUT);
      if w.ret != 0 then Reply(w.ret, w.bus, param)
      else RecvParams(sc, w.bus, param[i := LastData(sc, w.bus)], i + 1, n)
  }

  /**
   * __i8042_command once the command word is split into its opcode and its
   * counts: wait, write the opcode, send `send` bytes, receive `receive` bytes.
   */
  ghost function Exec(sc: Script, b: Bus, op: bv8, send: nat, receive: nat, param: seq<bv8>): (r: Reply)
    requires send <= |param| && receive <= |param|
    ensures r.ret == 0 || r.ret == -1
    ensures |r.param| == |param| && b.sent <= r.bus.sent && r.bus.tpos == b.tpos
  {
    var w := Wait(sc, b, false, I8042_CTL_TIMEOUT);
    if w.ret != 0 then Reply(w.ret, w.bus, param)
    else
      var s := SendParams(sc, Emit(w.bus, PORT_PS2_STATUS, op), param, 0, send);
      if s.ret != 0 then Reply(s.ret, s.bus, param)
      else RecvParams(sc, s.bus, param, 0, receive)
  }

  /** __i8042_command: the fields of the command word drive the exchange. */
  ghost function Command(sc: Script, b: Bus, cmd: bv16, param: seq<bv8>): (r: Reply)
    requires Send(cmd) <= |param| && Receive(cmd) <= |param|
    ensures r.ret == 0 || r.ret == -1
    ensures |r.param| == |param| && b.sent <= r.bus.sent && r.bus.tpos == b.tpos
  {
    Exec(sc, b, Opcode(cmd), Send(cmd), Receive(cmd), param)
  }

  /**
   * The send loop writes exactly bytes i..n-1 to the data port when it
   * completes, and a prefix of them when a wait fails.
   */
  lemma {:induction false} SendParamsLog(sc: Script, b: Bus, param: seq<bv8>, i: nat, n: nat)
    requires i <= n <= |param|
    ensures var r := SendParams(sc, b, param, i, n);
      r.ret == 0 ==> r.bus.sent == b.sent + DataWrites(param, i, n)
    ensures var r := SendParams(sc, b, param, i, n);
      r.bus.sent <= b.sent + DataWrites(param, i, n)
    decreases n - i
  {
    if i < n {
      var w := Wait(sc, b, false, I8042_CTL_TIMEOUT);
      if w.ret == 0 {
        var b' := Emit(w.bus, PORT_PS2_DATA, param[i]);
        SendParamsLog(sc, b', param, i + 1, n);
        assert b.sent + DataWrites(param, i, n) == b'.sent + DataWrites(param, i + 1, n);
      }
    }
  }

  /** The receive loop of __i8042_command touches only slots i..n-1, also when it fails. */
  lemma {:induction false} RecvParamsFrame(sc: Script, b: Bus, param: seq<bv8>, i: nat, n: nat)
    requires i <= n <= |param|
    ensures var r := RecvParams(sc, b, param, i, n);
      forall k :: 0 <= k < |param| && !(i <= k < n) ==> r.param[k] == param[k]
    decreases n - i
  {
    if i < n {
      var w := Wait(sc, b, true, I8042_CTL_TIMEOUT);
      if w.ret == 0 {
        var param' := param[i := LastData(sc, w.bus)];
        RecvParamsFrame(sc, w.bus, param', i + 1, n);
        assert RecvParams(sc, b, param, i, n) == RecvParams(sc, w.bus, param', i + 1, n);
        assert forall k :: 0 <= k < |param| && !(i <= k < n) ==> param'[k] == param[k];
      }
    }
  }

  /**
   * A receive loop that completes has stored in slot i + k the output byte
   * of sample at[k], a sample with OBF set, at strictly increasing
   * positions.
   */
  lemma {:induction false} RecvParamsReads(sc: Script, b: Bus, param: seq<bv8>, i: nat, n: nat) returns (at: seq<nat>)
    requires i <= n <= |param|
    ensures var r := RecvParams(sc, b, param, i, n);
      r.ret == 0 ==> |at| == n - i
    ensures var r := RecvParams(sc, b, param, i, n);
      r.ret == 0 ==> forall k :: 0 <= k < |at| ==>
        b.pos <= at[k] < r.bus.pos && r.param[i + k] == At(sc, at[k]).data && At(sc, at[k]).status.obf
    ensures forall k :: 0 <= k < |at| - 1 ==> at[k] < at[k + 1]
    decreases n - i
  {
    at := [];
    if i < n {
      var w := Wait(sc, b, true, I8042_CTL_TIMEOUT);
      if w.ret == 0 {
        var param' := param[i := LastData(sc, w.bus)];
        var rest := RecvParamsReads(sc, w.bus, param', i + 1, n);
        RecvParamsFrame(sc, w.bus, param', i + 1, n);
        var r := RecvParams(sc, w.bus, param', i + 1, n);
        assert RecvParams(sc, b, param, i, n) == r;
        if r.ret == 0 {
          at := [w.bus.pos - 1] + rest;
          forall k | 0 <= k < |at|
            ensures b.pos <= at[k] < r.bus.pos && r.param[i + k] == At(sc, at[k]).data && At(sc, at[k]).status.obf
          {
            if k == 0 {
              assert r.param[i] == param'[i];
            } else {
              assert at[k] == rest[k - 1] && i + k == (i + 1) + (k - 1);
            }
          }
        }
      }
    }
  }

  /**
   * __i8042_command writes the opcode to the command port and then exactly
   * the first Send(cmd) parameter bytes to the data port; a failure stops it
   * part way, having written a prefix of that and nothing else. Bytes past
   * the received ones are untouched.
   */
  lemma CommandLog(sc: Script, b: Bus, cmd: bv16, param: seq<bv8>)
    requires Send(cmd) <= |param| && Receive(cmd) <= |param|
    ensures var r := Command(sc, b, cmd, param);
      r.ret == 0 ==> r.bus.sent == b.sent + [Write(PORT_PS2_STATUS, Opcode(cmd))] + DataWrites(param, 0, Send(cmd))
    ensures var r := Command(sc, b, cmd, param);
      r.bus.sent <= b.sent + [Write(PORT_PS2_STATUS, Opcode(cmd))] + DataWrites(param, 0, Send(cmd))
    ensures var r := Command(sc, b, cmd, param);
      forall k :: Receive(cmd) <= k < |param| ==> r.param[k] == param[k]
  {
    ExecLog(sc, b, Opcode(cmd), Send(cmd), Receive(cmd), param);
  }

  lemma ExecLog(sc: Script, b: Bus, op: bv8, send: nat, receive: nat, param: seq<bv8>)
    requires send <= |param| && receive <= |param|
    ensures var r := Exec(sc, b, op, send, receive, param);
      r.ret == 0 ==> r.bus.sent == b.sent + [Write(PORT_PS2_STATUS, op)] + DataWrites(param, 0, send)
    ensures var r := Exec(sc, b, op, send, receive, param);
      r.bus.sent <= b.sent + [Write(PORT_PS2_STATUS, op)] + DataWrites(param, 0, send)
    ensures var r := Exec(sc, b, op, send, receive, param);
      forall k :: receive <= k < |param| ==> r.param[k] == param[k]
  {
    var w := Wait(sc, b, false, I8042_CTL_TIMEOUT);
    if w.ret == 0 {
      var b1 := Emit(w.bus, PORT_PS2_STATUS, op);
      SendParamsLog(sc, b1, param, 0, send);
      var s := SendParams(sc, b1, param, 0, send);
      if s.ret == 0 {
        RecvParamsFrame(sc, s.bus, param, 0, receive);
      }
    }
  }

  /** `i8042_command(I8042_CMD_CTL_WCTR, &v)` writes 0x60 to the command port and then v, or a prefix of that on failure. */
  lemma WriteCtrLog(sc: Script, b: Bus, v: bv8)
    ensures var r := Command(sc, b, I8042_CMD_CTL_WCTR, [v]);
      r.ret == 0 ==> r.bus.sent == b.sent + [Write(PORT_PS2_STATUS, 0x60), Write(PORT_PS2_DATA, v)]
    ensures var r := Command(sc, b, I8042_CMD_CTL_WCTR, [v]);
      r.bus.sent <= b.sent + [Write(PORT_PS2_STATUS, 0x60), Write(PORT_PS2_DATA, v)]
  {
    WctrCommand();
    CommandLog(sc, b, I8042_CMD_CTL_WCTR, [v]);
    assert DataWrites([v], 0, 1) == [Write(PORT_PS2_DATA, v)];
  }

  // ---------------------------------------------------------------------
  // Device bytes: ps2_recvbyte, ps2_sendbyte
  // ---------------------------------------------------------------------

  /** The test ps2_recvbyte applies to a byte it has read. */
  predicate Accept(aux: bool, needack: bool, s: Sample) {
    s.status.auxdata == aux && (!needack || s.data == PS2_RET_ACK || s.data == PS2_RET_NAK)
  }

  /** Timer checks still scripted. */
  function TicksLeft(sc: Script, b: Bus): nat {
    if b.tpos < |sc.expiries| then |sc.expiries| - b.tpos else 0
  }

  /** The byte ps2_recvbyte returns (None for its -1) and the bus afterwards. */
  datatype Got = Got(byte: Option<bv8>, bus: Bus)

  /**
   * ps2_recvbyte: poll; read the byte when OBF is set and return it if
   * accepted, otherwise drop it; give up once the timer expires.
   */
  function RecvByte(sc: Script, b: Bus, aux: bool, needack: bool): (r: Got)
    ensures r.bus.sent == b.sent && b.pos < r.bus.pos
    decreases TicksLeft(sc, b)
  {
    var s := At(sc, b.pos);
    var b1 := Poll(b);
    if s.status.obf && Accept(aux, needack, s) then Got(Some(s.data), b1)
    else if Expired(sc, b1.tpos) then Got(None, Tick(b1))
    else RecvByte(sc, Tick(b1), aux, needack)
  }

  /**
   * A byte ps2_recvbyte returns is the output byte of the sample polled last,
   * which had OBF set and passed the test: it came from the port `aux`
   * names, and it is an ACK or a NAK when one was awaited. It is the first
   * such sample: every sample polled before it was dropped. Without a byte,
   * no polled sample passed and the last timer check made had expired; each
   * sample not taken is followed by one timer check, and only the last
   * check can have expired.
   */
  lemma {:induction false} RecvByteAccepts(sc: Script, b: Bus, aux: bool, needack: bool)
    ensures var r := RecvByte(sc, b, aux, needack);
      r.byte.Some? ==>
        r.byte.value == At(sc, r.bus.pos - 1).data && At(sc, r.bus.pos - 1).status.obf &&
        Accept(aux, needack, At(sc, r.bus.pos - 1))
    ensures var r := RecvByte(sc, b, aux, needack);
      r.byte.None? ==> b.tpos < r.bus.tpos && Expired(sc, r.bus.tpos - 1)
    ensures var r := RecvByte(sc, b, aux, needack);
      needack && r.byte.Some? ==> r.byte.value == PS2_RET_ACK || r.byte.value == PS2_RET_NAK
    ensures var r := RecvByte(sc, b, aux, needack);
      forall p :: b.pos <= p < r.bus.pos - 1 ==> !(At(sc, p).status.obf && Accept(aux, needack, At(sc, p)))
    ensures var r := RecvByte(sc, b, aux, needack);
      r.byte.None? ==> !(At(sc, r.bus.pos - 1).status.obf && Accept(aux, needack, At(sc, r.bus.pos - 1)))
    ensures var r := RecvByte(sc, b, aux, needack);
      r.bus.pos - b.pos == r.bus.tpos - b.tpos + (if r.byte.Some? then 1 else 0)
    ensures var r := RecvByte(sc, b, aux, needack);
      forall k :: b.tpos <= k < r.bus.tpos - (if r.byte.None? then 1 else 0) ==> !Expired(sc, k)
    decreases TicksLeft(sc, b)
  {
    var s := At(sc, b.pos);
    var b1 := Poll(b);
    if !(s.status.obf && Accept(aux, needack, s)) && !Expired(sc, b1.tpos) {
      RecvByteAccepts(sc, Tick(b1), aux, needack);
    }
  }

  /** i8042_kbd_write / i8042_aux_write: put one byte out to the keyboard or, through AUX_SEND, to the mouse. */
  ghost function WriteByte(sc: Script, b: Bus, aux: bool, c: bv8): (r: Res)
    ensures r.ret == 0 || r.ret == -1
    ensures b.sent <= r.bus.sent && r.bus.tpos == b.tpos
  {
    if aux then
      AuxSendCommand();
      var r := Command(sc, b, I8042_CMD_AUX_SEND, [c]);
      Res(r.ret, r.bus)
    else
      var w := Wait(sc, b, false, I8042_CTL_TIMEOUT);
      if w.ret != 0 then w else Res(0, Emit(w.bus, PORT_PS2_DATA, c))
  }

  /** What reaches the port for one device byte: the AUX_SEND prefix for the mouse, then the byte. */
  function DeviceBytes(aux: bool, c: bv8): seq<Write> {
    (if aux then [Write(PORT_PS2_STATUS, 0xd4)] else []) + [Write(PORT_PS2_DATA, c)]
  }

  /** A device byte that went out wrote exactly DeviceBytes; a failed one a prefix of it. */
  lemma WriteByteLog(sc: Script, b: Bus, aux: bool, c: bv8)
    ensures var r := WriteByte(sc, b, aux, c);
      r.ret == 0 ==> r.bus.sent == b.sent + DeviceBytes(aux, c)
    ensures var r := WriteByte(sc, b, aux, c);
      r.bus.sent <= b.sent + DeviceBytes(aux, c)
  {
    if aux {
      AuxSendCommand();
      CommandLog(sc, b, I8042_CMD_AUX_SEND, [c]);
      assert DataWrites([c], 0, 1) == [Write(PORT_PS2_DATA, c)];
    }
  }

  /** ps2_sendbyte: write the byte, then wait for an acknowledgement. */
  ghost function SendByte(sc: Script, b: Bus, aux: bool, c: bv8): (r: Res)
    ensures r.ret == 0 || r.ret == -1
    ensures b.sent <= r.bus.sent
  {
    var w := WriteByte(sc, b, aux, c);
    if w.ret != 0 then w
    else
      var a := RecvByte(sc, w.bus, aux, true);
      if a.byte.None? then Res(-1, a.bus)
      else if a.byte.value != PS2_RET_ACK then Res(-1, a.bus)
      else Res(0, a.bus)
  }

  /** ps2_sendbyte succeeds exactly when the byte went out and the answer was an ACK; a NAK fails. */
  lemma SendByteAck(sc: Script, b: Bus, aux: bool, c: bv8)
    ensures SendByte(sc, b, aux, c).ret == 0 ==>
      WriteByte(sc, b, aux, c).ret == 0 && RecvByte(sc, WriteByte(sc, b, aux, c).bus, aux, true).byte == Some(PS2_RET_ACK)
    ensures WriteByte(sc, b, aux, c).ret == 0 && RecvByte(sc, WriteByte(sc, b, aux, c).bus, aux, true).byte == Some(PS2_RET_ACK) ==>
      SendByte(sc, b, aux, c).ret == 0
    ensures RecvByte(sc, WriteByte(sc, b, aux, c).bus, aux, true).byte == Some(PS2_RET_NAK) ==>
      SendByte(sc, b, aux, c).ret == -1
  {}

  // ---------------------------------------------------------------------
  // __ps2_command and its callers
  // ---------------------------------------------------------------------

  /** The controller value __ps2_command writes first: both ports disabled, both interrupts off. */
  function TempCtr(ctr: bv8): bv8 {
    (ctr | I8042_CTR_AUXDIS | I8042_CTR_KBDDIS) & !(I8042_CTR_KBDINT | I8042_CTR_AUXINT)
  }

  /** The value it writes next: only the addressed port enabled again. */
  function EnableCtr(ctr: bv8, aux: bool): bv8 {
    if aux then ctr & !I8042_CTR_AUXDIS else ctr & !I8042_CTR_KBDDIS
  }

  /** The bits other than the two DIS and the two INT bits. */
  const CTR_OTHER: bv8 := 0xcc

  /** The temporary value sets both DIS bits and clears both INT bits; the other bits are kept. */
  lemma TempCtrBits(ctr: bv8)
    ensures HasBit(TempCtr(ctr), I8042_CTR_AUXDIS) && HasBit(TempCtr(ctr), I8042_CTR_KBDDIS)
    ensures !HasBit(TempCtr(ctr), I8042_CTR_AUXINT) && !HasBit(TempCtr(ctr), I8042_CTR_KBDINT)
    ensures TempCtr(ctr) & CTR_OTHER == ctr & CTR_OTHER
  {}

  /**
   * Then only the addressed port's DIS bit is cleared: the other port stays
   * disabled, interrupts stay off, the other bits are still those of ctr.
   */
  lemma EnableCtrBits(ctr: bv8, aux: bool)
    ensures aux ==> !HasBit(EnableCtr(TempCtr(ctr), aux), I8042_CTR_AUXDIS)
    ensures aux ==> HasBit(EnableCtr(TempCtr(ctr), aux), I8042_CTR_KBDDIS)
    ensures !aux ==> !HasBit(EnableCtr(TempCtr(ctr), aux), I8042_CTR_KBDDIS)
    ensures !aux ==> HasBit(EnableCtr(TempCtr(ctr), aux), I8042_CTR_AUXDIS)
    ensures !HasBit(EnableCtr(TempCtr(ctr), aux), I8042_CTR_AUXINT)
    ensures !HasBit(EnableCtr(TempCtr(ctr), aux), I8042_CTR_KBDINT)
    ensures EnableCtr(TempCtr(ctr), aux) & CTR_OTHER == ctr & CTR_OTHER
  {}

  /** A return code, the bus, the Ps2ctr global and the `param` buffer after a device command. */
  datatype Ps2Reply = Ps2Reply(ret: int, bus: Bus, ctr: bv8, param: seq<bv8>)

  /** The `param` bytes __ps2_command touches for a command word. */
  function ParamRoom(cmd: bv16): nat {
    if Opcode(cmd) == 0xff then (if Receive(cmd) > 1 then 2 else 1)
    else if cmd == ATKBD_CMD_GETID then 2
    else if Send(cmd) < Receive(cmd) then Receive(cmd) else Send(cmd)
  }

  /** The keyboard ids that answer GETID with a second byte. */
  predicate TwoByteId(id: bv8) {
    id == 0xab || id == 0xac || id == 0x2b || id == 0x5d || id == 0x60 || id == 0x47
  }

  /** The RESET_BAT branch: send the opcode, then receive one byte, or two when Receive(cmd) > 1. */
  ghost function ResetBat(sc: Script, b: Bus, aux: bool, cmd: bv16, param: seq<bv8>): (r: Reply)
    requires ParamRoom(cmd) <= |param| && Opcode(cmd) == 0xff
    ensures |r.param| == |param| && b.sent <= r.bus.sent
  {
    var s := SendByte(sc, b, aux, Opcode(cmd));
    if s.ret != 0 then Reply(s.ret, s.bus, param)
    else
      var a := RecvByte(sc, s.bus, aux, false);
      if a.byte.None? then Reply(-1, a.bus, param)
      else
        var p := param[0 := a.byte.value];
        if Receive(cmd) <= 1 then Reply(0, a.bus, p)
        else
          var a2 := RecvByte(sc, a.bus, aux, false);
          if a2.byte.None? then Reply(-1, a2.bus, p)
          else Reply(0, a2.bus, p[1 := a2.byte.value])
  }

  /** The GETID branch: one id byte, and a second one only for the keyboard ids. */
  ghost function GetId(sc: Script, b: Bus, aux: bool, param: seq<bv8>): (r: Reply)
    requires 2 <= |param|
    ensures |r.param| == |param| && b.sent <= r.bus.sent
  {
    var s := SendByte(sc, b, aux, Opcode(ATKBD_CMD_GETID));
    if s.ret != 0 then Reply(s.ret, s.bus, param)
    else
      var a := RecvByte(sc, s.bus, aux, false);
      if a.byte.None? then Reply(-1, a.bus, param)
      else
        var p := param[0 := a.byte.value];
        if TwoByteId(a.byte.value) then
          var a2 := RecvByte(sc, a.bus, aux, false);
          if a2.byte.None? then Reply(-1, a2.bus, p)
          else Reply(0, a2.bus, p[1 := a2.byte.value])
        else Reply(0, a.bus, p[1 := 0])
  }

  /** The send loop of the general branch from byte i: each byte must be acknowledged. */
  ghost function SendBytes(sc: Script, b: Bus, aux: bool, param: seq<bv8>, i: nat, n: nat): (r: Res)
    requires i <= n <= |param|
    ensures r.ret == 0 || r.ret == -1
    ensures b.sent <= r.bus.sent
    decreases n - i
  {
    if i == n then Res(0, b)
    else
      var s := SendByte(sc, b, aux, param[i]);
      if s.ret != 0 then s else SendBytes(sc, s.bus, aux, param, i + 1, n)
  }

  /** The receive loop of the general branch from byte i. */
  ghost function RecvBytes(sc: Script, b: Bus, aux: bool, param: seq<bv8>, i: nat, n: nat): (r: Reply)
    requires i <= n <= |param|
    ensures r.ret == 0 || r.ret == -1
    ensures |r.param| == |param| && r.bus.sent == b.sent
    decreases n - i
  {
    if i == n then Reply(0, b, param)
    else
      var a := RecvByte(sc, b, aux, false);
      if a.byte.None? then Reply(-1, a.bus, param)
      else RecvBytes(sc, a.bus, aux, param[i := a.byte.value], i + 1, n)
  }

  /** The general branch: the opcode, Send(cmd) acknowledged bytes, then Receive(cmd) bytes. */
  ghost function Exchange(sc: Script, b: Bus, aux: bool, cmd: bv16, param: seq<bv8>): (r: Reply)
    requires Send(cmd) <= |param| && Receive(cmd) <= |param|
    ensures |r.param| == |param| && b.sent <= r.bus.sent
  {
    var s := SendByte(sc, b, aux, Opcode(cmd));
    if s.ret != 0 then Reply(s.ret, s.bus, param)
    else
      var p := SendBytes(sc, s.bus, aux, param, 0, Send(cmd));
      if p.ret != 0 then Reply(p.ret, p.bus, param)
      else RecvBytes(sc, p.bus, aux, param, 0, Receive(cmd))
  }

  /** The three branches of __ps2_command, chosen by the low byte and then by the whole word. */
  ghost function Ps2Body(sc: Script, b: Bus, aux: bool, cmd: bv16, param: seq<bv8>): (r: Reply)
    requires ParamRoom(cmd) <= |param|
    ensures |r.param| == |param| && b.sent <= r.bus.sent
  {
    if Opcode(cmd) == 0xff then ResetBat(sc, b, aux, cmd, param)
    else if cmd == ATKBD_CMD_GETID then GetId(sc, b, aux, param)
    else Exchange(sc, b, aux, cmd, param)
  }

  /**
   * The middle of __ps2_command, once TempCtr(ctr) is in place: write the
   * one-port value, and run the branch if that worked.
   */
  ghost function Ps2Enabled(sc: Script, b: Bus, ctr: bv8, aux: bool, cmd: bv16, param: seq<bv8>): (r: Reply)
    requires ParamRoom(cmd) <= |param|
    ensures |r.param| == |param| && b.sent <= r.bus.sent
  {
    WctrCommand();
    var w2 := Command(sc, b, I8042_CMD_CTL_WCTR, [EnableCtr(TempCtr(ctr), aux)]);
    if w2.ret != 0 then Reply(w2.ret, w2.bus, param) else Ps2Body(sc, w2.bus, aux, cmd, param)
  }

  /**
   * __ps2_command with Ps2ctr = ctr: write TempCtr(ctr); if that fails
   * stop. Otherwise write EnableCtr, run the branch if that worked, and
   * always restore ctr (a failure to restore takes precedence).
   */
  ghost function Ps2Command(sc: Script, b: Bus, ctr: bv8, aux: bool, cmd: bv16, param: seq<bv8>): (r: Ps2Reply)
    requires ParamRoom(cmd) <= |param|
    ensures |r.param| == |param| && b.sent <= r.bus.sent
  {
    WctrCommand();
    var w1 := Command(sc, b, I8042_CMD_CTL_WCTR, [TempCtr(ctr)]);
    if w1.ret != 0 then Ps2Reply(w1.ret, w1.bus, ctr, param)
    else
      var body := Ps2Enabled(sc, w1.bus, ctr, aux, cmd, param);
      var w3 := Command(sc, body.bus, I8042_CMD_CTL_WCTR, [ctr]);
      Ps2Reply(if w3.ret != 0 then w3.ret else body.ret, w3.bus, ctr, body.param)
  }

  /** The two controller writes that set the control register to v. */
  function CtrWrites(v: bv8): seq<Write> {
    [Write(PORT_PS2_STATUS, 0x60), Write(PORT_PS2_DATA, v)]
  }

  /** A branch that ran successfully was preceded by the write of the one-port value. */
  lemma Ps2EnabledLog(sc: Script, b: Bus, ctr: bv8, aux: bool, cmd: bv16, param: seq<bv8>)
    requires ParamRoom(cmd) <= |param|
    ensures var r := Ps2Enabled(sc, b, ctr, aux, cmd, param);
      r.ret == 0 ==> b.sent + CtrWrites(EnableCtr(TempCtr(ctr), aux)) <= r.bus.sent
  {
    WctrCommand();
    WriteCtrLog(sc, b, EnableCtr(TempCtr(ctr), aux));
  }

  /**
   * Ps2ctr always ends where it started. A command that succeeds first
   * wrote TempCtr(ctr), then the one-port value, and its last controller
   * write put ctr back.
   */
  lemma Ps2CommandCtr(sc: Script, b: Bus, ctr: bv8, aux: bool, cmd: bv16, param: seq<bv8>)
    requires ParamRoom(cmd) <= |param|
    ensures Ps2Command(sc, b, ctr, aux, cmd, param).ctr == ctr
    ensures var r := Ps2Command(sc, b, ctr, aux, cmd, param);
      r.ret == 0 ==> b.sent + CtrWrites(TempCtr(ctr)) + CtrWrites(EnableCtr(TempCtr(ctr), aux)) <= r.bus.sent
  {
    WctrCommand();
    var w1 := Command(sc, b, I8042_CMD_CTL_WCTR, [TempCtr(ctr)]);
    WriteCtrLog(sc, b, TempCtr(ctr));
    if w1.ret == 0 {
      var body := Ps2Enabled(sc, w1.bus, ctr, aux, cmd, param);
      Ps2EnabledLog(sc, w1.bus, ctr, aux, cmd, param);
      WriteCtrLog(sc, body.bus, ctr);
    }
  }

  /** So the last two writes of a successful command restore ctr. */
  lemma Ps2CommandRestores(sc: Script, b: Bus, ctr: bv8, aux: bool, cmd: bv16, param: seq<bv8>)
    requires ParamRoom(cmd) <= |param|
    ensures var r := Ps2Command(sc, b, ctr, aux, cmd, param);
      r.ret == 0 ==> |r.bus.sent| >= 2 && r.bus.sent[|r.bus.sent| - 2..] == CtrWrites(ctr)
  {
    WctrCommand();
    var w1 := Command(sc, b, I8042_CMD_CTL_WCTR, [TempCtr(ctr)]);
    if w1.ret == 0 {
      var body := Ps2Enabled(sc, w1.bus, ctr, aux, cmd, param);
      WriteCtrLog(sc, body.bus, ctr);
      var w3 := Command(sc, body.bus, I8042_CMD_CTL_WCTR, [ctr]);
      if w3.ret == 0 {
        assert w3.bus.sent == body.bus.sent + CtrWrites(ctr);
      }
    }
  }

  /**
   * GETID succeeds only when the command was acknowledged and an id byte
   * arrived; param[0] is that byte. For a keyboard id param[1] is the next
   * byte received, for any other id it is 0. No slot past the second moves.
   */
  lemma GetIdSecondByte(sc: Script, b: Bus, aux: bool, param: seq<bv8>)
    requires 2 <= |param|
    ensures var r := GetId(sc, b, aux, param);
      var s := SendByte(sc, b, aux, Opcode(ATKBD_CMD_GETID));
      var a := RecvByte(sc, s.bus, aux, false);
      r.ret == 0 ==> s.ret == 0 && a.byte.Some? && r.param[0] == a.byte.value
    ensures var r := GetId(sc, b, aux, param);
      var a := RecvByte(sc, SendByte(sc, b, aux, Opcode(ATKBD_CMD_GETID)).bus, aux, false);
      var a2 := RecvByte(sc, a.bus, aux, false);
      r.ret == 0 && TwoByteId(r.param[0]) ==> a2.byte.Some? && r.param[1] == a2.byte.value && r.bus == a2.bus
    ensures var r := GetId(sc, b, aux, param);
      r.ret == 0 && !TwoByteId(r.param[0]) ==> r.param[1] == 0
    ensures var r := GetId(sc, b, aux, param);
      forall k :: 2 <= k < |param| ==> r.param[k] == param[k]
  {}

  /** RESET_BAT stores one byte, and a second one only when the word asks for more than one. */
  lemma ResetBatReceives(sc: Script, b: Bus, aux: bool, cmd: bv16, param: seq<bv8>)
    requires ParamRoom(cmd) <= |param| && Opcode(cmd) == 0xff
    ensures var r := ResetBat(sc, b, aux, cmd, param);
      Receive(cmd) <= 1 ==> forall k :: 1 <= k < |param| ==> r.param[k] == param[k]
    ensures var r := ResetBat(sc, b, aux, cmd, param);
      forall k :: 2 <= k < |param| ==> r.param[k] == param[k]
  {}

  /** The receive loop of the general branch touches only slots i..n-1. */
  lemma {:induction false} RecvBytesFrame(sc: Script, b: Bus, aux: bool, param: seq<bv8>, i: nat, n: nat)
    requires i <= n <= |param|
    ensures var r := RecvBytes(sc, b, aux, param, i, n);
      forall k :: 0 <= k < |param| && !(i <= k < n) ==> r.param[k] == param[k]
    decreases n - i
  {
    if i < n {
      var a := RecvByte(sc, b, aux, false);
      if a.byte.Some? {
        var p := param[i := a.byte.value];
        RecvBytesFrame(sc, a.bus, aux, p, i + 1, n);
        var r := RecvBytes(sc, a.bus, aux, p, i + 1, n);
        assert RecvBytes(sc, b, aux, param, i, n) == r;
        forall k | 0 <= k < |param| && !(i <= k < n)
          ensures r.param[k] == param[k]
        {
          assert p[k] == param[k];
        }
      }
    }
  }

  /** The general branch touches no byte past the received ones. */
  lemma ExchangeFrame(sc: Script, b: Bus, aux: bool, cmd: bv16, param: seq<bv8>)
    requires Send(cmd) <= |param| && Receive(cmd) <= |param|
    ensures var r := Exchange(sc, b, aux, cmd, param);
      forall k :: Receive(cmd) <= k < |param| ==> r.param[k] == param[k]
  {
    var s := SendByte(sc, b, aux, Opcode(cmd));
    if s.ret == 0 {
      var p := SendBytes(sc, s.bus, aux, param, 0, Send(cmd));
      if p.ret == 0 {
        RecvBytesFrame(sc, p.bus, aux, param, 0, Receive(cmd));
      }
    }
  }

  /** The Ps2ctr value ps2_mouse_command sets for ENABLE and DISABLE; every other command keeps it. */
  function MouseCtr(ctr: bv8, cmd: bv16, hardwareIrq: bool): bv8 {
    if cmd == PSMOUSE_CMD_ENABLE then (ctr | (if hardwareIrq then I8042_CTR_AUXINT else 0)) & !I8042_CTR_AUXDIS
    else if cmd == PSMOUSE_CMD_DISABLE then (ctr | I8042_CTR_AUXDIS) & !I8042_CTR_AUXINT
    else ctr
  }

  /** The bits other than AUXINT and AUXDIS. */
  const CTR_NOT_AUX: bv8 := 0xdd

  /**
   * ENABLE clears AUXDIS and sets AUXINT only with hardware interrupts;
   * DISABLE sets AUXDIS and clears AUXINT; no other bit moves.
   */
  lemma MouseCtrBits(ctr: bv8, cmd: bv16, hardwareIrq: bool)
    ensures cmd == PSMOUSE_CMD_ENABLE ==> !HasBit(MouseCtr(ctr, cmd, hardwareIrq), I8042_CTR_AUXDIS)
    ensures cmd == PSMOUSE_CMD_ENABLE && hardwareIrq ==> HasBit(MouseCtr(ctr, cmd, hardwareIrq), I8042_CTR_AUXINT)
    ensures cmd == PSMOUSE_CMD_ENABLE && !hardwareIrq ==>
      MouseCtr(ctr, cmd, hardwareIrq) & I8042_CTR_AUXINT == ctr & I8042_CTR_AUXINT
    ensures cmd == PSMOUSE_CMD_DISABLE ==> HasBit(MouseCtr(ctr, cmd, hardwareIrq), I8042_CTR_AUXDIS)
    ensures cmd == PSMOUSE_CMD_DISABLE ==> !HasBit(MouseCtr(ctr, cmd, hardwareIrq), I8042_CTR_AUXINT)
    ensures MouseCtr(ctr, cmd, hardwareIrq) & CTR_NOT_AUX == ctr & CTR_NOT_AUX
    ensures cmd != PSMOUSE_CMD_ENABLE && cmd != PSMOUSE_CMD_DISABLE ==> MouseCtr(ctr, cmd, hardwareIrq) == ctr
  {}

  /** ps2_kbd_command: -1 without PS/2 support, else a keyboard command. */
  ghost function KbdCommand(sc: Script, b: Bus, ctr: bv8, configPs2port: bool, cmd: bv16, param: seq<bv8>): (r: Ps2Reply)
    requires ParamRoom(cmd) <= |param|
    ensures !configPs2port ==> r == Ps2Reply(-1, b, ctr, param)
    ensures |r.param| == |param| && b.sent <= r.bus.sent
  {
    if !configPs2port then Ps2Reply(-1, b, ctr, param)
    else Ps2Command(sc, b, ctr, false, cmd, param)
  }

  /** ps2_mouse_command: update Ps2ctr for ENABLE/DISABLE, then a mouse command. */
  ghost function MouseCommand(sc: Script, b: Bus, ctr: bv8, configPs2port: bool, hardwareIrq: bool, cmd: bv16, param: seq<bv8>): (r: Ps2Reply)
    requires ParamRoom(cmd) <= |param|
    ensures !configPs2port ==> r == Ps2Reply(-1, b, ctr, param)
    ensures |r.param| == |param| && b.sent <= r.bus.sent
  {
    if !configPs2port then Ps2Reply(-1, b, ctr, param)
    else Ps2Command(sc, b, MouseCtr(ctr, cmd, hardwareIrq), true, cmd, param)
  }

  /** A keyboard command leaves Ps2ctr as it found it. */
  lemma KbdCommandCtr(sc: Script, b: Bus, ctr: bv8, configPs2port: bool, cmd: bv16, param: seq<bv8>)
    requires ParamRoom(cmd) <= |param|
    ensures KbdCommand(sc, b, ctr, configPs2port, cmd, param).ctr == ctr
  {
    if configPs2port {
      Ps2CommandCtr(sc, b, ctr, false, cmd, param);
    }
  }

  /** The mouse command leaves Ps2ctr at the updated value: __ps2_command restores what it found. */
  lemma MouseCommandCtr(sc: Script, b: Bus, ctr: bv8, configPs2port: bool, hardwareIrq: bool, cmd: bv16, param: seq<bv8>)
    requires ParamRoom(cmd) <= |param|
    ensures configPs2port ==> MouseCommand(sc, b, ctr, configPs2port, hardwareIrq, cmd, param).ctr == MouseCtr(ctr, cmd, hardwareIrq)
  {
    if configPs2port {
      Ps2CommandCtr(sc, b, MouseCtr(ctr, cmd, hardwareIrq), true, cmd, param);
    }
  }

  // ---------------------------------------------------------------------
  // IRQ handlers and polling
  // ---------------------------------------------------------------------

  /** A byte handed to process_mouse or process_key. */
  datatype Event = MouseByte(data: bv8) | KeyByte(data: bv8)

  /** The bus after an interrupt handler and the byte it processed, if any. */
  datatype Irq = Irq(bus: Bus, processed: Option<bv8>)

  /** handle_74: needs OBF and AUXDATA; reads the byte; processes it only with AUXINT on. */
  function Handle74(sc: Script, b: Bus, ctr: bv8, configPs2port: bool): (r: Irq)
    ensures r.bus.sent == b.sent
  {
    if !configPs2port then Irq(b, None)
    else
      var s := At(sc, b.pos);
      if !(s.status.obf && s.status.auxdata) then Irq(Poll(b), None)
      else Irq(Poll(b), if HasBit(ctr, I8042_CTR_AUXINT) then Some(s.data) else None)
  }

  /** handle_09: rejects mouse data; reads the byte; processes it only with KBDINT on, then re-enables the keyboard. */
  ghost function Handle09(sc: Script, b: Bus, ctr: bv8, configPs2port: bool): (r: Irq)
    ensures b.sent <= r.bus.sent
  {
    if !configPs2port then Irq(b, None)
    else
      var s := At(sc, b.pos);
      if s.status.auxdata then Irq(Poll(b), None)
      else if !HasBit(ctr, I8042_CTR_KBDINT) then Irq(Poll(b), None)
      else
        KbdEnableCommand();
        Irq(Command(sc, Poll(b), I8042_CMD_KBD_ENABLE, []).bus, Some(s.data))
  }

  /** The mouse handler processes a byte exactly when OBF and AUXDATA are set and AUXINT is on. */
  lemma Handle74Accepts(sc: Script, b: Bus, ctr: bv8, configPs2port: bool)
    ensures Handle74(sc, b, ctr, configPs2port).processed.Some? ==>
      configPs2port && At(sc, b.pos).status.obf && At(sc, b.pos).status.auxdata && HasBit(ctr, I8042_CTR_AUXINT) &&
      Handle74(sc, b, ctr, configPs2port).processed.value == At(sc, b.pos).data
    ensures configPs2port && At(sc, b.pos).status.obf && At(sc, b.pos).status.auxdata && HasBit(ctr, I8042_CTR_AUXINT) ==>
      Handle74(sc, b, ctr, configPs2port).processed.Some?
  {}

  /**
   * The keyboard handler processes a byte exactly when AUXDATA is clear and
   * KBDINT is on (it does not look at OBF), and it then sends KBD_ENABLE.
   */
  lemma Handle09Accepts(sc: Script, b: Bus, ctr: bv8, configPs2port: bool)
    ensures Handle09(sc, b, ctr, configPs2port).processed.Some? ==>
      configPs2port && !At(sc, b.pos).status.auxdata && HasBit(ctr, I8042_CTR_KBDINT) &&
      Handle09(sc, b, ctr, configPs2port).processed.value == At(sc, b.pos).data
    ensures configPs2port && !At(sc, b.pos).status.auxdata && HasBit(ctr, I8042_CTR_KBDINT) ==>
      Handle09(sc, b, ctr, configPs2port).processed.Some?
    ensures Handle09(sc, b, ctr, configPs2port).processed.Some? ==>
      Handle09(sc, b, ctr, configPs2port).bus.sent <= b.sent + [Write(PORT_PS2_STATUS, 0xae)]
  {
    if Handle09(sc, b, ctr, configPs2port).processed.Some? {
      KbdEnableCommand();
      CommandLog(sc, Poll(b), I8042_CMD_KBD_ENABLE, []);
      assert DataWrites([], 0, 0) == [];
    }
  }

  /** Samples still scripted. */
  function SamplesLeft(sc: Script, b: Bus): nat {
    if b.pos < |sc.samples| then |sc.samples| - b.pos else 0
  }

  /** The bus after polling and the bytes handed on, in order. */
  datatype Polled = Polled(bus: Bus, events: seq<Event>)

  /** What one byte read with a given status turns into under a control value. */
  function Route(st: Status, data: bv8, ctr: bv8): (r: seq<Event>)
    ensures |r| <= 1
  {
    if st.auxdata then (if HasBit(ctr, I8042_CTR_AUXDIS) then [] else [MouseByte(data)])
    else (if HasBit(ctr, I8042_CTR_KBDDIS) then [] else [KeyByte(data)])
  }

  /** The loop of ps2_check_event: while OBF is set, read the byte and route it by AUXDATA to an enabled port. */
  function Drain(sc: Script, b: Bus, ctr: bv8): (r: Polled)
    ensures r.bus.sent == b.sent && b.pos < r.bus.pos
    decreases SamplesLeft(sc, b)
  {
    var s := At(sc, b.pos);
    if !s.status.obf then Polled(Poll(b), [])
    else
      var rest := Drain(sc, Poll(b), ctr);
      Polled(rest.bus, Route(s.status, s.data, ctr) + rest.events)
  }

  /** The loop of ps2_check_event as it runs, with the bytes acc handed on so far. */
  function DrainFrom(sc: Script, b: Bus, ctr: bv8, acc: seq<Event>): (r: Polled)
    decreases SamplesLeft(sc, b)
  {
    var s := At(sc, b.pos);
    if !s.status.obf then Polled(Poll(b), acc)
    else DrainFrom(sc, Poll(b), ctr, acc + Route(s.status, s.data, ctr))
  }

  /** Running the loop after acc was handed on ends where draining does, with acc ahead of its bytes. */
  lemma {:induction false} DrainFromDrain(sc: Script, b: Bus, ctr: bv8, acc: seq<Event>)
    ensures DrainFrom(sc, b, ctr, acc) == Polled(Drain(sc, b, ctr).bus, acc + Drain(sc, b, ctr).events)
    decreases SamplesLeft(sc, b)
  {
    var s := At(sc, b.pos);
    if !s.status.obf {
      assert acc + [] == acc;
    } else {
      var route := Route(s.status, s.data, ctr);
      DrainFromDrain(sc, Poll(b), ctr, acc + route);
      assert (acc + route) + Drain(sc, Poll(b), ctr).events == acc + (route + Drain(sc, Poll(b), ctr).events);
    }
  }

  /** ps2_check_event: nothing without PS/2 support, with hardware interrupts, or with both ports disabled. */
  function CheckEvent(sc: Script, b: Bus, ctr: bv8, configPs2port: bool, hardwareIrq: bool): (r: Polled)
    ensures r.bus.sent == b.sent
  {
    if !configPs2port || hardwareIrq then Polled(b, [])
    else if ctr & (I8042_CTR_KBDDIS | I8042_CTR_AUXDIS) == I8042_CTR_KBDDIS | I8042_CTR_AUXDIS then Polled(b, [])
    else Drain(sc, b, ctr)
  }

  /**
   * Draining stops at the first sample with OBF clear, hands on no more
   * bytes than it read, mouse bytes only with AUXDIS clear and keyboard
   * bytes only with KBDDIS clear.
   */
  lemma {:induction false} DrainRouting(sc: Script, b: Bus, ctr: bv8)
    ensures var r := Drain(sc, b, ctr);
      !At(sc, r.bus.pos - 1).status.obf && |r.events| < r.bus.pos - b.pos
    ensures var r := Drain(sc, b, ctr);
      forall k :: b.pos <= k < r.bus.pos - 1 ==> At(sc, k).status.obf
    ensures forall e :: e in Drain(sc, b, ctr).events && e.MouseByte? ==> !HasBit(ctr, I8042_CTR_AUXDIS)
    ensures forall e :: e in Drain(sc, b, ctr).events && e.KeyByte? ==> !HasBit(ctr, I8042_CTR_KBDDIS)
    decreases SamplesLeft(sc, b)
  {
    var s := At(sc, b.pos);
    if s.status.obf {
      DrainRouting(sc, Poll(b), ctr);
      var rest := Drain(sc, Poll(b), ctr);
      forall e | e in Route(s.status, s.data, ctr) + rest.events
        ensures e in Route(s.status, s.data, ctr) || e in rest.events
      {}
    }
  }

  /**
   * Polling reads nothing once both ports are disabled, hands mouse bytes
   * on only with AUXDIS clear and keyboard bytes only with KBDDIS clear.
   */
  lemma CheckEventRouting(sc: Script, b: Bus, ctr: bv8, configPs2port: bool, hardwareIrq: bool)
    ensures HasBit(ctr, I8042_CTR_KBDDIS) && HasBit(ctr, I8042_CTR_AUXDIS) ==>
      CheckEvent(sc, b, ctr, configPs2port, hardwareIrq) == Polled(b, [])
    ensures forall e :: e in CheckEvent(sc, b, ctr, configPs2port, hardwareIrq).events && e.MouseByte? ==> !HasBit(ctr, I8042_CTR_AUXDIS)
    ensures forall e :: e in CheckEvent(sc, b, ctr, configPs2port, hardwareIrq).events && e.KeyByte? ==> !HasBit(ctr, I8042_CTR_KBDDIS)
  {
    DrainRouting(sc, b, ctr);
  }

  // ---------------------------------------------------------------------
  // The driver
  // ---------------------------------------------------------------------

  /** The driver state: the controller it talks to, the bus so far and the Ps2ctr global. */
  class Controller {
    const script: Script
    var bus: Bus
    var ps2ctr: bv8

    constructor (script: Script)
      ensures this.script == script && bus == Bus(0, 0, []) && ps2ctr == PS2CTR_INIT
    {
      this.script := script;
      bus := Bus(0, 0, []);
      ps2ctr := PS2CTR_INIT;
    }

    /** `inb(PORT_PS2_STATUS)`: polls the next sample and gives its status bits. */
    method InStatus() returns (st: Status)
      modifies this
      ensures st == At(script, old(bus).pos).status && bus == Poll(old(bus)) && ps2ctr == old(ps2ctr)
    {
      st := At(script, bus.pos).status;
      bus := Poll(bus);
    }

    /** `inb(PORT_PS2_DATA)`: the output byte of the sample polled last. */
    method InData() returns (v: bv8)
      ensures v == LastData(script, bus)
    {
      v := LastData(script, bus);
    }

    /** outb: logged. */
    method Outb(v: bv8, port: int)
      modifies this
      ensures bus == Emit(old(bus), port, v) && ps2ctr == old(ps2ctr)
    {
      bus := Emit(bus, port, v);
    }

    /** timer_check: the next scripted answer. */
    method TimerCheck() returns (expired: bool)
      modifies this
      ensures expired == Expired(script, old(bus).tpos) && bus == Tick(old(bus)) && ps2ctr == old(ps2ctr)
    {
      expired := Expired(script, bus.tpos);
      bus := Tick(bus);
    }

    /** i8042_wait_read (forRead) and i8042_wait_write. */
    method WaitFor(forRead: bool) returns (ret: int)
      modifies this
      ensures Res(ret, bus) == Wait(script, old(bus), forRead, I8042_CTL_TIMEOUT) && ps2ctr == old(ps2ctr)
    {
      for i := 0 to I8042_CTL_TIMEOUT
        invariant Wait(script, bus, forRead, I8042_CTL_TIMEOUT - i) == Wait(script, old(bus), forRead, I8042_CTL_TIMEOUT)
        invariant ps2ctr == old(ps2ctr)
      {
        WaitStep(script, bus, forRead, I8042_CTL_TIMEOUT - i);
        var st := InStatus();
        if Ready(st, forRead) {
          return 0;
        }
      }
      WaitStep(script, bus, forRead, 0);
      return -1;
    }

    /** i8042_flush. */
    method I8042Flush() returns (ret: int)
      modifies this
      ensures Res(ret, bus) == Flush(script, old(bus), 0) && ps2ctr == old(ps2ctr)
    {
      for i := 0 to I8042_BUFFER_SIZE
        invariant Flush(script, bus, i) == Flush(script, old(bus), 0)
        invariant ps2ctr == old(ps2ctr)
      {
        var st := InStatus();
        if !st.obf {
          return 0;
        }
        var _ := InData();
      }
      return -1;
    }

    /** The send loop of __i8042_command. */
    method SendParamLoop(param: array<bv8>, send: nat) returns (ret: int)
      requires send <= param.Length
      modifies this
      ensures Res(ret, bus) == SendParams(script, old(bus), param[..], 0, send) && ps2ctr == old(ps2ctr)
    {
      for i := 0 to send
        invariant SendParams(script, bus, param[..], i, send) == SendParams(script, old(bus), param[..], 0, send)
        invariant ps2ctr == old(ps2ctr)
      {
        ret := WaitFor(false);
        if ret != 0 {
          return;
        }
        Outb(param[i], PORT_PS2_DATA);
      }
      return 0;
    }

    /** The receive loop of __i8042_command. */
    method RecvParamLoop(param: array<bv8>, receive: nat) returns (ret: int)
      requires receive <= param.Length
      modifies this, param
      ensures Reply(ret, bus, param[..]) == RecvParams(script, old(bus), old(param[..]), 0, receive)
      ensures ps2ctr == old(ps2ctr)
    {
      for i := 0 to receive
        invariant RecvParams(script, bus, param[..], i, receive) == RecvParams(script, old(bus), old(param[..]), 0, receive)
        invariant ps2ctr == old(ps2ctr)
      {
        ret := WaitFor(true);
        if ret != 0 {
          return;
        }
        var v := InData();
        param[i] := v;
      }
      return 0;
    }

    /** __i8042_command (and i8042_command, which only adds a message). */
    method I8042Command(cmd: bv16, param: array<bv8>) returns (ret: int)
      requires Send(cmd) <= param.Length && Receive(cmd) <= param.Length
      modifies this, param
      ensures Reply(ret, bus, param[..]) == Command(script, old(bus), cmd, old(param[..])) && ps2ctr == old(ps2ctr)
    {
      var receive := Receive(cmd);
      var send := Send(cmd);
      ghost var p0 := param[..];
      ghost var r := Exec(script, bus, Opcode(cmd), send, receive, p0);
      ret := WaitFor(false);
      if ret != 0 {
        assert r == Reply(ret, bus, p0);
        return;
      }
      Outb(Opcode(cmd), PORT_PS2_STATUS);
      ret := SendParamLoop(param, send);
      if ret != 0 {
        assert r == Reply(ret, bus, p0);
        return;
      }
      assert r == RecvParams(script, bus, p0, 0, receive);
      ret := RecvParamLoop(param, receive);
    }

    /** A one-byte buffer for the commands that pass the address of a single byte. */
    static method Cell(v: bv8) returns (cell: array<bv8>)
      ensures fresh(cell) && cell[..] == [v]
    {
      cell := new bv8[1];
      cell[0] := v;
    }

    /** i8042_kbd_write and i8042_aux_write. */
    method WriteDeviceByte(aux: bool, c: bv8) returns (ret: int)
      modifies this
      ensures Res(ret, bus) == WriteByte(script, old(bus), aux, c) && ps2ctr == old(ps2ctr)
    {
      if aux {
        AuxSendCommand();
        var cell := Cell(c);
        ret := I8042Command(I8042_CMD_AUX_SEND, cell);
      } else {
        ret := WaitFor(false);
        if ret == 0 {
          Outb(c, PORT_PS2_DATA);
        }
      }
    }

    /** ps2_recvbyte; None stands for its -1, and the timeout is whatever the scripted timer checks say. */
    method RecvDeviceByte(aux: bool, needack: bool) returns (byte: Option<bv8>)
      modifies this
      ensures Got(byte, bus) == RecvByte(script, old(bus), aux, needack) && ps2ctr == old(ps2ctr)
    {
      while true
        invariant RecvByte(script, bus, aux, needack) == RecvByte(script, old(bus), aux, needack)
        invariant ps2ctr == old(ps2ctr)
        decreases TicksLeft(script, bus)
      {
        var st := InStatus();
        if st.obf {
          var data := InData();
          if st.auxdata == aux {
            if !needack || data == PS2_RET_ACK || data == PS2_RET_NAK {
              return Some(data);
            }
          }
        }
        var expired := TimerCheck();
        if expired {
          return None;
        }
      }
    }

    /** ps2_sendbyte. */
    method SendDeviceByte(aux: bool, c: bv8) returns (ret: int)
      modifies this
      ensures Res(ret, bus) == SendByte(script, old(bus), aux, c) && ps2ctr == old(ps2ctr)
    {
      ret := WriteDeviceByte(aux, c);
      if ret != 0 {
        return;
      }
      var a := RecvDeviceByte(aux, true);
      if a.None? {
        return -1;
      }
      if a.value != PS2_RET_ACK {
        return -1;
      }
      return 0;
    }

    /** The RESET_BAT branch of __ps2_command. */
    method ResetBatBranch(aux: bool, cmd: bv16, param: array<bv8>) returns (ret: int)
      requires ParamRoom(cmd) <= param.Length && Opcode(cmd) == 0xff
      modifies this, param
      ensures Reply(ret, bus, param[..]) == ResetBat(script, old(bus), aux, cmd, old(param[..])) && ps2ctr == old(ps2ctr)
    {
      ret := SendDeviceByte(aux, Opcode(cmd));
      if ret != 0 {
        return;
      }
      var a := RecvDeviceByte(aux, false);
      if a.None? {
        return -1;
      }
      param[0] := a.value;
      if Receive(cmd) > 1 {
        a := RecvDeviceByte(aux, false);
        if a.None? {
          return -1;
        }
        param[1] := a.value;
      }
      ret := 0;
    }

    /** The GETID branch of __ps2_command. */
    method GetIdBranch(aux: bool, param: array<bv8>) returns (ret: int)
      requires 2 <= param.Length
      modifies this, param
      ensures Reply(ret, bus, param[..]) == GetId(script, old(bus), aux, old(param[..])) && ps2ctr == old(ps2ctr)
    {
      ret := SendDeviceByte(aux, Opcode(ATKBD_CMD_GETID));
      if ret != 0 {
        return;
      }
      var a := RecvDeviceByte(aux, false);
      if a.None? {
        return -1;
      }
      param[0] := a.value;
      if TwoByteId(a.value) {
        a := RecvDeviceByte(aux, false);
        if a.None? {
          return -1;
        }
        param[1] := a.value;
      } else {
        param[1] := 0;
      }
      ret := 0;
    }

    /** The send loop of the general branch of __ps2_command. */
    method SendBytesLoop(aux: bool, param: array<bv8>, send: nat) returns (ret: int)
      requires send <= param.Length
      modifies this
      ensures Res(ret, bus) == SendBytes(script, old(bus), aux, param[..], 0, send) && ps2ctr == old(ps2ctr)
    {
      for i := 0 to send
        invariant SendBytes(script, bus, aux, param[..], i, send) == SendBytes(script, old(bus), aux, param[..], 0, send)
        invariant ps2ctr == old(ps2ctr)
      {
        ret := SendDeviceByte(aux, param[i]);
        if ret != 0 {
          return;
        }
      }
      return 0;
    }

    /** The receive loop of the general branch of __ps2_command. */
    method RecvBytesLoop(aux: bool, param: array<bv8>, receive: nat) returns (ret: int)
      requires receive <= param.Length
      modifies this, param
      ensures Reply(ret, bus, param[..]) == RecvBytes(script, old(bus), aux, old(param[..]), 0, receive)
      ensures ps2ctr == old(ps2ctr)
    {
      for i := 0 to receive
        invariant RecvBytes(script, bus, aux, param[..], i, receive) == RecvBytes(script, old(bus), aux, old(param[..]), 0, receive)
        invariant ps2ctr == old(ps2ctr)
      {
        var a := RecvDeviceByte(aux, false);
        if a.None? {
          return -1;
        }
        param[i] := a.value;
      }
      return 0;
    }

    /** The general branch of __ps2_command. */
    method ExchangeBranch(aux: bool, cmd: bv16, param: array<bv8>) returns (ret: int)
      requires Send(cmd) <= param.Length && Receive(cmd) <= param.Length
      modifies this, param
      ensures Reply(ret, bus, param[..]) == Exchange(script, old(bus), aux, cmd, old(param[..])) && ps2ctr == old(ps2ctr)
    {
      ret := SendDeviceByte(aux, Opcode(cmd));
      if ret != 0 {
        return;
      }
      ret := SendBytesLoop(aux, param, Send(cmd));
      if ret != 0 {
        return;
      }
      ret := RecvBytesLoop(aux, param, Receive(cmd));
    }

    /** The middle of __ps2_command: the one-port value, then the branch the command word selects. */
    method Ps2EnabledBody(aux: bool, cmd: bv16, param: array<bv8>) returns (ret: int)
      requires ParamRoom(cmd) <= param.Length
      modifies this, param
      ensures Reply(ret, bus, param[..]) == Ps2Enabled(script, old(bus), old(ps2ctr), aux, cmd, old(param[..]))
      ensures ps2ctr == TempCtr(old(ps2ctr))
    {
      WctrCommand();
      var newctr := TempCtr(ps2ctr);
      ps2ctr := newctr;
      newctr := EnableCtr(newctr, aux);
      var cell := Cell(newctr);
      ret := I8042Command(I8042_CMD_CTL_WCTR, cell);
      if ret != 0 {
        return;
      }
      if Opcode(cmd) == 0xff {
        ret := ResetBatBranch(aux, cmd, param);
      } else if cmd == ATKBD_CMD_GETID {
        ret := GetIdBranch(aux, param);
      } else {
        ret := ExchangeBranch(aux, cmd, param);
      }
    }

    /** __ps2_command (and ps2_command, which only adds a message). */
    method Ps2Cmd(aux: bool, cmd: bv16, param: array<bv8>) returns (ret: int)
      requires ParamRoom(cmd) <= param.Length
      modifies this, param
      ensures Ps2Reply(ret, bus, ps2ctr, param[..]) == Ps2Command(script, old(bus), old(ps2ctr), aux, cmd, old(param[..]))
    {
      WctrCommand();
      var ctr := ps2ctr;
      var cell := Cell(TempCtr(ctr));
      ret := I8042Command(I8042_CMD_CTL_WCTR, cell);
      if ret != 0 {
        return;
      }
      ret := Ps2EnabledBody(aux, cmd, param);
      ps2ctr := ctr;
      cell := Cell(ctr);
      var ret2 := I8042Command(I8042_CMD_CTL_WCTR, cell);
      if ret2 != 0 {
        ret := ret2;
      }
    }

    /** ps2_kbd_command. */
    method KbdCmd(configPs2port: bool, cmd: bv16, param: array<bv8>) returns (ret: int)
      requires ParamRoom(cmd) <= param.Length
      modifies this, param
      ensures Ps2Reply(ret, bus, ps2ctr, param[..]) == KbdCommand(script, old(bus), old(ps2ctr), configPs2port, cmd, old(param[..]))
    {
      if !configPs2port {
        return -1;
      }
      ret := Ps2Cmd(false, cmd, param);
    }

    /** The Ps2ctr update of ps2_mouse_command for ENABLE and DISABLE. */
    method UpdateMouseCtr(hardwareIrq: bool, cmd: bv16)
      modifies this
      ensures ps2ctr == MouseCtr(old(ps2ctr), cmd, hardwareIrq) && bus == old(bus)
    {
      if cmd == PSMOUSE_CMD_ENABLE || cmd == PSMOUSE_CMD_DISABLE {
        var ctr := ps2ctr;
        if cmd == PSMOUSE_CMD_ENABLE {
          ctr := (ctr | (if hardwareIrq then I8042_CTR_AUXINT else 0)) & !I8042_CTR_AUXDIS;
        } else {
          ctr := (ctr | I8042_CTR_AUXDIS) & !I8042_CTR_AUXINT;
        }
        ps2ctr := ctr;
      }
    }

    /** ps2_mouse_command. */
    method MouseCmd(configPs2port: bool, hardwareIrq: bool, cmd: bv16, param: array<bv8>) returns (ret: int)
      requires ParamRoom(cmd) <= param.Length
      modifies this, param
      ensures Ps2Reply(ret, bus, ps2ctr, param[..]) == MouseCommand(script, old(bus), old(ps2ctr), configPs2port, hardwareIrq, cmd, old(param[..]))
    {
      if !configPs2port {
        return -1;
      }
      UpdateMouseCtr(hardwareIrq, cmd);
      ret := Ps2Cmd(true, cmd, param);
    }

    /** handle_74; the byte passed to process_mouse is returned. */
    method MouseIrq(configPs2port: bool) returns (processed: Option<bv8>)
      modifies this
      ensures Irq(bus, processed) == Handle74(script, old(bus), ps2ctr, configPs2port) && ps2ctr == old(ps2ctr)
    {
      if !configPs2port {
        return None;
      }
      var st := InStatus();
      if !(st.obf && st.auxdata) {
        return None;
      }
      var v := InData();
      if !HasBit(ps2ctr, I8042_CTR_AUXINT) {
        return None;
      }
      return Some(v);
    }

    /** handle_09; the byte passed to process_key is returned. */
    method KeyboardIrq(configPs2port: bool) returns (processed: Option<bv8>)
      modifies this
      ensures Irq(bus, processed) == Handle09(script, old(bus), ps2ctr, configPs2port) && ps2ctr == old(ps2ctr)
    {
      if !configPs2port {
        return None;
      }
      var st := InStatus();
      if st.auxdata {
        return None;
      }
      var v := InData();
      if !HasBit(ps2ctr, I8042_CTR_KBDINT) {
        return None;
      }
      KbdEnableCommand();
      var none := new bv8[0];
      var _ := I8042Command(I8042_CMD_KBD_ENABLE, none);
      return Some(v);
    }

    /** The branches of the loop body of ps2_check_event: the byte read, routed by AUXDATA. */
    static method RouteByte(st: Status, data: bv8, ctr: bv8) returns (e: seq<Event>)
      ensures e == Route(st, data, ctr)
    {
      e := [];
      if st.auxdata {
        if !HasBit(ctr, I8042_CTR_AUXDIS) {
          e := [MouseByte(data)];
        }
      } else {
        if !HasBit(ctr, I8042_CTR_KBDDIS) {
          e := [KeyByte(data)];
        }
      }
    }

    /** The loop of ps2_check_event under control value ctr. */
    method DrainLoop(ctr: bv8) returns (events: seq<Event>)
      modifies this
      ensures Polled(bus, events) == Drain(script, old(bus), ctr) && ps2ctr == old(ps2ctr)
    {
      events := [];
      ghost var b0 := bus;
      while true
        invariant DrainFrom(script, bus, ctr, events) == DrainFrom(script, b0, ctr, [])
        invariant ps2ctr == old(ps2ctr)
        decreases SamplesLeft(script, bus)
      {
        var st := InStatus();
        if !st.obf {
          break;
        }
        var data := InData();
        var e := RouteByte(st, data, ctr);
        events := events + e;
      }
      DrainFromDrain(script, b0, ctr, []);
      assert [] + Drain(script, b0, ctr).events == Drain(script, b0, ctr).events;
    }

    /** ps2_check_event; the bytes passed to process_mouse and process_key are returned in order. */
    method CheckPs2Event(configPs2port: bool, hardwareIrq: bool) returns (events: seq<Event>)
      modifies this
      ensures Polled(bus, events) == CheckEvent(script, old(bus), ps2ctr, configPs2port, hardwareIrq) && ps2ctr == old(ps2ctr)
    {
      if !configPs2port || hardwareIrq {
        return [];
      }
      var ctr := ps2ctr;
      if ctr & (I8042_CTR_KBDDIS | I8042_CTR_AUXDIS) == I8042_CTR_KBDDIS | I8042_CTR_AUXDIS {
        return [];
      }
      events := DrainLoop(ctr);
    }
  }
}

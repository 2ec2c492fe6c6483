/** The driver's collaborators as seen from the wire: the events the driver
    causes (chip-select and hold pin levels, full-duplex byte exchanges), and
    an idealised 23x chip that answers them. The chip is the reference the
    round-trip properties are stated against: a byte-addressed memory, the
    mode/status register, and the command decoder of the 23x serial
    protocol (opcode, big-endian address, then data). */
module Chip {
  import opened Bits
  import opened Protocol
  import opened Devices

  /** One thing the driver does to its collaborators. */
  datatype Event =
    | CsLow                    // assert chip select (start of a command)
    | CsHigh                   // release chip select (end of a command)
    | HoldLow                  // assert the hold pin
    | HoldHigh                 // release the hold pin
    | Exchange(tx: seq<Byte>)  // clock `tx` out and as many bytes in

  /** The idealised chip: its part number, memory (absent addresses read as
      zero), mode/status register, pin levels, and the bytes clocked in since
      chip select was asserted. The address counter never wraps. */
  datatype Chip = Chip(
    part: Part,
    mem: map<nat, Byte>,
    status: Byte,
    selected: bool,
    held: bool,
    shifted: seq<Byte>)
  {
    /** The constants of this chip's variant. */
    function Dt(): DeviceType
    {
      Descriptor(part)
    }
  }

  /** The byte stored at `a`. */
  function Get(mem: map<nat, Byte>, a: nat): Byte
  {
    if a in mem then mem[a] else 0
  }

  /** The chip ignores the bus while its hold pin is asserted, provided it
      has one and, on variants with a hold status bit, that bit is clear
      (clear means the hold function is enabled). */
  predicate Paused(c: Chip)
  {
    c.Dt().holdPin && c.held && (!c.Dt().holdStatus || c.status % 2 == 0)
  }

  /** The chip cannot pause in its current pin state, whatever its status
      register holds: its hold pin is released, or it has none. */
  predicate Listening(c: Chip)
  {
    !c.held || !c.Dt().holdPin
  }

  /** Where the next data byte of a Read or Write command goes: the address
      in the header plus the data bytes already clocked. */
  function Cursor(c: Chip): nat
    requires c.Dt().addressBytes <= |c.shifted|
  {
    BeValue(c.shifted[1..c.Dt().addressBytes]) + (|c.shifted| - c.Dt().addressBytes)
  }

  /** The chip after an event, and the bytes it clocked out. */
  datatype Response = Response(chip: Chip, rx: seq<Byte>)

  /** One byte clocked into a selected chip, decoded against the bytes of
      the command so far: the opcode, then (for Read and Write) the address,
      then data. */
  function ShiftByte(c: Chip, b: Byte): (r: Response)
    ensures |r.rx| == 1
    ensures r.chip.shifted == c.shifted + [b]
    ensures r.chip.part == c.part && r.chip.selected == c.selected && r.chip.held == c.held
  {
    var k := |c.shifted|;
    var next := c.(shifted := c.shifted + [b]);
    if k == 0 then Response(next, [0])
    else
      match InstructionOf(c.shifted[0])
      case Some(ReadMode) => Response(next, [c.status])
      case Some(WriteMode) =>
        if k == 1 then Response(next.(status := b), [0]) else Response(next, [0])
      case Some(Read) =>
        if k < c.Dt().addressBytes then Response(next, [0])
        else Response(next, [Get(c.mem, Cursor(c))])
      case Some(Write) =>
        if k < c.Dt().addressBytes then Response(next, [0])
        else Response(next.(mem := c.mem[Cursor(c) := b]), [0])
      case _ => Response(next, [0])
  }

  /** A buffer clocked through a selected chip, byte by byte. */
  function Shift(c: Chip, tx: seq<Byte>): (r: Response)
    ensures |r.rx| == |tx|
    ensures r.chip.shifted == c.shifted + tx
    ensures r.chip.part == c.part && r.chip.selected == c.selected && r.chip.held == c.held
    decreases |tx|
  {
    if tx == [] then Response(c, [])
    else
      var first := ShiftByte(c, tx[0]);
      var rest := Shift(first.chip, tx[1..]);
      Response(rest.chip, first.rx + rest.rx)
  }

  /** The chip's reaction to one event. Chip select starts and ends a
      command; an exchange reaches the chip only while it is selected and
      not paused, and otherwise reads back zeros. */
  function ChipStep(c: Chip, e: Event): (r: Response)
    ensures e.Exchange? ==> |r.rx| == |e.tx|
    ensures !e.Exchange? ==> r.rx == []
    ensures r.chip.part == c.part
  {
    match e
    case CsLow => Response(c.(selected := true, shifted := []), [])
    case CsHigh => Response(c.(selected := false, shifted := []), [])
    case HoldLow => Response(c.(held := true), [])
    case HoldHigh => Response(c.(held := false), [])
    case Exchange(tx) =>
      if !c.selected || Paused(c) then Response(c, Zeros(|tx|)) else Shift(c, tx)
  }

  /** The chip after a sequence of events, with what each event clocked out. */
  datatype Replies = Replies(chip: Chip, rxs: seq<seq<Byte>>)

  function ChipRun(c: Chip, events: seq<Event>): (r: Replies)
    ensures |r.rxs| == |events|
    ensures r.chip.part == c.part
    decreases |events|
  {
    if events == [] then Replies(c, [])
    else
      var first := ChipStep(c, events[0]);
      var rest := ChipRun(first.chip, events[1..]);
      Replies(rest.chip, [first.rx] + rest.rxs)
  }

  /** Running two event sequences one after the other is running their
      concatenation. */
  lemma {:induction false} ChipRunAppend(c: Chip, a: seq<Event>, b: seq<Event>)
    ensures ChipRun(c, a + b)
         == Replies(ChipRun(ChipRun(c, a).chip, b).chip, ChipRun(c, a).rxs + ChipRun(ChipRun(c, a).chip, b).rxs)
    decreases |a|
  {
    if a == [] {
      assert a + b == b;
    } else {
      assert (a + b)[0] == a[0] && (a + b)[1..] == a[1..] + b;
      var first := ChipStep(c, a[0]);
      ChipRunAppend(first.chip, a[1..], b);
      var mid := ChipRun(first.chip, a[1..]);
      var last := ChipRun(mid.chip, b);
      assert [first.rx] + (mid.rxs + last.rxs) == ([first.rx] + mid.rxs) + last.rxs;
    }
  }

  /** A run is its first step followed by the run of the rest. */
  lemma ChipRunCons(c: Chip, e: Event, rest: seq<Event>)
    ensures var first := ChipStep(c, e);
      ChipRun(c, [e] + rest) == Replies(ChipRun(first.chip, rest).chip, [first.rx] + ChipRun(first.chip, rest).rxs)
  {
    assert ([e] + rest)[1..] == rest;
  }

  /** A one-event run is one step. */
  lemma ChipRunSingle(c: Chip, e: Event)
    ensures ChipRun(c, [e]) == Replies(ChipStep(c, e).chip, [ChipStep(c, e).rx])
  {
    assert [e][1..] == [];
  }

  /** Clocking two buffers one after the other within one command is
      clocking their concatenation. */
  lemma {:induction false} ShiftAppend(c: Chip, x: seq<Byte>, y: seq<Byte>)
    ensures Shift(c, x + y) == Response(Shift(Shift(c, x).chip, y).chip, Shift(c, x).rx + Shift(Shift(c, x).chip, y).rx)
    decreases |x|
  {
    if x == [] {
      assert x + y == y;
    } else {
      assert (x + y)[0] == x[0] && (x + y)[1..] == x[1..] + y;
      var first := ShiftByte(c, x[0]);
      ShiftAppend(first.chip, x[1..], y);
      var mid := Shift(first.chip, x[1..]);
      var last := Shift(mid.chip, y);
      assert first.rx + (mid.rx + last.rx) == (first.rx + mid.rx) + last.rx;
    }
  }

  /** Memory after storing `data` at consecutive addresses from `base`. */
  function Stored(mem: map<nat, Byte>, base: nat, data: seq<Byte>): map<nat, Byte>
    decreases |data|
  {
    if data == [] then mem else Stored(mem[base := data[0]], base + 1, data[1..])
  }

  /** The `n` bytes stored at consecutive addresses from `base`. */
  function Fetched(mem: map<nat, Byte>, base: nat, n: nat): (bs: seq<Byte>)
    ensures |bs| == n
    decreases n
  {
    if n == 0 then [] else [Get(mem, base)] + Fetched(mem, base + 1, n - 1)
  }

  /** After storing, the addresses written hold the data and every other
      address keeps its byte. */
  lemma {:induction false} StoredGet(mem: map<nat, Byte>, base: nat, data: seq<Byte>, a: nat)
    ensures Get(Stored(mem, base, data), a)
         == if base <= a < base + |data| then data[a - base] else Get(mem, a)
    decreases |data|
  {
    if data != [] {
      StoredGet(mem[base := data[0]], base + 1, data[1..], a);
    }
  }

  /** Reading `n` bytes from `base` of a memory that agrees with `m` on
      that range gives the same bytes. */
  lemma {:induction false} FetchedAgree(mem: map<nat, Byte>, data: seq<Byte>, base: nat, from: nat)
    requires from <= |data|
    requires forall i :: from <= i < |data| ==> Get(mem, base + i) == data[i]
    ensures Fetched(mem, base + from, |data| - from) == data[from..]
    decreases |data| - from
  {
    if from < |data| {
      FetchedAgree(mem, data, base, from + 1);
      assert data[from..] == [data[from]] + data[from + 1..];
    }
  }

  /** Reading back a stored run gives the run. */
  lemma StoredFetched(mem: map<nat, Byte>, base: nat, data: seq<Byte>)
    ensures Fetched(Stored(mem, base, data), base, |data|) == data
  {
    var m := Stored(mem, base, data);
    forall i | 0 <= i < |data|
      ensures Get(m, base + i) == data[i]
    {
      StoredGet(mem, base, data, base + i);
    }
    FetchedAgree(m, data, base, 0);
  }

  /** The opcode and address bytes of a Read or Write command are absorbed
      silently: the chip only records them and clocks out zeros. */
  lemma {:induction false} ShiftHeader(c: Chip, h: seq<Byte>, j: nat)
    requires |h| == c.Dt().addressBytes
    requires InstructionOf(h[0]) == Some(Read) || InstructionOf(h[0]) == Some(Write)
    requires j <= |h| && c.shifted == h[..j]
    ensures Shift(c, h[j..]) == Response(c.(shifted := h), Zeros(|h| - j))
    decreases |h| - j
  {
    if j < |h| {
      var first := ShiftByte(c, h[j]);
      assert first.chip == c.(shifted := h[..j + 1]) && first.rx == [0] by {
        assert h[..j] + [h[j]] == h[..j + 1];
      }
      ShiftHeader(first.chip, h, j + 1);
      var rest := Shift(first.chip, h[j + 1..]);
      assert rest == Response(c.(shifted := h), Zeros(|h| - (j + 1)));
      assert Shift(c, h[j..]) == Response(rest.chip, first.rx + rest.rx) by {
        assert h[j..][0] == h[j];
        assert h[j..][1..] == h[j + 1..];
      }
      assert [0] + Zeros(|h| - (j + 1)) == Zeros(|h| - j);
    } else {
      assert h[..j] == h;
    }
  }

  /** Data clocked into a Write command is stored from the cursor on. */
  lemma {:induction false} ShiftWriteData(c: Chip, data: seq<Byte>)
    requires 1 <= c.Dt().addressBytes <= |c.shifted|
    requires InstructionOf(c.shifted[0]) == Some(Write)
    ensures Shift(c, data).chip == c.(shifted := c.shifted + data, mem := Stored(c.mem, Cursor(c), data))
    decreases |data|
  {
    if data != [] {
      var h := c.Dt().addressBytes;
      var first := ShiftByte(c, data[0]);
      assert first.chip == c.(shifted := c.shifted + [data[0]], mem := c.mem[Cursor(c) := data[0]]);
      assert (c.shifted + [data[0]])[1..h] == c.shifted[1..h];
      assert Cursor(first.chip) == Cursor(c) + 1;
      ShiftWriteData(first.chip, data[1..]);
      assert c.shifted + [data[0]] + data[1..] == c.shifted + data;
    }
  }

  /** Data clocked through a Read command is answered with the memory from
      the cursor on, and leaves the memory alone. */
  lemma {:induction false} ShiftReadData(c: Chip, data: seq<Byte>)
    requires 1 <= c.Dt().addressBytes <= |c.shifted|
    requires InstructionOf(c.shifted[0]) == Some(Read)
    ensures Shift(c, data) == Response(c.(shifted := c.shifted + data), Fetched(c.mem, Cursor(c), |data|))
    decreases |data|
  {
    if data != [] {
      var h := c.Dt().addressBytes;
      var first := ShiftByte(c, data[0]);
      assert first.chip == c.(shifted := c.shifted + [data[0]]);
      assert first.rx == [Get(c.mem, Cursor(c))];
      assert (c.shifted + [data[0]])[1..h] == c.shifted[1..h];
      assert Cursor(first.chip) == Cursor(c) + 1;
      ShiftReadData(first.chip, data[1..]);
      assert c.shifted + [data[0]] + data[1..] == c.shifted + data;
    }
  }

  /** A whole Write command (header then data) stores the data at the
      address the header names. */
  lemma ShiftWriteCommand(c: Chip, h: seq<Byte>, data: seq<Byte>)
    requires c.shifted == []
    requires |h| == c.Dt().addressBytes
    requires InstructionOf(h[0]) == Some(Write)
    ensures Shift(c, h + data).chip
         == c.(shifted := h + data, mem := Stored(c.mem, BeValue(h[1..]), data))
  {
    var c1 := c.(shifted := h);
    assert Shift(c, h).chip == c1 by {
      assert h[0..] == h && h[..0] == [];
      ShiftHeader(c, h, 0);
    }
    assert Cursor(c1) == BeValue(h[1..]) by {
      assert h[1..c1.Dt().addressBytes] == h[1..];
    }
    assert Shift(c, h + data).chip == Shift(c1, data).chip by {
      ShiftAppend(c, h, data);
    }
    ShiftWriteData(c1, data);
  }

  /** A whole Read command (header then filler) clocks out zeros during the
      header and then the memory from the address the header names. */
  lemma ShiftReadCommand(c: Chip, h: seq<Byte>, filler: seq<Byte>)
    requires c.shifted == []
    requires |h| == c.Dt().addressBytes
    requires InstructionOf(h[0]) == Some(Read)
    ensures Shift(c, h + filler)
         == Response(c.(shifted := h + filler), Zeros(|h|) + Fetched(c.mem, BeValue(h[1..]), |filler|))
  {
    var c1 := c.(shifted := h);
    assert Shift(c, h) == Response(c1, Zeros(|h|)) by {
      assert h[0..] == h && h[..0] == [];
      ShiftHeader(c, h, 0);
    }
    assert Cursor(c1) == BeValue(h[1..]) by {
      assert h[1..c1.Dt().addressBytes] == h[1..];
    }
    assert Shift(c, h + filler) == Response(Shift(c1, filler).chip, Zeros(|h|) + Shift(c1, filler).rx) by {
      ShiftAppend(c, h, filler);
    }
    ShiftReadData(c1, filler);
  }

  /** A two-byte WriteMode command sets the mode/status register to its
      second byte. */
  lemma ShiftModeWrite(c: Chip, m: Byte)
    requires c.shifted == []
    ensures Shift(c, [Opcode(WriteMode), m]) == Response(c.(shifted := [Opcode(WriteMode), m], status := m), [0, 0])
  {
    var first := ShiftByte(c, Opcode(WriteMode));
    assert first == Response(c.(shifted := [Opcode(WriteMode)]), [0]);
    var second := ShiftByte(first.chip, m);
    assert [Opcode(WriteMode)] + [m] == [Opcode(WriteMode), m];
    assert second == Response(c.(shifted := [Opcode(WriteMode), m], status := m), [0]);
    assert Shift(first.chip, [m]) == Response(second.chip, second.rx) by {
      assert [m][1..] == [];
      assert second.rx + [] == second.rx;
    }
    assert [Opcode(WriteMode), m][1..] == [m];
  }

  /** A two-byte ReadMode command clocks out the mode/status register as
      its second byte and changes nothing else. */
  lemma ShiftModeRead(c: Chip, x: Byte)
    requires c.shifted == []
    ensures Shift(c, [Opcode(ReadMode), x]) == Response(c.(shifted := [Opcode(ReadMode), x]), [0, c.status])
  {
    var first := ShiftByte(c, Opcode(ReadMode));
    assert first == Response(c.(shifted := [Opcode(ReadMode)]), [0]);
    var second := ShiftByte(first.chip, x);
    assert [Opcode(ReadMode)] + [x] == [Opcode(ReadMode), x];
    assert second == Response(c.(shifted := [Opcode(ReadMode), x]), [c.status]);
    assert Shift(first.chip, [x]) == Response(second.chip, second.rx) by {
      assert [x][1..] == [];
      assert second.rx + [] == second.rx;
    }
    assert [Opcode(ReadMode), x][1..] == [x];
  }
}

/** What a caller of the driver can rely on when the chip on the bus is the
    variant the session was built for and no step fails: what is written
    reads back, the mode register takes the mode set, the hold pin pauses
    and resumes the chip, and the documented usage example behaves as
    intended. */
module Usage {
  import opened Bits
  import opened Protocol
  import opened Devices
  import opened Chip
  import opened Bus
  import opened Sram

  /** The session drives a chip of its own variant, which is not held. */
  predicate Attached(s: Sram, env: Env)
  {
    s.dt == env.chip.Dt() && Listening(env.chip)
  }

  /** A run with no planned failure among its steps completes all of them. */
  lemma Completed<T>(env: Env, nominal: seq<Event>, r: Run<T>)
    requires Attempted(env, nominal, r)
    requires FaultFree(env.faults, |nominal|)
    ensures r.result.Ok? && r.trace == nominal
    ensures r.env.chip == ChipRun(env.chip, nominal).chip
    ensures r.env.faults == Drop(env.faults, |nominal|)
  {
    FaultFreeFollows(env.faults, nominal, r.trace, ErrorOf(r.result));
  }

  /** The chip decodes the command header of a valid address back into the
      instruction and the address. */
  lemma HeaderAddress(dt: DeviceType, instruction: Instruction, address: Word)
    requires WellFormed(dt) && address <= dt.max && Opcode(instruction) < 0x80
    ensures var h := CommandHeader(instruction, address, dt.addressBytes);
      && InstructionOf(h[0]) == Some(instruction)
      && BeValue(h[1..]) == address
  {
    HeaderRoundTrip(dt, instruction, address);
  }

  /** A Write transfer stores the payload at the address and leaves the chip
      deselected; nothing else changes. */
  lemma WriteTransfer(c: Chip, address: Word, data: seq<Byte>)
    requires Listening(c) && address <= c.Dt().max
    ensures ChipRun(c, TransferEvents(CommandHeader(Write, address, c.Dt().addressBytes) + data)).chip
         == c.(mem := Stored(c.mem, address, data), selected := false, shifted := [])
  {
    var h := CommandHeader(Write, address, c.Dt().addressBytes);
    var c1 := c.(selected := true, shifted := []);
    var x := ChipStep(c1, Exchange(h + data));
    assert x.chip == c1.(shifted := h + data, mem := Stored(c.mem, address, data)) by {
      HeaderAddress(c.Dt(), Write, address);
      ShiftWriteCommand(c1, h, data);
    }
    assert ChipRun(c, TransferEvents(h + data)).chip == ChipStep(x.chip, CsHigh).chip by {
      TransferRun(c, h + data);
    }
  }

  /** A Read transfer answers zeros during the header and then the memory
      from the address on; it changes nothing but the chip-select state. */
  lemma ReadTransfer(c: Chip, address: Word, filler: seq<Byte>)
    requires Listening(c) && address <= c.Dt().max
    ensures var h := CommandHeader(Read, address, c.Dt().addressBytes);
      ChipRun(c, TransferEvents(h + filler))
        == Replies(c.(selected := false, shifted := []), [[], Zeros(|h|) + Fetched(c.mem, address, |filler|), []])
  {
    var h := CommandHeader(Read, address, c.Dt().addressBytes);
    var c1 := c.(selected := true, shifted := []);
    var x := ChipStep(c1, Exchange(h + filler));
    assert x == Response(c1.(shifted := h + filler), Zeros(|h|) + Fetched(c.mem, address, |filler|)) by {
      HeaderAddress(c.Dt(), Read, address);
      ShiftReadCommand(c1, h, filler);
    }
    assert ChipRun(c, TransferEvents(h + filler)) == Replies(ChipStep(x.chip, CsHigh).chip, [[], x.rx, []]) by {
      TransferRun(c, h + filler);
    }
  }

  /** The exchanges of a sequential access reach the selected chip one
      after the other. */
  lemma ExchangesRun(c1: Chip, h: seq<Byte>, data: seq<Byte>)
    requires c1.selected && Listening(c1)
    ensures var x1 := Shift(c1, h);
      var x2 := Shift(x1.chip, data);
      ChipRun(c1, [Exchange(h), Exchange(data), CsHigh])
        == Replies(x2.chip.(selected := false, shifted := []), [x1.rx, x2.rx, []])
  {
    var x1 := Shift(c1, h);
    var x2 := Shift(x1.chip, data);
    assert ChipRun(x1.chip, [Exchange(data), CsHigh]) == Replies(x2.chip.(selected := false, shifted := []), [x2.rx, []]) by {
      ChipRunSingle(x2.chip, CsHigh);
      ChipRunCons(x1.chip, Exchange(data), [CsHigh]);
      assert [Exchange(data)] + [CsHigh] == [Exchange(data), CsHigh];
    }
    ChipRunCons(c1, Exchange(h), [Exchange(data), CsHigh]);
    assert [Exchange(h)] + [Exchange(data), CsHigh] == [Exchange(h), Exchange(data), CsHigh];
  }

  /** Prepending to a three-element display. */
  lemma ConsDisplay<T>(a: T, b: T, c: T, d: T)
    ensures [a] + [b, c, d] == [a, b, c, d]
  {
  }

  /** A sequential access, step by step: select, both exchanges, deselect. */
  lemma SequentialSteps(c: Chip, h: seq<Byte>, data: seq<Byte>)
    requires Listening(c)
    ensures var c1 := c.(selected := true, shifted := []);
      var x1 := Shift(c1, h);
      var x2 := Shift(x1.chip, data);
      ChipRun(c, SequentialEvents(h, data))
        == Replies(x2.chip.(selected := false, shifted := []), [[], x1.rx, x2.rx, []])
  {
    var c1 := c.(selected := true, shifted := []);
    var tail := [Exchange(h), Exchange(data), CsHigh];
    assert [CsLow] + tail == SequentialEvents(h, data);
    ConsDisplay([], Shift(c1, h).rx, Shift(Shift(c1, h).chip, data).rx, []);
    ExchangesRun(c1, h, data);
    assert ChipStep(c, CsLow) == Response(c1, []);
    ChipRunCons(c, CsLow, tail);
  }

  /** A sequential access clocks header and payload through one command, as
      a single transfer of both would. */
  lemma SequentialRun(c: Chip, h: seq<Byte>, data: seq<Byte>)
    requires Listening(c)
    ensures var x := Shift(c.(selected := true, shifted := []), h + data);
      ChipRun(c, SequentialEvents(h, data))
        == Replies(x.chip.(selected := false, shifted := []), [[], x.rx[..|h|], x.rx[|h|..], []])
  {
    var c1 := c.(selected := true, shifted := []);
    var x1 := Shift(c1, h);
    var x2 := Shift(x1.chip, data);
    var x := Shift(c1, h + data);
    ShiftAppend(c1, h, data);
    assert x.rx == x1.rx + x2.rx;
    assert x.rx[..|h|] == x1.rx && x.rx[|h|..] == x2.rx;
    SequentialSteps(c, h, data);
  }

  /** Storing one byte is a single map update. */
  lemma StoredOne(mem: map<nat, Byte>, a: nat, b: Byte)
    ensures Stored(mem, a, [b]) == mem[a := b]
    ensures Fetched(mem[a := b], a, 1) == [b]
  {
    assert [b][1..] == [];
  }

  /** Round trip of `write_byte` and `read_byte`: the byte written is the
      byte read back, and the write changed the memory at that address
      only. */
  lemma ByteRoundTrip(s: Sram, env: Env, address: Word, b: Byte)
    requires Attached(s, env) && address <= s.dt.max
    requires FaultFree(env.faults, 6)
    ensures var w := WriteByte(s, env, address, b);
      && w.result == Ok(())
      && w.env.chip == env.chip.(mem := env.chip.mem[address := b], selected := false, shifted := [])
      && ReadByte(s, w.env, address).result == Ok(b)
  {
    var c := env.chip;
    var hw := CommandHeader(Write, address, s.dt.addressBytes);
    var w := WriteByte(s, env, address, b);
    FaultFreeDrop(env.faults, 3, 3);
    Completed(env, TransferEvents(hw + [b]), w);
    WriteTransfer(c, address, [b]);
    StoredOne(c.mem, address, b);
    var c2 := w.env.chip;
    var hr := CommandHeader(Read, address, s.dt.addressBytes);
    var r := ReadByte(s, w.env, address);
    Completed(w.env, TransferEvents(hr + [0]), r);
    ReadTransfer(c2, address, [0]);
    assert Answer(w.env, hr + [0]) == Zeros(|hr|) + [b];
  }

  /** Round trip of `write_page` and `read_page`: a full page written is
      the page read back from the same address. */
  lemma PageRoundTrip(s: Sram, env: Env, address: Word, page: seq<Byte>)
    requires Attached(s, env) && address <= s.dt.max && |page| == PageSize
    requires FaultFree(env.faults, 6)
    ensures var w := WritePage(s, env, address, page);
      && w.result == Ok(())
      && w.env.chip == env.chip.(mem := Stored(env.chip.mem, address, page), selected := false, shifted := [])
      && ReadPage(s, w.env, address).result == Ok(page)
  {
    var c := env.chip;
    var hw := CommandHeader(Write, address, s.dt.addressBytes);
    var w := WritePage(s, env, address, page);
    FaultFreeDrop(env.faults, 3, 3);
    Completed(env, TransferEvents(hw + page), w);
    WriteTransfer(c, address, page);
    var c2 := w.env.chip;
    var hr := CommandHeader(Read, address, s.dt.addressBytes);
    var r := ReadPage(s, w.env, address);
    Completed(w.env, TransferEvents(hr + Zeros(PageSize)), r);
    ReadTransfer(c2, address, Zeros(PageSize));
    StoredFetched(c.mem, address, page);
    assert (Zeros(|hr|) + page)[|hr|..] == page;
  }

  /** Round trip of the intended page write: a payload of at most 32 bytes
      reads back followed by zeros up to the page size. */
  lemma FilledPageRoundTrip(s: Sram, env: Env, address: Word, bytes: seq<Byte>)
    requires Attached(s, env) && address <= s.dt.max && |bytes| <= PageSize
    requires FaultFree(env.faults, 6)
    ensures var w := WritePageFilled(s, env, address, bytes);
      && w.result == Ok(())
      && ReadPage(s, w.env, address).result == Ok(bytes + Zeros(PageSize - |bytes|))
  {
    var c := env.chip;
    var page := bytes + Zeros(PageSize - |bytes|);
    var hw := CommandHeader(Write, address, s.dt.addressBytes);
    var w := WritePageFilled(s, env, address, bytes);
    FaultFreeDrop(env.faults, 3, 3);
    assert hw + bytes + Zeros(PageSize - |bytes|) == hw + page;
    Completed(env, TransferEvents(hw + page), w);
    WriteTransfer(c, address, page);
    var c2 := w.env.chip;
    var hr := CommandHeader(Read, address, s.dt.addressBytes);
    var r := ReadPage(s, w.env, address);
    Completed(w.env, TransferEvents(hr + Zeros(PageSize)), r);
    ReadTransfer(c2, address, Zeros(PageSize));
    StoredFetched(c.mem, address, page);
    assert (Zeros(|hr|) + page)[|hr|..] == page;
  }

  /** A sequential Write stores the payload from the address on; the chip
      clocks back as many bytes as it was sent. */
  lemma SequentialWriteRun(c: Chip, address: Word, data: seq<Byte>)
    requires Listening(c) && address <= c.Dt().max
    ensures var run := ChipRun(c, SequentialEvents(CommandHeader(Write, address, c.Dt().addressBytes), data));
      && run.chip == c.(mem := Stored(c.mem, address, data), selected := false, shifted := [])
      && |run.rxs[2]| == |data|
  {
    var h := CommandHeader(Write, address, c.Dt().addressBytes);
    HeaderAddress(c.Dt(), Write, address);
    SequentialRun(c, h, data);
    ShiftWriteCommand(c.(selected := true, shifted := []), h, data);
  }

  /** A sequential Read answers the memory from the address on during the
      payload exchange and changes nothing but the chip-select state. */
  lemma SequentialReadRun(c: Chip, address: Word, filler: seq<Byte>)
    requires Listening(c) && address <= c.Dt().max
    ensures var run := ChipRun(c, SequentialEvents(CommandHeader(Read, address, c.Dt().addressBytes), filler));
      && run.chip == c.(selected := false, shifted := [])
      && run.rxs[2] == Fetched(c.mem, address, |filler|)
  {
    var h := CommandHeader(Read, address, c.Dt().addressBytes);
    HeaderAddress(c.Dt(), Read, address);
    SequentialRun(c, h, filler);
    ShiftReadCommand(c.(selected := true, shifted := []), h, filler);
    assert (Zeros(|h|) + Fetched(c.mem, address, |filler|))[|h|..] == Fetched(c.mem, address, |filler|);
  }

  /** Round trip of `write_sequential` and `read_sequential`: a run of any
      length written from an address reads back into a buffer of the same
      length. */
  lemma SequentialRoundTrip(s: Sram, env: Env, address: Word, data: seq<Byte>, filler: seq<Byte>)
    requires Attached(s, env) && address <= s.dt.max && |filler| == |data|
    requires FaultFree(env.faults, 8)
    ensures var w := WriteSequential(s, env, address, data);
      && w.result.Ok? && |w.result.value| == |data|
      && w.env.chip == env.chip.(mem := Stored(env.chip.mem, address, data), selected := false, shifted := [])
      && ReadSequential(s, w.env, address, filler).result == Ok(data)
  {
    var c := env.chip;
    var w := WriteSequential(s, env, address, data);
    FaultFreeDrop(env.faults, 4, 4);
    Completed(env, SequentialEvents(CommandHeader(Write, address, s.dt.addressBytes), data), w);
    SequentialWriteRun(c, address, data);
    var r := ReadSequential(s, w.env, address, filler);
    Completed(w.env, SequentialEvents(CommandHeader(Read, address, s.dt.addressBytes), filler), r);
    SequentialReadRun(w.env.chip, address, filler);
    StoredFetched(c.mem, address, data);
  }

  /** A WriteMode transfer sets the mode/status register. */
  lemma ModeTransfer(c: Chip, m: Byte)
    requires Listening(c)
    ensures ChipRun(c, TransferEvents([Opcode(WriteMode), m])).chip
         == c.(status := m, selected := false, shifted := [])
  {
    var c1 := c.(selected := true, shifted := []);
    var x := ChipStep(c1, Exchange([Opcode(WriteMode), m]));
    assert x.chip == c1.(shifted := [Opcode(WriteMode), m], status := m) by {
      ShiftModeWrite(c1, m);
    }
    assert ChipRun(c, TransferEvents([Opcode(WriteMode), m])).chip == ChipStep(x.chip, CsHigh).chip by {
      TransferRun(c, [Opcode(WriteMode), m]);
    }
  }

  /** A ReadMode transfer answers the mode/status register and changes
      nothing but the chip-select state. */
  lemma ModeQuery(c: Chip)
    requires !Paused(c)
    ensures ChipRun(c, TransferEvents([Opcode(ReadMode), 0]))
         == Replies(c.(selected := false, shifted := []), [[], [0, c.status], []])
  {
    var c1 := c.(selected := true, shifted := []);
    var x := ChipStep(c1, Exchange([Opcode(ReadMode), 0]));
    assert x == Response(c1.(shifted := [Opcode(ReadMode), 0]), [0, c.status]) by {
      ShiftModeRead(c1, 0);
    }
    assert ChipRun(c, TransferEvents([Opcode(ReadMode), 0])) == Replies(ChipStep(x.chip, CsHigh).chip, [[], x.rx, []]) by {
      TransferRun(c, [Opcode(ReadMode), 0]);
    }
  }

  /** Round trip of `set_mode` and `get_mode`: the chip's register and the
      session's cache both take the mode set, and reading it back returns
      it. */
  lemma ModeRoundTrip(s: Sram, env: Env, m: Byte)
    requires Attached(s, env)
    requires FaultFree(env.faults, 6)
    ensures var w := SetMode(s, env, m);
      && w.result == Ok(())
      && w.sram == s.(mode := m)
      && w.env.chip == env.chip.(status := m, selected := false, shifted := [])
      && var g := GetMode(w.sram, w.env);
      && g.result == Ok(m)
      && g.sram == w.sram
  {
    var w := SetMode(s, env, m);
    FaultFreeDrop(env.faults, 3, 3);
    Completed(env, TransferEvents([Opcode(WriteMode), m]), w);
    ModeTransfer(env.chip, m);
    var g := GetMode(w.sram, w.env);
    Completed(w.env, TransferEvents([Opcode(ReadMode), 0]), g);
    ModeQuery(w.env.chip);
  }

  /** `set_hold(true)` on a variant with a hold pin pauses the chip; the
      memory is untouched. */
  lemma HoldPauses(s: Sram, env: Env)
    requires Attached(s, env) && s.dt.holdPin
    requires FaultFree(env.faults, 4)
    ensures var h := SetHold(s, env, true);
      && h.result == Ok(())
      && Paused(h.env.chip)
      && h.env.chip.mem == env.chip.mem
  {
    var c := env.chip;
    var h := SetHold(s, env, true);
    if s.dt.holdStatus {
      var write := TransferEvents([Opcode(WriteMode), h.sram.mode]);
      FaultFreeDrop(env.faults, 3, 1);
      Completed(env, write + [HoldLow], h);
      ChipRunAppend(c, write, [HoldLow]);
      ModeTransfer(c, h.sram.mode);
      ChipRunSingle(ChipRun(c, write).chip, HoldLow);
    } else {
      Completed(env, [HoldLow], h);
      ChipRunSingle(c, HoldLow);
    }
  }

  /** `disable_hold_feature` on a variant with a hold status bit sets bit 0
      of the chip's status register, so asserting the hold pin afterwards
      no longer pauses the chip; the memory is left alone. */
  lemma HoldDisabled(s: Sram, env: Env)
    requires Attached(s, env) && s.dt.holdPin && s.dt.holdStatus
    requires FaultFree(env.faults, 3)
    ensures var d := DisableHoldFeature(s, env);
      && d.result == Ok(())
      && d.env.chip.status == d.sram.mode && d.env.chip.status % 2 == 1
      && d.env.chip.mem == env.chip.mem
      && !Paused(ChipStep(d.env.chip, HoldLow).chip)
  {
    var d := DisableHoldFeature(s, env);
    Completed(env, TransferEvents([Opcode(WriteMode), d.sram.mode]), d);
    ModeTransfer(env.chip, d.sram.mode);
  }

  /** `set_hold(false)` on a variant with a hold pin releases the pin, so
      the chip listens again whatever its status register holds. */
  lemma ReleaseResumes(s: Sram, env: Env)
    requires s.dt == env.chip.Dt() && s.dt.holdPin
    requires FaultFree(env.faults, 1)
    ensures var h := SetHold(s, env, false);
      && h.result == Ok(())
      && h.env.chip == env.chip.(held := false)
      && Listening(h.env.chip)
  {
    var h := SetHold(s, env, false);
    Completed(env, [HoldHigh], h);
    ChipRunSingle(env.chip, HoldHigh);
  }

  /** A transfer to a paused chip reaches nothing: it clocks back zeros and
      changes nothing but the chip-select state. */
  lemma PausedTransfer(c: Chip, buf: seq<Byte>)
    requires Paused(c)
    ensures ChipRun(c, TransferEvents(buf)) == Replies(c.(selected := false, shifted := []), [[], Zeros(|buf|), []])
  {
    TransferRun(c, buf);
  }

  /** While the chip is paused, `write_byte` still succeeds on the bus but
      leaves the memory alone, and `read_byte` returns zero. */
  lemma PausedIgnoresAccess(s: Sram, env: Env, address: Word, b: Byte)
    requires s.dt == env.chip.Dt() && Paused(env.chip) && address <= s.dt.max
    requires FaultFree(env.faults, 3)
    ensures var w := WriteByte(s, env, address, b);
      && w.result == Ok(())
      && w.env.chip == env.chip.(selected := false, shifted := [])
    ensures ReadByte(s, env, address).result == Ok(0)
  {
    var hw := CommandHeader(Write, address, s.dt.addressBytes);
    Completed(env, TransferEvents(hw + [b]), WriteByte(s, env, address, b));
    PausedTransfer(env.chip, hw + [b]);
    var hr := CommandHeader(Read, address, s.dt.addressBytes);
    Completed(env, TransferEvents(hr + [0]), ReadByte(s, env, address));
    PausedTransfer(env.chip, hr + [0]);
  }

  /** The chip after the pin steps of `new`: deselected, and released when
      it has a hold pin. */
  lemma ReleaseRun(c: Chip)
    ensures ChipRun(c, ReleaseEvents(c.Dt())).chip
         == c.(selected := false, shifted := [], held := if c.Dt().holdPin then false else c.held)
  {
    var c1 := ChipStep(c, CsHigh).chip;
    if c.Dt().holdPin {
      ChipRunSingle(c1, HoldHigh);
      ChipRunCons(c, CsHigh, [HoldHigh]);
    } else {
      assert ReleaseEvents(c.Dt()) == [CsHigh];
      ChipRunSingle(c, CsHigh);
    }
  }

  /** `new` on a chip of the session's variant: the cached mode is the
      chip's mode/status register, and the chip is left listening. */
  lemma NewCachesStatus(dt: DeviceType, env: Env)
    requires dt == env.chip.Dt()
    requires FaultFree(env.faults, |NewEvents(dt)|)
    ensures var n := New(dt, env);
      && n.result == Ok(Sram(dt, env.chip.status))
      && n.sram == Sram(dt, env.chip.status)
      && n.env.chip.mem == env.chip.mem
      && Listening(n.env.chip)
  {
    var c := env.chip;
    var n := New(dt, env);
    Completed(env, NewEvents(dt), n);
    ReleaseRun(c);
    var c2 := ChipRun(c, ReleaseEvents(dt)).chip;
    ModeQuery(c2);
    ChipRunAppend(c, ReleaseEvents(dt), TransferEvents([Opcode(ReadMode), 0]));
  }

  /** The bytes of a string whose characters are all below 256. */
  function Ascii(t: string): (bs: seq<Byte>)
    requires forall i :: 0 <= i < |t| ==> t[i] as int < 0x100
    ensures |bs| == |t|
    ensures forall i :: 0 <= i < |t| ==> bs[i] == t[i] as int
  {
    if t == [] then [] else [t[0] as int] + Ascii(t[1..])
  }

  /** The four-byte run of the usage example. */
  const ExampleRun: seq<Byte> := Ascii("test")

  /** The 32-byte page of the usage example. */
  const ExamplePage: seq<Byte> := Ascii("Microchip\n1Mbit serial\nsram test")

  /** A session ready for the next step of the usage example: attached to
      its chip, on a bus where nothing fails. */
  predicate Steady(s: Sram, env: Env)
  {
    Attached(s, env) && env.faults == []
  }

  /** Selecting a mode in the usage example. */
  lemma ExampleMode(s: Sram, env: Env, m: Byte)
    requires Steady(s, env)
    ensures var ms := SetMode(s, env, m);
      && ms.result == Ok(()) && ms.sram == s.(mode := m) && Steady(ms.sram, ms.env)
  {
    ModeRoundTrip(s, env, m);
  }

  /** The sequential write and read of the usage example: the buffer the
      write leaves behind is read into and comes back as the data. */
  lemma ExampleSequential(s: Sram, env: Env, data: seq<Byte>)
    requires Steady(s, env)
    ensures var ws := WriteSequential(s, env, 0, data);
      && ws.result.Ok?
      && var rs := ReadSequential(ws.sram, ws.env, 0, ws.result.value);
      && rs.result == Ok(data) && rs.sram == s && Steady(rs.sram, rs.env)
  {
    var ws := WriteSequential(s, env, 0, data);
    SequentialRoundTrip(s, env, 0, data, data);
    SequentialRoundTrip(s, env, 0, data, ws.result.value);
    var rs := ReadSequential(ws.sram, ws.env, 0, ws.result.value);
    Completed(ws.env, SequentialEvents(CommandHeader(Read, 0, s.dt.addressBytes), ws.result.value), rs);
    SequentialReadRun(ws.env.chip, 0, ws.result.value);
  }

  /** The single-byte write and read of the usage example. */
  lemma ExampleByte(s: Sram, env: Env, address: Word, b: Byte)
    requires Steady(s, env) && address <= s.dt.max
    ensures var wb := WriteByte(s, env, address, b);
      && wb.result == Ok(())
      && var rb := ReadByte(wb.sram, wb.env, address);
      && rb.result == Ok(b) && rb.sram == s && Steady(rb.sram, rb.env)
  {
    var wb := WriteByte(s, env, address, b);
    ByteRoundTrip(s, env, address, b);
    var rb := ReadByte(wb.sram, wb.env, address);
    Completed(wb.env, TransferEvents(CommandHeader(Read, address, s.dt.addressBytes) + [0]), rb);
    ReadTransfer(wb.env.chip, address, [0]);
  }

  /** The page write and read of the usage example. */
  lemma ExamplePageAccess(s: Sram, env: Env, page: seq<Byte>)
    requires Steady(s, env) && |page| == PageSize
    ensures var wp := WritePage(s, env, 0, page);
      && wp.result == Ok(())
      && ReadPage(wp.sram, wp.env, 0).result == Ok(page)
  {
    PageRoundTrip(s, env, 0, page);
  }

  /** Step 2 of the usage example: `new` on a bus where nothing fails
      caches the chip's mode register and leaves a steady session. */
  lemma ExampleStart(c: Chip)
    requires c.part == M23xv1024
    ensures var n := New(Descriptor(M23xv1024), Env(c, []));
      && n.result == Ok(Sram(Descriptor(M23xv1024), c.status))
      && n.sram == Sram(Descriptor(M23xv1024), c.status)
      && Steady(n.sram, n.env)
  {
    NewCachesStatus(Descriptor(M23xv1024), Env(c, []));
  }

  /** Steps 2 to 6 of the documented usage example on a 23LCV1024
      (`M23xv1024`), on a bus where nothing fails: the session starts with
      the chip's mode register cached; after selecting sequential mode the
      cache holds `0x40`; "test" written sequentially from address 0 reads
      back into the buffer the write left behind. */
  lemma UsageExample(c: Chip)
    requires c.part == M23xv1024
    ensures
      var dt := Descriptor(M23xv1024);
      var n := New(dt, Env(c, []));
      && n.result == Ok(Sram(dt, c.status))
      && var ms := SetMode(n.sram, n.env, ModeByte(SequentialMode));
      && ms.result == Ok(()) && ms.sram == Sram(dt, 0x40) && ModeOf(ms.sram.mode) == SequentialMode
      && var ws := WriteSequential(ms.sram, ms.env, 0, ExampleRun);
      && ws.result.Ok?
      && var rs := ReadSequential(ws.sram, ws.env, 0, ws.result.value);
      && rs.result == Ok(ExampleRun)
      && rs.sram == ms.sram && Steady(rs.sram, rs.env)
  {
    var dt := Descriptor(M23xv1024);
    var n := New(dt, Env(c, []));
    ExampleStart(c);
    ModeByteSelects(SequentialMode);
    var ms := SetMode(n.sram, n.env, ModeByte(SequentialMode));
    ExampleMode(n.sram, n.env, ModeByte(SequentialMode));
    ExampleSequential(ms.sram, ms.env, ExampleRun);
  }

  /** Steps 7 and 8 of the documented usage example, continuing from any
      session on a 23LCV1024 that step 6 can leave: after selecting byte
      mode the cache holds 0 and 'a' written at 4 reads back; after
      selecting page mode the cache holds `0x80` and the page written at 0
      reads back, starting with 'M' and ending with 't'. */
  lemma UsageExampleContinued(s: Sram, env: Env)
    requires Steady(s, env) && s.dt == Descriptor(M23xv1024)
    ensures
      var mb := SetMode(s, env, ModeByte(ByteMode));
      && mb.result == Ok(()) && mb.sram.mode == 0 && ModeOf(mb.sram.mode) == ByteMode
      && var wb := WriteByte(mb.sram, mb.env, 0x04, 'a' as int);
      && wb.result == Ok(())
      && var rb := ReadByte(wb.sram, wb.env, 0x04);
      && rb.result == Ok('a' as int)
      && var mp := SetMode(rb.sram, rb.env, ModeByte(PageMode));
      && mp.result == Ok(()) && mp.sram.mode == 0x80 && ModeOf(mp.sram.mode) == PageMode
      && var wp := WritePage(mp.sram, mp.env, 0, ExamplePage);
      && wp.result == Ok(())
      && var rp := ReadPage(wp.sram, wp.env, 0);
      && rp.result == Ok(ExamplePage)
      && rp.result.value[0] == 'M' as int && rp.result.value[31] == 't' as int
  {
    ModeByteSelects(ByteMode);
    ModeByteSelects(PageMode);
    var mb := SetMode(s, env, ModeByte(ByteMode));
    ExampleMode(s, env, ModeByte(ByteMode));
    var wb := WriteByte(mb.sram, mb.env, 0x04, 'a' as int);
    ExampleByte(mb.sram, mb.env, 0x04, 'a' as int);
    var rb := ReadByte(wb.sram, wb.env, 0x04);
    ExampleMode(rb.sram, rb.env, ModeByte(PageMode));
    var mp := SetMode(rb.sram, rb.env, ModeByte(PageMode));
    ExamplePageAccess(mp.sram, mp.env, ExamplePage);
  }

  /** The usage example's mode checks as written compare the cache with the
      two-bit codes `0b01` and `0b10`; the cache holds the whole register
      byte, so after a successful `set_mode` both comparisons fail. */
  lemma ExampleModeChecksFail(s: Sram, env: Env)
    requires Attached(s, env)
    requires FaultFree(env.faults, 3)
    ensures var ms := SetMode(s, env, ModeByte(SequentialMode));
      ms.result.Ok? && ms.sram.mode != 0x01
    ensures var mp := SetMode(s, env, ModeByte(PageMode));
      mp.result.Ok? && mp.sram.mode != 0x02
  {
    Completed(env, TransferEvents([Opcode(WriteMode), ModeByte(SequentialMode)]), SetMode(s, env, ModeByte(SequentialMode)));
    Completed(env, TransferEvents([Opcode(WriteMode), ModeByte(PageMode)]), SetMode(s, env, ModeByte(PageMode)));
  }
}

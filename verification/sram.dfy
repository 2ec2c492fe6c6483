/** The driver session and its operations. Each operation is a function from
    the session and its collaborators to a `Run`: the result, the steps
    attempted on the bus and pins, the session afterwards (whose only
    mutable part is the cached mode byte) and the collaborators afterwards.
    Every contract states (1) which steps the operation attempts, with which
    bytes, and how a failing step is reported, and (2) what the result and
    the cached mode are in terms of the bytes the chip clocked back. */
module Sram {
  import opened Bits
  import opened Protocol
  import opened Devices
  import opened Chip
  import opened Bus

  /** A session: the variant's constants and the last known mode byte. The
      bus, chip-select pin and hold pin it owns are the `Env` each operation
      is given and returns. */
  datatype Sram = Sram(dt: DeviceType, mode: Byte)

  /** What an operation did. */
  datatype Run<T> = Run(result: Result<T>, trace: seq<Event>, sram: Sram, env: Env)

  /** The bus/pin contract shared by the operations: the run attempted the
      steps of `nominal` in order as `Follows` describes, consumed one plan
      entry per attempted step, and on success left the chip as the
      fault-free run of `nominal` does. */
  predicate Attempted<T>(env: Env, nominal: seq<Event>, r: Run<T>)
  {
    && Follows(env.faults, nominal, r.trace, ErrorOf(r.result))
    && r.env.faults == Drop(env.faults, |r.trace|)
    && (r.result.Ok? ==> r.env.chip == ChipRun(env.chip, nominal).chip)
  }

  /** The steps of a single transfer: select, exchange `buf`, deselect. */
  function TransferEvents(buf: seq<Byte>): seq<Event>
  {
    [CsLow, Exchange(buf), CsHigh]
  }

  /** The steps of a sequential access: the header and the payload are
      exchanged separately within one chip-select window. */
  function SequentialEvents(header: seq<Byte>, payload: seq<Byte>): seq<Event>
  {
    [CsLow, Exchange(header), Exchange(payload), CsHigh]
  }

  /** The bytes the chip clocks back while `buf` is transferred. */
  function Answer(env: Env, buf: seq<Byte>): (rx: seq<Byte>)
    ensures |rx| == |buf|
  {
    TransferRun(env.chip, buf);
    ChipRun(env.chip, TransferEvents(buf)).rxs[1]
  }

  /** A transfer, step by step: selecting resets the command, the exchange
      reaches the selected chip, deselecting ends the command. */
  lemma TransferRun(c: Chip, buf: seq<Byte>)
    ensures var selected := ChipStep(c, CsLow).chip;
      var exchanged := ChipStep(selected, Exchange(buf));
      ChipRun(c, TransferEvents(buf))
        == Replies(ChipStep(exchanged.chip, CsHigh).chip, [[], exchanged.rx, []])
  {
    var events := TransferEvents(buf);
    var c1 := ChipStep(c, CsLow).chip;
    var x := ChipStep(c1, Exchange(buf));
    var c3 := ChipStep(x.chip, CsHigh).chip;
    ChipRunSingle(x.chip, CsHigh);
    assert [Exchange(buf), CsHigh][1..] == [CsHigh];
    assert ChipRun(c1, [Exchange(buf), CsHigh]) == Replies(c3, [x.rx, []]);
    assert events[1..] == [Exchange(buf), CsHigh];
  }

  /** Composition: an operation that succeeded followed by another one
      attempted on what is left follows the concatenated steps. */
  lemma AttemptedThen<A, B>(env: Env, n1: seq<Event>, r1: Run<A>, n2: seq<Event>, r2: Run<B>)
    requires Attempted(env, n1, r1) && r1.result.Ok?
    requires Attempted(r1.env, n2, r2)
    ensures Attempted(env, n1 + n2, Run(r2.result, r1.trace + r2.trace, r2.sram, r2.env))
  {
    assert |r1.trace| == |n1|;
    FollowsThen(env.faults, n1, r1.trace, n2, r2.trace, ErrorOf(r2.result));
    DropDrop(env.faults, |r1.trace|, |r2.trace|);
    ChipRunAppend(env.chip, n1, n2);
  }

  /** Composition: an operation that failed ends the run. */
  lemma AttemptedStop<A, B>(env: Env, n1: seq<Event>, r1: Run<A>, n2: seq<Event>, r2: Run<B>)
    requires Attempted(env, n1, r1) && r1.result.Err?
    requires r2.result == Err(r1.result.error) && r2.trace == r1.trace && r2.env == r1.env
    ensures Attempted(env, n1 + n2, r2)
  {
    FollowsStop(env.faults, n1, r1.trace, r1.result.error, n2);
  }

  /** Driving one pin (`set_high`/`set_low` mapped to `PinError`). */
  function Drive(s: Sram, env: Env, e: Event): (r: Run<()>)
    requires !e.Exchange?
    ensures Attempted(env, [e], r)
    ensures r.sram == s
  {
    var p := Perform(env, [e]);
    Run(if p.outcome.Ok? then Ok(()) else Err(p.outcome.error), p.trace, s, p.env)
  }

  /** `transfer`: select, exchange the buffer full-duplex, deselect. The
      result is the buffer as overwritten by the bytes clocked in. */
  function Transfer(s: Sram, env: Env, buf: seq<Byte>): (r: Run<seq<Byte>>)
    ensures Attempted(env, TransferEvents(buf), r)
    ensures r.sram == s
    ensures r.result.Ok? ==> r.result.value == Answer(env, buf)
  {
    var p := Perform(env, TransferEvents(buf));
    match p.outcome
    case Ok(rxs) => Run(Ok(rxs[1]), p.trace, s, p.env)
    case Err(e) => Run(Err(e), p.trace, s, p.env)
  }

  /** `get_mode_bits`: all four patterns of bits 6..7 are accepted, so the
      `UnknownOperatingMode` branch is never taken. */
  function GetModeBits(bits: Byte): (r: Result<bool>)
    ensures r == Ok(true)
  {
    match TopTwoBits(bits)
    case 0 => Ok(true)
    case 2 => Ok(true)
    case 1 => Ok(true)
    case 3 => Ok(true)
    case _ => Err(UnknownOperatingMode)
  }

  /** `get_mode`: transfers `[ReadMode, 0]` and caches and returns the
      second byte clocked back. On failure the cache is untouched. */
  function GetMode(s: Sram, env: Env): (r: Run<Byte>)
    ensures Attempted(env, TransferEvents([Opcode(ReadMode), 0]), r)
    ensures r.result.Ok? ==> r.result.value == Answer(env, [Opcode(ReadMode), 0])[1]
    ensures r.sram == if r.result.Ok? then s.(mode := r.result.value) else s
  {
    var t := Transfer(s, env, [Opcode(ReadMode), 0]);
    match t.result
    case Err(e) => Run(Err(e), t.trace, s, t.env)
    case Ok(buf) =>
      match GetModeBits(buf[1])
      case Err(e) => Run(Err(e), t.trace, s, t.env)
      case Ok(_) => Run(Ok(buf[1]), t.trace, s.(mode := buf[1]), t.env)
  }

  /** `set_mode`: transfers `[WriteMode, mode]`; the cache takes the new
      value only once the transfer succeeded. */
  function SetMode(s: Sram, env: Env, mode: Byte): (r: Run<()>)
    ensures Attempted(env, TransferEvents([Opcode(WriteMode), mode]), r)
    ensures r.sram == if r.result.Ok? then s.(mode := mode) else s
  {
    var t := Transfer(s, env, [Opcode(WriteMode), mode]);
    match t.result
    case Err(e) => Run(Err(e), t.trace, s, t.env)
    case Ok(_) => Run(Ok(()), t.trace, s.(mode := mode), t.env)
  }

  /** `enable_hold_feature`: on variants with a hold pin and a hold status
      bit, clears bit 0 of the cached mode (clear enables the hold function)
      and writes the whole byte back. The cache keeps the cleared bit even if
      the write fails. Other variants: nothing happens. */
  function EnableHoldFeature(s: Sram, env: Env): (r: Run<()>)
    ensures s.dt.holdPin && s.dt.holdStatus ==>
      && r.sram.dt == s.dt
      && r.sram.mode % 2 == 0 && r.sram.mode / 2 == s.mode / 2
      && Attempted(env, TransferEvents([Opcode(WriteMode), r.sram.mode]), r)
    ensures !(s.dt.holdPin && s.dt.holdStatus) ==> r == Run(Ok(()), [], s, env)
  {
    if s.dt.holdPin && s.dt.holdStatus then
      var s' := s.(mode := SetBit0(s.mode, false));
      SetMode(s', env, s'.mode)
    else
      Run(Ok(()), [], s, env)
  }

  /** `disable_hold_feature`: as `EnableHoldFeature`, but sets bit 0. */
  function DisableHoldFeature(s: Sram, env: Env): (r: Run<()>)
    ensures s.dt.holdPin && s.dt.holdStatus ==>
      && r.sram.dt == s.dt
      && r.sram.mode % 2 == 1 && r.sram.mode / 2 == s.mode / 2
      && Attempted(env, TransferEvents([Opcode(WriteMode), r.sram.mode]), r)
    ensures !(s.dt.holdPin && s.dt.holdStatus) ==> r == Run(Ok(()), [], s, env)
  {
    if s.dt.holdPin && s.dt.holdStatus then
      var s' := s.(mode := SetBit0(s.mode, true));
      SetMode(s', env, s'.mode)
    else
      Run(Ok(()), [], s, env)
  }

  /** `set_hold`: without a hold pin, nothing happens. Enabling first runs
      `enable_hold_feature` and then drives the hold pin low; disabling only
      drives the hold pin high and leaves the status bit alone. */
  function SetHold(s: Sram, env: Env, enabled: bool): (r: Run<()>)
    ensures !s.dt.holdPin ==> r == Run(Ok(()), [], s, env)
    ensures s.dt.holdPin && !enabled ==> Attempted(env, [HoldHigh], r) && r.sram == s
    ensures s.dt.holdPin && enabled && !s.dt.holdStatus ==> Attempted(env, [HoldLow], r) && r.sram == s
    ensures s.dt.holdPin && enabled && s.dt.holdStatus ==>
      && r.sram.dt == s.dt
      && r.sram.mode % 2 == 0 && r.sram.mode / 2 == s.mode / 2
      && Attempted(env, TransferEvents([Opcode(WriteMode), r.sram.mode]) + [HoldLow], r)
  {
    if s.dt.holdPin then
      if enabled then
        var h := EnableHoldFeature(s, env);
        var n1 := if s.dt.holdStatus then TransferEvents([Opcode(WriteMode), h.sram.mode]) else [];
        assert Attempted(env, n1, h);
        match h.result
        case Err(e) =>
          var r := Run(Err(e), h.trace, h.sram, h.env);
          assert Attempted(env, n1 + [HoldLow], r) by {
            AttemptedStop(env, n1, h, [HoldLow], r);
          }
          r
        case Ok(_) =>
          var d := Drive(h.sram, h.env, HoldLow);
          var r := Run(d.result, h.trace + d.trace, d.sram, d.env);
          assert Attempted(env, n1 + [HoldLow], r) by {
            AttemptedThen(env, n1, h, [HoldLow], d);
          }
          r
      else
        Drive(s, env, HoldHigh)
    else
      Run(Ok(()), [], s, env)
  }

  /** `get_address_array`: the five-byte buffer of a single-byte access: the
      variant's header bytes, then the data byte, then zero padding. Widths
      other than 3 and 4 are `InvalidAddressSize`. */
  function GetAddressArray(dt: DeviceType, data: seq<Byte>, byte: Byte): (r: Result<seq<Byte>>)
    requires |data| == 4
    ensures r.Ok? <==> dt.addressBytes == 3 || dt.addressBytes == 4
    ensures r.Err? ==> r.error == InvalidAddressSize
    ensures r.Ok? ==>
      && |r.value| == 5
      && r.value[..dt.addressBytes] == AddressHeader(dt, data).value
      && r.value[dt.addressBytes] == byte
      && r.value[dt.addressBytes + 1..] == Zeros(4 - dt.addressBytes)
  {
    match dt.addressBytes
    case 3 => Ok([data[0], data[2], data[3], byte, 0])
    case 4 => Ok([data[0], data[1], data[2], data[3], byte])
    case _ => Err(InvalidAddressSize)
  }

  /** For a well-formed variant and a valid address, the bytes a
      single-byte access transfers are the command header and the byte. */
  lemma ByteFrame(dt: DeviceType, instruction: Instruction, address: Word, byte: Byte)
    requires WellFormed(dt) && address <= dt.max && Opcode(instruction) < 0x80
    ensures var buf := GetAddressArray(dt, ToBeBytes(FillAddress(address, instruction)), byte);
      && buf.Ok?
      && buf.value[..dt.addressBytes + 1] == CommandHeader(instruction, address, dt.addressBytes) + [byte]
  {
    HeaderRoundTrip(dt, instruction, address);
    var buf := GetAddressArray(dt, ToBeBytes(FillAddress(address, instruction)), byte).value;
    assert buf[..dt.addressBytes + 1] == buf[..dt.addressBytes] + [buf[dt.addressBytes]];
  }

  /** `read_byte`: rejects an address above the variant's maximum before
      touching the bus; otherwise transfers the Read header and one filler
      byte and returns the byte clocked in last. */
  function ReadByte(s: Sram, env: Env, address: Word): (r: Run<Byte>)
    ensures r.sram == s
    ensures address > s.dt.max ==> r == Run(Err(InvalidAddress), [], s, env)
    ensures address <= s.dt.max && s.dt.addressBytes != 3 && s.dt.addressBytes != 4 ==>
      r == Run(Err(InvalidAddressSize), [], s, env)
    ensures WellFormed(s.dt) && address <= s.dt.max ==>
      var frame := CommandHeader(Read, address, s.dt.addressBytes) + [0];
      && Attempted(env, TransferEvents(frame), r)
      && (r.result.Ok? ==> r.result.value == Answer(env, frame)[s.dt.addressBytes])
  {
    if address > s.dt.max then Run(Err(InvalidAddress), [], s, env)
    else
      var data := ToBeBytes(FillAddress(address, Read));
      assert WellFormed(s.dt) ==>
        GetAddressArray(s.dt, data, 0).value[..s.dt.addressBytes + 1]
        == CommandHeader(Read, address, s.dt.addressBytes) + [0] by {
        if WellFormed(s.dt) {
          ByteFrame(s.dt, Read, address, 0);
        }
      }
      match GetAddressArray(s.dt, data, 0)
      case Err(e) => Run(Err(e), [], s, env)
      case Ok(buf) =>
        var t := Transfer(s, env, buf[..s.dt.addressBytes + 1]);
        match t.result
        case Err(e) => Run(Err(e), t.trace, s, t.env)
        case Ok(rx) => Run(Ok(rx[s.dt.addressBytes]), t.trace, s, t.env)
  }

  /** `write_byte`: rejects an address above the variant's maximum before
      touching the bus; otherwise transfers the Write header followed by the
      byte. */
  function WriteByte(s: Sram, env: Env, address: Word, byte: Byte): (r: Run<()>)
    ensures r.sram == s
    ensures address > s.dt.max ==> r == Run(Err(InvalidAddress), [], s, env)
    ensures address <= s.dt.max && s.dt.addressBytes != 3 && s.dt.addressBytes != 4 ==>
      r == Run(Err(InvalidAddressSize), [], s, env)
    ensures WellFormed(s.dt) && address <= s.dt.max ==>
      Attempted(env, TransferEvents(CommandHeader(Write, address, s.dt.addressBytes) + [byte]), r)
  {
    if address > s.dt.max then Run(Err(InvalidAddress), [], s, env)
    else
      var data := ToBeBytes(FillAddress(address, Write));
      assert WellFormed(s.dt) ==>
        GetAddressArray(s.dt, data, byte).value[..s.dt.addressBytes + 1]
        == CommandHeader(Write, address, s.dt.addressBytes) + [byte] by {
        if WellFormed(s.dt) {
          ByteFrame(s.dt, Write, address, byte);
        }
      }
      match GetAddressArray(s.dt, data, byte)
      case Err(e) => Run(Err(e), [], s, env)
      case Ok(buf) =>
        var t := Transfer(s, env, buf[..s.dt.addressBytes + 1]);
        match t.result
        case Err(e) => Run(Err(e), t.trace, s, t.env)
        case Ok(_) => Run(Ok(()), t.trace, s, t.env)
  }

  /** The size of a page. */
  const PageSize: nat := 32

  /** `read_page`: rejects an address above the variant's maximum; otherwise
      transfers the Read header followed by 32 zero bytes and returns the 32
      bytes clocked in after the header. */
  function ReadPage(s: Sram, env: Env, address: Word): (r: Run<seq<Byte>>)
    ensures r.sram == s
    ensures address > s.dt.max ==> r == Run(Err(InvalidAddress), [], s, env)
    ensures address <= s.dt.max && s.dt.addressBytes != 3 && s.dt.addressBytes != 4 ==>
      r == Run(Err(InvalidAddressSize), [], s, env)
    ensures WellFormed(s.dt) && address <= s.dt.max ==>
      var frame := CommandHeader(Read, address, s.dt.addressBytes) + Zeros(PageSize);
      && Attempted(env, TransferEvents(frame), r)
      && (r.result.Ok? ==> r.result.value == Answer(env, frame)[s.dt.addressBytes..])
  {
    if address > s.dt.max then Run(Err(InvalidAddress), [], s, env)
    else
      var data := ToBeBytes(FillAddress(address, Read));
      assert WellFormed(s.dt) ==> AddressHeader(s.dt, data) == Ok(CommandHeader(Read, address, s.dt.addressBytes)) by {
        if WellFormed(s.dt) {
          HeaderRoundTrip(s.dt, Read, address);
        }
      }
      var buf := Zeros(36);
      var size := s.dt.addressBytes + PageSize;
      match s.dt.addressBytes
      case 3 =>
        var frame := [data[0], data[2], data[3]] + buf[3..];
        assert frame[..size] == [data[0], data[2], data[3]] + Zeros(PageSize);
        var t := Transfer(s, env, frame[..size]);
        (match t.result
         case Err(e) => Run(Err(e), t.trace, s, t.env)
         case Ok(rx) => Run(Ok(rx[3..35]), t.trace, s, t.env))
      case 4 =>
        var frame := data + buf[4..];
        assert frame[..size] == data + Zeros(PageSize);
        var t := Transfer(s, env, frame[..size]);
        (match t.result
         case Err(e) => Run(Err(e), t.trace, s, t.env)
         case Ok(rx) => Run(Ok(rx[4..]), t.trace, s, t.env))
      case _ => Run(Err(InvalidAddressSize), [], s, env)
  }

  /** The inputs on which `write_page` returns instead of panicking: it
      returns early for an invalid address, a payload over 32 bytes or an
      unsupported width, and otherwise copies the payload into a 32-byte
      region, which panics unless the lengths agree. */
  predicate PageWriteDefined(dt: DeviceType, address: Word, n: nat)
  {
    address > dt.max || n >= PageSize || (dt.addressBytes != 3 && dt.addressBytes != 4)
  }

  /** As written, `write_page` panics on every payload shorter than a page
      at a valid address of a supported width, although its error handling
      only rejects payloads longer than a page. */
  lemma ShortPageUndefined(dt: DeviceType, address: Word, n: nat)
    requires WellFormed(dt) && address <= dt.max && n < PageSize
    ensures !PageWriteDefined(dt, address, n)
  {
  }

  /** `write_page`: rejects an address above the variant's maximum, then a
      payload longer than 32 bytes; otherwise transfers the Write header
      followed by the payload. Copying the payload into the 32-byte region
      panics unless it is exactly 32 bytes long, which the precondition
      excludes. */
  function WritePage(s: Sram, env: Env, address: Word, bytes: seq<Byte>): (r: Run<()>)
    requires PageWriteDefined(s.dt, address, |bytes|)
    ensures r.sram == s
    ensures address > s.dt.max ==> r == Run(Err(InvalidAddress), [], s, env)
    ensures address <= s.dt.max && |bytes| > PageSize ==> r == Run(Err(TooMuchData), [], s, env)
    ensures address <= s.dt.max && |bytes| <= PageSize && s.dt.addressBytes != 3 && s.dt.addressBytes != 4 ==>
      r == Run(Err(InvalidAddressSize), [], s, env)
    ensures WellFormed(s.dt) && address <= s.dt.max && |bytes| <= PageSize ==>
      Attempted(env, TransferEvents(CommandHeader(Write, address, s.dt.addressBytes) + bytes), r)
  {
    if address > s.dt.max then Run(Err(InvalidAddress), [], s, env)
    else if |bytes| > PageSize then Run(Err(TooMuchData), [], s, env)
    else
      var data := ToBeBytes(FillAddress(address, Write));
      assert WellFormed(s.dt) ==> AddressHeader(s.dt, data) == Ok(CommandHeader(Write, address, s.dt.addressBytes)) by {
        if WellFormed(s.dt) {
          HeaderRoundTrip(s.dt, Write, address);
        }
      }
      var buf := Zeros(36);
      var filled: Result<seq<Byte>> :=
        match s.dt.addressBytes
        case 3 => Ok([data[0], data[2], data[3]] + bytes + buf[35..])
        case 4 => Ok(data + bytes)
        case _ => Err(InvalidAddressSize);
      assert filled.Ok? ==> filled.value[..s.dt.addressBytes + PageSize] == AddressHeader(s.dt, data).value + bytes by {
        if filled.Ok? && s.dt.addressBytes == 3 {
          assert filled.value == [data[0], data[2], data[3]] + bytes + buf[35..];
        }
      }
      match filled
      case Err(e) => Run(Err(e), [], s, env)
      case Ok(frame) =>
        var size := s.dt.addressBytes + PageSize;
        var t := Transfer(s, env, frame[..size]);
        match t.result
        case Err(e) => Run(Err(e), t.trace, s, t.env)
        case Ok(_) => Run(Ok(()), t.trace, s, t.env)
  }

  /** `write_page` as its error handling and fixed-size transfer evidently
      intend it: a payload of at most 32 bytes is written with the rest of
      the page region left zero, instead of panicking when it is shorter. */
  function WritePageFilled(s: Sram, env: Env, address: Word, bytes: seq<Byte>): (r: Run<()>)
    ensures r.sram == s
    ensures address > s.dt.max ==> r == Run(Err(InvalidAddress), [], s, env)
    ensures address <= s.dt.max && |bytes| > PageSize ==> r == Run(Err(TooMuchData), [], s, env)
    ensures address <= s.dt.max && |bytes| <= PageSize && s.dt.addressBytes != 3 && s.dt.addressBytes != 4 ==>
      r == Run(Err(InvalidAddressSize), [], s, env)
    ensures WellFormed(s.dt) && address <= s.dt.max && |bytes| <= PageSize ==>
      Attempted(env, TransferEvents(CommandHeader(Write, address, s.dt.addressBytes) + bytes + Zeros(PageSize - |bytes|)), r)
  {
    if address > s.dt.max then Run(Err(InvalidAddress), [], s, env)
    else if |bytes| > PageSize then Run(Err(TooMuchData), [], s, env)
    else
      var data := ToBeBytes(FillAddress(address, Write));
      assert WellFormed(s.dt) ==> AddressHeader(s.dt, data) == Ok(CommandHeader(Write, address, s.dt.addressBytes)) by {
        if WellFormed(s.dt) {
          HeaderRoundTrip(s.dt, Write, address);
        }
      }
      var payload := bytes + Zeros(PageSize - |bytes|);
      match AddressHeader(s.dt, data)
      case Err(e) => Run(Err(e), [], s, env)
      case Ok(header) =>
        assert header + payload == header + bytes + Zeros(PageSize - |bytes|);
        var t := Transfer(s, env, header + payload);
        match t.result
        case Err(e) => Run(Err(e), t.trace, s, t.env)
        case Ok(_) => Run(Ok(()), t.trace, s, t.env)
  }

  /** On the payloads the code accepts, the intended page write is the code's. */
  lemma PageWriteAgrees(s: Sram, env: Env, address: Word, bytes: seq<Byte>)
    requires PageWriteDefined(s.dt, address, |bytes|)
    ensures WritePageFilled(s, env, address, bytes) == WritePage(s, env, address, bytes)
  {
    if address <= s.dt.max && |bytes| == PageSize {
      var data := ToBeBytes(FillAddress(address, Write));
      assert bytes + Zeros(0) == bytes;
      if s.dt.addressBytes == 3 {
        var buf := [data[0], data[2], data[3]] + bytes + Zeros(36)[35..];
        assert buf[..3 + PageSize] == [data[0], data[2], data[3]] + bytes;
      } else if s.dt.addressBytes == 4 {
        assert (data + bytes)[..4 + PageSize] == data + bytes;
      }
    }
  }

  /** `sequential`: rejects an address above the variant's maximum (only the
      start address is checked); otherwise, within one chip-select window,
      exchanges the header and then the caller's buffer, and returns the
      buffer as overwritten by the bytes clocked in. */
  function Sequential(s: Sram, env: Env, address: Word, bytes: seq<Byte>, instruction: Instruction): (r: Run<seq<Byte>>)
    requires Opcode(instruction) < 0x80
    ensures r.sram == s
    ensures address > s.dt.max ==> r == Run(Err(InvalidAddress), [], s, env)
    ensures address <= s.dt.max && s.dt.addressBytes != 3 && s.dt.addressBytes != 4 ==>
      r == Run(Err(InvalidAddressSize), [], s, env)
    ensures WellFormed(s.dt) && address <= s.dt.max ==>
      var events := SequentialEvents(CommandHeader(instruction, address, s.dt.addressBytes), bytes);
      && Attempted(env, events, r)
      && (r.result.Ok? ==> r.result.value == ChipRun(env.chip, events).rxs[2])
  {
    if address > s.dt.max then Run(Err(InvalidAddress), [], s, env)
    else
      var data := ToBeBytes(FillAddress(address, instruction));
      assert WellFormed(s.dt) ==> AddressHeader(s.dt, data) == Ok(CommandHeader(instruction, address, s.dt.addressBytes)) by {
        if WellFormed(s.dt) {
          HeaderRoundTrip(s.dt, instruction, address);
        }
      }
      var filled: Result<seq<Byte>> :=
        match s.dt.addressBytes
        case 3 => Ok([data[0], data[2], data[3], 0])
        case 4 => Ok(data)
        case _ => Err(InvalidAddressSize);
      assert filled.Ok? ==> filled.value[..s.dt.addressBytes] == AddressHeader(s.dt, data).value;
      match filled
      case Err(e) => Run(Err(e), [], s, env)
      case Ok(buf) =>
        var p := Perform(env, SequentialEvents(buf[..s.dt.addressBytes], bytes));
        match p.outcome
        case Err(e) => Run(Err(e), p.trace, s, p.env)
        case Ok(rxs) => Run(Ok(rxs[2]), p.trace, s, p.env)
  }

  /** `read_sequential`: a sequential Read; the result is the filled buffer. */
  function ReadSequential(s: Sram, env: Env, address: Word, bytes: seq<Byte>): (r: Run<seq<Byte>>)
    ensures r.sram == s
    ensures address > s.dt.max ==> r == Run(Err(InvalidAddress), [], s, env)
    ensures address <= s.dt.max && s.dt.addressBytes != 3 && s.dt.addressBytes != 4 ==>
      r == Run(Err(InvalidAddressSize), [], s, env)
    ensures WellFormed(s.dt) && address <= s.dt.max ==>
      var events := SequentialEvents(CommandHeader(Read, address, s.dt.addressBytes), bytes);
      && Attempted(env, events, r)
      && (r.result.Ok? ==> r.result.value == ChipRun(env.chip, events).rxs[2])
  {
    Sequential(s, env, address, bytes, Read)
  }

  /** `write_sequential`: a sequential Write. The caller's buffer is
      exchanged too, so the result is the buffer as overwritten by the bytes
      the chip clocked back. */
  function WriteSequential(s: Sram, env: Env, address: Word, bytes: seq<Byte>): (r: Run<seq<Byte>>)
    ensures r.sram == s
    ensures address > s.dt.max ==> r == Run(Err(InvalidAddress), [], s, env)
    ensures address <= s.dt.max && s.dt.addressBytes != 3 && s.dt.addressBytes != 4 ==>
      r == Run(Err(InvalidAddressSize), [], s, env)
    ensures WellFormed(s.dt) && address <= s.dt.max ==>
      var events := SequentialEvents(CommandHeader(Write, address, s.dt.addressBytes), bytes);
      && Attempted(env, events, r)
      && (r.result.Ok? ==> r.result.value == ChipRun(env.chip, events).rxs[2])
  {
    Sequential(s, env, address, bytes, Write)
  }

  /** The pin steps `new` starts with: release chip select, then release
      hold (only with a hold pin). */
  function ReleaseEvents(dt: DeviceType): seq<Event>
  {
    [CsHigh] + (if dt.holdPin then [HoldHigh] else [])
  }

  /** The steps of `new`: the pin steps, then reading the mode register. */
  function NewEvents(dt: DeviceType): seq<Event>
  {
    ReleaseEvents(dt) + TransferEvents([Opcode(ReadMode), 0])
  }

  /** `new`: starts with a zero mode cache, drives chip select high, releases
      hold via `set_hold(false)` (the hold status bit is not touched), then
      runs `get_mode`. On success the session caches the mode byte clocked
      in by the final exchange. */
  function New(dt: DeviceType, env: Env): (r: Run<Sram>)
    ensures r.sram.dt == dt
    ensures Attempted(env, NewEvents(dt), r)
    ensures r.result.Ok? ==>
      && r.result.value == r.sram
      && r.sram.mode == Answer(env.(chip := ChipRun(env.chip, ReleaseEvents(dt)).chip), [Opcode(ReadMode), 0])[1]
  {
    var s := Sram(dt, 0);
    var c := Drive(s, env, CsHigh);
    var holdEvents := if dt.holdPin then [HoldHigh] else [];
    match c.result
    case Err(e) =>
      var r := Run(Err(e), c.trace, s, c.env);
      assert Attempted(env, NewEvents(dt), r) by {
        AttemptedStop(env, [CsHigh], c, holdEvents + TransferEvents([Opcode(ReadMode), 0]), r);
        assert NewEvents(dt) == [CsHigh] + (holdEvents + TransferEvents([Opcode(ReadMode), 0]));
      }
      r
    case Ok(_) =>
      var h := SetHold(s, c.env, false);
      var ch := Run(h.result, c.trace + h.trace, h.sram, h.env);
      assert Attempted(env, [CsHigh] + holdEvents, ch) by {
        AttemptedThen(env, [CsHigh], c, holdEvents, h);
      }
      match h.result
      case Err(e) =>
        var r := Run(Err(e), c.trace + h.trace, s, h.env);
        assert Attempted(env, NewEvents(dt), r) by {
          AttemptedStop(env, [CsHigh] + holdEvents, ch, TransferEvents([Opcode(ReadMode), 0]), r);
        }
        r
      case Ok(_) =>
        var g := GetMode(s, h.env);
        var tail := c.trace + h.trace + g.trace;
        var r := match g.result
          case Err(e) => Run(Err(e), tail, g.sram, g.env)
          case Ok(_) => Run(Ok(g.sram), tail, g.sram, g.env);
        assert Attempted(env, NewEvents(dt), r) by {
          AttemptedThen(env, [CsHigh] + holdEvents, ch, TransferEvents([Opcode(ReadMode), 0]), g);
        }
        r
  }
}

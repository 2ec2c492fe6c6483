# sram23x in Dafny

A model of the `sram23x` driver for Microchip's 23x family of SPI serial
SRAM/NVSRAM chips (23A640/23K640, 23A256/23K256, 23A512/23LC512, 23LCV512,
23A1024/23LC1024, 23LCV1024), with proofs about the bytes it puts on the bus.

The driver owns an SPI bus, a chip-select pin, a hold pin and a cached copy
of the chip's mode/status register. Each operation turns a request into
chip-select edges, hold-pin edges and full-duplex byte exchanges:

- read or write one byte;
- read or write a 32-byte page;
- read or write a run of any length;
- read or set the mode register;
- assert or release hold.

The encoding depends on the chip variant. A variant fixes the width of the
command header (3 or 4 bytes), whether the chip has a hold pin, whether it
has a hold status bit, and its highest address.

Modules, in dependency order:

- `Bits` (bits.dfy): bytes and 32-bit words as bounded integers. Also
  big-endian encoding and decoding, `u32::to_be_bytes`, `u8::set_bit(0, _)`
  and the two-bit field read by `get_bits(6..8)`.
- `Protocol` (protocol.dfy): the instruction opcodes, the operating-mode
  bytes, the seven error kinds, and `Result`.
- `Devices` (devices.dfy): the six variants and `fill_address`. Also how a
  header is picked from the filled address word. The headline lemma
  `HeaderRoundTrip` is here: for every valid address, the header the driver
  builds is exactly the chip's command header, the opcode followed by the
  big-endian address, so decoding it gives back the instruction and the
  address.
- `Chip` (chip.dfy): the events the driver causes, and an idealised chip
  that answers them. The chip has a byte-addressed memory and the
  mode/status register. Its command decoder follows the 23x protocol: an
  opcode, then for Read/Write a big-endian address, then data. The chip
  ignores exchanges while it is held (hold pin asserted, and on variants
  with a hold status bit, that bit clear).
- `Bus` (bus.dfy): the collaborators as one value, `Env`, which is the chip
  plus a failure plan. `Perform` runs a fixed list of steps and stops at
  the first failing one. It reports a failed exchange as `SpiError` and a
  failed pin step as `PinError`, as the Rust `?` after `map_err` does.
- `Sram` (sram.dfy): the driver operations. Each is a function from the
  session and the collaborators to a `Run`, which holds the result, the
  steps attempted, the session afterwards and the collaborators afterwards.
  Every contract states the steps attempted and the bytes sent, using the
  predicate `Attempted`. It also states how a failing step is reported and
  what is returned or cached.
- `Usage` (usage.dfy): the round trips against the idealised chip, the
  behaviour of the hold pin, `new`, and the documented usage example.

Behaviour of the code worth knowing, which the model follows:

- Three-byte variants send the bytes `[d0, d2, d3]` of the filled address
  word, where `d0` is the opcode. The opcode is therefore sent as the first
  header byte of every access, including sequential ones; it is not
  dropped.
- `write_page` checks the address before the payload length. A payload over
  32 bytes at an invalid address is therefore `InvalidAddress`, not
  `TooMuchData`.
- `write_page` does not zero-fill a short payload. It panics (see Findings).
- `new` only drives the hold pin high through `set_hold(false)`. It does not
  touch the hold status bit.

## Model

| member | source | states |
|---|---|---|
| Devices.Descriptor | src/sram23x.rs:32-37 | the six variants: every row is well formed (a 3-byte header with highest address below 2^16, or a 4-byte header below 2^24), its highest address plus one is the documented memory size (8, 32, 64, 64, 128, 128 KB), it uses a 4-byte header exactly when the memory exceeds 64 KB, its hold pin matches the device table, and it has a hold status bit exactly on the 23x640 and 23x256 (which have a hold pin) |
| Devices.FillAddress | src/sram23x.rs:25-27 | `set_bits(24..31, instruction)` writes the opcode into bits 24..30 and keeps bits 0..23 and bit 31 of the address; it panics unless the opcode fits 7 bits |
| Devices.FillAddressSmall | src/sram23x.rs:25-27 | for an address below 2^24 the filled word is the opcode times 2^24 plus the address |
| Devices.AddressHeader | src/sram23x.rs:155-161 | the header bytes picked from the big-endian word: the first byte, then the last `ADDRESS_BYTES - 1` bytes; any other width is `InvalidAddressSize` |
| Devices.FilledWordBytes | src/sram23x.rs:131-133 | the big-endian bytes of the filled word are the opcode (with bit 31 of the address on top), then address bits 16..23, 8..15 and 0..7 |
| Devices.EncodedHeaderBytes | src/sram23x.rs:131-134 | for any address word, the first header byte is the opcode plus bit 31 of the address (the 7-bit field leaves bit 31 alone), and the remaining bytes carry the address modulo 2^16 (3-byte header) or 2^24 (4-byte header) |
| Devices.HeaderFields | src/sram23x.rs:128-134 | for an address at most the variant's maximum, nothing is dropped: the first header byte is the opcode and the rest decode to the address |
| Devices.HeaderRoundTrip | src/sram23x.rs:131-134 | for every valid address the header is exactly the chip's command header (opcode, then the address big-endian), and decoding it gives back the instruction and the address |
| Protocol.InstructionOf | src/lib.rs:125-140 | decoding a received opcode byte: whenever it names an instruction, that instruction's opcode is the byte |
| Protocol.OpcodeDecodes | src/lib.rs:125-140 | every opcode decodes back to its own instruction |
| Protocol.OpcodesDistinct | src/lib.rs:125-140 | the seven opcodes are pairwise distinct |
| Protocol.SevenBitOpcodes | src/lib.rs:125-140 | exactly the instructions other than `ResetIo` fit the 7-bit field `fill_address` writes, so Read and Write are admissible |
| Protocol.ModeByteSelects | src/lib.rs:144-153 | each operating-mode byte has its low six bits clear and reads back as its own mode from bits 6..7, so the four patterns are distinct |
| Bits.ToBeBytes | src/sram23x.rs:133 | `to_be_bytes` gives four bytes whose big-endian value is the word |
| Bits.ToBeBytesIsBeBytes | src/sram23x.rs:133 | `to_be_bytes` is the 4-byte big-endian encoding |
| Bits.SetBit0 | src/sram23x.rs:111 | `set_bit(0, v)` makes bit 0 equal to `v` and keeps bits 1..7 |
| Bits.TopTwoBits | src/sram23x.rs:80 | `get_bits(6..8)` is a value below 4 that selects the 64-value band holding the byte |
| Bus.Perform | src/sram23x.rs:62-67 | running steps with `?`: the trace is the nominal steps up to and including the first failing one, that step's failure is reported as `SpiError` for an exchange and `PinError` for a pin, one plan entry is consumed per attempted step, and on success the chip and the received bytes are those of the fault-free run |
| Sram.Drive | src/sram23x.rs:55 | driving a pin attempts exactly that pin step and maps its failure to `PinError` |
| Sram.Transfer | src/sram23x.rs:62-67 | `transfer` attempts chip select low, the exchange and chip select high, and returns the buffer as overwritten by the bytes clocked in |
| Sram.GetModeBits | src/sram23x.rs:79-84 | all four patterns of bits 6..7 are accepted, so `UnknownOperatingMode` is never returned |
| Sram.GetMode | src/sram23x.rs:70-76 | `get_mode` transfers `[0x05, 0]`, returns and caches the second byte received, and leaves the cache alone on failure |
| Sram.SetMode | src/sram23x.rs:87-92 | `set_mode(m)` transfers `[0x01, m]`, and the cache becomes `m` only after the transfer succeeded |
| Sram.EnableHoldFeature | src/sram23x.rs:109-115 | with a hold pin and a hold status bit, bit 0 of the cache is cleared, other bits kept, and the whole byte written back, with the cleared bit kept even if the write fails; otherwise nothing happens |
| Sram.DisableHoldFeature | src/sram23x.rs:118-124 | as the enabling one, but bit 0 is set |
| Sram.SetHold | src/sram23x.rs:95-106 | no hold pin: nothing happens; enabling runs the hold-feature write (only with a status bit) then drives hold low; disabling only drives hold high |
| Sram.GetAddressArray | src/sram23x.rs:155-161 | `[d0,d2,d3,byte,0]` for 3-byte variants and `[d0,d1,d2,d3,byte]` for 4-byte variants: the header, then the byte at index `ADDRESS_BYTES`, then zero padding; other widths are `InvalidAddressSize` |
| Sram.ByteFrame | src/sram23x.rs:131-135 | the first `ADDRESS_BYTES + 1` bytes of the buffer are the command header followed by the data byte |
| Sram.ReadByte | src/sram23x.rs:127-138 | an address above the maximum is `InvalidAddress` with no bus or pin step; otherwise it transfers the Read header plus one zero byte and returns the byte received at index `ADDRESS_BYTES` |
| Sram.WriteByte | src/sram23x.rs:141-152 | an address above the maximum is `InvalidAddress` with no step; otherwise it transfers the Write header plus the byte |
| Sram.ReadPage | src/sram23x.rs:164-190 | an address above the maximum is `InvalidAddress` with no step; otherwise it transfers the Read header plus 32 zero bytes and returns the 32 bytes received after the header |
| Sram.ShortPageUndefined | src/sram23x.rs:205-213 | at a valid address of a supported width, every payload shorter than 32 bytes reaches the panicking copy |
| Sram.WritePage | src/sram23x.rs:193-220 | the address is checked first (`InvalidAddress`), then the length (`TooMuchData` over 32), both with no step; otherwise it transfers the Write header plus the payload |
| Sram.WritePageFilled | src/sram23x.rs:193-220 | the page write as intended: same checks, and a payload of at most 32 bytes is sent followed by zeros up to 32 bytes |
| Sram.PageWriteAgrees | src/sram23x.rs:193-220 | on every input where the code does not panic, the intended page write is the code's |
| Sram.Sequential | src/sram23x.rs:232-257 | only the start address is checked; otherwise, in one chip-select window, the header is exchanged and then the caller's buffer, and the result is the buffer as overwritten by the bytes received |
| Sram.ReadSequential | src/sram23x.rs:223-225 | a sequential access with the Read instruction: the same address check, `InvalidAddressSize` for other header widths, the session unchanged, and the header plus buffer exchanged in one chip-select window |
| Sram.WriteSequential | src/sram23x.rs:228-230 | a sequential access with the Write instruction: the same address check, `InvalidAddressSize` for other header widths, the session unchanged, and the header plus buffer exchanged in one chip-select window |
| Sram.New | src/sram23x.rs:47-59 | `new` starts with mode 0, drives chip select high, releases hold (only with a hold pin), then reads the mode register; on success the session caches the mode byte received |
| Usage.ByteRoundTrip | src/lib.rs:82-85 | against the idealised chip with no failure, a byte written at an address is read back, and the write changed that address only |
| Usage.PageRoundTrip | src/lib.rs:90-95 | a 32-byte page written at an address is read back |
| Usage.FilledPageRoundTrip | src/sram23x.rs:193-220 | with the intended page write, a payload of at most 32 bytes reads back followed by zeros |
| Usage.SequentialRoundTrip | src/lib.rs:68-77 | a run of any length written sequentially reads back into a buffer of the same length, and the write returns a buffer of that length |
| Usage.ModeRoundTrip | src/sram23x.rs:70-92 | after `set_mode(m)` both the chip's register and the cache hold `m`, and `get_mode` returns `m` |
| Usage.HoldPauses | src/sram23x.rs:95-115 | on a variant with a hold pin, `set_hold(true)` succeeds and leaves the chip paused with its memory untouched |
| Usage.ReleaseResumes | src/sram23x.rs:100-101 | `set_hold(false)` releases the hold pin and nothing else, and the chip listens again whatever its status bit holds |
| Usage.HoldDisabled | src/sram23x.rs:116-124 | on a variant with a hold status bit and no failure, `disable_hold_feature` succeeds, the chip's status register then holds the cached mode with bit 0 set, the memory is untouched, and asserting the hold pin no longer pauses the chip |
| Usage.PausedIgnoresAccess | src/sram23x.rs:94 | while the chip is paused, a byte write succeeds on the bus but changes no memory, and a byte read returns zero |
| Usage.NewCachesStatus | src/sram23x.rs:46-59 | `new` on a chip of the session's variant caches the chip's mode register, leaves the memory alone and leaves the chip listening |
| Usage.UsageExample | src/lib.rs:57-77 | steps 2 to 6 of the usage example on a 23LCV1024: `new` succeeds, selecting sequential mode caches `0x40`, and "test" written at 0 reads back |
| Usage.UsageExampleContinued | src/lib.rs:79-95 | steps 7 and 8: byte mode caches 0 and 'a' written at 4 reads back; page mode caches `0x80` and the page written at 0 reads back starting with 'M' and ending with 't' |
| Usage.ExampleModeChecksFail | src/lib.rs:63-65 | after a successful `set_mode` to sequential or page mode, the cache is not the two-bit code `0b01` or `0b10` that the example compares it with |

## Left out

- The embedded-hal SPI and pin implementations. They are replaced by the
  `Env` value: the chip that answers, plus a failure plan saying which
  attempted step fails. A failure carries an integer code in place of the
  HAL's error value.
- The hardware itself: timing, electrical behaviour, Dual and Quad I/O
  (their opcodes are modelled, but no operation sends them), the chip's
  byte and page modes, and wrap-around of its address counter at a page
  boundary or at the end of memory. The idealised chip always behaves like
  sequential mode and never wraps. So a sequential access past the highest
  address, which the driver allows because it only checks the start
  address, writes beyond it in the model.
- Panics, which are preconditions instead. `fill_address` requires a 7-bit
  opcode. `write_page` requires `PageWriteDefined`. The `unwrap` calls in
  `read_page` (src/sram23x.rs:179 and :184) cannot fail, because they
  convert slices that are exactly 32 bytes long.
- `InvalidOperatingMode`: it is declared but never raised, so it appears
  only in the `Error` type.
- The public `mode` field: callers can assign it directly. In the model it
  is only the session's cached value.
- Sram.ReadByte: the bytes sent are stated only for well-formed
  descriptors, i.e. all six variants. For a hand-made descriptor with a
  supported width but a too-large maximum, the model computes what the code
  does, but the contract does not spell it out.
- Sram.WriteByte: bytes sent stated only for well-formed descriptors, for
  the same reason.
- Sram.ReadPage: bytes sent stated only for well-formed descriptors, for
  the same reason.
- Sram.WritePage: bytes sent stated only for well-formed descriptors, for
  the same reason.
- Sram.Sequential: bytes sent stated only for well-formed descriptors, for
  the same reason.
- Sram.Transfer: the caller's buffer after a failed run is not modelled.
  The Rust `transfer` overwrites the buffer with the received bytes before
  it drives chip select high (src/sram23x.rs:64-65), so when that last pin
  step fails the caller gets `PinError` but holds the received bytes. The
  model's result carries the received bytes only on success.
- Sram.Sequential: for the same reason (src/sram23x.rs:253-254), the
  buffer left behind by a failed final pin step is not modelled; this also
  holds for `Sram.ReadSequential` and `Sram.WriteSequential`.
- Sram.ReadSequential: shares both gaps of `Sram.Sequential` above (the
  buffer after a failed final pin step, and the bytes sent stated only for
  well-formed descriptors), since it is a sequential Read.
- Sram.WriteSequential: shares both gaps of `Sram.Sequential` above, since
  it is a sequential Write.
- Sram.New: the cached mode is stated as the byte received from the chip.
  Relating it to the chip's register is left to `Usage.NewCachesStatus`.

## Findings

| source | as written | input that shows it | evidently intended | confidence | as-written member | corrected member |
|---|---|---|---|---|---|---|
| src/sram23x.rs:208 | the payload is copied into the fixed 32-byte page region with `clone_from_slice`, which panics unless the payload is exactly 32 bytes long (also line 212), yet only payloads over 32 bytes are rejected | `write_page(0, &[0x41])` on any variant | payloads of up to 32 bytes are accepted and sent with the rest of the page zero, as the fixed-size buffer and transfer suggest | high; not executed | Sram.ShortPageUndefined | Usage.FilledPageRoundTrip |
| src/lib.rs:65 | the usage example asserts `sram.mode == 0b01` after `set_mode(OperatingMode::Sequential as u8)`, and `0b10` after page mode at line 89 | the usage example, on any chip where the mode write succeeds | the cache holds the whole register byte, `0x40` for sequential mode and `0x80` for page mode | high; not executed | Usage.ExampleModeChecksFail | Usage.UsageExample |

The corrected page write is `Sram.WritePageFilled`. `Sram.PageWriteAgrees`
shows that it coincides with the code on every input where the code does
not panic, so the usage example holds for both.

/** The six supported chip variants and the per-variant command encoding:
    packing the instruction into the address word, and choosing which bytes
    of that word form the command header that starts every memory access. */
module Devices {
  import opened Bits
  import opened Protocol

  /** The constants a chip variant fixes. `addressBytes` counts the whole
      command header (opcode byte plus address bytes); `max` is the highest
      valid byte address. Like the Rust trait, any descriptor can be written
      down; `WellFormed` says which ones the encoding is correct for. */
  datatype DeviceType = DeviceType(addressBytes: nat, holdPin: bool, holdStatus: bool, max: Word)

  /** The supported chips. */
  datatype Part = M23x640 | M23x256 | M23x512 | M23xv512 | M23x1024 | M23xv1024

  /** Memory size in bytes, from the table of supported devices
      (8 KB, 32 KB, 64 KB, 64 KB, 128 KB, 128 KB). */
  function MemoryBytes(p: Part): nat
  {
    match p
    case M23x640 => 8 * 1024
    case M23x256 => 32 * 1024
    case M23x512 => 64 * 1024
    case M23xv512 => 64 * 1024
    case M23x1024 => 128 * 1024
    case M23xv1024 => 128 * 1024
  }

  /** Whether the table of supported devices lists a HOLD pin. */
  function DocumentedHoldPin(p: Part): bool
  {
    !(p == M23xv512 || p == M23xv1024)
  }

  /** Whether the variant has the hold-enable bit (bit 0) in its status
      register: the 23x640 and 23x256 only. */
  function DocumentedHoldStatus(p: Part): bool
  {
    p == M23x640 || p == M23x256
  }

  /** A descriptor the header encoding is exact for: the address bytes left
      after the opcode byte hold every valid address. */
  predicate WellFormed(dt: DeviceType)
  {
    || (dt.addressBytes == 3 && dt.max < 0x1_0000)
    || (dt.addressBytes == 4 && dt.max < 0x100_0000)
  }

  /** The constants of each variant. Every row is well formed, addresses
      exactly the documented memory, uses a four-byte header exactly when the
      memory exceeds 64 KB, has a hold pin as the device table lists, and
      has a hold status bit exactly on the 23x640 and 23x256, which always
      have a hold pin. */
  function Descriptor(p: Part): (dt: DeviceType)
    ensures WellFormed(dt)
    ensures dt.max + 1 == MemoryBytes(p)
    ensures dt.addressBytes == (if MemoryBytes(p) > 0x1_0000 then 4 else 3)
    ensures dt.holdPin == DocumentedHoldPin(p)
    ensures dt.holdStatus == DocumentedHoldStatus(p)
    ensures dt.holdStatus ==> dt.holdPin
  {
    match p
    case M23x640 => DeviceType(3, true, true, 0x1FFF)
    case M23x256 => DeviceType(3, true, true, 0x7FFF)
    case M23x512 => DeviceType(3, true, false, 0xFFFF)
    case M23xv512 => DeviceType(3, false, false, 0xFFFF)
    case M23x1024 => DeviceType(4, true, false, 0x1FFFF)
    case M23xv1024 => DeviceType(4, false, false, 0x1FFFF)
  }

  /** `fill_address`: writes the instruction into bits 24..30 of the address
      word (the Rust range 24..31 excludes its end). The bit-field write
      panics unless the opcode fits seven bits. */
  function FillAddress(address: Word, instruction: Instruction): (r: Word)
    requires Opcode(instruction) < 0x80
    ensures r % 0x100_0000 == address % 0x100_0000
    ensures r / 0x8000_0000 == address / 0x8000_0000
    ensures (r / 0x100_0000) % 0x80 == Opcode(instruction)
  {
    var field := (address / 0x100_0000) % 0x80;
    address - field * 0x100_0000 + Opcode(instruction) * 0x100_0000
  }

  /** Below bit 24 the word is the address, so filling puts the opcode in
      the most significant byte and leaves the address intact. */
  lemma FillAddressSmall(address: Word, instruction: Instruction)
    requires Opcode(instruction) < 0x80
    requires address < 0x100_0000
    ensures FillAddress(address, instruction) == Opcode(instruction) * 0x100_0000 + address
  {
    var r := FillAddress(address, instruction);
    var hi := r / 0x100_0000;
    assert hi / 0x80 == r / 0x8000_0000;
  }

  /** The header bytes for a variant, picked from the big-endian address
      word: three-byte variants keep bytes 0, 2 and 3; four-byte variants keep
      all four; any other width is `InvalidAddressSize`. The header is the
      word's first byte followed by its last `addressBytes - 1` bytes. */
  function AddressHeader(dt: DeviceType, data: seq<Byte>): (r: Result<seq<Byte>>)
    requires |data| == 4
    ensures r.Ok? <==> dt.addressBytes == 3 || dt.addressBytes == 4
    ensures r.Err? ==> r.error == InvalidAddressSize
    ensures r.Ok? ==> |r.value| == dt.addressBytes
    ensures r.Ok? ==> r.value[0] == data[0] && r.value[1..] == data[5 - dt.addressBytes..]
  {
    match dt.addressBytes
    case 3 => Ok([data[0], data[2], data[3]])
    case 4 => Ok([data[0], data[1], data[2], data[3]])
    case _ => Err(InvalidAddressSize)
  }

  /** The header the driver builds for an access at `address`: fill the
      address word, take its big-endian bytes, pick the variant's bytes. */
  function EncodedHeader(dt: DeviceType, instruction: Instruction, address: Word): Result<seq<Byte>>
    requires Opcode(instruction) < 0x80
  {
    AddressHeader(dt, ToBeBytes(FillAddress(address, instruction)))
  }

  /** The command header as the chips expect it: the opcode, then the
      address big-endian in the remaining `width - 1` bytes. */
  function CommandHeader(instruction: Instruction, address: nat, width: nat): (h: seq<Byte>)
    requires width >= 1
    ensures |h| == width
  {
    [Opcode(instruction)] + BeBytes(address, width - 1)
  }

  /** The big-endian bytes of a filled address word: the opcode with bit 31
      of the address on top, then bits 16..23, 8..15 and 0..7 of the address. */
  lemma FilledWordBytes(address: Word, instruction: Instruction)
    requires Opcode(instruction) < 0x80
    ensures ToBeBytes(FillAddress(address, instruction))
         == [Opcode(instruction) + 0x80 * (address / 0x8000_0000),
             (address / 0x1_0000) % 0x100, (address / 0x100) % 0x100, address % 0x100]
  {
    var r := FillAddress(address, instruction);
    var k := Opcode(instruction) - (address / 0x100_0000) % 0x80;
    assert r == address + k * 0x100_0000;
    HighBytesShift(address, k);
    TopBits(r);
  }

  /** Adding a multiple of 2^24 moves bytes 1 and 2 of a word by whole bytes. */
  lemma HighBytesShift(a: nat, k: int)
    ensures (a + k * 0x100_0000) / 0x1_0000 == a / 0x1_0000 + k * 0x100
    ensures (a + k * 0x100_0000) / 0x100 == a / 0x100 + k * 0x1_0000
    ensures (a / 0x1_0000 + k * 0x100) % 0x100 == (a / 0x1_0000) % 0x100
    ensures (a / 0x100 + k * 0x1_0000) % 0x100 == (a / 0x100) % 0x100
  {
  }

  /** Bit 31 of a word is bit 7 of its top byte. */
  lemma TopBits(r: nat)
    ensures r / 0x100_0000 / 0x80 == r / 0x8000_0000
  {
  }

  /** For every address word, the encoded header's first byte is the opcode
      (plus bit 31 of the address, which the packing leaves in place) and the
      remaining bytes carry the address modulo 2^16 (three-byte variants) or
      2^24 (four-byte variants): whatever lies above is silently dropped. */
  lemma EncodedHeaderBytes(dt: DeviceType, instruction: Instruction, address: Word)
    requires Opcode(instruction) < 0x80
    requires dt.addressBytes == 3 || dt.addressBytes == 4
    ensures EncodedHeader(dt, instruction, address).Ok?
    ensures var h := EncodedHeader(dt, instruction, address).value;
      && h[0] == Opcode(instruction) + 0x80 * (address / 0x8000_0000)
      && BeValue(h[1..]) == address % Pow256(dt.addressBytes - 1)
  {
    FilledWordBytes(address, instruction);
    var data := ToBeBytes(FillAddress(address, instruction));
    var h := EncodedHeader(dt, instruction, address).value;
    BeValueShort(data[1], data[2], data[3]);
    if dt.addressBytes == 3 {
      assert h[1..] == [data[2], data[3]];
      assert Pow256(2) == 0x1_0000;
      LowTwoBytes(address);
    } else {
      assert h[1..] == [data[1], data[2], data[3]];
      assert Pow256(3) == 0x100_0000;
      LowThreeBytes(address);
    }
  }

  /** For a well-formed variant and a valid address nothing is dropped: the
      header's first byte is the opcode and the rest decode to the address. */
  lemma HeaderFields(dt: DeviceType, instruction: Instruction, address: Word)
    requires WellFormed(dt)
    requires Opcode(instruction) < 0x80
    requires address <= dt.max
    ensures EncodedHeader(dt, instruction, address).Ok?
    ensures var h := EncodedHeader(dt, instruction, address).value;
      && h[0] == Opcode(instruction)
      && BeValue(h[1..]) == address
      && address < Pow256(dt.addressBytes - 1)
  {
    EncodedHeaderBytes(dt, instruction, address);
    assert address / 0x8000_0000 == 0;
    assert Pow256(2) == 0x1_0000 && Pow256(3) == 0x100_0000;
    if dt.addressBytes == 3 {
      assert address % 0x1_0000 == address;
    } else {
      assert address % 0x100_0000 == address;
    }
  }

  /** Headline encoding property: for a well-formed variant, every valid
      address is encoded as exactly the chip's command header, so decoding
      the header gives back the instruction and the address. */
  lemma HeaderRoundTrip(dt: DeviceType, instruction: Instruction, address: Word)
    requires WellFormed(dt)
    requires Opcode(instruction) < 0x80
    requires address <= dt.max
    ensures EncodedHeader(dt, instruction, address) == Ok(CommandHeader(instruction, address, dt.addressBytes))
    ensures var h := EncodedHeader(dt, instruction, address).value;
      && |h| == dt.addressBytes
      && InstructionOf(h[0]) == Some(instruction)
      && BeValue(h[1..]) == address
  {
    HeaderFields(dt, instruction, address);
    OpcodeDecodes(instruction);
    var h := EncodedHeader(dt, instruction, address).value;
    var tail := h[1..];
    assert tail == BeBytes(address, dt.addressBytes - 1) by {
      BeBytesOfValue(tail);
    }
    assert h == [h[0]] + tail;
  }
}

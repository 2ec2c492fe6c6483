/** The command vocabulary of the 23x serial SRAM family and the driver's
    error kinds: instruction opcodes, operating-mode bit patterns of the mode
    register, and the `Error`/`Result` types every operation returns. */
module Protocol {
  import opened Bits

  /** The seven instructions the chips understand. */
  datatype Instruction =
    | Read
    | Write
    | EnterDualIo
    | EnterQuadIo
    | ResetIo
    | ReadMode
    | WriteMode

  /** The opcode byte sent first on the wire for each instruction. */
  function Opcode(i: Instruction): Byte
  {
    match i
    case Read => 0x03
    case Write => 0x02
    case EnterDualIo => 0x3B
    case EnterQuadIo => 0x38
    case ResetIo => 0xFF
    case ReadMode => 0x05
    case WriteMode => 0x01
  }

  /** The instruction a received opcode byte names, as the chip decodes it. */
  function InstructionOf(b: Byte): (r: Option<Instruction>)
    ensures r.Some? ==> Opcode(r.value) == b
  {
    if b == 0x03 then Some(Read)
    else if b == 0x02 then Some(Write)
    else if b == 0x3B then Some(EnterDualIo)
    else if b == 0x38 then Some(EnterQuadIo)
    else if b == 0xFF then Some(ResetIo)
    else if b == 0x05 then Some(ReadMode)
    else if b == 0x01 then Some(WriteMode)
    else None
  }

  /** Every opcode decodes back to its instruction, so no two instructions
      share an opcode. */
  lemma OpcodeDecodes(i: Instruction)
    ensures InstructionOf(Opcode(i)) == Some(i)
  {
  }

  /** The opcodes are pairwise distinct. */
  lemma OpcodesDistinct(i: Instruction, j: Instruction)
    ensures Opcode(i) == Opcode(j) ==> i == j
  {
    OpcodeDecodes(i);
    OpcodeDecodes(j);
  }

  /** The instructions whose opcode fits the 7-bit field (bits 24..30) that
      the address-word packing writes: exactly Read, Write and the two mode
      instructions, so the data operations' Read and Write are admissible. */
  lemma SevenBitOpcodes(i: Instruction)
    ensures Opcode(i) < 0x80 <==> i in {Read, Write, EnterDualIo, EnterQuadIo, ReadMode, WriteMode}
  {
  }

  /** The four operating modes of the mode register (its bits 6..7). */
  datatype OperatingMode = ByteMode | PageMode | SequentialMode | ReservedMode

  /** The mode-register byte that selects each mode. */
  function ModeByte(m: OperatingMode): Byte
  {
    match m
    case ByteMode => 0x00
    case PageMode => 0x80
    case SequentialMode => 0x40
    case ReservedMode => 0xC0
  }

  /** The mode a mode-register byte selects, read from its top two bits. */
  function ModeOf(b: Byte): OperatingMode
  {
    match TopTwoBits(b)
    case 0 => ByteMode
    case 2 => PageMode
    case 1 => SequentialMode
    case _ => ReservedMode
  }

  /** Each mode byte has its low six bits clear and selects its own mode, so
      the four patterns in bits 6..7 are distinct. */
  lemma ModeByteSelects(m: OperatingMode)
    ensures ModeByte(m) % 0x40 == 0
    ensures ModeOf(ModeByte(m)) == m
  {
  }

  /** Optional values. */
  datatype Option<+T> = None | Some(value: T)

  /** The driver's error kinds. Only the bus and pin failures carry the
      collaborator's failure value, represented here by an integer code. */
  datatype Error =
    | SpiError(busCode: int)
    | PinError(pinCode: int)
    | TooMuchData
    | InvalidAddress
    | InvalidAddressSize
    | InvalidOperatingMode
    | UnknownOperatingMode

  /** The outcome of every driver operation. */
  datatype Result<+T> = Ok(value: T) | Err(error: Error)

  /** The error a result carries, if any. */
  function ErrorOf<T>(r: Result<T>): (e: Option<Error>)
    ensures e.None? <==> r.Ok?
  {
    match r
    case Ok(_) => None
    case Err(e) => Some(e)
  }
}

/** The opcodes as the driver puts them together. */
module Opcodes {
  import opened Octets

  const OP_BAD_COMMANDS: byte := 0xFA
  const OP_SHIFT_WR_FALLING_FLAG: byte := 0x01
  const OP_SHIFT_BITMODE_FLAG: byte := 0x02
  const OP_SHIFT_LSB_FIRST_FLAG: byte := 0x08
  const OP_SHIFT_WR_TDI_FLAG: byte := 0x10
  const OP_SHIFT_RD_TDO_FLAG: byte := 0x20
  const OP_SHIFT_WR_TMS_FLAG: byte := 0x40

  const OP_SET_DBUS_LOBYTE: byte := 0x80
  const OP_SET_TCK_DIVISOR: byte := 0x86
  const OP_DISABLE_CLK_DIVIDE_BY_5: byte := 0x8A
  const BAD_OPCODE: byte := 0xAB

  /** The flags are different bits, so that adding them combines them. */
  const OP_TMS: byte :=
    OP_SHIFT_WR_TMS_FLAG + OP_SHIFT_LSB_FIRST_FLAG + OP_SHIFT_BITMODE_FLAG + OP_SHIFT_WR_FALLING_FLAG
  const OP_TMS_READ: byte := OP_TMS + OP_SHIFT_RD_TDO_FLAG
  const OP_OCTETS_READ: byte :=
    OP_SHIFT_RD_TDO_FLAG + OP_SHIFT_WR_TDI_FLAG + OP_SHIFT_LSB_FIRST_FLAG + OP_SHIFT_WR_FALLING_FLAG
  const OP_BITS_READ: byte := OP_OCTETS_READ + OP_SHIFT_BITMODE_FLAG

  /** What the bits of the opcodes say to a chip. */
  lemma OpcodeFlags()
    ensures forall op | op in {OP_TMS, OP_TMS_READ, OP_BITS_READ, OP_OCTETS_READ} ::
      Bit(op, 0) && !Bit(op, 2) && Bit(op, 3) && op < 0x80
    ensures Bit(OP_TMS, 6) && !Bit(OP_TMS, 5) && !Bit(OP_TMS, 4) && Bit(OP_TMS, 1)
    ensures Bit(OP_TMS_READ, 6) && Bit(OP_TMS_READ, 5) && !Bit(OP_TMS_READ, 4) && Bit(OP_TMS_READ, 1)
    ensures !Bit(OP_BITS_READ, 6) && Bit(OP_BITS_READ, 5) && Bit(OP_BITS_READ, 4) && Bit(OP_BITS_READ, 1)
    ensures !Bit(OP_OCTETS_READ, 6) && Bit(OP_OCTETS_READ, 5) && Bit(OP_OCTETS_READ, 4) && !Bit(OP_OCTETS_READ, 1)
  {
    assert OP_TMS == 0x4B && OP_TMS_READ == 0x6B && OP_BITS_READ == 0x3B && OP_OCTETS_READ == 0x39;
  }
}

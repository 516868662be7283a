/** Addresses and screen dimensions. */
module Registers {
  import opened Bytes

  const BOOTROM_UPPER_BOUND: Word := 0x0100
  const CART_ROM_UPPER_BOUND: Word := 0x8000
  const CART_RAM_LOWER_BOUND: Word := 0xA000
  const CART_RAM_UPPER_BOUND: Word := 0xC000
  const OAM_MEMORY_LOWER_BOUND: Word := 0xFE00
  const DMA_LENGTH: Word := 0xA0

  const BOOT_ROM_LOCK: Word := 0xFF50
  const REG_JOIP: Word := 0xFF00
  const REG_SB: Word := 0xFF01
  const REG_SC: Word := 0xFF02
  const REG_DIV: Word := 0xFF04
  const REG_TIMA: Word := 0xFF05
  const REG_TMA: Word := 0xFF06
  const REG_TAC: Word := 0xFF07
  const REG_IF: Word := 0xFF0F
  const REG_IE: Word := 0xFFFF
  const REG_LCDC: Word := 0xFF40
  const REG_STAT: Word := 0xFF41
  const REG_SCY: Word := 0xFF42
  const REG_SCX: Word := 0xFF43
  const REG_LY: Word := 0xFF44
  const REG_LYC: Word := 0xFF45
  const REG_DMA: Word := 0xFF46
  const REG_BGP: Word := 0xFF47
  const REG_OBP0: Word := 0xFF48
  const REG_OBP1: Word := 0xFF49
  const REG_WY: Word := 0xFF4A
  const REG_WX: Word := 0xFF4B

  const TILEDATA_BASE_8000: Word := 0x8000
  const TILEDATA_BASE_9000: Word := 0x9000
  const TILEMAP_BASE_0: Word := 0x9800
  const TILEMAP_BASE_1: Word := 0x9C00

  const WIDTH := 160
  const HEIGHT := 144
  const LINE_CLOCKS := 114
  const FRAME_LINES := 154
  const FRAME_CLOCKS := 17556
}

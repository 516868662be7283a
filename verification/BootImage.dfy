/** The DMG0 boot program, sixteen bytes a row. */
module BootImage {
  import opened Bytes
  import opened Registers

  function BootRow0(k: nat): Byte
    requires k < 16
  {
    var row: seq<Byte> := [
      0x31, 0xfe, 0xff, 0xaf, 0x21, 0xff, 0x9f, 0x32,
      0xcb, 0x7c, 0x20, 0xfb, 0x21, 0x26, 0xff, 0x0e
    ];
    row[k]
  }

  function BootRow1(k: nat): Byte
    requires k < 16
  {
    var row: seq<Byte> := [
      0x11, 0x3e, 0x80, 0x32, 0xe2, 0x0c, 0x3e, 0xf3,
      0xe2, 0x32, 0x3e, 0x77, 0x77, 0x3e, 0xfc, 0xe0
    ];
    row[k]
  }

  function BootRow2(k: nat): Byte
    requires k < 16
  {
    var row: seq<Byte> := [
      0x47, 0x11, 0x04, 0x01, 0x21, 0x10, 0x80, 0x1a,
      0xcd, 0x95, 0x00, 0xcd, 0x96, 0x00, 0x13, 0x7b
    ];
    row[k]
  }

  function BootRow3(k: nat): Byte
    requires k < 16
  {
    var row: seq<Byte> := [
      0xfe, 0x34, 0x20, 0xf3, 0x11, 0xd8, 0x00, 0x06,
      0x08, 0x1a, 0x13, 0x22, 0x23, 0x05, 0x20, 0xf9
    ];
    row[k]
  }

  function BootRow4(k: nat): Byte
    requires k < 16
  {
    var row: seq<Byte> := [
      0x3e, 0x19, 0xea, 0x10, 0x99, 0x21, 0x2f, 0x99,
      0x0e, 0x0c, 0x3d, 0x28, 0x08, 0x32, 0x0d, 0x20
    ];
    row[k]
  }

  function BootRow5(k: nat): Byte
    requires k < 16
  {
    var row: seq<Byte> := [
      0xf9, 0x2e, 0x0f, 0x18, 0xf3, 0x67, 0x3e, 0x64,
      0x57, 0xe0, 0x42, 0x3e, 0x91, 0xe0, 0x40, 0x04
    ];
    row[k]
  }

  function BootRow6(k: nat): Byte
    requires k < 16
  {
    var row: seq<Byte> := [
      0x1e, 0x02, 0x0e, 0x0c, 0xf0, 0x44, 0xfe, 0x90,
      0x20, 0xfa, 0x0d, 0x20, 0xf7, 0x1d, 0x20, 0xf2
    ];
    row[k]
  }

  function BootRow7(k: nat): Byte
    requires k < 16
  {
    var row: seq<Byte> := [
      0x0e, 0x13, 0x24, 0x7c, 0x1e, 0x83, 0xfe, 0x62,
      0x28, 0x06, 0x1e, 0xc1, 0xfe, 0x64, 0x20, 0x06
    ];
    row[k]
  }

  function BootRow8(k: nat): Byte
    requires k < 16
  {
    var row: seq<Byte> := [
      0x7b, 0xe2, 0x0c, 0x3e, 0x87, 0xe2, 0xf0, 0x42,
      0x90, 0xe0, 0x42, 0x15, 0x20, 0xd2, 0x05, 0x20
    ];
    row[k]
  }

  function BootRow9(k: nat): Byte
    requires k < 16
  {
    var row: seq<Byte> := [
      0x4f, 0x16, 0x20, 0x18, 0xcb, 0x4f, 0x06, 0x04,
      0xc5, 0xcb, 0x11, 0x17, 0xc1, 0xcb, 0x11, 0x17
    ];
    row[k]
  }

  function BootRowA(k: nat): Byte
    requires k < 16
  {
    var row: seq<Byte> := [
      0x05, 0x20, 0xf5, 0x22, 0x23, 0x22, 0x23, 0xc9,
      0xce, 0xed, 0x66, 0x66, 0xcc, 0x0d, 0x00, 0x0b
    ];
    row[k]
  }

  function BootRowB(k: nat): Byte
    requires k < 16
  {
    var row: seq<Byte> := [
      0x03, 0x73, 0x00, 0x83, 0x00, 0x0c, 0x00, 0x0d,
      0x00, 0x08, 0x11, 0x1f, 0x88, 0x89, 0x00, 0x0e
    ];
    row[k]
  }

  function BootRowC(k: nat): Byte
    requires k < 16
  {
    var row: seq<Byte> := [
      0xdc, 0xcc, 0x6e, 0xe6, 0xdd, 0xdd, 0xd9, 0x99,
      0xbb, 0xbb, 0x67, 0x63, 0x6e, 0x0e, 0xec, 0xcc
    ];
    row[k]
  }

  function BootRowD(k: nat): Byte
    requires k < 16
  {
    var row: seq<Byte> := [
      0xdd, 0xdc, 0x99, 0x9f, 0xbb, 0xb9, 0x33, 0x3e,
      0x3c, 0x42, 0xb9, 0xa5, 0xb9, 0xa5, 0x42, 0x3c
    ];
    row[k]
  }

  function BootRowE(k: nat): Byte
    requires k < 16
  {
    var row: seq<Byte> := [
      0x21, 0x04, 0x01, 0x11, 0xa8, 0x00, 0x1a, 0x13,
      0xbe, 0x20, 0xfe, 0x23, 0x7d, 0xfe, 0x34, 0x20
    ];
    row[k]
  }

  function BootRowF(k: nat): Byte
    requires k < 16
  {
    var row: seq<Byte> := [
      0xf5, 0x06, 0x19, 0x78, 0x86, 0x23, 0x05, 0x20,
      0xfb, 0x86, 0x20, 0xfe, 0x3e, 0x01, 0xe0, 0x50
    ];
    row[k]
  }

  function BootRom(a: Word): Byte
    requires a < BOOTROM_UPPER_BOUND
  {
    if a < 0x10 then BootRow0(a - 0x00)
    else if a < 0x20 then BootRow1(a - 0x10)
    else if a < 0x30 then BootRow2(a - 0x20)
    else if a < 0x40 then BootRow3(a - 0x30)
    else if a < 0x50 then BootRow4(a - 0x40)
    else if a < 0x60 then BootRow5(a - 0x50)
    else if a < 0x70 then BootRow6(a - 0x60)
    else if a < 0x80 then BootRow7(a - 0x70)
    else if a < 0x90 then BootRow8(a - 0x80)
    else if a < 0xA0 then BootRow9(a - 0x90)
    else if a < 0xB0 then BootRowA(a - 0xA0)
    else if a < 0xC0 then BootRowB(a - 0xB0)
    else if a < 0xD0 then BootRowC(a - 0xC0)
    else if a < 0xE0 then BootRowD(a - 0xD0)
    else if a < 0xF0 then BootRowE(a - 0xE0)
    else BootRowF(a - 0xF0)
  }
}

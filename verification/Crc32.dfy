/** The table-driven CRC-32 of the GPT header code, shown equal to the bit-at-a-time
    definition of section 8 of RFC 1952. */
module Crc32 {
  // ---------- The reference: one bit at a time ----------

  const POLYNOMIAL: bv32 := 0xedb88320

  function Shift(c: bv32): bv32 {
    if c & 1 == 1 then POLYNOMIAL ^ (c >> 1) else c >> 1
  }

  function Shift2(c: bv32): bv32 { Shift(Shift(c)) }
  function Shift4(c: bv32): bv32 { Shift2(Shift2(c)) }
  function Shift8(c: bv32): bv32 { Shift4(Shift4(c)) }

  function NextByte(c: bv32, b: bv8): bv32 {
    Shift8(c ^ (b as bv32))
  }

  // The running remainder after the bytes of buf.
  function Remainder(seed: bv32, buf: seq<bv8>): bv32 {
    if buf == [] then seed
    else NextByte(Remainder(seed, buf[..|buf| - 1]), buf[|buf| - 1])
  }

  function Crc(buf: seq<bv8>): bv32 {
    Remainder(0xffffffff, buf) ^ 0xffffffff
  }

  // ---------- The table ----------

  // crc32_tab: the entry whose index has the nibbles hi and lo.
  function Tab(hi: bv4, lo: bv4): bv32 {
    match hi
    case 0 => (
      match lo
        case 0 => 0x00000000 case 1 => 0x77073096 case 2 => 0xee0e612c case 3 => 0x990951ba
        case 4 => 0x076dc419 case 5 => 0x706af48f case 6 => 0xe963a535 case 7 => 0x9e6495a3
        case 8 => 0x0edb8832 case 9 => 0x79dcb8a4 case 10 => 0xe0d5e91e case 11 => 0x97d2d988
        case 12 => 0x09b64c2b case 13 => 0x7eb17cbd case 14 => 0xe7b82d07 case _ => 0x90bf1d91)
    case 1 => (
      match lo
        case 0 => 0x1db71064 case 1 => 0x6ab020f2 case 2 => 0xf3b97148 case 3 => 0x84be41de
        case 4 => 0x1adad47d case 5 => 0x6ddde4eb case 6 => 0xf4d4b551 case 7 => 0x83d385c7
        case 8 => 0x136c9856 case 9 => 0x646ba8c0 case 10 => 0xfd62f97a case 11 => 0x8a65c9ec
        case 12 => 0x14015c4f case 13 => 0x63066cd9 case 14 => 0xfa0f3d63 case _ => 0x8d080df5)
    case 2 => (
      match lo
        case 0 => 0x3b6e20c8 case 1 => 0x4c69105e case 2 => 0xd56041e4 case 3 => 0xa2677172
        case 4 => 0x3c03e4d1 case 5 => 0x4b04d447 case 6 => 0xd20d85fd case 7 => 0xa50ab56b
        case 8 => 0x35b5a8fa case 9 => 0x42b2986c case 10 => 0xdbbbc9d6 case 11 => 0xacbcf940
        case 12 => 0x32d86ce3 case 13 => 0x45df5c75 case 14 => 0xdcd60dcf case _ => 0xabd13d59)
    case 3 => (
      match lo
        case 0 => 0x26d930ac case 1 => 0x51de003a case 2 => 0xc8d75180 case 3 => 0xbfd06116
        case 4 => 0x21b4f4b5 case 5 => 0x56b3c423 case 6 => 0xcfba9599 case 7 => 0xb8bda50f
        case 8 => 0x2802b89e case 9 => 0x5f058808 case 10 => 0xc60cd9b2 case 11 => 0xb10be924
        case 12 => 0x2f6f7c87 case 13 => 0x58684c11 case 14 => 0xc1611dab case _ => 0xb6662d3d)
    case 4 => (
      match lo
        case 0 => 0x76dc4190 case 1 => 0x01db7106 case 2 => 0x98d220bc case 3 => 0xefd5102a
        case 4 => 0x71b18589 case 5 => 0x06b6b51f case 6 => 0x9fbfe4a5 case 7 => 0xe8b8d433
        case 8 => 0x7807c9a2 case 9 => 0x0f00f934 case 10 => 0x9609a88e case 11 => 0xe10e9818
        case 12 => 0x7f6a0dbb case 13 => 0x086d3d2d case 14 => 0x91646c97 case _ => 0xe6635c01)
    case 5 => (
      match lo
        case 0 => 0x6b6b51f4 case 1 => 0x1c6c6162 case 2 => 0x856530d8 case 3 => 0xf262004e
        case 4 => 0x6c0695ed case 5 => 0x1b01a57b case 6 => 0x8208f4c1 case 7 => 0xf50fc457
        case 8 => 0x65b0d9c6 case 9 => 0x12b7e950 case 10 => 0x8bbeb8ea case 11 => 0xfcb9887c
        case 12 => 0x62dd1ddf case 13 => 0x15da2d49 case 14 => 0x8cd37cf3 case _ => 0xfbd44c65)
    case 6 => (
      match lo
        case 0 => 0x4db26158 case 1 => 0x3ab551ce case 2 => 0xa3bc0074 case 3 => 0xd4bb30e2
        case 4 => 0x4adfa541 case 5 => 0x3dd895d7 case 6 => 0xa4d1c46d case 7 => 0xd3d6f4fb
        case 8 => 0x4369e96a case 9 => 0x346ed9fc case 10 => 0xad678846 case 11 => 0xda60b8d0
        case 12 => 0x44042d73 case 13 => 0x33031de5 case 14 => 0xaa0a4c5f case _ => 0xdd0d7cc9)
    case 7 => (
      match lo
        case 0 => 0x5005713c case 1 => 0x270241aa case 2 => 0xbe0b1010 case 3 => 0xc90c2086
        case 4 => 0x5768b525 case 5 => 0x206f85b3 case 6 => 0xb966d409 case 7 => 0xce61e49f
        case 8 => 0x5edef90e case 9 => 0x29d9c998 case 10 => 0xb0d09822 case 11 => 0xc7d7a8b4
        case 12 => 0x59b33d17 case 13 => 0x2eb40d81 case 14 => 0xb7bd5c3b case _ => 0xc0ba6cad)
    case 8 => (
      match lo
        case 0 => 0xedb88320 case 1 => 0x9abfb3b6 case 2 => 0x03b6e20c case 3 => 0x74b1d29a
        case 4 => 0xead54739 case 5 => 0x9dd277af case 6 => 0x04db2615 case 7 => 0x73dc1683
        case 8 => 0xe3630b12 case 9 => 0x94643b84 case 10 => 0x0d6d6a3e case 11 => 0x7a6a5aa8
        case 12 => 0xe40ecf0b case 13 => 0x9309ff9d case 14 => 0x0a00ae27 case _ => 0x7d079eb1)
    case 9 => (
      match lo
        case 0 => 0xf00f9344 case 1 => 0x8708a3d2 case 2 => 0x1e01f268 case 3 => 0x6906c2fe
        case 4 => 0xf762575d case 5 => 0x806567cb case 6 => 0x196c3671 case 7 => 0x6e6b06e7
        case 8 => 0xfed41b76 case 9 => 0x89d32be0 case 10 => 0x10da7a5a case 11 => 0x67dd4acc
        case 12 => 0xf9b9df6f case 13 => 0x8ebeeff9 case 14 => 0x17b7be43 case _ => 0x60b08ed5)
    case 10 => (
      match lo
        case 0 => 0xd6d6a3e8 case 1 => 0xa1d1937e case 2 => 0x38d8c2c4 case 3 => 0x4fdff252
        case 4 => 0xd1bb67f1 case 5 => 0xa6bc5767 case 6 => 0x3fb506dd case 7 => 0x48b2364b
        case 8 => 0xd80d2bda case 9 => 0xaf0a1b4c case 10 => 0x36034af6 case 11 => 0x41047a60
        case 12 => 0xdf60efc3 case 13 => 0xa867df55 case 14 => 0x316e8eef case _ => 0x4669be79)
    case 11 => (
      match lo
        case 0 => 0xcb61b38c case 1 => 0xbc66831a case 2 => 0x256fd2a0 case 3 => 0x5268e236
        case 4 => 0xcc0c7795 case 5 => 0xbb0b4703 case 6 => 0x220216b9 case 7 => 0x5505262f
        case 8 => 0xc5ba3bbe case 9 => 0xb2bd0b28 case 10 => 0x2bb45a92 case 11 => 0x5cb36a04
        case 12 => 0xc2d7ffa7 case 13 => 0xb5d0cf31 case 14 => 0x2cd99e8b case _ => 0x5bdeae1d)
    case 12 => (
      match lo
        case 0 => 0x9b64c2b0 case 1 => 0xec63f226 case 2 => 0x756aa39c case 3 => 0x026d930a
        case 4 => 0x9c0906a9 case 5 => 0xeb0e363f case 6 => 0x72076785 case 7 => 0x05005713
        case 8 => 0x95bf4a82 case 9 => 0xe2b87a14 case 10 => 0x7bb12bae case 11 => 0x0cb61b38
        case 12 => 0x92d28e9b case 13 => 0xe5d5be0d case 14 => 0x7cdcefb7 case _ => 0x0bdbdf21)
    case 13 => (
      match lo
        case 0 => 0x86d3d2d4 case 1 => 0xf1d4e242 case 2 => 0x68ddb3f8 case 3 => 0x1fda836e
        case 4 => 0x81be16cd case 5 => 0xf6b9265b case 6 => 0x6fb077e1 case 7 => 0x18b74777
        case 8 => 0x88085ae6 case 9 => 0xff0f6a70 case 10 => 0x66063bca case 11 => 0x11010b5c
        case 12 => 0x8f659eff case 13 => 0xf862ae69 case 14 => 0x616bffd3 case _ => 0x166ccf45)
    case 14 => (
      match lo
        case 0 => 0xa00ae278 case 1 => 0xd70dd2ee case 2 => 0x4e048354 case 3 => 0x3903b3c2
        case 4 => 0xa7672661 case 5 => 0xd06016f7 case 6 => 0x4969474d case 7 => 0x3e6e77db
        case 8 => 0xaed16a4a case 9 => 0xd9d65adc case 10 => 0x40df0b66 case 11 => 0x37d83bf0
        case 12 => 0xa9bcae53 case 13 => 0xdebb9ec5 case 14 => 0x47b2cf7f case _ => 0x30b5ffe9)
    case _ => (
      match lo
        case 0 => 0xbdbdf21c case 1 => 0xcabac28a case 2 => 0x53b39330 case 3 => 0x24b4a3a6
        case 4 => 0xbad03605 case 5 => 0xcdd70693 case 6 => 0x54de5729 case 7 => 0x23d967bf
        case 8 => 0xb3667a2e case 9 => 0xc4614ab8 case 10 => 0x5d681b02 case 11 => 0x2a6f2b94
        case 12 => 0xb40bbe37 case 13 => 0xc30c8ea1 case 14 => 0x5a05df1b case _ => 0x2d02ef8d)
  }

  // crc32_tab[x & 0xff]
  function Entry(x: bv32): bv32 {
    Tab(((x >> 4) & 15) as bv4, (x & 15) as bv4)
  }

  // ---------- Why the table works: shifting is linear over exclusive or ----------

  function Xor(a: bv32, b: bv32): bv32 { a ^ b }
  function LowByte(x: bv32): bv32 { x & 0xff }

  lemma XorSelf(p: bv32, a: bv32, b: bv32)
    ensures (p ^ a) ^ (p ^ b) == a ^ b
  {
  }

  lemma XorOut(p: bv32, a: bv32, b: bv32)
    ensures (p ^ a) ^ b == p ^ (a ^ b) && a ^ (p ^ b) == p ^ (a ^ b)
  {
  }

  lemma XorBits(x: bv32, y: bv32)
    ensures (x ^ y) >> 1 == (x >> 1) ^ (y >> 1)
    ensures ((x ^ y) & 1 == 1) == ((x & 1 == 1) != (y & 1 == 1))
  {
  }

  lemma ShiftXor(x: bv32, y: bv32)
    ensures Shift(x ^ y) == Shift(x) ^ Shift(y)
  {
    XorBits(x, y);
    XorSelf(POLYNOMIAL, x >> 1, y >> 1);
    XorOut(POLYNOMIAL, x >> 1, y >> 1);
  }

  lemma ShiftLinear(x: bv32, y: bv32)
    ensures Shift(Xor(x, y)) == Xor(Shift(x), Shift(y))
  {
    hide Shift;
    ShiftXor(x, y);
  }

  lemma Shift2Linear(x: bv32, y: bv32)
    ensures Shift2(Xor(x, y)) == Xor(Shift2(x), Shift2(y))
  {
    hide Shift, Xor;
    ShiftLinear(x, y);
    ShiftLinear(Shift(x), Shift(y));
  }

  lemma Shift4Linear(x: bv32, y: bv32)
    ensures Shift4(Xor(x, y)) == Xor(Shift4(x), Shift4(y))
  {
    hide Shift2, Xor;
    Shift2Linear(x, y);
    Shift2Linear(Shift2(x), Shift2(y));
  }

  lemma Shift8Linear(x: bv32, y: bv32)
    ensures Shift8(Xor(x, y)) == Xor(Shift8(x), Shift8(y))
  {
    hide Shift4, Xor;
    Shift4Linear(x, y);
    Shift4Linear(Shift4(x), Shift4(y));
  }

  function Up(d: bv32): bv32 { d << 1 }
  function Up2(d: bv32): bv32 { Up(Up(d)) }
  function Up4(d: bv32): bv32 { Up2(Up2(d)) }
  function Up8(d: bv32): bv32 { Up4(Up4(d)) }

  // Nothing is fed back while the bottom bits are zero: shifting undoes doubling.
  lemma Halve(d: bv32)
    requires d < 0x8000_0000
    ensures Shift(Up(d)) == d
  {
  }

  lemma UpBounds(d: bv32)
    ensures d < 0x4000_0000 ==> Up(d) < 0x8000_0000
    ensures d < 0x1000_0000 ==> Up2(d) < 0x4000_0000
    ensures d < 0x100_0000 ==> Up4(d) < 0x1000_0000
  {
  }

  lemma Halve2(d: bv32)
    requires d < 0x4000_0000
    ensures Shift2(Up2(d)) == d
  {
    hide Shift, Up;
    UpBounds(d);
    Halve(d);
    Halve(Up(d));
  }

  lemma Halve4(d: bv32)
    requires d < 0x1000_0000
    ensures Shift4(Up4(d)) == d
  {
    hide Shift2, Up2;
    UpBounds(d);
    Halve2(d);
    Halve2(Up2(d));
  }

  lemma Halve8(d: bv32)
    requires d < 0x100_0000
    ensures Shift8(Up8(d)) == d
  {
    hide Shift4, Up4;
    UpBounds(d);
    Halve4(d);
    Halve4(Up4(d));
  }

  lemma Recombine(x: bv32)
    ensures x == Xor(LowByte(x), Up8(x >> 8)) && x >> 8 < 0x100_0000
  {
  }

  // The low byte, and the other three as eight doublings of what they become.
  lemma SplitByte(x: bv32) returns (lo: bv32, hi: bv32)
    ensures lo == LowByte(x) && x == Xor(lo, hi) && Shift8(hi) == x >> 8
  {
    hide Shift8, Up8, Xor, LowByte;
    lo, hi := LowByte(x), Up8(x >> 8);
    Recombine(x);
    Halve8(x >> 8);
  }

  // One byte of feedback: the low byte goes through the table, the rest moves down.
  lemma ByteStep(x: bv32)
    ensures Shift8(x) == Xor(Shift8(LowByte(x)), x >> 8)
  {
    hide Shift8, Xor, LowByte;
    var lo, hi := SplitByte(x);
    Shift8Linear(lo, hi);
  }

  lemma TableLinear(hi: bv4, lo: bv4)
    ensures Tab(hi, lo) == Xor(Tab(hi, 0), Tab(0, lo))
  {
    match hi {
      case 0 => case 1 => case 2 => case 3 =>
      case 4 => case 5 => case 6 => case 7 =>
      case 8 => case 9 => case 10 => case 11 =>
      case 12 => case 13 => case 14 => case _ =>
    }
  }

  lemma TableLow(lo: bv4)
    ensures Tab(0, lo) == Shift8(lo as bv32)
  {
  }

  lemma TableHigh(hi: bv4)
    ensures Tab(hi, 0) == Shift8((hi as bv32) << 4)
  {
  }

  lemma Nibbles(x: bv32) returns (hi: bv4, lo: bv4, h: bv32, l: bv32)
    ensures Entry(x) == Tab(hi, lo) && Tab(hi, 0) == Shift8(h) && Tab(0, lo) == Shift8(l)
    ensures LowByte(x) == Xor(h, l)
  {
    hide Shift8, Tab;
    hi, lo := ((x >> 4) & 15) as bv4, (x & 15) as bv4;
    h, l := (hi as bv32) << 4, lo as bv32;
    TableLow(lo);
    TableHigh(hi);
  }

  /** Every table entry is the result of eight shifts of its index. */
  lemma EntryIsShift8(x: bv32)
    ensures Entry(x) == Shift8(LowByte(x))
  {
    hide Shift8, Tab, Entry, Xor, LowByte;
    var hi, lo, h, l := Nibbles(x);
    TableLinear(hi, lo);
    Shift8Linear(h, l);
  }

  lemma HighUntouched(c: bv32, b: bv8)
    ensures (c ^ (b as bv32)) >> 8 == c >> 8
  {
  }

  // What one round of the loop computes.
  method TableStep(crc: bv32, b: bv8) returns (r: bv32)
    ensures r == NextByte(crc, b)
  {
    hide Shift8, Entry;
    var x := crc ^ (b as bv32);
    EntryIsShift8(x);
    ByteStep(x);
    HighUntouched(crc, b);
    r := Entry(x) ^ (crc >> 8);
  }

  // _efi_crc32
  method TableRemainder(buf: seq<bv8>, seed: bv32) returns (crc: bv32)
    ensures crc == Remainder(seed, buf)
  {
    hide NextByte;
    crc := seed;
    for i := 0 to |buf|
      invariant crc == Remainder(seed, buf[..i])
    {
      assert buf[..i + 1][..i] == buf[..i];
      crc := TableStep(crc, buf[i]);
    }
    assert buf[..|buf|] == buf;
  }

  /** efi_crc32 computes the CRC-32 of every buffer. */
  method EfiCrc32(buf: seq<bv8>) returns (crc: bv32)
    ensures crc == Crc(buf)
  {
    crc := TableRemainder(buf, 0xffffffff);
    crc := crc ^ 0xffffffff;
  }
}

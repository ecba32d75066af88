/** The block check: a table-driven CRC, and why it is the remainder of dividing
    the message, as a polynomial over GF(2), by the generator of IEEE 802.3
    (section 3.2.9), most significant bit first. */
module Crc {
  import opened Counting

  const POLY: bv32 := 0x04c11db7

  // ----- the table of the program

  function Row0(i: bv32): bv32 {
    if i == 0x00 then 0x00000000 else if i == 0x01 then 0x04c11db7 else
    if i == 0x02 then 0x09823b6e else if i == 0x03 then 0x0d4326d9 else
    if i == 0x04 then 0x130476dc else if i == 0x05 then 0x17c56b6b else
    if i == 0x06 then 0x1a864db2 else if i == 0x07 then 0x1e475005 else
    if i == 0x08 then 0x2608edb8 else if i == 0x09 then 0x22c9f00f else
    if i == 0x0a then 0x2f8ad6d6 else if i == 0x0b then 0x2b4bcb61 else
    if i == 0x0c then 0x350c9b64 else if i == 0x0d then 0x31cd86d3 else
    if i == 0x0e then 0x3c8ea00a else 0x384fbdbd
  }

  function Row1(i: bv32): bv32 {
    if i == 0x10 then 0x4c11db70 else if i == 0x11 then 0x48d0c6c7 else
    if i == 0x12 then 0x4593e01e else if i == 0x13 then 0x4152fda9 else
    if i == 0x14 then 0x5f15adac else if i == 0x15 then 0x5bd4b01b else
    if i == 0x16 then 0x569796c2 else if i == 0x17 then 0x52568b75 else
    if i == 0x18 then 0x6a1936c8 else if i == 0x19 then 0x6ed82b7f else
    if i == 0x1a then 0x639b0da6 else if i == 0x1b then 0x675a1011 else
    if i == 0x1c then 0x791d4014 else if i == 0x1d then 0x7ddc5da3 else
    if i == 0x1e then 0x709f7b7a else 0x745e66cd
  }

  function Row2(i: bv32): bv32 {
    if i == 0x20 then 0x9823b6e0 else if i == 0x21 then 0x9ce2ab57 else
    if i == 0x22 then 0x91a18d8e else if i == 0x23 then 0x95609039 else
    if i == 0x24 then 0x8b27c03c else if i == 0x25 then 0x8fe6dd8b else
    if i == 0x26 then 0x82a5fb52 else if i == 0x27 then 0x8664e6e5 else
    if i == 0x28 then 0xbe2b5b58 else if i == 0x29 then 0xbaea46ef else
    if i == 0x2a then 0xb7a96036 else if i == 0x2b then 0xb3687d81 else
    if i == 0x2c then 0xad2f2d84 else if i == 0x2d then 0xa9ee3033 else
    if i == 0x2e then 0xa4ad16ea else 0xa06c0b5d
  }

  function Row3(i: bv32): bv32 {
    if i == 0x30 then 0xd4326d90 else if i == 0x31 then 0xd0f37027 else
    if i == 0x32 then 0xddb056fe else if i == 0x33 then 0xd9714b49 else
    if i == 0x34 then 0xc7361b4c else if i == 0x35 then 0xc3f706fb else
    if i == 0x36 then 0xceb42022 else if i == 0x37 then 0xca753d95 else
    if i == 0x38 then 0xf23a8028 else if i == 0x39 then 0xf6fb9d9f else
    if i == 0x3a then 0xfbb8bb46 else if i == 0x3b then 0xff79a6f1 else
    if i == 0x3c then 0xe13ef6f4 else if i == 0x3d then 0xe5ffeb43 else
    if i == 0x3e then 0xe8bccd9a else 0xec7dd02d
  }

  function Row4(i: bv32): bv32 {
    if i == 0x40 then 0x34867077 else if i == 0x41 then 0x30476dc0 else
    if i == 0x42 then 0x3d044b19 else if i == 0x43 then 0x39c556ae else
    if i == 0x44 then 0x278206ab else if i == 0x45 then 0x23431b1c else
    if i == 0x46 then 0x2e003dc5 else if i == 0x47 then 0x2ac12072 else
    if i == 0x48 then 0x128e9dcf else if i == 0x49 then 0x164f8078 else
    if i == 0x4a then 0x1b0ca6a1 else if i == 0x4b then 0x1fcdbb16 else
    if i == 0x4c then 0x018aeb13 else if i == 0x4d then 0x054bf6a4 else
    if i == 0x4e then 0x0808d07d else 0x0cc9cdca
  }

  function Row5(i: bv32): bv32 {
    if i == 0x50 then 0x7897ab07 else if i == 0x51 then 0x7c56b6b0 else
    if i == 0x52 then 0x71159069 else if i == 0x53 then 0x75d48dde else
    if i == 0x54 then 0x6b93dddb else if i == 0x55 then 0x6f52c06c else
    if i == 0x56 then 0x6211e6b5 else if i == 0x57 then 0x66d0fb02 else
    if i == 0x58 then 0x5e9f46bf else if i == 0x59 then 0x5a5e5b08 else
    if i == 0x5a then 0x571d7dd1 else if i == 0x5b then 0x53dc6066 else
    if i == 0x5c then 0x4d9b3063 else if i == 0x5d then 0x495a2dd4 else
    if i == 0x5e then 0x44190b0d else 0x40d816ba
  }

  function Row6(i: bv32): bv32 {
    if i == 0x60 then 0xaca5c697 else if i == 0x61 then 0xa864db20 else
    if i == 0x62 then 0xa527fdf9 else if i == 0x63 then 0xa1e6e04e else
    if i == 0x64 then 0xbfa1b04b else if i == 0x65 then 0xbb60adfc else
    if i == 0x66 then 0xb6238b25 else if i == 0x67 then 0xb2e29692 else
    if i == 0x68 then 0x8aad2b2f else if i == 0x69 then 0x8e6c3698 else
    if i == 0x6a then 0x832f1041 else if i == 0x6b then 0x87ee0df6 else
    if i == 0x6c then 0x99a95df3 else if i == 0x6d then 0x9d684044 else
    if i == 0x6e then 0x902b669d else 0x94ea7b2a
  }

  function Row7(i: bv32): bv32 {
    if i == 0x70 then 0xe0b41de7 else if i == 0x71 then 0xe4750050 else
    if i == 0x72 then 0xe9362689 else if i == 0x73 then 0xedf73b3e else
    if i == 0x74 then 0xf3b06b3b else if i == 0x75 then 0xf771768c else
    if i == 0x76 then 0xfa325055 else if i == 0x77 then 0xfef34de2 else
    if i == 0x78 then 0xc6bcf05f else if i == 0x79 then 0xc27dede8 else
    if i == 0x7a then 0xcf3ecb31 else if i == 0x7b then 0xcbffd686 else
    if i == 0x7c then 0xd5b88683 else if i == 0x7d then 0xd1799b34 else
    if i == 0x7e then 0xdc3abded else 0xd8fba05a
  }

  function Row8(i: bv32): bv32 {
    if i == 0x80 then 0x690ce0ee else if i == 0x81 then 0x6dcdfd59 else
    if i == 0x82 then 0x608edb80 else if i == 0x83 then 0x644fc637 else
    if i == 0x84 then 0x7a089632 else if i == 0x85 then 0x7ec98b85 else
    if i == 0x86 then 0x738aad5c else if i == 0x87 then 0x774bb0eb else
    if i == 0x88 then 0x4f040d56 else if i == 0x89 then 0x4bc510e1 else
    if i == 0x8a then 0x46863638 else if i == 0x8b then 0x42472b8f else
    if i == 0x8c then 0x5c007b8a else if i == 0x8d then 0x58c1663d else
    if i == 0x8e then 0x558240e4 else 0x51435d53
  }

  function Row9(i: bv32): bv32 {
    if i == 0x90 then 0x251d3b9e else if i == 0x91 then 0x21dc2629 else
    if i == 0x92 then 0x2c9f00f0 else if i == 0x93 then 0x285e1d47 else
    if i == 0x94 then 0x36194d42 else if i == 0x95 then 0x32d850f5 else
    if i == 0x96 then 0x3f9b762c else if i == 0x97 then 0x3b5a6b9b else
    if i == 0x98 then 0x0315d626 else if i == 0x99 then 0x07d4cb91 else
    if i == 0x9a then 0x0a97ed48 else if i == 0x9b then 0x0e56f0ff else
    if i == 0x9c then 0x1011a0fa else if i == 0x9d then 0x14d0bd4d else
    if i == 0x9e then 0x19939b94 else 0x1d528623
  }

  function Rowa(i: bv32): bv32 {
    if i == 0xa0 then 0xf12f560e else if i == 0xa1 then 0xf5ee4bb9 else
    if i == 0xa2 then 0xf8ad6d60 else if i == 0xa3 then 0xfc6c70d7 else
    if i == 0xa4 then 0xe22b20d2 else if i == 0xa5 then 0xe6ea3d65 else
    if i == 0xa6 then 0xeba91bbc else if i == 0xa7 then 0xef68060b else
    if i == 0xa8 then 0xd727bbb6 else if i == 0xa9 then 0xd3e6a601 else
    if i == 0xaa then 0xdea580d8 else if i == 0xab then 0xda649d6f else
    if i == 0xac then 0xc423cd6a else if i == 0xad then 0xc0e2d0dd else
    if i == 0xae then 0xcda1f604 else 0xc960ebb3
  }

  function Rowb(i: bv32): bv32 {
    if i == 0xb0 then 0xbd3e8d7e else if i == 0xb1 then 0xb9ff90c9 else
    if i == 0xb2 then 0xb4bcb610 else if i == 0xb3 then 0xb07daba7 else
    if i == 0xb4 then 0xae3afba2 else if i == 0xb5 then 0xaafbe615 else
    if i == 0xb6 then 0xa7b8c0cc else if i == 0xb7 then 0xa379dd7b else
    if i == 0xb8 then 0x9b3660c6 else if i == 0xb9 then 0x9ff77d71 else
    if i == 0xba then 0x92b45ba8 else if i == 0xbb then 0x9675461f else
    if i == 0xbc then 0x8832161a else if i == 0xbd then 0x8cf30bad else
    if i == 0xbe then 0x81b02d74 else 0x857130c3
  }

  function Rowc(i: bv32): bv32 {
    if i == 0xc0 then 0x5d8a9099 else if i == 0xc1 then 0x594b8d2e else
    if i == 0xc2 then 0x5408abf7 else if i == 0xc3 then 0x50c9b640 else
    if i == 0xc4 then 0x4e8ee645 else if i == 0xc5 then 0x4a4ffbf2 else
    if i == 0xc6 then 0x470cdd2b else if i == 0xc7 then 0x43cdc09c else
    if i == 0xc8 then 0x7b827d21 else if i == 0xc9 then 0x7f436096 else
    if i == 0xca then 0x7200464f else if i == 0xcb then 0x76c15bf8 else
    if i == 0xcc then 0x68860bfd else if i == 0xcd then 0x6c47164a else
    if i == 0xce then 0x61043093 else 0x65c52d24
  }

  function Rowd(i: bv32): bv32 {
    if i == 0xd0 then 0x119b4be9 else if i == 0xd1 then 0x155a565e else
    if i == 0xd2 then 0x18197087 else if i == 0xd3 then 0x1cd86d30 else
    if i == 0xd4 then 0x029f3d35 else if i == 0xd5 then 0x065e2082 else
    if i == 0xd6 then 0x0b1d065b else if i == 0xd7 then 0x0fdc1bec else
    if i == 0xd8 then 0x3793a651 else if i == 0xd9 then 0x3352bbe6 else
    if i == 0xda then 0x3e119d3f else if i == 0xdb then 0x3ad08088 else
    if i == 0xdc then 0x2497d08d else if i == 0xdd then 0x2056cd3a else
    if i == 0xde then 0x2d15ebe3 else 0x29d4f654
  }

  function Rowe(i: bv32): bv32 {
    if i == 0xe0 then 0xc5a92679 else if i == 0xe1 then 0xc1683bce else
    if i == 0xe2 then 0xcc2b1d17 else if i == 0xe3 then 0xc8ea00a0 else
    if i == 0xe4 then 0xd6ad50a5 else if i == 0xe5 then 0xd26c4d12 else
    if i == 0xe6 then 0xdf2f6bcb else if i == 0xe7 then 0xdbee767c else
    if i == 0xe8 then 0xe3a1cbc1 else if i == 0xe9 then 0xe760d676 else
    if i == 0xea then 0xea23f0af else if i == 0xeb then 0xeee2ed18 else
    if i == 0xec then 0xf0a5bd1d else if i == 0xed then 0xf464a0aa else
    if i == 0xee then 0xf9278673 else 0xfde69bc4
  }

  function Rowf(i: bv32): bv32 {
    if i == 0xf0 then 0x89b8fd09 else if i == 0xf1 then 0x8d79e0be else
    if i == 0xf2 then 0x803ac667 else if i == 0xf3 then 0x84fbdbd0 else
    if i == 0xf4 then 0x9abc8bd5 else if i == 0xf5 then 0x9e7d9662 else
    if i == 0xf6 then 0x933eb0bb else if i == 0xf7 then 0x97ffad0c else
    if i == 0xf8 then 0xafb010b1 else if i == 0xf9 then 0xab710d06 else
    if i == 0xfa then 0xa6322bdf else if i == 0xfb then 0xa2f33668 else
    if i == 0xfc then 0xbcb4666d else if i == 0xfd then 0xb8757bda else
    if i == 0xfe then 0xb5365d03 else 0xb1f740b4
  }

  function Crc32Table(i: bv32): bv32 {
    if i < 0x10 then Row0(i)
    else if i < 0x20 then Row1(i)
    else if i < 0x30 then Row2(i)
    else if i < 0x40 then Row3(i)
    else if i < 0x50 then Row4(i)
    else if i < 0x60 then Row5(i)
    else if i < 0x70 then Row6(i)
    else if i < 0x80 then Row7(i)
    else if i < 0x90 then Row8(i)
    else if i < 0xa0 then Row9(i)
    else if i < 0xb0 then Rowa(i)
    else if i < 0xc0 then Rowb(i)
    else if i < 0xd0 then Rowc(i)
    else if i < 0xe0 then Rowd(i)
    else if i < 0xf0 then Rowe(i)
    else Rowf(i)
  }

  function Xor(x: bv32, y: bv32): bv32 { x ^ y }

  function Index(crc: bv32, ch: bv32): bv32 { (crc >> 24) ^ ch }

  /** BZ_UPDATE_CRC on 32-bit values. */
  function UpdateWord(crc: bv32, ch: bv32): bv32 {
    Xor(crc << 8, Crc32Table(Index(crc, ch)))
  }

  /** BZ_UPDATE_CRC */
  function Update(crc: bv32, ch: byte): bv32 {
    UpdateWord(crc, (ch as bv8) as bv32)
  }

  /** The register after a message: BZ_UPDATE_CRC for every byte. */
  function UpdateAll(crc: bv32, msg: seq<byte>): bv32 {
    if msg == [] then crc else Update(UpdateAll(crc, msg[..|msg| - 1]), msg[|msg| - 1])
  }

  /** The check of a message: BZ_INITIALISE_CRC, BZ_UPDATE_CRC for every byte, BZ_FINALISE_CRC. */
  function Check(msg: seq<byte>): bv32 {
    Final(UpdateAll(INITIAL, msg))
  }

  function Final(crc: bv32): bv32 { !crc }

  /** Rotates the combined check and adds a block's check to it. */
  function Mix(combined: bv32, crc: bv32): bv32 {
    ((combined << 1) | (combined >> 31)) ^ crc
  }

  lemma UpdateOneMore(crc: bv32, msg: seq<byte>, ch: byte)
    ensures UpdateAll(crc, msg + [ch]) == Update(UpdateAll(crc, msg), ch)
  {
    hide Update;
    assert (msg + [ch])[..|msg|] == msg;
  }

  // ----- one bit at a time

  function Twice(x: bv32): bv32 { x << 1 }

  predicate Top(x: bv32) { x & 0x80000000 != 0 }

  lemma XorLaws(x: bv32, y: bv32, z: bv32)
    ensures Xor(x, y) == Xor(y, x)
    ensures Xor(Xor(x, y), z) == Xor(x, Xor(y, z))
  {
  }

  lemma XorCancels(x: bv32, y: bv32)
    ensures Xor(Xor(x, y), y) == x
  {
  }

  lemma TwiceXor(x: bv32, y: bv32)
    ensures Twice(Xor(x, y)) == Xor(Twice(x), Twice(y))
  {
  }

  lemma TopXor(x: bv32, y: bv32)
    ensures Top(Xor(x, y)) <==> Top(x) != Top(y)
  {
  }

  /** The register after one more message bit. */
  function Feed(crc: bv32, bit: bool): bv32 {
    if Top(crc) != bit then Xor(Twice(crc), POLY) else Twice(crc)
  }

  function Shift8(crc: bv32): bv32 {
    Feed(Feed(Feed(Feed(Feed(Feed(Feed(Feed(crc, false), false), false), false), false), false), false), false)
  }

  function FeedWord(crc: bv32, ch: bv32): bv32 {
    Feed(Feed(Feed(Feed(Feed(Feed(Feed(Feed(crc,
      ch & 0x80 != 0), ch & 0x40 != 0), ch & 0x20 != 0), ch & 0x10 != 0),
      ch & 0x08 != 0), ch & 0x04 != 0), ch & 0x02 != 0), ch & 0x01 != 0)
  }

  lemma Row0Divides(i: bv32)
    requires 0x00 <= i < 0x010
    ensures Row0(i) == Shift8(i << 24)
  {
  }

  lemma Row1Divides(i: bv32)
    requires 0x10 <= i < 0x020
    ensures Row1(i) == Shift8(i << 24)
  {
  }

  lemma Row2Divides(i: bv32)
    requires 0x20 <= i < 0x030
    ensures Row2(i) == Shift8(i << 24)
  {
  }

  lemma Row3Divides(i: bv32)
    requires 0x30 <= i < 0x040
    ensures Row3(i) == Shift8(i << 24)
  {
  }

  lemma Row4Divides(i: bv32)
    requires 0x40 <= i < 0x050
    ensures Row4(i) == Shift8(i << 24)
  {
  }

  lemma Row5Divides(i: bv32)
    requires 0x50 <= i < 0x060
    ensures Row5(i) == Shift8(i << 24)
  {
  }

  lemma Row6Divides(i: bv32)
    requires 0x60 <= i < 0x070
    ensures Row6(i) == Shift8(i << 24)
  {
  }

  lemma Row7Divides(i: bv32)
    requires 0x70 <= i < 0x080
    ensures Row7(i) == Shift8(i << 24)
  {
  }

  lemma Row8Divides(i: bv32)
    requires 0x80 <= i < 0x090
    ensures Row8(i) == Shift8(i << 24)
  {
  }

  lemma Row9Divides(i: bv32)
    requires 0x90 <= i < 0x0a0
    ensures Row9(i) == Shift8(i << 24)
  {
  }

  lemma RowaDivides(i: bv32)
    requires 0xa0 <= i < 0x0b0
    ensures Rowa(i) == Shift8(i << 24)
  {
  }

  lemma RowbDivides(i: bv32)
    requires 0xb0 <= i < 0x0c0
    ensures Rowb(i) == Shift8(i << 24)
  {
  }

  lemma RowcDivides(i: bv32)
    requires 0xc0 <= i < 0x0d0
    ensures Rowc(i) == Shift8(i << 24)
  {
  }

  lemma RowdDivides(i: bv32)
    requires 0xd0 <= i < 0x0e0
    ensures Rowd(i) == Shift8(i << 24)
  {
  }

  lemma RoweDivides(i: bv32)
    requires 0xe0 <= i < 0x0f0
    ensures Rowe(i) == Shift8(i << 24)
  {
  }

  lemma RowfDivides(i: bv32)
    requires 0xf0 <= i < 0x100
    ensures Rowf(i) == Shift8(i << 24)
  {
  }

  lemma TableDivides(i: bv32)
    requires i < 0x100
    ensures Crc32Table(i) == Shift8(i << 24)
  {
    if i < 0x10 { Row0Divides(i);
    } else if i < 0x20 { Row1Divides(i);
    } else if i < 0x30 { Row2Divides(i);
    } else if i < 0x40 { Row3Divides(i);
    } else if i < 0x50 { Row4Divides(i);
    } else if i < 0x60 { Row5Divides(i);
    } else if i < 0x70 { Row6Divides(i);
    } else if i < 0x80 { Row7Divides(i);
    } else if i < 0x90 { Row8Divides(i);
    } else if i < 0xa0 { Row9Divides(i);
    } else if i < 0xb0 { RowaDivides(i);
    } else if i < 0xc0 { RowbDivides(i);
    } else if i < 0xd0 { RowcDivides(i);
    } else if i < 0xe0 { RowdDivides(i);
    } else if i < 0xf0 { RoweDivides(i);
    } else { RowfDivides(i); }
  }

  lemma FeedSplits(x: bv32, y: bv32)
    ensures Feed(Xor(x, y), false) == Xor(Feed(x, false), Feed(y, false))
  {
    hide Xor, Twice, Top;
    TwiceXor(x, y);
    TopXor(x, y);
    var a, b := Twice(x), Twice(y);
    XorLaws(a, b, POLY);
    XorLaws(b, POLY, POLY);
    XorLaws(a, POLY, b);
    XorLaws(b, POLY, a);
    XorLaws(a, POLY, Xor(b, POLY));
    XorLaws(POLY, Xor(b, POLY), a);
    XorCancels(b, POLY);
  }

  /** Dividing distributes over exclusive or, so the top byte can be divided alone. */
  lemma Shift8Splits(x: bv32, y: bv32)
    ensures Shift8(Xor(x, y)) == Xor(Shift8(x), Shift8(y))
  {
    hide Feed, Xor;
    Shift4Splits(x, y);
    Shift4Splits(Shift4(x), Shift4(y));
  }

  function Shift4(crc: bv32): bv32 {
    Feed(Feed(Feed(Feed(crc, false), false), false), false)
  }

  lemma Shift4Splits(x: bv32, y: bv32)
    ensures Shift4(Xor(x, y)) == Xor(Shift4(x), Shift4(y))
  {
    hide Feed, Xor;
    var x1, y1 := Feed(x, false), Feed(y, false);
    var x2, y2 := Feed(x1, false), Feed(y1, false);
    FeedSplits(x, y);
    FeedSplits(x1, y1);
    FeedSplits(x2, y2);
    FeedSplits(Feed(x2, false), Feed(y2, false));
  }

  lemma Shift8Low(y: bv32)
    requires y < 0x01000000
    ensures Shift8(y) == y << 8
  {
  }

  /** Message bits waiting at the top of m can be mixed in early. */
  lemma FeedEarly(c: bv32, m: bv32)
    ensures Feed(Xor(c, m), false) == Xor(Feed(c, Top(m)), Twice(m))
  {
    hide Xor, Twice, Top;
    TwiceXor(c, m);
    TopXor(c, m);
    XorLaws(Twice(c), Twice(m), POLY);
    XorLaws(Twice(m), POLY, POLY);
    XorLaws(Twice(c), POLY, Twice(m));
  }

  lemma TopBits(ch: bv32)
    requires ch < 0x100
    ensures var m := ch << 24;
            && (Top(m) <==> ch & 0x80 != 0) && (Top(Twice(m)) <==> ch & 0x40 != 0)
            && (Top(Twice(Twice(m))) <==> ch & 0x20 != 0) && (Top(Twice(Twice(Twice(m)))) <==> ch & 0x10 != 0)
  {
  }

  function Twice4(m: bv32): bv32 {
    Twice(Twice(Twice(Twice(m))))
  }

  lemma LowBits(ch: bv32)
    requires ch < 0x100
    ensures var m := Twice4(ch << 24);
            && (Top(m) <==> ch & 0x08 != 0) && (Top(Twice(m)) <==> ch & 0x04 != 0)
            && (Top(Twice(Twice(m))) <==> ch & 0x02 != 0) && (Top(Twice(Twice(Twice(m)))) <==> ch & 0x01 != 0)
            && Twice4(m) == 0
  {
  }

  function Feed4(c: bv32, b3: bool, b2: bool, b1: bool, b0: bool): bv32 {
    Feed(Feed(Feed(Feed(c, b3), b2), b1), b0)
  }

  lemma Feed4Early(c: bv32, m: bv32)
    ensures Shift4(Xor(c, m))
            == Xor(Feed4(c, Top(m), Top(Twice(m)), Top(Twice(Twice(m))), Top(Twice(Twice(Twice(m))))), Twice4(m))
  {
    hide Feed, Xor, Twice, Top;
    var m1, m2, m3 := Twice(m), Twice(Twice(m)), Twice(Twice(Twice(m)));
    var c1 := Feed(c, Top(m));
    var c2 := Feed(c1, Top(m1));
    var c3 := Feed(c2, Top(m2));
    FeedEarly(c, m);
    FeedEarly(c1, m1);
    FeedEarly(c2, m2);
    FeedEarly(c3, m3);
  }

  lemma XorZero(x: bv32)
    ensures Xor(x, 0) == x
  {
  }

  lemma FeedIsShift(crc: bv32, ch: bv32)
    requires ch < 0x100
    ensures FeedWord(crc, ch) == Shift8(Xor(crc, ch << 24))
  {
    var m := ch << 24;
    var b7, b6, b5, b4 := ch & 0x80 != 0, ch & 0x40 != 0, ch & 0x20 != 0, ch & 0x10 != 0;
    var b3, b2, b1, b0 := ch & 0x08 != 0, ch & 0x04 != 0, ch & 0x02 != 0, ch & 0x01 != 0;
    TopBits(ch);
    LowBits(ch);
    hide Feed, Xor, Twice, Twice4, Top;
    Feed4Early(crc, m);
    var c4 := Feed4(crc, b7, b6, b5, b4);
    Feed4Early(c4, Twice4(m));
    XorZero(Feed4(c4, b3, b2, b1, b0));
  }

  function Low(crc: bv32): bv32 { crc & 0x00ffffff }

  function Up8(x: bv32): bv32 { x << 8 }

  function Up24(x: bv32): bv32 { x << 24 }

  lemma TopAndRest(crc: bv32, ch: bv32)
    requires ch < 0x100
    ensures Index(crc, ch) < 0x100 && Low(crc) < 0x01000000
    ensures Xor(crc, Up24(ch)) == Xor(Up24(Index(crc, ch)), Low(crc))
    ensures Up8(Low(crc)) == Up8(crc)
  {
  }

  lemma Plain(crc: bv32, ch: bv32)
    ensures UpdateWord(crc, ch) == Xor(Up8(crc), Crc32Table(Index(crc, ch)))
    ensures ch < 0x100 ==> FeedWord(crc, ch) == Shift8(Xor(crc, Up24(ch)))
    ensures ch < 0x100 ==> Crc32Table(ch) == Shift8(Up24(ch))
    ensures crc < 0x01000000 ==> Shift8(crc) == Up8(crc)
  {
    hide Shift8, Crc32Table, FeedWord;
    if ch < 0x100 {
      FeedIsShift(crc, ch);
      TableDivides(ch);
    }
    if crc < 0x01000000 { Shift8Low(crc); }
  }

  /** One table step is eight bit steps. */
  lemma UpdateIsFeed(crc: bv32, ch: bv32)
    requires ch < 0x100
    ensures UpdateWord(crc, ch) == FeedWord(crc, ch)
  {
    hide *;
    var top, low := Index(crc, ch), Low(crc);
    Plain(crc, ch);
    TopAndRest(crc, ch);
    Shift8Splits(Up24(top), low);
    Plain(low, top);
    XorLaws(Up8(crc), Crc32Table(top), 0);
  }

  // ----- the whole message

  /** The bits of a byte, most significant first. */
  function ByteBits(ch: byte): (r: seq<bool>)
    ensures |r| == 8
  {
    var w := ch as bv8;
    [w & 0x80 != 0, w & 0x40 != 0, w & 0x20 != 0, w & 0x10 != 0]
    + [w & 0x08 != 0, w & 0x04 != 0, w & 0x02 != 0, w & 0x01 != 0]
  }

  function MessageBits(msg: seq<byte>): seq<bool> {
    if msg == [] then [] else MessageBits(msg[..|msg| - 1]) + ByteBits(msg[|msg| - 1])
  }

  function FeedAll(crc: bv32, bits: seq<bool>): bv32
    decreases |bits|
  {
    if bits == [] then crc else FeedAll(Feed(crc, bits[0]), bits[1..])
  }

  lemma {:induction false} FeedAllAppend(crc: bv32, a: seq<bool>, b: seq<bool>)
    ensures FeedAll(crc, a + b) == FeedAll(FeedAll(crc, a), b)
    decreases |a|
  {
    if a == [] {
      assert a + b == b;
    } else {
      assert (a + b)[1..] == a[1..] + b;
      FeedAllAppend(Feed(crc, a[0]), a[1..], b);
    }
  }

  lemma ByteIsFeed(crc: bv32, ch: byte)
    ensures Update(crc, ch) == FeedAll(crc, ByteBits(ch))
  {
    hide Feed, UpdateWord;
    var w := ch as bv8;
    SameBits(w);
    UpdateIsFeed(crc, w as bv32);
    FeedEight(crc, w & 0x80 != 0, w & 0x40 != 0, w & 0x20 != 0, w & 0x10 != 0,
              w & 0x08 != 0, w & 0x04 != 0, w & 0x02 != 0, w & 0x01 != 0);
  }

  lemma SameBits(w: bv8)
    ensures w as bv32 < 0x100
    ensures (w & 0x80 != 0 <==> (w as bv32) & 0x80 != 0) && (w & 0x40 != 0 <==> (w as bv32) & 0x40 != 0)
    ensures (w & 0x20 != 0 <==> (w as bv32) & 0x20 != 0) && (w & 0x10 != 0 <==> (w as bv32) & 0x10 != 0)
    ensures (w & 0x08 != 0 <==> (w as bv32) & 0x08 != 0) && (w & 0x04 != 0 <==> (w as bv32) & 0x04 != 0)
    ensures (w & 0x02 != 0 <==> (w as bv32) & 0x02 != 0) && (w & 0x01 != 0 <==> (w as bv32) & 0x01 != 0)
  {
  }

  lemma FeedEight(c: bv32, b7: bool, b6: bool, b5: bool, b4: bool, b3: bool, b2: bool, b1: bool, b0: bool)
    ensures FeedAll(c, [b7, b6, b5, b4] + [b3, b2, b1, b0])
            == Feed(Feed(Feed(Feed(Feed(Feed(Feed(Feed(c, b7), b6), b5), b4), b3), b2), b1), b0)
  {
    hide Feed, FeedAll;
    FeedAllAppend(c, [b7, b6, b5, b4], [b3, b2, b1, b0]);
    FeedFour(c, b7, b6, b5, b4);
    FeedFour(FeedAll(c, [b7, b6, b5, b4]), b3, b2, b1, b0);
  }

  lemma FeedFour(c: bv32, b3: bool, b2: bool, b1: bool, b0: bool)
    ensures FeedAll(c, [b3, b2, b1, b0]) == Feed(Feed(Feed(Feed(c, b3), b2), b1), b0)
  {
    hide Feed;
    assert [b3, b2, b1, b0] == [b3] + ([b2] + ([b1] + [b0]));
    FeedAllAppend(c, [b3], [b2] + ([b1] + [b0]));
    FeedAllAppend(Feed(c, b3), [b2], [b1] + [b0]);
    FeedAllAppend(Feed(Feed(c, b3), b2), [b1], [b0]);
  }

  lemma {:induction false} UpdateAllIsFeed(crc: bv32, msg: seq<byte>)
    ensures UpdateAll(crc, msg) == FeedAll(crc, MessageBits(msg))
  {
    if msg != [] {
      var front := msg[..|msg| - 1];
      UpdateAllIsFeed(crc, front);
      FeedAllAppend(crc, MessageBits(front), ByteBits(msg[|msg| - 1]));
      ByteIsFeed(UpdateAll(crc, front), msg[|msg| - 1]);
    }
  }

  // ----- polynomials over GF(2), highest coefficient first

  /** The coefficients of a register. */
  function Coefficients(c: bv32, k: nat): (r: seq<bool>)
    ensures |r| == k
    decreases k
  {
    if k == 0 then [] else [Top(c)] + Coefficients(Twice(c), k - 1)
  }

  /** p with q added to its highest terms. */
  function AddTop(p: seq<bool>, q: seq<bool>): (r: seq<bool>)
    requires |q| <= |p|
    ensures |r| == |p|
    ensures forall i :: 0 <= i < |p| ==> r[i] == if i < |q| then p[i] != q[i] else p[i]
  {
    seq(|p|, i requires 0 <= i < |p| => if i < |q| then p[i] != q[i] else p[i])
  }

  /** x^32 + x^26 + x^23 + x^22 + x^16 + x^12 + x^11 + x^10 + x^8 + x^7 + x^5 + x^4 + x^2 + x + 1 */
  function Generator(): (g: seq<bool>)
    ensures |g| == 33
  {
    [true] + Coefficients(POLY, 32)
  }

  /** Long division: what is left of p below degree 32. */
  function Remainder(p: seq<bool>): (r: seq<bool>)
    ensures |r| <= 32 && (|p| >= 32 ==> |r| == 32)
    decreases |p|
  {
    if |p| <= 32 then p
    else Remainder((if p[0] then AddTop(p, Generator()) else p)[1..])
  }

  function Zeros(k: nat): (r: seq<bool>)
    ensures |r| == k && forall i :: 0 <= i < k ==> !r[i]
  {
    seq(k, _ => false)
  }

  function Doubled(c: bv32, k: nat): bv32
    decreases k
  {
    if k == 0 then c else Doubled(Twice(c), k - 1)
  }

  lemma {:induction false} MoreCoefficients(c: bv32, k: nat)
    ensures Coefficients(c, k + 1) == Coefficients(c, k) + [Top(Doubled(c, k))]
    decreases k
  {
    hide Top, Twice;
    if k > 0 { MoreCoefficients(Twice(c), k - 1); }
  }

  lemma UpOut(c: bv32)
    ensures !Top(Up8(Up8(Up8(Up8(c)))))
  {
  }

  lemma ShiftedOut(c: bv32)
    ensures !Top(Doubled(c, 32))
  {
    hide *;
    DoubledSum(c, 8, 24);
    DoubledSum(Up8(c), 8, 16);
    DoubledSum(Up8(Up8(c)), 8, 8);
    Doubled8(c);
    Doubled8(Up8(c));
    Doubled8(Up8(Up8(c)));
    Doubled8(Up8(Up8(Up8(c))));
    UpOut(c);
  }

  lemma Doubled4(c: bv32)
    ensures Doubled(c, 4) == Twice4(c)
  {
    hide Twice;
    assert Doubled(c, 4) == Doubled(Twice(c), 3) == Doubled(Twice(Twice(c)), 2);
  }

  lemma Doubled8(c: bv32)
    ensures Doubled(c, 8) == Up8(c)
  {
    Doubled4(c);
    Doubled4(Twice4(c));
    DoubledSum(c, 4, 4);
    hide Doubled;
  }

  lemma {:induction false} DoubledSum(c: bv32, a: nat, b: nat)
    ensures Doubled(c, a + b) == Doubled(Doubled(c, a), b)
    decreases a
  {
    hide Twice;
    if a > 0 { DoubledSum(Twice(c), a - 1, b); }
  }

  /** Doubling drops the highest coefficient. */
  lemma TwiceDrops(c: bv32)
    ensures Coefficients(Twice(c), 32) == Coefficients(c, 32)[1..] + [false]
  {
    hide Top, Twice;
    MoreCoefficients(c, 32);
    ShiftedOut(c);
    assert Coefficients(c, 33)[1..] == Coefficients(Twice(c), 32);
  }

  lemma {:induction false} XorAdds(x: bv32, y: bv32, k: nat)
    ensures Coefficients(Xor(x, y), k) == AddTop(Coefficients(x, k), Coefficients(y, k))
    decreases k
  {
    hide Top, Twice, Xor;
    if k > 0 {
      TopXor(x, y);
      TwiceXor(x, y);
      XorAdds(Twice(x), Twice(y), k - 1);
    }
  }

  lemma AddTopTail(m: seq<bool>, d: seq<bool>)
    requires |m| > 0 && |d| == 32
    ensures AddTop(m + Zeros(32), d)[1..] == AddTop(m[1..] + Zeros(32), d[1..] + [false])
  {
    var a, b := AddTop(m + Zeros(32), d)[1..], AddTop(m[1..] + Zeros(32), d[1..] + [false]);
    forall i | 0 <= i < |a| ensures a[i] == b[i] {
      assert (m + Zeros(32))[1..] == m[1..] + Zeros(32);
    }
  }

  lemma AddTopBoth(p: seq<bool>, d: seq<bool>, g: seq<bool>, e: seq<bool>)
    requires |p| >= 33 && |d| == |g| == 32
    requires |e| >= 32 && p[1..] == AddTop(e, d)
    ensures AddTop(p, [true] + g)[1..] == AddTop(e, AddTop(d, g))
  {
    var a, b := AddTop(p, [true] + g)[1..], AddTop(e, AddTop(d, g));
    forall i | 0 <= i < |a| ensures a[i] == b[i] {
      assert p[i + 1] == p[1..][i];
    }
  }

  lemma FirstSum(c: bv32, m: seq<bool>)
    requires m != []
    ensures |Coefficients(c, 32)| == 32
    ensures AddTop(m + Zeros(32), Coefficients(c, 32))[0] == (m[0] != Top(c))
  {
    hide Top, Twice;
    assert Coefficients(c, 32)[0] == Top(c);
  }

  lemma FeedCases(c: bv32, bit: bool)
    ensures Feed(c, bit) == if Top(c) != bit then Xor(Twice(c), POLY) else Twice(c)
  {
  }

  lemma DivideCases(p: seq<bool>)
    requires |p| >= 33
    ensures Remainder(p) == Remainder((if p[0] then AddTop(p, [true] + Coefficients(POLY, 32)) else p)[1..])
  {
    hide Coefficients, AddTop;
  }

  /** One bit of the register is one step of the division. */
  lemma FeedDivides(c: bv32, m: seq<bool>)
    requires m != []
    ensures Remainder(AddTop(m + Zeros(32), Coefficients(c, 32)))
            == Remainder(AddTop(m[1..] + Zeros(32), Coefficients(Feed(c, m[0]), 32)))
  {
    var d := Coefficients(c, 32);
    var p := AddTop(m + Zeros(32), d);
    var e := m[1..] + Zeros(32);
    hide *;
    FirstSum(c, m);
    FeedCases(c, m[0]);
    DivideCases(p);
    TwiceDrops(c);
    AddTopTail(m, d);
    if p[0] {
      XorAdds(Twice(c), POLY, 32);
      AddTopBoth(p, Coefficients(Twice(c), 32), Coefficients(POLY, 32), e);
    }
  }

  /** Feeding a message, the register holds the remainder of the message times x^32,
      with the initial register added to its first 32 coefficients. */
  lemma {:induction false} FeedAllDivides(c: bv32, m: seq<bool>)
    ensures Coefficients(FeedAll(c, m), 32) == Remainder(AddTop(m + Zeros(32), Coefficients(c, 32)))
    decreases |m|
  {
    hide Feed, Coefficients;
    if m == [] {
      assert AddTop(m + Zeros(32), Coefficients(c, 32)) == Coefficients(c, 32);
    } else {
      FeedAllDivides(Feed(c, m[0]), m[1..]);
      FeedDivides(c, m);
    }
  }

  /** BZ_INITIALISE_CRC */
  const INITIAL: bv32 := 0xffffffff

  /** The table-driven check of every message is the remainder, with respect to the
      generator, of the message whose first 32 bits are complemented. */
  lemma TableCrcIsRemainder(msg: seq<byte>)
    ensures Coefficients(UpdateAll(INITIAL, msg), 32)
            == Remainder(AddTop(MessageBits(msg) + Zeros(32), Coefficients(INITIAL, 32)))
  {
    UpdateAllIsFeed(INITIAL, msg);
    FeedAllDivides(INITIAL, MessageBits(msg));
  }

  // ----- single words, written out

  lemma FourBits(c: bv32, k: nat)
    ensures Coefficients(c, k + 4)
            == [Top(c), Top(Twice(c)), Top(Twice(Twice(c))), Top(Twice(Twice(Twice(c))))] + Coefficients(Twice4(c), k)
  {
    hide *;
    var c1 := Twice(c);
    var c2 := Twice(c1);
    var c3 := Twice(c2);
    OneBit(c, k + 3);
    OneBit(c1, k + 2);
    OneBit(c2, k + 1);
    OneBit(c3, k);
    Twice4Is(c);
  }

  lemma OneBit(c: bv32, k: nat)
    ensures Coefficients(c, k + 1) == [Top(c)] + Coefficients(Twice(c), k)
  {
    hide Top, Twice;
  }

  lemma Twice4Is(c: bv32)
    ensures Twice4(c) == Twice(Twice(Twice(Twice(c))))
  {
    hide Twice;
  }

  predicate TopFour(c: bv32, b: bool) {
    Top(c) == b && Top(Twice(c)) == b && Top(Twice(Twice(c))) == b && Top(Twice(Twice(Twice(c)))) == b
  }

  lemma Ones4()
    ensures TopFour(0xffff_ffff, true) && Twice4(0xffff_ffff) == 0xffff_fff0
    ensures TopFour(0xffff_fff0, true) && Twice4(0xffff_fff0) == 0xffff_ff00
    ensures TopFour(0xffff_ff00, true) && Twice4(0xffff_ff00) == 0xffff_f000
    ensures TopFour(0xffff_f000, true) && Twice4(0xffff_f000) == 0xffff_0000
    ensures TopFour(0xffff_0000, true) && Twice4(0xffff_0000) == 0xfff0_0000
    ensures TopFour(0xfff0_0000, true) && Twice4(0xfff0_0000) == 0xff00_0000
    ensures TopFour(0xff00_0000, true) && Twice4(0xff00_0000) == 0xf000_0000
    ensures TopFour(0xf000_0000, true)
  {
  }

  function Ones(k: nat): (r: seq<bool>)
    ensures |r| == k && forall i :: 0 <= i < k ==> r[i]
  {
    seq(k, _ => true)
  }

  lemma OnesStep(c: bv32, k: nat)
    requires TopFour(c, true) && Coefficients(Twice4(c), k) == Ones(k)
    ensures Coefficients(c, k + 4) == Ones(k + 4)
  {
    FourBits(c, k);
    hide Coefficients, Top, Twice, Twice4;
  }

  lemma NoBits(c: bv32)
    ensures Coefficients(c, 0) == Ones(0)
  {
  }

  /** The register starts with every bit set. */
  lemma AllOnes()
    ensures Coefficients(0xffff_ffff, 32) == Ones(32)
  {
    Ones4();
    hide *;
    NoBits(Twice4(0xf000_0000));
    OnesStep(0xf000_0000, 0);
    OnesStep(0xff00_0000, 4);
    OnesStep(0xfff0_0000, 8);
    OnesStep(0xffff_0000, 12);
    OnesStep(0xffff_f000, 16);
    OnesStep(0xffff_ff00, 20);
    OnesStep(0xffff_fff0, 24);
    OnesStep(0xffff_ffff, 28);
  }

  function Complement(p: seq<bool>): (r: seq<bool>)
    ensures |r| == |p| && forall i :: 0 <= i < |p| ==> r[i] == !p[i]
  {
    seq(|p|, i requires 0 <= i < |p| => !p[i])
  }

  lemma NotIsXor(c: bv32)
    ensures Final(c) == Xor(c, 0xffff_ffff)
  {
  }

  /** The check of a message, bit by bit and without registers: the first 32 bits of the
      message followed by 32 zeroes are complemented, the remainder is taken, and it is
      complemented. */
  function CheckBits(msg: seq<byte>): (r: seq<bool>)
    ensures |r| == 32
  {
    Complement(Remainder(AddTop(MessageBits(msg) + Zeros(32), Ones(32))))
  }

  lemma CheckIsRemainder(msg: seq<byte>)
    ensures Coefficients(Check(msg), 32) == CheckBits(msg)
  {
    hide Coefficients, Remainder, UpdateAll, Final, Xor;
    TableCrcIsRemainder(msg);
    AllOnes();
    var c := UpdateAll(INITIAL, msg);
    NotIsXor(c);
    XorAdds(c, 0xffff_ffff, 32);
    assert AddTop(Coefficients(c, 32), Ones(32)) == Complement(Coefficients(c, 32));
  }

  // ----- the combined check

  /** The checks of the blocks, combined in order. */
  function MixAll(checks: seq<bv32>): bv32 {
    if checks == [] then 0 else Mix(MixAll(checks[..|checks| - 1]), checks[|checks| - 1])
  }

  /** Bit j of a word, from the lowest. */
  predicate BitOf(c: bv32, j: nat)
    requires j < 32
  {
    Coefficients(c, 32)[31 - j]
  }

  predicate Parity(bits: seq<bool>) {
    if bits == [] then false else Parity(bits[..|bits| - 1]) != bits[|bits| - 1]
  }

  function LowBit(b: bool): bv32 { if b then 1 else 0 }

  function Highest(c: bv32): bv32 { c >> 31 }

  function OrOf(x: bv32, y: bv32): bv32 { x | y }

  lemma MixIsXor(combined: bv32, crc: bv32)
    ensures Mix(combined, crc) == Xor(Xor(Twice(combined), LowBit(Top(combined))), crc)
  {
    hide *;
    MixParts(combined, crc);
    TopDown(combined);
    LowBitIn(combined, Top(combined));
  }

  lemma MixParts(combined: bv32, crc: bv32)
    ensures Mix(combined, crc) == Xor(OrOf(Twice(combined), Highest(combined)), crc)
  {
  }

  lemma TopDown(c: bv32)
    ensures Highest(c) == LowBit(Top(c))
  {
  }

  lemma LowBitIn(c: bv32, b: bool)
    ensures OrOf(Twice(c), LowBit(b)) == Xor(Twice(c), LowBit(b))
  {
    LowOne(c);
    NoneIn(Twice(c));
    LowBitIs(b);
    hide *;
  }

  lemma LowBitIs(b: bool)
    ensures LowBit(b) == if b then 1 else 0
  {
  }

  lemma LowOne(c: bv32)
    ensures OrOf(Twice(c), 1) == Xor(Twice(c), 1)
  {
  }

  lemma NoneIn(c: bv32)
    ensures OrOf(c, 0) == c && Xor(c, 0) == c
  {
  }

  lemma ZeroWord(k: nat)
    ensures Coefficients(0, k) == Zeros(k)
    decreases k
  {
    if k > 0 {
      ZeroWord(k - 1);
      assert !Top(0) && Twice(0) == 0;
    }
  }

  lemma LowFour()
    ensures TopFour(0x1, false) && Twice4(0x1) == 0x10 && TopFour(0x10, false) && Twice4(0x10) == 0x100
    ensures TopFour(0x100, false) && Twice4(0x100) == 0x1000 && TopFour(0x1000, false) && Twice4(0x1000) == 0x1_0000
    ensures TopFour(0x1_0000, false) && Twice4(0x1_0000) == 0x10_0000
    ensures TopFour(0x10_0000, false) && Twice4(0x10_0000) == 0x100_0000
    ensures TopFour(0x100_0000, false) && Twice4(0x100_0000) == 0x1000_0000
    ensures !Top(0x1000_0000) && !Top(Twice(0x1000_0000)) && !Top(Twice(Twice(0x1000_0000)))
    ensures Top(Twice(Twice(Twice(0x1000_0000))))
  {
  }

  lemma LowStep(c: bv32, k: nat)
    requires TopFour(c, false) && Coefficients(Twice4(c), k + 1) == Zeros(k) + [true]
    ensures Coefficients(c, k + 5) == Zeros(k + 4) + [true]
  {
    FourBits(c, k + 1);
    hide Coefficients, Top, Twice, Twice4;
  }

  lemma LowWord()
    ensures Coefficients(1, 32) == Zeros(31) + [true]
  {
    LowFour();
    FourBits(0x1000_0000, 0);
    hide TopFour, Top, Twice, Twice4;
    assert Coefficients(0x1000_0000, 4) == Zeros(3) + [true];
    hide Coefficients;
    LowStep(0x100_0000, 3);
    LowStep(0x10_0000, 7);
    LowStep(0x1_0000, 11);
    LowStep(0x1000, 15);
    LowStep(0x100, 19);
    LowStep(0x10, 23);
    LowStep(0x1, 27);
  }

  /** Bit j of the new combined check is bit j - 1 of the old one, the highest coming back in
      at the bottom, or that of the block's check but not both. */
  lemma MixBit(combined: bv32, crc: bv32, j: nat)
    requires j < 32
    ensures BitOf(Mix(combined, crc), j) <==> BitOf(combined, (j + 31) % 32) != BitOf(crc, j)
  {
    hide *;
    MixWord(combined, crc);
    BitIs(Mix(combined, crc), j);
    BitIs(combined, (j + 31) % 32);
    BitIs(crc, j);
    RoundBit(Coefficients(combined, 32), Coefficients(crc, 32), j);
  }

  lemma BitIs(c: bv32, j: nat)
    requires j < 32
    ensures |Coefficients(c, 32)| == 32 && BitOf(c, j) == Coefficients(c, 32)[31 - j]
  {
    hide Coefficients;
  }

  lemma MixWord(combined: bv32, crc: bv32)
    ensures var c := Coefficients(combined, 32);
            |c| == 32 && Coefficients(Mix(combined, crc), 32)
                         == AddTop(AddTop(c[1..] + [false], Zeros(31) + [c[0]]), Coefficients(crc, 32))
  {
    hide Coefficients, Top, Twice, Xor, Mix, AddTop;
    var low := LowBit(Top(combined));
    MixIsXor(combined, crc);
    XorAdds(Xor(Twice(combined), low), crc, 32);
    XorAdds(Twice(combined), low, 32);
    TwiceDrops(combined);
    LowWord();
    ZeroWord(32);
    TopIsFirst(combined);
    assert Zeros(32) == Zeros(31) + [false];
  }

  lemma RoundBit(c: seq<bool>, x: seq<bool>, j: nat)
    requires |c| == |x| == 32 && j < 32
    ensures AddTop(AddTop(c[1..] + [false], Zeros(31) + [c[0]]), x)[31 - j] <==> c[31 - (j + 31) % 32] != x[31 - j]
  {
    if j == 0 { assert (j + 31) % 32 == 31; } else { assert (j + 31) % 32 == j - 1; }
  }

  lemma TopIsFirst(c: bv32)
    ensures Coefficients(c, 32)[0] == Top(c)
  {
    hide Top, Twice;
  }

  /** The bits of the checks that end up at bit j of the combined check. */
  function Contributions(checks: seq<bv32>, j: int): (r: seq<bool>)
    ensures |r| == |checks|
    ensures forall i :: 0 <= i < |checks| ==> r[i] == BitOf(checks[i], (j - (|checks| - 1 - i)) % 32)
  {
    seq(|checks|, i requires 0 <= i < |checks| => BitOf(checks[i], (j - (|checks| - 1 - i)) % 32))
  }

  /** Bit j of the combined check of n blocks is the exclusive or of the bits j - (n - 1 - i)
      of the blocks' checks, counted round the word. */
  lemma {:induction false} MixedBit(checks: seq<bv32>, j: nat)
    requires j < 32
    ensures BitOf(MixAll(checks), j) <==> Parity(Contributions(checks, j))
    decreases |checks|
  {
    hide Coefficients, Mix;
    if checks == [] {
      ZeroWord(32);
    } else {
      var front, last := checks[..|checks| - 1], checks[|checks| - 1];
      var k := (j + 31) % 32;
      MixedBit(front, k);
      MixBit(MixAll(front), last, j);
      FrontSame(checks, j);
    }
  }

  lemma FrontSame(checks: seq<bv32>, j: nat)
    requires j < 32 && checks != []
    ensures Contributions(checks, j)[..|checks| - 1] == Contributions(checks[..|checks| - 1], (j + 31) % 32)
    ensures Contributions(checks, j)[|checks| - 1] == BitOf(checks[|checks| - 1], j)
  {
    hide BitOf;
    var n := |checks| - 1;
    var k := (j + 31) % 32;
    forall i | 0 <= i < n ensures Contributions(checks, j)[..n][i] == Contributions(checks[..n], k)[i] {
      RoundWord(n, i, j);
    }
  }

  lemma RoundWord(n: nat, i: nat, j: nat)
    requires j < 32 && i < n
    ensures ((j + 31) % 32 - (n - 1 - i)) % 32 == (j - (n - i)) % 32
  {
  }
}

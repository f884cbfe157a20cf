/** The Dallas 8-bit CRC: table form, bitwise form, and what it detects. */
module Crc8 {

  // ---------------------------------------------------------------- definition

  /** One turn of the inner loop: the low bits of crc and inbyte decide whether the polynomial is mixed in. */
  function Shift(crc: bv8, inbyte: bv8): bv8 {
    if (crc ^ inbyte) & 1 != 0 then (crc >> 1) ^ 0x8C else crc >> 1
  }

  /** n turns, the input byte shifting down alongside. */
  function Shifts(crc: bv8, inbyte: bv8, n: nat): bv8
    decreases n
  {
    if n == 0 then crc else Shifts(Shift(crc, inbyte), inbyte >> 1, n - 1)
  }

  function CrcByte(crc: bv8, inbyte: bv8): bv8 {
    Shifts(crc, inbyte, 8)
  }

  function CrcFrom(crc: bv8, message: seq<bv8>): bv8
    decreases message
  {
    if message == [] then crc else CrcFrom(CrcByte(crc, message[0]), message[1..])
  }

  function Crc(message: seq<bv8>): bv8 {
    CrcFrom(0, message)
  }

  /** The register alone, no input. */
  function Zero(crc: bv8): bv8 {
    Shift(crc, 0)
  }

  function Zero8(crc: bv8): bv8 {
    Zero(Zero(Zero(Zero(Zero(Zero(Zero(Zero(crc))))))))
  }

  function Zeros(crc: bv8, n: nat): bv8
    decreases n
  {
    if n == 0 then crc else Zeros(Zero(crc), n - 1)
  }

  function ShiftedOut(b: bv8, n: nat): bv8
    decreases n
  {
    if n == 0 then b else ShiftedOut(b >> 1, n - 1)
  }

  lemma ShiftOfXor(crc: bv8, b: bv8)
    ensures Shift(crc, b) ^ (b >> 1) == Zero(crc ^ b)
  {
  }

  lemma {:induction false} ShiftsOfXor(crc: bv8, b: bv8, x: bv8, n: nat)
    requires x == crc ^ b
    ensures Shifts(crc, b, n) ^ ShiftedOut(b, n) == Zeros(x, n)
    decreases n
  {
    if n > 0 {
      ShiftOfXor(crc, b);
      ShiftsOfXor(Shift(crc, b), b >> 1, Zero(x), n - 1);
    }
  }

  lemma {:induction false} ByteShiftsOut(b: bv8)
    ensures ShiftedOut(b, 8) == 0
  {
    var b2 := b >> 1 >> 1;
    var b4 := b2 >> 1 >> 1;
    var b6 := b4 >> 1 >> 1;
    assert ShiftedOut(b, 8) == ShiftedOut(b2, 6);
    assert ShiftedOut(b2, 6) == ShiftedOut(b4, 4);
    assert ShiftedOut(b4, 4) == ShiftedOut(b6, 2);
    assert ShiftedOut(b6, 2) == b6 >> 1 >> 1;
  }

  lemma {:induction false} ZerosEight(x: bv8)
    ensures Zeros(x, 8) == Zero8(x)
  {
    var x2 := Zero(Zero(x));
    var x4 := Zero(Zero(x2));
    var x6 := Zero(Zero(x4));
    assert Zeros(x, 8) == Zeros(x2, 6);
    assert Zeros(x2, 6) == Zeros(x4, 4);
    assert Zeros(x4, 4) == Zeros(x6, 2);
  }

  /** The register and the input byte only ever meet as their xor. */
  lemma {:induction false} CrcByteOfXor(crc: bv8, b: bv8)
    ensures CrcByte(crc, b) == Zero8(crc ^ b)
  {
    ShiftsOfXor(crc, b, crc ^ b, 8);
    ByteShiftsOut(b);
    ZerosEight(crc ^ b);
  }

  lemma {:induction false} CrcSnoc(crc: bv8, message: seq<bv8>, b: bv8)
    ensures CrcFrom(crc, message + [b]) == CrcByte(CrcFrom(crc, message), b)
    decreases message
  {
    if message == [] {
      assert CrcFrom(CrcByte(crc, b), []) == CrcByte(crc, b);
      assert ([b])[1..] == [];
    } else {
      assert (message + [b])[1..] == message[1..] + [b];
      CrcSnoc(CrcByte(crc, message[0]), message[1..], b);
    }
  }

  // ------------------------------------------------------------ the two methods

  /** The inner loop of the bitwise variant: eight turns over one input byte. */
  method MixByte(crc0: bv8, inbyte0: bv8) returns (crc: bv8)
    ensures crc == CrcByte(crc0, inbyte0)
  {
    crc := crc0;
    var inbyte := inbyte0;
    var i := 8;
    while i > 0
      invariant 0 <= i <= 8
      invariant Shifts(crc, inbyte, i) == CrcByte(crc0, inbyte0)
    {
      var mix := (crc ^ inbyte) & 0x01;
      crc := crc >> 1;
      if mix != 0 {
        crc := crc ^ 0x8C;
      }
      inbyte := inbyte >> 1;
      i := i - 1;
    }
  }

  /** The bitwise variant, over len bytes from addr. */
  method Crc8Bitwise(addr: array<bv8>, len: nat) returns (crc: bv8)
    requires len <= addr.Length
    ensures crc == Crc(addr[..len])
  {
    crc := 0;
    var k := 0;
    while k < len
      invariant 0 <= k <= len
      invariant crc == Crc(addr[..k])
    {
      CrcSnoc(0, addr[..k], addr[k]);
      assert addr[..k] + [addr[k]] == addr[..k + 1];
      crc := MixByte(crc, addr[k]);
      k := k + 1;
    }
  }

  /** The table variant. */
  method Crc8Table(addr: array<bv8>, len: nat) returns (crc: bv8)
    requires len <= addr.Length
    ensures crc == Crc(addr[..len])
  {
    crc := 0;
    var k := 0;
    while k < len
      invariant 0 <= k <= len
      invariant crc == Crc(addr[..k])
    {
      CrcSnoc(0, addr[..k], addr[k]);
      TableStep(crc, addr[k]);
      assert addr[..k] + [addr[k]] == addr[..k + 1];
      crc := DscrcTable(crc ^ addr[k]);
      k := k + 1;
    }
  }

  // ----------------------------------------------------------------- the table

  /** The 256-byte lookup table: 16 rows of 16, indexed by the two halves of the byte. */
  function DscrcTable(i: bv8): bv8 {
    match i >> 4
    case 0 =>
      (match i & 0xF
       case 0 => 0 case 1 => 94 case 2 => 188 case 3 => 226
       case 4 => 97 case 5 => 63 case 6 => 221 case 7 => 131
       case 8 => 194 case 9 => 156 case 10 => 126 case 11 => 32
       case 12 => 163 case 13 => 253 case 14 => 31 case _ => 65)
    case 1 =>
      (match i & 0xF
       case 0 => 157 case 1 => 195 case 2 => 33 case 3 => 127
       case 4 => 252 case 5 => 162 case 6 => 64 case 7 => 30
       case 8 => 95 case 9 => 1 case 10 => 227 case 11 => 189
       case 12 => 62 case 13 => 96 case 14 => 130 case _ => 220)
    case 2 =>
      (match i & 0xF
       case 0 => 35 case 1 => 125 case 2 => 159 case 3 => 193
       case 4 => 66 case 5 => 28 case 6 => 254 case 7 => 160
       case 8 => 225 case 9 => 191 case 10 => 93 case 11 => 3
       case 12 => 128 case 13 => 222 case 14 => 60 case _ => 98)
    case 3 =>
      (match i & 0xF
       case 0 => 190 case 1 => 224 case 2 => 2 case 3 => 92
       case 4 => 223 case 5 => 129 case 6 => 99 case 7 => 61
       case 8 => 124 case 9 => 34 case 10 => 192 case 11 => 158
       case 12 => 29 case 13 => 67 case 14 => 161 case _ => 255)
    case 4 =>
      (match i & 0xF
       case 0 => 70 case 1 => 24 case 2 => 250 case 3 => 164
       case 4 => 39 case 5 => 121 case 6 => 155 case 7 => 197
       case 8 => 132 case 9 => 218 case 10 => 56 case 11 => 102
       case 12 => 229 case 13 => 187 case 14 => 89 case _ => 7)
    case 5 =>
      (match i & 0xF
       case 0 => 219 case 1 => 133 case 2 => 103 case 3 => 57
       case 4 => 186 case 5 => 228 case 6 => 6 case 7 => 88
       case 8 => 25 case 9 => 71 case 10 => 165 case 11 => 251
       case 12 => 120 case 13 => 38 case 14 => 196 case _ => 154)
    case 6 =>
      (match i & 0xF
       case 0 => 101 case 1 => 59 case 2 => 217 case 3 => 135
       case 4 => 4 case 5 => 90 case 6 => 184 case 7 => 230
       case 8 => 167 case 9 => 249 case 10 => 27 case 11 => 69
       case 12 => 198 case 13 => 152 case 14 => 122 case _ => 36)
    case 7 =>
      (match i & 0xF
       case 0 => 248 case 1 => 166 case 2 => 68 case 3 => 26
       case 4 => 153 case 5 => 199 case 6 => 37 case 7 => 123
       case 8 => 58 case 9 => 100 case 10 => 134 case 11 => 216
       case 12 => 91 case 13 => 5 case 14 => 231 case _ => 185)
    case 8 =>
      (match i & 0xF
       case 0 => 140 case 1 => 210 case 2 => 48 case 3 => 110
       case 4 => 237 case 5 => 179 case 6 => 81 case 7 => 15
       case 8 => 78 case 9 => 16 case 10 => 242 case 11 => 172
       case 12 => 47 case 13 => 113 case 14 => 147 case _ => 205)
    case 9 =>
      (match i & 0xF
       case 0 => 17 case 1 => 79 case 2 => 173 case 3 => 243
       case 4 => 112 case 5 => 46 case 6 => 204 case 7 => 146
       case 8 => 211 case 9 => 141 case 10 => 111 case 11 => 49
       case 12 => 178 case 13 => 236 case 14 => 14 case _ => 80)
    case 10 =>
      (match i & 0xF
       case 0 => 175 case 1 => 241 case 2 => 19 case 3 => 77
       case 4 => 206 case 5 => 144 case 6 => 114 case 7 => 44
       case 8 => 109 case 9 => 51 case 10 => 209 case 11 => 143
       case 12 => 12 case 13 => 82 case 14 => 176 case _ => 238)
    case 11 =>
      (match i & 0xF
       case 0 => 50 case 1 => 108 case 2 => 142 case 3 => 208
       case 4 => 83 case 5 => 13 case 6 => 239 case 7 => 177
       case 8 => 240 case 9 => 174 case 10 => 76 case 11 => 18
       case 12 => 145 case 13 => 207 case 14 => 45 case _ => 115)
    case 12 =>
      (match i & 0xF
       case 0 => 202 case 1 => 148 case 2 => 118 case 3 => 40
       case 4 => 171 case 5 => 245 case 6 => 23 case 7 => 73
       case 8 => 8 case 9 => 86 case 10 => 180 case 11 => 234
       case 12 => 105 case 13 => 55 case 14 => 213 case _ => 139)
    case 13 =>
      (match i & 0xF
       case 0 => 87 case 1 => 9 case 2 => 235 case 3 => 181
       case 4 => 54 case 5 => 104 case 6 => 138 case 7 => 212
       case 8 => 149 case 9 => 203 case 10 => 41 case 11 => 119
       case 12 => 244 case 13 => 170 case 14 => 72 case _ => 22)
    case 14 =>
      (match i & 0xF
       case 0 => 233 case 1 => 183 case 2 => 85 case 3 => 11
       case 4 => 136 case 5 => 214 case 6 => 52 case 7 => 106
       case 8 => 43 case 9 => 117 case 10 => 151 case 11 => 201
       case 12 => 74 case 13 => 20 case 14 => 246 case _ => 168)
    case _ =>
      (match i & 0xF
       case 0 => 116 case 1 => 42 case 2 => 200 case 3 => 150
       case 4 => 21 case 5 => 75 case 6 => 169 case 7 => 247
       case 8 => 182 case 9 => 232 case 10 => 10 case 11 => 84
       case 12 => 215 case 13 => 137 case 14 => 107 case _ => 53)
  }

  lemma ZeroOfXor(x: bv8, y: bv8)
    ensures Zero(x ^ y) == Zero(x) ^ Zero(y)
  {
  }

  lemma {:induction false} ZerosOfXor(x: bv8, y: bv8, z: bv8, n: nat)
    requires z == x ^ y
    ensures Zeros(z, n) == Zeros(x, n) ^ Zeros(y, n)
    decreases n
  {
    if n > 0 {
      ZeroOfXor(x, y);
      ZerosOfXor(Zero(x), Zero(y), Zero(z), n - 1);
    }
  }

  lemma {:induction false} Zero8OfXor(x: bv8, y: bv8)
    ensures Zero8(x ^ y) == Zero8(x) ^ Zero8(y)
  {
    ZerosOfXor(x, y, x ^ y, 8);
    ZerosEight(x);
    ZerosEight(y);
    ZerosEight(x ^ y);
  }

  /** The table is linear in the halves of its index. */
  lemma {:induction false} TableOfHalves(x: bv8)
    ensures DscrcTable(x) == DscrcTable(x & 0xF0) ^ DscrcTable(x & 0x0F)
  {
    match x >> 4
    case 0 => case 1 => case 2 => case 3 => case 4 => case 5 => case 6 => case 7 =>
    case 8 => case 9 => case 10 => case 11 => case 12 => case 13 => case 14 => case _ =>
  }

  lemma {:induction false} FirstRow(x: bv8)
    requires x & 0xF0 == 0
    ensures DscrcTable(x) == Zero8(x)
  {
    match x
    case 0 => case 1 => case 2 => case 3 => case 4 => case 5 => case 6 => case 7 =>
    case 8 => case 9 => case 10 => case 11 => case 12 => case 13 => case 14 => case _ => assert x == 15;
  }

  lemma {:induction false} ColumnOfQuarters(x: bv8)
    requires x & 0x0F == 0
    ensures DscrcTable(x) == DscrcTable(x & 0xC0) ^ DscrcTable(x & 0x30)
  {
    match x >> 4
    case 0 => case 1 => case 2 => case 3 => case 4 => case 5 => case 6 => case 7 =>
    case 8 => case 9 => case 10 => case 11 => case 12 => case 13 => case 14 => case _ =>
  }

  lemma {:induction false} ColumnEntry(x: bv8)
    requires x in {0, 16, 32, 48, 64, 128, 192}
    ensures DscrcTable(x) == Zero8(x)
  {
    match x
    case 0 => case 16 => case 32 => case 48 => case 64 => case 128 => case _ => assert x == 192;
  }

  lemma {:induction false} FirstColumn(x: bv8)
    requires x & 0x0F == 0
    ensures DscrcTable(x) == Zero8(x)
  {
    ColumnOfQuarters(x);
    ColumnEntry(x & 0xC0);
    ColumnEntry(x & 0x30);
    Zero8OfXor(x & 0xC0, x & 0x30);
    assert x == (x & 0xC0) ^ (x & 0x30);
  }

  /** Every one of the 256 table entries is the bitwise CRC of its index. */
  lemma {:induction false} TableIsCrcByte(x: bv8)
    ensures DscrcTable(x) == Zero8(x)
  {
    TableOfHalves(x);
    FirstRow(x & 0x0F);
    FirstColumn(x & 0xF0);
    Zero8OfXor(x & 0xF0, x & 0x0F);
    assert x == (x & 0xF0) ^ (x & 0x0F);
  }

  lemma {:induction false} TableStep(crc: bv8, b: bv8)
    ensures DscrcTable(crc ^ b) == CrcByte(crc, b)
  {
    TableIsCrcByte(crc ^ b);
    CrcByteOfXor(crc, b);
  }
}

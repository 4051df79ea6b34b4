/** The table-driven CRC-32 of src/utils/log.c, against the bit-at-a-time reflected division that
    section 8 of RFC 1952 defines, and what that division detects. */
module Crc32 {
  import opened Folds

  const ONES: bv32 := 0xFFFF_FFFF

  // The constant table, sixteen entries a row.
  const ROW_0: seq<bv32> := [
    0x00000000, 0x77073096, 0xEE0E612C, 0x990951BA,
    0x076DC419, 0x706AF48F, 0xE963A535, 0x9E6495A3,
    0x0EDB8832, 0x79DCB8A4, 0xE0D5E91E, 0x97D2D988,
    0x09B64C2B, 0x7EB17CBD, 0xE7B82D07, 0x90BF1D91]
  const ROW_1: seq<bv32> := [
    0x1DB71064, 0x6AB020F2, 0xF3B97148, 0x84BE41DE,
    0x1ADAD47D, 0x6DDDE4EB, 0xF4D4B551, 0x83D385C7,
    0x136C9856, 0x646BA8C0, 0xFD62F97A, 0x8A65C9EC,
    0x14015C4F, 0x63066CD9, 0xFA0F3D63, 0x8D080DF5]
  const ROW_2: seq<bv32> := [
    0x3B6E20C8, 0x4C69105E, 0xD56041E4, 0xA2677172,
    0x3C03E4D1, 0x4B04D447, 0xD20D85FD, 0xA50AB56B,
    0x35B5A8FA, 0x42B2986C, 0xDBBBC9D6, 0xACBCF940,
    0x32D86CE3, 0x45DF5C75, 0xDCD60DCF, 0xABD13D59]
  const ROW_3: seq<bv32> := [
    0x26D930AC, 0x51DE003A, 0xC8D75180, 0xBFD06116,
    0x21B4F4B5, 0x56B3C423, 0xCFBA9599, 0xB8BDA50F,
    0x2802B89E, 0x5F058808, 0xC60CD9B2, 0xB10BE924,
    0x2F6F7C87, 0x58684C11, 0xC1611DAB, 0xB6662D3D]
  const ROW_4: seq<bv32> := [
    0x76DC4190, 0x01DB7106, 0x98D220BC, 0xEFD5102A,
    0x71B18589, 0x06B6B51F, 0x9FBFE4A5, 0xE8B8D433,
    0x7807C9A2, 0x0F00F934, 0x9609A88E, 0xE10E9818,
    0x7F6A0DBB, 0x086D3D2D, 0x91646C97, 0xE6635C01]
  const ROW_5: seq<bv32> := [
    0x6B6B51F4, 0x1C6C6162, 0x856530D8, 0xF262004E,
    0x6C0695ED, 0x1B01A57B, 0x8208F4C1, 0xF50FC457,
    0x65B0D9C6, 0x12B7E950, 0x8BBEB8EA, 0xFCB9887C,
    0x62DD1DDF, 0x15DA2D49, 0x8CD37CF3, 0xFBD44C65]
  const ROW_6: seq<bv32> := [
    0x4DB26158, 0x3AB551CE, 0xA3BC0074, 0xD4BB30E2,
    0x4ADFA541, 0x3DD895D7, 0xA4D1C46D, 0xD3D6F4FB,
    0x4369E96A, 0x346ED9FC, 0xAD678846, 0xDA60B8D0,
    0x44042D73, 0x33031DE5, 0xAA0A4C5F, 0xDD0D7CC9]
  const ROW_7: seq<bv32> := [
    0x5005713C, 0x270241AA, 0xBE0B1010, 0xC90C2086,
    0x5768B525, 0x206F85B3, 0xB966D409, 0xCE61E49F,
    0x5EDEF90E, 0x29D9C998, 0xB0D09822, 0xC7D7A8B4,
    0x59B33D17, 0x2EB40D81, 0xB7BD5C3B, 0xC0BA6CAD]
  const ROW_8: seq<bv32> := [
    0xEDB88320, 0x9ABFB3B6, 0x03B6E20C, 0x74B1D29A,
    0xEAD54739, 0x9DD277AF, 0x04DB2615, 0x73DC1683,
    0xE3630B12, 0x94643B84, 0x0D6D6A3E, 0x7A6A5AA8,
    0xE40ECF0B, 0x9309FF9D, 0x0A00AE27, 0x7D079EB1]
  const ROW_9: seq<bv32> := [
    0xF00F9344, 0x8708A3D2, 0x1E01F268, 0x6906C2FE,
    0xF762575D, 0x806567CB, 0x196C3671, 0x6E6B06E7,
    0xFED41B76, 0x89D32BE0, 0x10DA7A5A, 0x67DD4ACC,
    0xF9B9DF6F, 0x8EBEEFF9, 0x17B7BE43, 0x60B08ED5]
  const ROW_A: seq<bv32> := [
    0xD6D6A3E8, 0xA1D1937E, 0x38D8C2C4, 0x4FDFF252,
    0xD1BB67F1, 0xA6BC5767, 0x3FB506DD, 0x48B2364B,
    0xD80D2BDA, 0xAF0A1B4C, 0x36034AF6, 0x41047A60,
    0xDF60EFC3, 0xA867DF55, 0x316E8EEF, 0x4669BE79]
  const ROW_B: seq<bv32> := [
    0xCB61B38C, 0xBC66831A, 0x256FD2A0, 0x5268E236,
    0xCC0C7795, 0xBB0B4703, 0x220216B9, 0x5505262F,
    0xC5BA3BBE, 0xB2BD0B28, 0x2BB45A92, 0x5CB36A04,
    0xC2D7FFA7, 0xB5D0CF31, 0x2CD99E8B, 0x5BDEAE1D]
  const ROW_C: seq<bv32> := [
    0x9B64C2B0, 0xEC63F226, 0x756AA39C, 0x026D930A,
    0x9C0906A9, 0xEB0E363F, 0x72076785, 0x05005713,
    0x95BF4A82, 0xE2B87A14, 0x7BB12BAE, 0x0CB61B38,
    0x92D28E9B, 0xE5D5BE0D, 0x7CDCEFB7, 0x0BDBDF21]
  const ROW_D: seq<bv32> := [
    0x86D3D2D4, 0xF1D4E242, 0x68DDB3F8, 0x1FDA836E,
    0x81BE16CD, 0xF6B9265B, 0x6FB077E1, 0x18B74777,
    0x88085AE6, 0xFF0F6A70, 0x66063BCA, 0x11010B5C,
    0x8F659EFF, 0xF862AE69, 0x616BFFD3, 0x166CCF45]
  const ROW_E: seq<bv32> := [
    0xA00AE278, 0xD70DD2EE, 0x4E048354, 0x3903B3C2,
    0xA7672661, 0xD06016F7, 0x4969474D, 0x3E6E77DB,
    0xAED16A4A, 0xD9D65ADC, 0x40DF0B66, 0x37D83BF0,
    0xA9BCAE53, 0xDEBB9EC5, 0x47B2CF7F, 0x30B5FFE9]
  const ROW_F: seq<bv32> := [
    0xBDBDF21C, 0xCABAC28A, 0x53B39330, 0x24B4A3A6,
    0xBAD03605, 0xCDD70693, 0x54DE5729, 0x23D967BF,
    0xB3667A2E, 0xC4614AB8, 0x5D681B02, 0x2A6F2B94,
    0xB40BBE37, 0xC30C8EA1, 0x5A05DF1B, 0x2D02EF8D]

  function Row(h: bv32): seq<bv32>
    requires h < 16
  {
    if h == 0x0 then ROW_0 else
    if h == 0x1 then ROW_1 else
    if h == 0x2 then ROW_2 else
    if h == 0x3 then ROW_3 else
    if h == 0x4 then ROW_4 else
    if h == 0x5 then ROW_5 else
    if h == 0x6 then ROW_6 else
    if h == 0x7 then ROW_7 else
    if h == 0x8 then ROW_8 else
    if h == 0x9 then ROW_9 else
    if h == 0xA then ROW_A else
    if h == 0xB then ROW_B else
    if h == 0xC then ROW_C else
    if h == 0xD then ROW_D else
    if h == 0xE then ROW_E else ROW_F
  }

  /** The entry at a byte value: high nibble picks the row, low nibble the column. */
  function Table(i: bv32): bv32
    requires i < 256
  {
    Row(i >> 4)[(i & 0xF) as int]
  }

  /** One bit of the reflected division by 0xEDB88320. */
  function Step(c: bv32): bv32 {
    if c & 1 == 1 then (c >> 1) ^ 0xEDB88320 else c >> 1
  }

  function Steps(n: nat, c: bv32): bv32 {
    Iter(Step, n, c)
  }

  /** One byte enters the low end of the register, then eight bits are divided. */
  function ByteIn(c: bv32, b: bv8): bv32 {
    Steps(8, c ^ (b as bv32))
  }

  function Register(c: bv32, data: seq<bv8>): bv32 {
    Fold(ByteIn, c, data)
  }

  /** The checksum of the standard: start at all ones, complement at the end. */
  function Crc(data: seq<bv8>): bv32 {
    Register(ONES, data) ^ ONES
  }

  /** c is the exclusive or of a and b. */
  predicate Xored(a: bv32, b: bv32, c: bv32) {
    c == a ^ b
  }

  // ----- one division step is linear and invertible

  lemma ShiftXor(a: bv32, b: bv32)
    ensures (a ^ b) >> 1 == (a >> 1) ^ (b >> 1)
  {}

  lemma LowXor(a: bv32, b: bv32)
    ensures (a ^ b) & 1 == (a & 1) ^ (b & 1)
  {}

  lemma LowBit(a: bv32)
    ensures a & 1 == 0 || a & 1 == 1
  {}

  lemma Regroup(a: bv32, b: bv32, p: bv32)
    ensures (a ^ p) ^ (b ^ p) == a ^ b
    ensures (a ^ p) ^ b == (a ^ b) ^ p
    ensures a ^ (b ^ p) == (a ^ b) ^ p
  {}

  lemma StepLinear(a: bv32, b: bv32, c: bv32)
    requires Xored(a, b, c)
    ensures Xored(Step(a), Step(b), Step(c))
  {
    ShiftXor(a, b);
    LowXor(a, b);
    LowBit(a);
    LowBit(b);
    Regroup(a >> 1, b >> 1, 0xEDB88320);
  }

  lemma {:induction false} StepsLinear(n: nat, a: bv32, b: bv32, c: bv32)
    requires Xored(a, b, c)
    ensures Xored(Steps(n, a), Steps(n, b), Steps(n, c))
  {
    hide Step, Xored;
    if n > 0 {
      StepLinear(a, b, c);
      StepsLinear(n - 1, Step(a), Step(b), Step(c));
    }
  }

  /** Step has kernel zero, and below 2^31 its preimage is a plain doubling. */
  lemma StepZero(x: bv32)
    requires Step(x) == 0
    ensures x == 0
  {}

  lemma StepBack(x: bv32)
    requires Step(x) < 0x8000_0000
    ensures x == Step(x) << 1
  {}

  lemma EvenStep(x: bv32)
    requires x & 1 == 0
    ensures Step(x) == x >> 1
  {}

  // ----- the table holds eight steps of each byte value

  lemma Row0From0(j: bv32)
    requires 0 <= j < 1
    ensures ROW_0[j as int] == Steps(8, j)
  {
    if j == 0 { assert Steps(8, 0) == 0x00000000; }
  }

  lemma Row0From1(j: bv32)
    requires 1 <= j < 2
    ensures ROW_0[j as int] == Steps(8, j)
  {
    if j == 1 { assert Steps(8, 1) == 0x77073096; }
  }

  lemma Row0From2(j: bv32)
    requires 2 <= j < 3
    ensures ROW_0[j as int] == Steps(8, j)
  {
    if j == 2 { assert Steps(8, 2) == 0xEE0E612C; }
  }

  lemma Row0From3(j: bv32)
    requires 3 <= j < 4
    ensures ROW_0[j as int] == Steps(8, j)
  {
    if j == 3 { assert Steps(8, 3) == 0x990951BA; }
  }

  lemma Row0From4(j: bv32)
    requires 4 <= j < 8
    ensures ROW_0[j as int] == Steps(8, j)
  {
    if j == 4 { assert Steps(8, 4) == 0x076DC419; }
    if j == 5 { assert Steps(8, 5) == 0x706AF48F; }
    if j == 6 { assert Steps(8, 6) == 0xE963A535; }
    if j == 7 { assert Steps(8, 7) == 0x9E6495A3; }
  }

  lemma Row0From8(j: bv32)
    requires 8 <= j < 12
    ensures ROW_0[j as int] == Steps(8, j)
  {
    if j == 8 { assert Steps(8, 8) == 0x0EDB8832; }
    if j == 9 { assert Steps(8, 9) == 0x79DCB8A4; }
    if j == 10 { assert Steps(8, 10) == 0xE0D5E91E; }
    if j == 11 { assert Steps(8, 11) == 0x97D2D988; }
  }

  lemma Row0From12(j: bv32)
    requires 12 <= j < 16
    ensures ROW_0[j as int] == Steps(8, j)
  {
    if j == 12 { assert Steps(8, 12) == 0x09B64C2B; }
    if j == 13 { assert Steps(8, 13) == 0x7EB17CBD; }
    if j == 14 { assert Steps(8, 14) == 0xE7B82D07; }
    if j == 15 { assert Steps(8, 15) == 0x90BF1D91; }
  }

  /** Row zero with every entry xored with c. */
  function Mix(c: bv32): seq<bv32> {
    seq(16, n requires 0 <= n < 16 => ROW_0[n] ^ c)
  }

  lemma Row0()
    ensures ROW_0 == Mix(Steps(8, 0x00))
  {}

  lemma Row1()
    ensures ROW_1 == Mix(Steps(8, 0x10))
  {}

  lemma Row2()
    ensures ROW_2 == Mix(Steps(8, 0x20))
  {}

  lemma Row3()
    ensures ROW_3 == Mix(Steps(8, 0x30))
  {}

  lemma Row4()
    ensures ROW_4 == Mix(Steps(8, 0x40))
  {}

  lemma Row5()
    ensures ROW_5 == Mix(Steps(8, 0x50))
  {}

  lemma Row6()
    ensures ROW_6 == Mix(Steps(8, 0x60))
  {}

  lemma Row7()
    ensures ROW_7 == Mix(Steps(8, 0x70))
  {}

  lemma Row8()
    ensures ROW_8 == Mix(Steps(8, 0x80))
  {}

  lemma Row9()
    ensures ROW_9 == Mix(Steps(8, 0x90))
  {}

  lemma RowA()
    ensures ROW_A == Mix(Steps(8, 0xA0))
  {}

  lemma RowB()
    ensures ROW_B == Mix(Steps(8, 0xB0))
  {}

  lemma RowC()
    ensures ROW_C == Mix(Steps(8, 0xC0))
  {}

  lemma RowD()
    ensures ROW_D == Mix(Steps(8, 0xD0))
  {}

  lemma RowE()
    ensures ROW_E == Mix(Steps(8, 0xE0))
  {}

  lemma RowF()
    ensures ROW_F == Mix(Steps(8, 0xF0))
  {}

  lemma SplitByte(i: bv32)
    requires i < 256
    ensures Xored(i & 0xF, (i >> 4) << 4, i) && i & 0xF < 16 && i >> 4 < 16
  {}

  lemma RowsFrom0(h: bv32)
    requires 0x0 <= h < 0x4
    ensures Row(h) == Mix(Steps(8, h << 4))
  {
    if h == 0x0 { Row0(); }
    if h == 0x1 { Row1(); }
    if h == 0x2 { Row2(); }
    if h == 0x3 { Row3(); }
  }

  lemma RowsFrom4(h: bv32)
    requires 0x4 <= h < 0x8
    ensures Row(h) == Mix(Steps(8, h << 4))
  {
    if h == 0x4 { Row4(); }
    if h == 0x5 { Row5(); }
    if h == 0x6 { Row6(); }
    if h == 0x7 { Row7(); }
  }

  lemma RowsFrom8(h: bv32)
    requires 0x8 <= h < 0xC
    ensures Row(h) == Mix(Steps(8, h << 4))
  {
    if h == 0x8 { Row8(); }
    if h == 0x9 { Row9(); }
    if h == 0xA { RowA(); }
    if h == 0xB { RowB(); }
  }

  lemma RowsFromC(h: bv32)
    requires 0xC <= h < 0x10
    ensures Row(h) == Mix(Steps(8, h << 4))
  {
    if h == 0xC { RowC(); }
    if h == 0xD { RowD(); }
    if h == 0xE { RowE(); }
    if h == 0xF { RowF(); }
  }

  lemma EntryOf(row: seq<bv32>, high: bv32, low: bv32, i: bv32)
    requires row == Mix(Steps(8, high)) && low < 16 && Xored(low, high, i)
    ensures row[low as int] == Steps(8, i)
  {
    hide Steps, Step, Mix;
    Row0Entry(low);
    StepsLinear(8, low, high, i);
    MixAt(Steps(8, high), low as int, Steps(8, low), Steps(8, i));
  }

  lemma MixAt(c: bv32, n: nat, e: bv32, r: bv32)
    requires n < 16 && ROW_0[n] == e && Xored(e, c, r)
    ensures Mix(c)[n] == r
  {}

  /** Every one of the 256 table entries is eight division steps of its index. */
  lemma TableEntry(i: bv32)
    requires i < 256
    ensures Table(i) == Steps(8, i)
  {
    SplitByte(i);
    var h := i >> 4;
    if h < 4 { RowsFrom0(h); } else if h < 8 { RowsFrom4(h); }
    else if h < 12 { RowsFrom8(h); } else { RowsFromC(h); }
    EntryOf(Row(h), h << 4, i & 0xF, i);
  }

  lemma Row0Entry(j: bv32)
    requires j < 16
    ensures ROW_0[j as int] == Steps(8, j)
  {
    if j < 1 { Row0From0(j); } else if j < 2 { Row0From1(j); }
    else if j < 3 { Row0From2(j); } else if j < 4 { Row0From3(j); }
    else if j < 8 { Row0From4(j); } else if j < 12 { Row0From8(j); } else { Row0From12(j); }
  }

  // ----- the table-driven loop computes the division

  lemma HighBits(x: bv32)
    ensures Xored(x & 0xFF, x & 0xFFFF_FF00, x) && x & 0xFF < 256
    ensures (x & 0xFFFF_FF00) >> 8 == x >> 8
    ensures (x & 0xFFFF_FF00) & 0xFF == 0
  {}

  lemma HalveClear(x: bv32, m: bv32)
    requires x & m == 0 && m & 1 == 1
    ensures x & 1 == 0 && (x >> 1) & (m >> 1) == 0
  {}

  /** A register whose low eight bits are clear is only shifted. */
  lemma ClearLowByte(x: bv32)
    requires x & 0xFF == 0
    ensures Steps(8, x) == x >> 8
  {
    var x1 := x >> 1;  HalveClear(x, 0xFF);   EvenStep(x);
    var x2 := x1 >> 1; HalveClear(x1, 0x7F);  EvenStep(x1);
    var x3 := x2 >> 1; HalveClear(x2, 0x3F);  EvenStep(x2);
    var x4 := x3 >> 1; HalveClear(x3, 0x1F);  EvenStep(x3);
    var x5 := x4 >> 1; HalveClear(x4, 0xF);   EvenStep(x4);
    var x6 := x5 >> 1; HalveClear(x5, 0x7);   EvenStep(x5);
    var x7 := x6 >> 1; HalveClear(x6, 0x3);   EvenStep(x6);
    var x8 := x7 >> 1; HalveClear(x7, 0x1);   EvenStep(x7);
    assert Steps(8, x) == Steps(7, x1);
    assert Steps(7, x1) == Steps(6, x2);
    assert Steps(6, x2) == Steps(5, x3);
    assert Steps(5, x3) == Steps(4, x4);
    assert Steps(4, x4) == Steps(3, x5);
    assert Steps(3, x5) == Steps(2, x6);
    assert Steps(2, x6) == Steps(1, x7) == x8;
  }

  lemma ByteStep(x: bv32)
    ensures x & 0xFF < 256 && Xored(Steps(8, x & 0xFF), x >> 8, Steps(8, x))
  {
    HighBits(x);
    ClearLowByte(x & 0xFFFF_FF00);
    StepsLinear(8, x & 0xFF, x & 0xFFFF_FF00, x);
  }

  lemma ByteAbsorbed(crc: bv32, b: bv8)
    ensures (crc ^ (b as bv32)) >> 8 == crc >> 8
  {}

  lemma ByteIndex(crc: bv32, b: bv8)
    ensures (crc ^ (b as bv32)) & 0xFF < 256
  {}

  lemma Absorbed(crc: bv32, b: bv8, e: bv32)
    requires e == Steps(8, (crc ^ (b as bv32)) & 0xFF)
    ensures Xored(e, crc >> 8, Steps(8, crc ^ (b as bv32)))
  {
    ByteStep(crc ^ (b as bv32));
    ByteAbsorbed(crc, b);
  }

  lemma RegisterNext(c: bv32, data: seq<bv8>, p: nat, e: bv32, h: bv32, next: bv32)
    requires p < |data| && e == Steps(8, (c ^ (data[p] as bv32)) & 0xFF)
    requires h == c >> 8 && Xored(e, h, next)
    ensures Register(c, data[p..]) == Register(next, data[p + 1..])
  {
    hide Register, Steps, Xored;
    Absorbed(c, data[p], e);
    RegisterUnfold(c, data, p, e, h, next);
  }

  lemma RegisterUnfold(c: bv32, data: seq<bv8>, p: nat, e: bv32, h: bv32, next: bv32)
    requires p < |data| && Xored(e, h, Steps(8, c ^ (data[p] as bv32))) && Xored(e, h, next)
    ensures Register(c, data[p..]) == Register(next, data[p + 1..])
  {
    assert data[p..][1..] == data[p + 1..];
  }

  method Lookup(i: bv32) returns (e: bv32)
    requires i < 256
    ensures e == Steps(8, i)
  {
    TableEntry(i);
    e := Table(i);
  }

  /** The loop body: one table lookup absorbs the byte at p. */
  method AbsorbByte(crc: bv32, data: seq<bv8>, p: nat) returns (next: bv32)
    requires p < |data|
    ensures Register(crc, data[p..]) == Register(next, data[p + 1..])
  {
    ByteIndex(crc, data[p]);
    var e := Lookup((crc ^ (data[p] as bv32)) & 0xFF);
    var h := crc >> 8;
    next := e ^ h;
    RegisterNext(crc, data, p, e, h, next);
  }

  method ComputeCrc(data: seq<bv8>) returns (crc: bv32)
    ensures crc == Crc(data)
    ensures Register(0xFFFF_FFFF, data + LittleEndian(crc)) == 0xDEBB20E3
  {
    crc := 0xFFFF_FFFF;
    var p := 0;
    while p < |data|
      invariant 0 <= p <= |data|
      invariant Register(crc, data[p..]) == Register(ONES, data)
    {
      crc := AbsorbByte(crc, data, p);
      p := p + 1;
    }
    crc := crc ^ 0xFFFF_FFFF;
    ResidueIff(data, crc);
  }

  // ----- the checksum is affine

  function XorBytes(a: seq<bv8>, b: seq<bv8>): (r: seq<bv8>)
    requires |a| == |b|
    ensures |r| == |a|
  {
    seq(|a|, i requires 0 <= i < |a| => a[i] ^ b[i])
  }

  predicate XoredByte(a: bv8, b: bv8, c: bv8) {
    c == a ^ b
  }

  lemma EnterXor(x: bv32, y: bv32, z: bv32, a: bv8, b: bv8, c: bv8)
    requires Xored(x, y, z) && XoredByte(a, b, c)
    ensures Xored(x ^ (a as bv32), y ^ (b as bv32), z ^ (c as bv32))
  {}

  lemma ByteInLinear(x: bv32, y: bv32, z: bv32, a: bv8, b: bv8, c: bv8)
    requires Xored(x, y, z) && XoredByte(a, b, c)
    ensures Xored(ByteIn(x, a), ByteIn(y, b), ByteIn(z, c))
  {
    hide Steps, Xored;
    EnterXor(x, y, z, a, b, c);
    StepsLinear(8, x ^ (a as bv32), y ^ (b as bv32), z ^ (c as bv32));
  }

  lemma RegisterLinear(x: bv32, y: bv32, z: bv32, a: seq<bv8>, b: seq<bv8>, c: seq<bv8>)
    requires |a| == |b| == |c| && Xored(x, y, z)
    requires forall i :: 0 <= i < |a| ==> XoredByte(a[i], b[i], c[i])
    ensures Xored(Register(x, a), Register(y, b), Register(z, c))
  {
    hide ByteIn, Xored, XoredByte;
    forall x, y, z, p, q, r | Xored(x, y, z) && XoredByte(p, q, r)
      ensures Xored(ByteIn(x, p), ByteIn(y, q), ByteIn(z, r))
    {
      ByteInLinear(x, y, z, p, q, r);
    }
    FoldRelated(ByteIn, Xored, XoredByte, x, y, z, a, b, c);
  }

  lemma AffineWords(a: bv32, b: bv32, c: bv32, ab: bv32, abc: bv32)
    requires Xored(a, b, ab) && Xored(ab, c, abc)
    ensures (a ^ ONES) ^ (b ^ ONES) ^ (c ^ ONES) == abc ^ ONES
  {}

  /** The law crc(a) ^ crc(b) ^ crc(c) == crc(a ^ b ^ c) on strings of one length. */
  lemma CrcAffine(a: seq<bv8>, b: seq<bv8>, c: seq<bv8>)
    requires |a| == |b| == |c|
    ensures Crc(a) ^ Crc(b) ^ Crc(c) == Crc(XorBytes(XorBytes(a, b), c))
  {
    hide Register, ByteIn;
    var ab := XorBytes(a, b);
    RegisterLinear(ONES, ONES, 0, a, b, ab);
    RegisterLinear(0, ONES, ONES, ab, c, XorBytes(ab, c));
    AffineWords(Register(ONES, a), Register(ONES, b), Register(ONES, c), Register(0, ab),
                Register(ONES, XorBytes(ab, c)));
  }

  // ----- the same division, one message bit at a time

  function Enter(c: bv32, bit: bool): bv32 {
    if bit then c ^ 1 else c
  }

  function FeedBit(c: bv32, bit: bool): bv32 {
    Step(Enter(c, bit))
  }

  function Feed(c: bv32, bits: seq<bool>): bv32 {
    Fold(FeedBit, c, bits)
  }

  predicate LowOne(y: bv32) { y & 1 == 1 }

  function Half(y: bv32): bv32 { y >> 1 }

  /** The eight bits of a byte, least significant first. */
  function ByteBits(b: bv8): (r: seq<bool>)
    ensures |r| == 8
  {
    Digits(LowOne, Half, 8, b as bv32)
  }

  /** The message in transmission order. */
  function Bits(data: seq<bv8>): (r: seq<bool>)
    decreases |data|
    ensures |r| == 8 * |data|
  {
    if data == [] then [] else ByteBits(data[0]) + Bits(data[1..])
  }

  lemma DropLow(c: bv32, y: bv32)
    ensures (c ^ (y & 1)) & 1 == (c ^ y) & 1
    ensures (c ^ y) >> 1 == ((c ^ (y & 1)) >> 1) ^ (y >> 1)
  {}

  lemma SameLow(w: bv32, h: bv32, cy: bv32)
    requires w & 1 == cy & 1 && Xored(w >> 1, h, cy >> 1)
    ensures Xored(Step(w), h, Step(cy))
  {
    Regroup(w >> 1, h, 0xEDB88320);
  }

  lemma PeelLow(c: bv32, y: bv32, cy: bv32, w: bv32)
    requires Xored(c, y, cy) && w == c ^ (y & 1)
    ensures Xored(Step(w), y >> 1, Step(cy))
  {
    DropLow(c, y);
    SameLow(w, y >> 1, cy);
  }

  lemma PeelBit(c: bv32, y: bv32, cy: bv32, one: bool, h: bv32)
    requires Xored(c, y, cy) && one == LowOne(y) && h == Half(y)
    ensures Xored(FeedBit(c, one), h, Step(cy))
  {
    LowBit(y);
    if one {
      PeelLow(c, y, cy, c ^ 1);
    } else {
      PeelLow(c, y, cy, c);
    }
  }

  lemma PeelByte(c: bv32, y: bv32, cy: bv32)
    requires Xored(c, y, cy)
    ensures Xored(Feed(c, Digits(LowOne, Half, 8, y)), Iter(Half, 8, y), Iter(Step, 8, cy))
  {
    hide Step, FeedBit, LowOne, Half, Xored;
    forall s, y, t | Xored(s, y, t) ensures Xored(FeedBit(s, LowOne(y)), Half(y), Step(t)) {
      PeelBit(s, y, t, LowOne(y), Half(y));
    }
    DigitsRelated(FeedBit, LowOne, Half, Step, Xored, 8, c, y, cy);
  }

  lemma AboveByte(b: bv8)
    ensures Iter(Half, 8, b as bv32) == 0
  {
  }

  lemma XoredZero(p: bv32, z: bv32, r: bv32)
    requires Xored(p, z, r) && z == 0
    ensures p == r
  {}

  lemma FeedByte(c: bv32, b: bv8)
    ensures Feed(c, ByteBits(b)) == ByteIn(c, b)
  {
    hide Step, FeedBit, LowOne, Half;
    var cy := c ^ (b as bv32);
    PeelByte(c, b as bv32, cy);
    AboveByte(b);
    XoredZero(Feed(c, ByteBits(b)), Iter(Half, 8, b as bv32), Iter(Step, 8, cy));
  }

  /** Byte-wise and bit-wise divisions agree. */
  lemma {:induction false} RegisterIsFeed(c: bv32, data: seq<bv8>)
    ensures Register(c, data) == Feed(c, Bits(data))
    decreases |data|
  {
    hide FeedBit, ByteIn;
    if data != [] {
      FoldConcat(FeedBit, c, ByteBits(data[0]), Bits(data[1..]));
      FeedByte(c, data[0]);
      RegisterIsFeed(ByteIn(c, data[0]), data[1..]);
    }
  }

  // ----- every error burst of at most 32 bits is detected

  predicate XoredBit(p: bool, q: bool, r: bool) {
    r == (p != q)
  }

  lemma FlipBoth(x: bv32, y: bv32, z: bv32)
    requires Xored(x, y, z)
    ensures Xored(x ^ 1, y ^ 1, z)
  {}

  lemma FlipLeft(x: bv32, y: bv32, z: bv32)
    requires Xored(x, y, z)
    ensures Xored(x ^ 1, y, z ^ 1)
  {}

  lemma FlipRight(x: bv32, y: bv32, z: bv32)
    requires Xored(x, y, z)
    ensures Xored(x, y ^ 1, z ^ 1)
  {}

  lemma EnterLinear(x: bv32, y: bv32, z: bv32, p: bool, q: bool, r: bool)
    requires Xored(x, y, z) && XoredBit(p, q, r)
    ensures Xored(Enter(x, p), Enter(y, q), Enter(z, r))
  {
    if p && q {
      FlipBoth(x, y, z);
    } else if p {
      FlipLeft(x, y, z);
    } else if q {
      FlipRight(x, y, z);
    }
  }

  lemma FeedBitLinear(x: bv32, y: bv32, z: bv32, p: bool, q: bool, r: bool)
    requires Xored(x, y, z) && XoredBit(p, q, r)
    ensures Xored(FeedBit(x, p), FeedBit(y, q), FeedBit(z, r))
  {
    hide Step, Xored, Enter;
    EnterLinear(x, y, z, p, q, r);
    StepLinear(Enter(x, p), Enter(y, q), Enter(z, r));
  }

  lemma FeedLinear(x: bv32, y: bv32, z: bv32, a: seq<bool>, b: seq<bool>, c: seq<bool>)
    requires |a| == |b| == |c| && Xored(x, y, z)
    requires forall i :: 0 <= i < |a| ==> XoredBit(a[i], b[i], c[i])
    ensures Xored(Feed(x, a), Feed(y, b), Feed(z, c))
  {
    hide FeedBit, Xored, XoredBit;
    forall x, y, z, p, q, r | Xored(x, y, z) && XoredBit(p, q, r)
      ensures Xored(FeedBit(x, p), FeedBit(y, q), FeedBit(z, r))
    {
      FeedBitLinear(x, y, z, p, q, r);
    }
    FoldRelated(FeedBit, Xored, XoredBit, x, y, z, a, b, c);
  }

  lemma XoredDiffer(p: bv32, q: bv32, r: bv32)
    requires Xored(p, q, r)
    ensures r == 0 <==> p == q
  {}

  lemma StepInjective(x: bv32, y: bv32)
    requires Step(x) == Step(y)
    ensures x == y
  {
    hide Step;
    StepLinear(x, y, x ^ y);
    XoredDiffer(Step(x), Step(y), Step(x ^ y));
    StepZero(x ^ y);
    XoredDiffer(x, y, x ^ y);
  }

  lemma {:induction false} StepsInjective(n: nat, x: bv32, y: bv32)
    requires x != y
    ensures Steps(n, x) != Steps(n, y)
  {
    hide Step;
    if n > 0 {
      if Step(x) == Step(y) { StepInjective(x, y); }
      StepsInjective(n - 1, Step(x), Step(y));
    }
  }

  // ----- known values and the residue

  lemma RegisterOne(c: bv32, b: bv8, rest: seq<bv8>)
    ensures Register(c, [b] + rest) == Register(ByteIn(c, b), rest)
  {
    hide ByteIn;
    assert ([b] + rest)[1..] == rest;
  }

  lemma RegisterNone(c: bv32)
    ensures Register(c, []) == c
  {}

  /** The checksum of one zero byte. */
  lemma ZeroByteValue()
    ensures Crc([0]) == 0xD202EF8D
  {
    hide Register;
    OnesSteps();
    RegisterOne(0xFFFF_FFFF, 0, []);
    assert [0 as bv8] == [0 as bv8] + [];
    RegisterNone(ByteIn(0xFFFF_FFFF, 0));
  }

  lemma OnesSteps()
    ensures Steps(8, 0xFFFF_FFFF) == 0x2DFD1072
  {}

  lemma SecondSteps()
    ensures Steps(8, 0x2DFD1072) == 0xBE26ED00
  {}

  lemma ThirdSteps()
    ensures Steps(8, 0xBE26ED00) == 0x00BE26ED
  {}

  lemma FourthSteps()
    ensures Steps(8, 0x00BE26ED) == 0xDEBB20E3
  {}

  lemma Check1() ensures ByteIn(0xFFFF_FFFF, 0x31) == 0x7C231048 {}
  lemma Check2() ensures ByteIn(0x7C231048, 0x32) == 0xB0ACBB32 {}
  lemma Check3() ensures ByteIn(0xB0ACBB32, 0x33) == 0x77B79C2D {}
  lemma Check4() ensures ByteIn(0x77B79C2D, 0x34) == 0x641C1F5C {}
  lemma Check5() ensures ByteIn(0x641C1F5C, 0x35) == 0x340AC5E3 {}
  lemma Check6() ensures ByteIn(0x340AC5E3, 0x36) == 0xF68D2C9E {}
  lemma Check7() ensures ByteIn(0xF68D2C9E, 0x37) == 0xAFFC9660 {}
  lemma Check8() ensures ByteIn(0xAFFC9660, 0x38) == 0x651F2550 {}
  lemma Check9() ensures ByteIn(0x651F2550, 0x39) == 0x340BC6D9 {}

  lemma FirstFour()
    ensures Register(0xFFFF_FFFF, [0x31, 0x32, 0x33, 0x34]) == 0x641C1F5C
  {
    hide Register, ByteIn;
    FourBytes(0xFFFF_FFFF, 0x31, 0x32, 0x33, 0x34);
    Check1(); Check2(); Check3(); Check4();
  }

  lemma NextFour()
    ensures Register(0x641C1F5C, [0x35, 0x36, 0x37, 0x38]) == 0x651F2550
  {
    hide Register, ByteIn;
    FourBytes(0x641C1F5C, 0x35, 0x36, 0x37, 0x38);
    Check5(); Check6(); Check7(); Check8();
  }

  lemma LastOne()
    ensures Register(0x651F2550, [0x39]) == 0x340BC6D9
  {
    hide Register, ByteIn;
    Check9();
    assert [0x39 as bv8] == [0x39 as bv8] + [];
    RegisterOne(0x651F2550, 0x39, []);
    RegisterNone(0x340BC6D9);
  }

  lemma RegisterConcat(c: bv32, a: seq<bv8>, b: seq<bv8>)
    ensures Register(c, a + b) == Register(Register(c, a), b)
  {
    FoldConcat(ByteIn, c, a, b);
  }

  /** The check value of the standard: the checksum of the digits 1 to 9. */
  lemma CheckValue()
    ensures Crc([0x31, 0x32, 0x33, 0x34, 0x35, 0x36, 0x37, 0x38, 0x39]) == 0xCBF43926
  {
    hide Register, ByteIn;
    var a: seq<bv8>, b: seq<bv8>, c: seq<bv8> := [0x31, 0x32, 0x33, 0x34], [0x35, 0x36, 0x37, 0x38], [0x39];
    FirstFour();
    NextFour();
    LastOne();
    RegisterConcat(0xFFFF_FFFF, a, b);
    RegisterConcat(0xFFFF_FFFF, a + b, c);
    assert a + b + c == [0x31, 0x32, 0x33, 0x34, 0x35, 0x36, 0x37, 0x38, 0x39];
  }

  function LowByte(x: bv32): bv8 { (x & 0xFF) as bv8 }

  function HighBytes(x: bv32): bv32 { x >> 8 }

  /** The four bytes of a word, low byte first, as a sender appends them. */
  function LittleEndian(x: bv32): (r: seq<bv8>)
    ensures |r| == 4
  {
    [LowByte(x), LowByte(HighBytes(x)), LowByte(HighBytes(HighBytes(x))), LowByte(HighBytes(HighBytes(HighBytes(x))))]
  }

  lemma SplitLow(c: bv32, x: bv32, y: bv32)
    requires Xored(c, x, y)
    ensures Xored(c ^ (LowByte(x) as bv32), x & 0xFFFF_FF00, y)
    ensures (x & 0xFFFF_FF00) & 0xFF == 0 && (x & 0xFFFF_FF00) >> 8 == HighBytes(x)
  {}

  /** Absorbing the low byte of x into c is eight steps of c ^ x, with the rest of x still to come. */
  lemma LowByteIn(c: bv32, x: bv32, y: bv32)
    requires Xored(c, x, y)
    ensures Xored(ByteIn(c, LowByte(x)), HighBytes(x), Steps(8, y))
  {
    hide Xored, Steps, LowByte, HighBytes;
    SplitLow(c, x, y);
    ClearLowByte(x & 0xFFFF_FF00);
    StepsLinear(8, c ^ (LowByte(x) as bv32), x & 0xFFFF_FF00, y);
  }

  lemma NoMoreBytes(x: bv32)
    ensures HighBytes(HighBytes(HighBytes(HighBytes(x)))) == 0
  {}

  /** Absorbing the four bytes of x into c is 32 steps of c ^ x. */
  lemma WordIn(c: bv32, x: bv32, y: bv32)
    requires Xored(c, x, y)
    ensures Register(c, LittleEndian(x)) == Steps(8, Steps(8, Steps(8, Steps(8, y))))
  {
    hide Register, ByteIn, Steps, Xored, LowByte, HighBytes;
    var x1 := HighBytes(x);
    var x2 := HighBytes(x1);
    var x3 := HighBytes(x2);
    var c1 := ByteIn(c, LowByte(x));
    var c2 := ByteIn(c1, LowByte(x1));
    var c3 := ByteIn(c2, LowByte(x2));
    var c4 := ByteIn(c3, LowByte(x3));
    LowByteIn(c, x, y);
    LowByteIn(c1, x1, Steps(8, y));
    LowByteIn(c2, x2, Steps(8, Steps(8, y)));
    LowByteIn(c3, x3, Steps(8, Steps(8, Steps(8, y))));
    NoMoreBytes(x);
    XoredZero(c4, HighBytes(x3), Steps(8, Steps(8, Steps(8, Steps(8, y)))));
    FourBytes(c, LowByte(x), LowByte(x1), LowByte(x2), LowByte(x3));
  }

  lemma FourBytes(c: bv32, b0: bv8, b1: bv8, b2: bv8, b3: bv8)
    ensures Register(c, [b0, b1, b2, b3]) == ByteIn(ByteIn(ByteIn(ByteIn(c, b0), b1), b2), b3)
  {
    hide Register, ByteIn;
    assert [b0, b1, b2, b3] == [b0] + [b1, b2, b3] && [b1, b2, b3] == [b1] + [b2, b3];
    assert [b2, b3] == [b2] + [b3] && [b3] == [b3] + [];
    RegisterOne(c, b0, [b1, b2, b3]);
    RegisterOne(ByteIn(c, b0), b1, [b2, b3]);
    RegisterOne(ByteIn(ByteIn(c, b0), b1), b2, [b3]);
    RegisterOne(ByteIn(ByteIn(ByteIn(c, b0), b1), b2), b3, []);
    RegisterNone(ByteIn(ByteIn(ByteIn(ByteIn(c, b0), b1), b2), b3));
  }

  /** 32 steps reach the residue from all ones and from nothing else. */
  lemma ResidueSteps(y: bv32)
    ensures Steps(8, Steps(8, Steps(8, Steps(8, y)))) == 0xDEBB20E3 <==> y == 0xFFFF_FFFF
  {
    hide Steps;
    OnesSteps();
    SecondSteps();
    ThirdSteps();
    FourthSteps();
    if y != 0xFFFF_FFFF {
      var a := Steps(8, y);
      StepsInjective(8, y, 0xFFFF_FFFF);
      StepsInjective(8, a, 0x2DFD1072);
      StepsInjective(8, Steps(8, a), 0xBE26ED00);
      StepsInjective(8, Steps(8, Steps(8, a)), 0x00BE26ED);
    }
  }

  lemma Complement(c: bv32, x: bv32, y: bv32, z: bv32)
    requires Xored(c, x, y) && Xored(c, 0xFFFF_FFFF, z)
    ensures y == 0xFFFF_FFFF <==> x == z
  {}

  lemma ResidueRegister(c: bv32, x: bv32, z: bv32)
    requires Xored(c, 0xFFFF_FFFF, z)
    ensures Register(c, LittleEndian(x)) == 0xDEBB20E3 <==> x == z
  {
    hide Steps, LittleEndian, Register;
    var y := c ^ x;
    WordIn(c, x, y);
    ResidueSteps(y);
    Complement(c, x, y, z);
  }

  /** The receiver's test: over the message and four bytes low byte first, the register started at all
      ones ends in 0xDEBB20E3 exactly when those bytes are the checksum. */
  lemma ResidueIff(data: seq<bv8>, x: bv32)
    ensures Register(0xFFFF_FFFF, data + LittleEndian(x)) == 0xDEBB20E3 <==> x == Crc(data)
  {
    hide Steps, LittleEndian, Register;
    var c := Register(0xFFFF_FFFF, data);
    RegisterConcat(0xFFFF_FFFF, data, LittleEndian(x));
    ResidueRegister(c, x, Crc(data));
  }

  lemma EnterInjective(x: bv32, y: bv32, bit: bool)
    requires Enter(x, bit) == Enter(y, bit)
    ensures x == y
  {}

  lemma FeedBitInjective(x: bv32, y: bv32, bit: bool)
    requires FeedBit(x, bit) == FeedBit(y, bit)
    ensures x == y
  {
    hide Step, Enter;
    StepInjective(Enter(x, bit), Enter(y, bit));
    EnterInjective(x, y, bit);
  }

  lemma FeedInjective(x: bv32, y: bv32, bits: seq<bool>)
    requires x != y
    ensures Feed(x, bits) != Feed(y, bits)
  {
    hide FeedBit;
    forall x, y, bit | FeedBit(x, bit) == FeedBit(y, bit) ensures x == y {
      FeedBitInjective(x, y, bit);
    }
    FoldInjective(FeedBit, x, y, bits);
  }

  /** 2^n, for n up to 31. */
  function Limit(n: nat): bv32
    requires n <= 31
    decreases 31 - n
  {
    if n == 31 then 0x8000_0000 else Half(Limit(n + 1))
  }

  predicate Below(d: bv32, limit: bv32) { d < limit }

  function Twice(d: bv32): bv32 { d << 1 }

  lemma LimitZero()
    ensures Limit(0) == 1
  {
    assert Limit(21) == 0x20_0000;
    assert Limit(11) == 0x800;
  }

  lemma TopDown(d: bv32, limit: bv32)
    requires Below(d, Half(limit))
    ensures Below(d, 0x8000_0000)
  {}

  lemma {:induction false} LimitBound(d: bv32, n: nat)
    requires n <= 31 && Below(d, Limit(n))
    ensures Below(d, 0x8000_0000)
  {
    hide Below, Half;
    if n < 31 { TopDown(d, Limit(n + 1)); }
  }

  lemma EvenBelow(d: bv32, d1: bv32, limit: bv32)
    requires Below(d1, Half(limit)) && d == Twice(d1)
    ensures Below(d, limit)
  {}

  lemma OddBelow(d: bv32, d1: bv32, limit: bv32)
    requires Below(d1, Half(limit)) && d ^ 1 == Twice(d1)
    ensures Below(d, limit)
  {}

  lemma EvenZero(d: bv32, d1: bv32)
    requires Below(d1, 0x8000_0000) && d == Twice(d1) && d == 0
    ensures d1 == 0
  {}

  lemma OddNonzero(d: bv32, d1: bv32)
    requires d ^ 1 == Twice(d1)
    ensures d != 0
  {}

  /** One bit of the feed, read backwards from a register below 2^31. */
  lemma BackBit(d: bv32, bit: bool, d1: bv32)
    requires d1 == FeedBit(d, bit) && Below(d1, 0x8000_0000)
    ensures Enter(d, bit) == Twice(d1)
  {
    StepBack(Enter(d, bit));
  }

  lemma BackBound(d: bv32, bit: bool, d1: bv32, n: nat)
    requires n <= 31 && Enter(d, bit) == Twice(d1) && Below(d1, Limit(n))
    ensures n < 31 ==> Below(d, Limit(n + 1))
    ensures d == 0 ==> !bit && d1 == 0
  {
    hide Below, Twice, Half;
    LimitBound(d1, n);
    if bit {
      OddNonzero(d, d1);
      if n < 31 { OddBelow(d, d1, Limit(n + 1)); }
    } else {
      if d == 0 { EvenZero(d, d1); }
      if n < 31 { EvenBelow(d, d1, Limit(n + 1)); }
    }
  }

  /** Feeding w empties the register only if the register held those very bits. */
  ghost predicate HeldBits(d: bv32, w: seq<bool>) {
    && (|w| <= 31 ==> Below(d, Limit(|w|)))
    && (|w| <= 32 && d == 0 ==> forall i :: 0 <= i < |w| ==> !w[i])
  }

  lemma HeldBack(d: bv32, bit: bool, rest: seq<bool>, d1: bv32)
    requires d1 == FeedBit(d, bit) && HeldBits(d1, rest)
    ensures HeldBits(d, [bit] + rest)
  {
    hide FeedBit, Below, Limit, Twice, Enter;
    if |rest| <= 31 {
      LimitBound(d1, |rest|);
      BackBit(d, bit, d1);
      BackBound(d, bit, d1, |rest|);
    }
  }

  lemma HeldEmpty()
    ensures HeldBits(0, [])
  {
    LimitZero();
  }

  lemma WindowVanishes(d: bv32, w: seq<bool>)
    requires Feed(d, w) == 0
    ensures HeldBits(d, w)
  {
    hide FeedBit, HeldBits;
    forall d, bit, rest | HeldBits(FeedBit(d, bit), rest) ensures HeldBits(d, [bit] + rest) {
      HeldBack(d, bit, rest, FeedBit(d, bit));
    }
    HeldEmpty();
    FoldBackward(FeedBit, HeldBits, d, w);
  }

  lemma WindowDetected(s: bv32, u: seq<bool>, v: seq<bool>)
    requires |u| == |v| <= 32 && u != v
    ensures Feed(s, u) != Feed(s, v)
  {
    hide Feed;
    var w := seq(|u|, i requires 0 <= i < |u| => u[i] != v[i]);
    FeedLinear(s, s, 0, u, v, w);
    XoredDiffer(Feed(s, u), Feed(s, v), Feed(0, w));
    var i :| 0 <= i < |u| && u[i] != v[i];
    assert w[i];
    if Feed(0, w) == 0 {
      WindowVanishes(0, w);
      assert false;
    }
  }

  lemma BurstFeed(c: bv32, pre: seq<bool>, u: seq<bool>, v: seq<bool>, post: seq<bool>)
    requires |u| == |v| <= 32 && u != v
    ensures Feed(c, pre + u + post) != Feed(c, pre + v + post)
  {
    hide FeedBit;
    FoldConcat(FeedBit, c, pre + u, post);
    FoldConcat(FeedBit, c, pre, u);
    FoldConcat(FeedBit, c, pre + v, post);
    FoldConcat(FeedBit, c, pre, v);
    WindowDetected(Feed(c, pre), u, v);
    FeedInjective(Feed(Feed(c, pre), u), Feed(Feed(c, pre), v), post);
  }

  lemma ComplementInjective(x: bv32, y: bv32)
    requires x != y
    ensures x ^ ONES != y ^ ONES
  {}

  /** Messages whose bit streams differ only inside 32 consecutive bits have different checksums. */
  lemma BurstDetected(a: seq<bv8>, b: seq<bv8>, pre: seq<bool>, u: seq<bool>, v: seq<bool>, post: seq<bool>)
    requires Bits(a) == pre + u + post && Bits(b) == pre + v + post
    requires |u| == |v| <= 32 && u != v
    ensures Crc(a) != Crc(b)
  {
    RegisterIsFeed(ONES, a);
    RegisterIsFeed(ONES, b);
    BurstFeed(ONES, pre, u, v, post);
    ComplementInjective(Register(ONES, a), Register(ONES, b));
  }

  lemma {:induction false} BitsConcat(a: seq<bv8>, b: seq<bv8>)
    ensures Bits(a + b) == Bits(a) + Bits(b)
    decreases |a|
  {
    if a == [] {
      assert a + b == b;
    } else {
      assert (a + b)[1..] == a[1..] + b;
      BitsConcat(a[1..], b);
    }
  }

  lemma WidenInjective(a: bv8, b: bv8)
    requires a != b
    ensures 0 ^ (a as bv32) != 0 ^ (b as bv32)
  {}

  lemma ByteBitsInjective(a: bv8, b: bv8)
    requires a != b
    ensures ByteBits(a) != ByteBits(b)
  {
    WidenInjective(a, b);
    StepsInjective(8, 0 ^ (a as bv32), 0 ^ (b as bv32));
    FeedByte(0, a);
    FeedByte(0, b);
  }

  lemma {:induction false} BitsInjective(a: seq<bv8>, b: seq<bv8>)
    requires |a| == |b| && a != b
    ensures Bits(a) != Bits(b)
    decreases |a|
  {
    if a[0] != b[0] {
      ByteBitsInjective(a[0], b[0]);
      assert Bits(a)[..8] == ByteBits(a[0]) && Bits(b)[..8] == ByteBits(b[0]);
    } else {
      assert a == [a[0]] + a[1..] && b == [b[0]] + b[1..];
      BitsInjective(a[1..], b[1..]);
      assert Bits(a)[8..] == Bits(a[1..]) && Bits(b)[8..] == Bits(b[1..]);
    }
  }

  /** Strings that differ only inside four consecutive bytes have different checksums. */
  lemma FourBytesDetected(p: seq<bv8>, v: seq<bv8>, w: seq<bv8>, q: seq<bv8>)
    requires |v| == |w| <= 4 && v != w
    ensures Crc(p + v + q) != Crc(p + w + q)
  {
    BitsConcat(p + v, q);
    BitsConcat(p, v);
    BitsConcat(p + w, q);
    BitsConcat(p, w);
    BitsInjective(v, w);
    BurstDetected(p + v + q, p + w + q, Bits(p), Bits(v), Bits(w), Bits(q));
  }
}

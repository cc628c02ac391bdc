/** Instruction words, the fields IInfo extracts from them, and the opcode classes the decoder knows. */
module Instructions {

  /** A 32-bit instruction word. */
  type Word = w: int | 0 <= w < 0x1_0000_0000

  /** A parsed word: one constructor per instruction format. */
  datatype Ins =
    | R(op: int, rs: int, rt: int, rd: int, sa: int, func: int)
    | I(op: int, rs: int, rt: int, imm: int)
    | J(op: int, addr: int)

  const NOP := R(0, 0, 0, 0, 0, 0)

  predicate IsRType(op: int) {
    op == 0 || 15 < op < 20 || op == 31 || op == 28
  }

  predicate IsJType(op: int) {
    op == 2 || op == 3
  }

  /** The format fits the opcode and every field fits its bit-field. */
  predicate WellFormed(i: Ins) {
    match i
    case R(op, rs, rt, rd, sa, func) =>
      IsRType(op) && 0 <= op < 64 && 0 <= rs < 32 && 0 <= rt < 32 && 0 <= rd < 32 && 0 <= sa < 32 && 0 <= func < 64
    case I(op, rs, rt, imm) =>
      !IsRType(op) && !IsJType(op) && 0 <= op < 64 && 0 <= rs < 32 && 0 <= rt < 32 && 0 <= imm < 0x1_0000
    case J(op, addr) => IsJType(op) && 0 <= addr < 0x400_0000
  }

  // The encoding macros mask each field to its width before putting it in place. The two half words are
  // built separately: op, rs, rt above bit 16, and either imm or rd, sa, func below.
  function Mask(x: int, n: int): (m: int)
    requires n > 0
    ensures 0 <= m < n
  {
    if 0 <= x < n then x else x % n
  }

  function High(op: int, rs: int, rt: int): (h: int)
    ensures 0 <= h < 0x1_0000
  {
    Mask(op, 64) * 1024 + Mask(rs, 32) * 32 + Mask(rt, 32)
  }

  function Low(rd: int, sa: int, func: int): (l: int)
    ensures 0 <= l < 0x1_0000
  {
    Mask(rd, 32) * 2048 + Mask(sa, 32) * 64 + Mask(func, 64)
  }

  function Encode(i: Ins): Word {
    match i
    case R(op, rs, rt, rd, sa, func) => High(op, rs, rt) * 0x1_0000 + Low(rd, sa, func)
    case I(op, rs, rt, imm) => High(op, rs, rt) * 0x1_0000 + Mask(imm, 0x1_0000)
    case J(op, addr) => Mask(op, 64) * 0x400_0000 + Mask(addr, 0x400_0000)
  }

  /** IInfo::parse: a field of n bits that starts at bit k of a half word h is h / 2^k % 2^n. */
  function Parse(w: Word): Ins {
    var high, low := w / 0x1_0000, w % 0x1_0000;
    var op := high / 0x400;
    if IsRType(op) then R(op, high / 32 % 32, high % 32, low / 0x800, low / 64 % 32, low % 64)
    else if IsJType(op) then J(op, w % 0x400_0000)
    else I(op, high / 32 % 32, high % 32, low)
  }

  lemma HighParts(w: Word)
    ensures var high := w / 0x1_0000;
      high / 0x400 == w / 0x400_0000 && high / 32 % 32 == w / 0x20_0000 % 32 && high % 32 == w / 0x1_0000 % 32
  {
  }

  lemma LowAt64(w: int, h: int, l: int)
    requires w == h * 0x1_0000 + l
    ensures w / 64 == h * 0x400 + l / 64 && w % 64 == l % 64
  {
  }

  lemma ModAfter(a: int, b: int, h: int)
    requires a == h * 0x400 + b
    ensures a % 32 == b % 32
  {
    var q := b / 32;
    assert b == 32 * q + b % 32;
    RestIs(a, h * 32 + q, b % 32);
  }

  lemma RestIs(a: int, q: int, r: int)
    requires a == 32 * q + r && 0 <= r < 32
    ensures a % 32 == r
  {
  }

  lemma LowAt2048(w: int, h: int, l: int)
    requires w == h * 0x1_0000 + l && 0 <= l < 0x1_0000
    ensures w / 0x800 % 32 == l / 0x800
  {
    assert w / 0x800 == h * 32 + l / 0x800;
  }

  lemma LowParts(w: Word, h: int, l: int)
    requires w == h * 0x1_0000 + l && 0 <= l < 0x1_0000
    ensures l / 0x800 == w / 0x800 % 32 && l / 64 % 32 == w / 64 % 32 && l % 64 == w % 64
  {
    LowAt64(w, h, l);
    ModAfter(w / 64, l / 64, h);
    LowAt2048(w, h, l);
  }

  /** Where the fields are: counted from bit 0 of the word, op at 26, rs at 21, rt at 16, rd at 11, sa at 6, func at
      0, the immediate in the low 16 bits and the jump address in the low 26. */
  lemma FieldPlaces(w: Word)
    ensures var op := w / 0x400_0000;
      Parse(w)
      == if op == 0 || 16 <= op <= 19 || op == 28 || op == 31
         then R(op, w / 0x20_0000 % 32, w / 0x1_0000 % 32, w / 0x800 % 32, w / 64 % 32, w % 64)
         else if op == 2 || op == 3 then J(op, w % 0x400_0000)
         else I(op, w / 0x20_0000 % 32, w / 0x1_0000 % 32, w % 0x1_0000)
  {
    HighParts(w);
    LowParts(w, w / 0x1_0000, w % 0x1_0000);
  }

  lemma HighFields(a: int, b: int, c: int, h: int)
    requires 0 <= a < 64 && 0 <= b < 32 && 0 <= c < 32 && h == a * 1024 + b * 32 + c
    ensures h / 0x400 == a && h / 32 % 32 == b && h % 32 == c
  {
    assert h / 32 == a * 32 + b;
  }

  lemma LowFields(a: int, b: int, c: int, l: int)
    requires 0 <= a < 32 && 0 <= b < 32 && 0 <= c < 64 && l == a * 2048 + b * 64 + c
    ensures l / 0x800 == a && l / 64 % 32 == b && l % 64 == c
  {
    assert l / 64 == a * 32 + b;
  }

  lemma Halves(high: int, low: int)
    requires 0 <= low < 0x1_0000
    ensures (high * 0x1_0000 + low) / 0x1_0000 == high && (high * 0x1_0000 + low) % 0x1_0000 == low
  {
  }

  lemma ParseHalves(h: int, l: int)
    requires 0 <= h < 0x1_0000 && 0 <= l < 0x1_0000 && IsRType(h / 0x400)
    ensures Parse(h * 0x1_0000 + l) == R(h / 0x400, h / 32 % 32, h % 32, l / 0x800, l / 64 % 32, l % 64)
  {
    Halves(h, l);
  }

  lemma ParsePackedR(op: int, rs: int, rt: int, rd: int, sa: int, func: int, h: int, l: int)
    requires WellFormed(R(op, rs, rt, rd, sa, func))
    requires h == op * 1024 + rs * 32 + rt && l == rd * 2048 + sa * 64 + func
    ensures Parse(h * 0x1_0000 + l) == R(op, rs, rt, rd, sa, func)
  {
    HighFields(op, rs, rt, h);
    LowFields(rd, sa, func, l);
    ParseHalves(h, l);
  }

  lemma ParseR(op: int, rs: int, rt: int, rd: int, sa: int, func: int)
    requires WellFormed(R(op, rs, rt, rd, sa, func))
    ensures Parse(Encode(R(op, rs, rt, rd, sa, func))) == R(op, rs, rt, rd, sa, func)
  {
    ParsePackedR(op, rs, rt, rd, sa, func, High(op, rs, rt), Low(rd, sa, func));
  }

  lemma ParsePackedI(op: int, rs: int, rt: int, imm: int, h: int)
    requires WellFormed(I(op, rs, rt, imm)) && h == op * 1024 + rs * 32 + rt
    ensures Parse(h * 0x1_0000 + imm) == I(op, rs, rt, imm)
  {
    HighFields(op, rs, rt, h);
    Halves(h, imm);
  }

  lemma ParseI(op: int, rs: int, rt: int, imm: int)
    requires WellFormed(I(op, rs, rt, imm))
    ensures Parse(Encode(I(op, rs, rt, imm))) == I(op, rs, rt, imm)
  {
    ParsePackedI(op, rs, rt, imm, High(op, rs, rt));
  }

  lemma ParseJ(op: int, addr: int)
    requires WellFormed(J(op, addr))
    ensures Parse(Encode(J(op, addr))) == J(op, addr)
  {
    assert (op * 0x400_0000 + addr) / 0x1_0000 == op * 0x400 + addr / 0x1_0000;
    assert (op * 0x400 + addr / 0x1_0000) / 0x400 == op;
  }

  /** Every field survives the encoding macros: parsing an encoded instruction gives it back. */
  lemma ParseEncode(i: Ins)
    requires WellFormed(i)
    ensures Parse(Encode(i)) == i
  {
    match i
    case R(op, rs, rt, rd, sa, func) => ParseR(op, rs, rt, rd, sa, func);
    case I(op, rs, rt, imm) => ParseI(op, rs, rt, imm);
    case J(op, addr) => ParseJ(op, addr);
  }

  lemma HighRound(h: int)
    requires 0 <= h < 0x1_0000
    ensures 0 <= h / 0x400 < 64 && High(h / 0x400, h / 32 % 32, h % 32) == h
  {
    var q := h / 32;
    assert h == q * 32 + h % 32 && q == q / 32 * 32 + q % 32 && h / 0x400 == q / 32;
  }

  lemma LowRound(l: int)
    requires 0 <= l < 0x1_0000
    ensures 0 <= l / 0x800 < 32 && Low(l / 0x800, l / 64 % 32, l % 64) == l
  {
    var q := l / 64;
    assert l == q * 64 + l % 64 && q == q / 32 * 32 + q % 32 && l / 0x800 == q / 32;
  }

  lemma EncodeHalves(h: int, l: int)
    requires 0 <= h < 0x1_0000 && 0 <= l < 0x1_0000
    ensures Encode(R(h / 0x400, h / 32 % 32, h % 32, l / 0x800, l / 64 % 32, l % 64)) == h * 0x1_0000 + l
    ensures Encode(I(h / 0x400, h / 32 % 32, h % 32, l)) == h * 0x1_0000 + l
  {
    HighRound(h);
    LowRound(l);
  }

  /** Encoding the parsed fields of any word gives the word back. */
  lemma EncodeParse(w: Word)
    ensures WellFormed(Parse(w)) && Encode(Parse(w)) == w
  {
    var h, l := w / 0x1_0000, w % 0x1_0000;
    EncodeHalves(h, l);
    if IsJType(h / 0x400) {
      assert h / 0x400 == w / 0x400_0000;
    }
  }
}

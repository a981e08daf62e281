/**
 Loads and stores over words, against byte memory.

 The load/store unit keeps whole words: a sub-word store merges its bytes into the word
 it read, a load extracts and extends. Registers and addresses are 32 bits.
 */
module ByteMemory {

  type Bits = bv32

  // --- the unit's own arithmetic ----------------------------------------------------

  function ByteOffset(addr: Bits): Bits { (addr & 3) << 3 }

  function HalfOffset(addr: Bits): Bits { (addr & 2) << 3 }

  function MergeByte(word: Bits, data: Bits, off: Bits): Bits
    requires off <= 24
  {
    var mask: Bits := 0xff << off;
    (word & !mask) | ((data & 0xff) << off)
  }

  function MergeHalf(word: Bits, data: Bits, off: Bits): Bits
    requires off <= 16
  {
    var mask: Bits := 0xffff << off;
    (word & !mask) | ((data & 0xffff) << off)
  }

  function ExtractByte(word: Bits, off: Bits): Bits
    requires off <= 24
  {
    (word >> off) & 0xff
  }

  function ExtractHalf(word: Bits, off: Bits): Bits
    requires off <= 16
  {
    (word >> off) & 0xffff
  }

  function SextByte(v: Bits): Bits { (v ^ 0x80) - 0x80 }

  function SextHalf(v: Bits): Bits { (v ^ 0x8000) - 0x8000 }

  datatype Load = LW | LH | LHU | LB | LBU
  datatype Store = SW | SH | SB

  function Size(wide: bool, half: bool): Bits { if wide then 4 else if half then 2 else 1 }

  function LoadSize(op: Load): Bits { Size(op.LW?, op.LH? || op.LHU?) }

  function StoreSize(op: Store): Bits { Size(op.SW?, op.SH?) }

  predicate Aligned(addr: Bits, size: Bits)
    requires size > 0
  {
    addr & (size - 1) == 0
  }

  /** Stage 1: the loaded word, extracted and extended. */
  function LoadResult(op: Load, word: Bits, addr: Bits): Bits
  {
    OffsetsFit(addr);
    match op
    case LW => word
    case LBU => ExtractByte(word, ByteOffset(addr))
    case LHU => ExtractHalf(word, HalfOffset(addr))
    case LB => SextByte(ExtractByte(word, ByteOffset(addr)))
    case LH => SextHalf(ExtractHalf(word, HalfOffset(addr)))
  }

  /** Stage 0: the word a store pushes, built from the word it read. */
  function StoreWord(op: Store, word: Bits, data: Bits, addr: Bits): Bits
  {
    OffsetsFit(addr);
    match op
    case SW => data
    case SH => MergeHalf(word, data, HalfOffset(addr))
    case SB => MergeByte(word, data, ByteOffset(addr))
  }

  lemma OffsetsFit(addr: Bits)
    ensures ByteOffset(addr) <= 24 && HalfOffset(addr) <= 16
  {
  }

  // --- byte memory ------------------------------------------------------------------

  type Memory = Bits -> Bits

  /** Memory is addressed by words: the word a byte address falls in. */
  function WordOf(addr: Bits): Bits { addr >> 2 }

  /** The address k bytes up, and the k-th byte of a word. */
  function Up(addr: Bits, k: Bits): Bits { addr + k }

  function Piece(data: Bits, k: Bits): Bits
    requires k <= 3
  {
    (data >> (k << 3)) & 0xff
  }

  ghost function Put(m: Memory, at: Bits, v: Bits): Memory
  {
    x => if x == at then v else m(x)
  }

  /** Little-endian: the byte at the lowest address is the least significant. */
  ghost function PutBytes(m: Memory, op: Store, addr: Bits, data: Bits): Memory
  {
    match op
    case SB => Put(m, addr, Piece(data, 0))
    case SH => Put(Put(m, addr, Piece(data, 0)), Up(addr, 1), Piece(data, 1))
    case SW => Put(Put(Put(Put(m, addr, Piece(data, 0)), Up(addr, 1), Piece(data, 1)),
                       Up(addr, 2), Piece(data, 2)), Up(addr, 3), Piece(data, 3))
  }

  /** The bytes a load reads, lowest address least significant, extended to 32 bits. */
  ghost function GetBytes(m: Memory, op: Load, addr: Bits): Bits
  {
    Extended(op, m(addr), m(Up(addr, 1)), m(Up(addr, 2)), m(Up(addr, 3)))
  }

  function Extended(op: Load, b0: Bits, b1: Bits, b2: Bits, b3: Bits): Bits
  {
    match op
    case LBU => b0
    case LB => if IsNegative(b0) then b0 | 0xffff_ff00 else b0
    case LHU => Pair(b0, b1)
    case LH => if IsNegative(b1) then Upper(Pair(b0, b1)) else Pair(b0, b1)
    case LW => Pair(b0, b1) | (Pair(b2, b3) << 16)
  }

  function Pair(b0: Bits, b1: Bits): Bits { b0 | (b1 << 8) }

  predicate IsNegative(b: Bits) { b >= 0x80 }

  function Upper(h: Bits): Bits { h | 0xffff_0000 }

  // --- the word memory stands for the byte memory -----------------------------------

  ghost predicate Stands(words: Memory, bytes: Memory)
  {
    forall a: Bits :: bytes(a) == ByteAt(words(WordOf(a)), a)
  }

  /** The byte of its word that an address names. */
  function ByteAt(word: Bits, addr: Bits): Bits
  {
    OffsetsFit(addr);
    (word >> ByteOffset(addr)) & 0xff
  }

  /** The word memory after a store through the unit. */
  ghost function StoreThrough(words: Memory, op: Store, addr: Bits, data: Bits): Memory
  {
    Put(words, WordOf(addr), StoreWord(op, words(WordOf(addr)), data, addr))
  }

  // --- where an aligned access falls ------------------------------------------------

  lemma Offsets(addr: Bits)
    ensures addr & 3 == 0 || addr & 3 == 1 || addr & 3 == 2 || addr & 3 == 3
  {
  }

  lemma SameWord(addr: Bits, a: Bits)
    requires WordOf(a) == WordOf(addr)
    ensures a == addr <==> a & 3 == addr & 3
  {
  }

  lemma UpOne(addr: Bits)
    requires addr & 1 == 0
    ensures Up(addr, 1) == addr | 1
  {
  }

  lemma UpTwo(addr: Bits)
    requires addr & 3 == 0
    ensures Up(addr, 2) == addr | 2
  {
  }

  lemma UpThree(addr: Bits)
    requires addr & 3 == 0
    ensures Up(addr, 3) == addr | 3
  {
  }

  lemma OrInWord(addr: Bits)
    ensures WordOf(addr | 1) == WordOf(addr | 2) == WordOf(addr | 3) == WordOf(addr)
  {
  }

  lemma OrOffsets(addr: Bits)
    ensures (addr | 1) & 3 == (addr & 3) | 1 && (addr | 2) & 3 == (addr & 3) | 2 && (addr | 3) & 3 == 3
  {
  }

  // --- stores -----------------------------------------------------------------------

  /** A merged word has the store's own bytes, and every other byte as it was. */
  lemma MergedByte(word: Bits, data: Bits, addr: Bits, a: Bits)
    ensures ByteAt(StoreWord(SB, word, data, addr), a) == if a & 3 == addr & 3 then Piece(data, 0) else ByteAt(word, a)
  {
    OffsetsFit(addr);
    OffsetsFit(a);
    var i, j := addr & 3, a & 3;
    assert i == 0 || i == 1 || i == 2 || i == 3;
    assert j == 0 || j == 1 || j == 2 || j == 3;
  }

  lemma MergedHalf(word: Bits, data: Bits, addr: Bits, a: Bits)
    requires addr & 1 == 0
    ensures ByteAt(StoreWord(SH, word, data, addr), a)
         == if a & 3 == addr & 3 then Piece(data, 0) else if a & 3 == (addr & 3) | 1 then Piece(data, 1) else ByteAt(word, a)
  {
    hide MergeHalf;
    OffsetsFit(addr);
    OffsetsFit(a);
    Offsets(a);
    var i, j := addr & 3, a & 3;
    assert i == 0 || i == 2;
    assert addr & 2 == i;
    MergedHalfBits(word, data, i << 3, j << 3);
  }

  lemma MergedHalfBits(word: Bits, data: Bits, off: Bits, at: Bits)
    requires (off == 0 || off == 16) && (at == 0 || at == 8 || at == 16 || at == 24)
    ensures (MergeHalf(word, data, off) >> at) & 0xff
         == if at == off then Piece(data, 0) else if at == off + 8 then Piece(data, 1) else (word >> at) & 0xff
  {
    if off == 0 {
      if at == 0 {} else if at == 8 {} else if at == 16 {} else {}
    } else {
      if at == 0 {} else if at == 8 {} else if at == 16 {} else {}
    }
  }

  lemma MergedWhole(word: Bits, data: Bits, addr: Bits, a: Bits)
    ensures ByteAt(StoreWord(SW, word, data, addr), a) == Piece(data, a & 3) && a & 3 <= 3
  {
    OffsetsFit(addr);
  }

  lemma StoreByteAt(words: Memory, bytes: Memory, addr: Bits, data: Bits, a: Bits)
    requires bytes(a) == ByteAt(words(WordOf(a)), a)
    ensures PutBytes(bytes, SB, addr, data)(a) == ByteAt(StoreThrough(words, SB, addr, data)(WordOf(a)), a)
  {
    hide StoreWord, ByteAt, WordOf, Piece;
    if WordOf(a) == WordOf(addr) {
      MergedByte(words(WordOf(addr)), data, addr, a);
      SameWord(addr, a);
    }
  }

  lemma StoreHalfAt(words: Memory, bytes: Memory, addr: Bits, data: Bits, a: Bits)
    requires bytes(a) == ByteAt(words(WordOf(a)), a) && addr & 1 == 0
    ensures PutBytes(bytes, SH, addr, data)(a) == ByteAt(StoreThrough(words, SH, addr, data)(WordOf(a)), a)
  {
    hide StoreWord, ByteAt, WordOf, Piece, Up;
    UpOne(addr);
    OrInWord(addr);
    if WordOf(a) == WordOf(addr) {
      MergedHalf(words(WordOf(addr)), data, addr, a);
      SameWord(addr, a);
      SameWord(addr | 1, a);
      OrOffsets(addr);
    }
  }

  lemma StoreWholeAt(words: Memory, bytes: Memory, addr: Bits, data: Bits, a: Bits)
    requires bytes(a) == ByteAt(words(WordOf(a)), a) && addr & 3 == 0
    ensures PutBytes(bytes, SW, addr, data)(a) == ByteAt(StoreThrough(words, SW, addr, data)(WordOf(a)), a)
  {
    hide StoreWord, ByteAt, WordOf, Piece, Up;
    UpOne(addr);
    UpTwo(addr);
    UpThree(addr);
    OrInWord(addr);
    if WordOf(a) == WordOf(addr) {
      MergedWhole(words(WordOf(addr)), data, addr, a);
      SameWord(addr, a);
      SameWord(addr | 1, a);
      SameWord(addr | 2, a);
      SameWord(addr | 3, a);
      OrOffsets(addr);
      Offsets(a);
    }
  }

  /** An aligned store through the unit is that store on byte memory. */
  lemma StoreRefines(words: Memory, bytes: Memory, op: Store, addr: Bits, data: Bits)
    requires Stands(words, bytes) && Aligned(addr, StoreSize(op))
    ensures Stands(StoreThrough(words, op, addr, data), PutBytes(bytes, op, addr, data))
  {
    hide StoreThrough, PutBytes, WordOf, ByteAt;
    forall a: Bits
      ensures PutBytes(bytes, op, addr, data)(a) == ByteAt(StoreThrough(words, op, addr, data)(WordOf(a)), a)
    {
      match op
      case SB => StoreByteAt(words, bytes, addr, data, a);
      case SH => StoreHalfAt(words, bytes, addr, data, a);
      case SW => StoreWholeAt(words, bytes, addr, data, a);
    }
  }

  // --- loads ------------------------------------------------------------------------

  lemma ByteRead(word: Bits, addr: Bits, b1: Bits, b2: Bits, b3: Bits)
    ensures LoadResult(LBU, word, addr) == Extended(LBU, ByteAt(word, addr), b1, b2, b3)
    ensures LoadResult(LB, word, addr) == Extended(LB, ByteAt(word, addr), b1, b2, b3)
  {
    OffsetsFit(addr);
  }

  lemma HalfRead(word: Bits, addr: Bits, b2: Bits, b3: Bits)
    requires addr & 1 == 0
    ensures LoadResult(LHU, word, addr) == Extended(LHU, ByteAt(word, addr), ByteAt(word, addr | 1), b2, b3)
    ensures LoadResult(LH, word, addr) == Extended(LH, ByteAt(word, addr), ByteAt(word, addr | 1), b2, b3)
  {
    hide SextHalf, ExtractHalf, ByteAt, HalfOffset, Pair, Piece, IsNegative, Upper, FitsHalf;
    HalfPieces(word, addr);
    var h := ExtractHalf(word, HalfOffset(addr));
    HalfJoin(h);
    HalfSign(h);
  }

  predicate FitsHalf(h: Bits) { h & 0xffff_0000 == 0 }

  lemma HalfPieces(word: Bits, addr: Bits)
    requires addr & 1 == 0
    ensures HalfOffset(addr) <= 16
    ensures var h := ExtractHalf(word, HalfOffset(addr));
            FitsHalf(h) && ByteAt(word, addr) == Piece(h, 0) && ByteAt(word, addr | 1) == Piece(h, 1)
  {
    OffsetsFit(addr);
    OffsetsFit(addr | 1);
    OrOffsets(addr);
    var i := addr & 3;
    assert i == 0 || i == 2;
    assert addr & 2 == i;
  }

  lemma HalfJoin(h: Bits)
    requires FitsHalf(h)
    ensures Pair(Piece(h, 0), Piece(h, 1)) == h
  {
  }

  lemma HalfSign(h: Bits)
    requires FitsHalf(h)
    ensures SextHalf(h) == if IsNegative(Piece(h, 1)) then Upper(h) else h
  {
    hide SextHalf, Piece, IsNegative, Upper;
    SignBit(h);
    if h & 0x8000 == 0 { SextLow(h); } else { SextHigh(h); }
  }

  lemma SignBit(h: Bits)
    ensures IsNegative(Piece(h, 1)) <==> h & 0x8000 != 0
  {
  }

  lemma SextLow(h: Bits)
    requires FitsHalf(h) && h & 0x8000 == 0
    ensures SextHalf(h) == h
  {
  }

  lemma SextHigh(h: Bits)
    requires FitsHalf(h) && h & 0x8000 != 0
    ensures SextHalf(h) == Upper(h)
  {
  }

  lemma WholeRead(word: Bits, addr: Bits)
    requires addr & 3 == 0
    ensures LoadResult(LW, word, addr)
         == Extended(LW, ByteAt(word, addr), ByteAt(word, addr | 1), ByteAt(word, addr | 2), ByteAt(word, addr | 3))
  {
    hide ByteAt, Pair, Piece;
    OffsetsFit(addr);
    WholePieces(word, addr);
    WholeJoin(word);
  }

  lemma WholePieces(word: Bits, addr: Bits)
    requires addr & 3 == 0
    ensures ByteAt(word, addr) == Piece(word, 0) && ByteAt(word, addr | 1) == Piece(word, 1)
    ensures ByteAt(word, addr | 2) == Piece(word, 2) && ByteAt(word, addr | 3) == Piece(word, 3)
  {
    OffsetsFit(addr);
    OffsetsFit(addr | 1);
    OffsetsFit(addr | 2);
    OffsetsFit(addr | 3);
    assert addr & 3 == 0 && (addr | 1) & 3 == 1 && (addr | 2) & 3 == 2 && (addr | 3) & 3 == 3;
  }

  lemma WholeJoin(word: Bits)
    ensures word == Pair(Piece(word, 0), Piece(word, 1)) | (Pair(Piece(word, 2), Piece(word, 3)) << 16)
  {
  }

  /** An aligned load's result is what byte memory holds there, extended as the load says. */
  lemma LoadRefines(words: Memory, bytes: Memory, op: Load, addr: Bits)
    requires Stands(words, bytes) && Aligned(addr, LoadSize(op))
    ensures LoadResult(op, words(WordOf(addr)), addr) == GetBytes(bytes, op, addr)
  {
    hide LoadResult, ByteAt, WordOf, Extended, Up;
    var word := words(WordOf(addr));
    OrInWord(addr);
    if op.LB? || op.LBU? {
      ByteRead(word, addr, bytes(Up(addr, 1)), bytes(Up(addr, 2)), bytes(Up(addr, 3)));
    } else if op.LH? || op.LHU? {
      UpOne(addr);
      HalfRead(word, addr, bytes(Up(addr, 2)), bytes(Up(addr, 3)));
    } else {
      UpOne(addr);
      UpTwo(addr);
      UpThree(addr);
      WholeRead(word, addr);
    }
  }

  // --- and only aligned accesses are right ------------------------------------------------

  /** The bytes a word memory stands for. */
  ghost function BytesOf(words: Memory): Memory
  {
    a => ByteAt(words(WordOf(a)), a)
  }

  lemma BytesStand(words: Memory)
    ensures Stands(words, BytesOf(words))
  {
    hide ByteAt, WordOf;
  }

  /** One word set apart from zeros. */
  ghost function Lone(addr: Bits, word: Bits): Memory
  {
    Put(_ => 0, WordOf(addr), word)
  }

  /** Every byte a misaligned access should read, from a word that tells them apart. */
  lemma MisalignedBytes(addr: Bits, k: Bits)
    requires addr & 3 != 0 && 1 <= k <= 3
    ensures var w := ByteAt(0x00ff_00ff, addr & 3);
            BytesOf(Lone(addr, 0x00ff_00ff))(addr) == w
    ensures BytesOf(Lone(addr, 0x00ff_00ff))(Up(addr, k))
         == if (addr & 3) + k <= 3 then ByteAt(0x00ff_00ff, (addr & 3) + k) else 0
  {
    hide WordOf, ByteAt, Up;
    SameByte(0x00ff_00ff, addr);
    UpByte(addr, k);
    if WordOf(Up(addr, k)) == WordOf(addr) { SameByte(0x00ff_00ff, Up(addr, k)); }
    ZeroByte(Up(addr, k));
  }

  lemma SameByte(word: Bits, a: Bits)
    ensures ByteAt(word, a) == ByteAt(word, a & 3)
  {
    OffsetsFit(a);
    OffsetsFit(a & 3);
    assert a & 3 & 3 == a & 3;
  }

  lemma ZeroByte(a: Bits)
    ensures ByteAt(0, a) == 0
  {
    OffsetsFit(a);
  }

  lemma UpByte(addr: Bits, k: Bits)
    requires addr & 3 != 0 && 1 <= k <= 3
    ensures WordOf(Up(addr, k)) == WordOf(addr) <==> (addr & 3) + k <= 3
    ensures (addr & 3) + k <= 3 ==> Up(addr, k) & 3 == (addr & 3) + k
  {
    assert k == 1 || k == 2 || k == 3;
    Offsets(addr);
    if addr & 3 == 1 { UpFrom(addr, 1, k); } else if addr & 3 == 2 { UpFrom(addr, 2, k); } else { UpFrom(addr, 3, k); }
  }

  lemma UpFrom(addr: Bits, off: Bits, k: Bits)
    requires addr & 3 == off && 1 <= off <= 3 && 1 <= k <= 3
    ensures WordOf(Up(addr, k)) == WordOf(addr) <==> off + k <= 3
    ensures off + k <= 3 ==> Up(addr, k) & 3 == off + k
  {
  }

  lemma MisalignedLoad(op: Load, addr: Bits)
    requires !Aligned(addr, LoadSize(op))
    ensures LoadResult(op, 0x00ff_00ff, addr) != GetBytes(BytesOf(Lone(addr, 0x00ff_00ff)), op, addr)
  {
    hide WordOf, Up, BytesOf, Lone;
    OffsetsFit(addr);
    Offsets(addr);
    MisalignedBytes(addr, 1);
    MisalignedBytes(addr, 2);
    MisalignedBytes(addr, 3);
    OffsetsFit(0);
    OffsetsFit(1);
    OffsetsFit(2);
    OffsetsFit(3);
    if addr & 3 == 1 {
      assert addr & 2 == 0;
    } else if addr & 3 == 2 {
      assert addr & 1 == 0;
    } else {
      assert addr & 2 == 2;
    }
  }

  /** A load returns its bytes, whatever memory holds, exactly when it is aligned. */
  lemma LoadRightIffAligned(op: Load, addr: Bits)
    ensures (forall words, bytes :: Stands(words, bytes) ==> LoadResult(op, words(WordOf(addr)), addr) == GetBytes(bytes, op, addr))
            <==> Aligned(addr, LoadSize(op))
  {
    hide LoadResult, GetBytes, Stands, BytesOf, WordOf;
    if Aligned(addr, LoadSize(op)) {
      forall words, bytes | Stands(words, bytes) ensures LoadResult(op, words(WordOf(addr)), addr) == GetBytes(bytes, op, addr) {
        LoadRefines(words, bytes, op, addr);
      }
    } else {
      var words := Lone(addr, 0x00ff_00ff);
      BytesStand(words);
      MisalignedLoad(op, addr);
      assert Stands(words, BytesOf(words)) && words(WordOf(addr)) == 0x00ff_00ff;
    }
  }

  /** The byte below a misaligned store is one it does not name, and it is overwritten. */
  lemma MisalignedStore(op: Store, addr: Bits, zero: Memory)
    requires !Aligned(addr, StoreSize(op)) && forall a: Bits :: zero(a) == 0
    ensures PutBytes(zero, op, addr, 0xffff_ffff)(addr - 1) == 0
    ensures ByteAt(StoreThrough(zero, op, addr, 0xffff_ffff)(WordOf(addr - 1)), addr - 1) == 0xff
  {
    assert addr - 1 != addr && addr - 1 != addr + 1 && addr - 1 != addr + 2 && addr - 1 != addr + 3;
  }

  /** And a store changes the bytes it names and no other exactly when it is aligned. */
  lemma StoreRightIffAligned(op: Store, addr: Bits)
    ensures (forall words, bytes, data :: Stands(words, bytes) ==>
               Stands(StoreThrough(words, op, addr, data), PutBytes(bytes, op, addr, data)))
            <==> Aligned(addr, StoreSize(op))
  {
    hide StoreThrough, PutBytes, ByteAt, WordOf;
    if Aligned(addr, StoreSize(op)) {
      forall words, bytes, data | Stands(words, bytes)
        ensures Stands(StoreThrough(words, op, addr, data), PutBytes(bytes, op, addr, data))
      {
        StoreRefines(words, bytes, op, addr, data);
      }
    } else {
      var zero: Memory := _ => 0;
      forall a: Bits ensures zero(a) == ByteAt(zero(WordOf(a)), a) { ZeroByte(a); }
      assert Stands(zero, zero);
      MisalignedStore(op, addr, zero);
      assert !Stands(StoreThrough(zero, op, addr, 0xffff_ffff), PutBytes(zero, op, addr, 0xffff_ffff));
    }
  }

  // --- the bytes an access names, one by one --------------------------------------------------

  /** A store puts the bytes of its data from its address on, as many as it is wide, the least
      significant first, and changes no other. */
  lemma PutBytesAt(m: Memory, op: Store, addr: Bits, data: Bits, a: Bits)
    ensures PutBytes(m, op, addr, data)(addr) == data & 0xff
    ensures !op.SB? ==> PutBytes(m, op, addr, data)(Up(addr, 1)) == (data >> 8) & 0xff
    ensures op.SW? ==> PutBytes(m, op, addr, data)(Up(addr, 2)) == (data >> 16) & 0xff
    ensures op.SW? ==> PutBytes(m, op, addr, data)(Up(addr, 3)) == (data >> 24) & 0xff
    ensures a != addr && (op.SB? || a != Up(addr, 1)) && (op.SW? ==> a != Up(addr, 2) && a != Up(addr, 3)) ==>
              PutBytes(m, op, addr, data)(a) == m(a)
  {
    hide Up, Piece;
    Ups(addr);
    Pieces(data);
  }

  lemma Ups(a: Bits)
    ensures Up(a, 1) == a + 1 && Up(a, 2) == a + 2 && Up(a, 3) == a + 3
    ensures a != Up(a, 1) && a != Up(a, 2) && a != Up(a, 3)
    ensures Up(a, 1) != Up(a, 2) && Up(a, 1) != Up(a, 3) && Up(a, 2) != Up(a, 3)
  {
  }

  lemma Pieces(data: Bits)
    ensures Piece(data, 0) == data & 0xff && Piece(data, 1) == (data >> 8) & 0xff
    ensures Piece(data, 2) == (data >> 16) & 0xff && Piece(data, 3) == (data >> 24) & 0xff
  {
  }

  /** A load puts the bytes it reads together, the least significant first, and extends the
      highest one's sign where it is signed. */
  lemma ExtendedIs(op: Load, b0: Bits, b1: Bits, b2: Bits, b3: Bits)
    ensures op.LBU? ==> Extended(op, b0, b1, b2, b3) == b0
    ensures op.LB? ==> Extended(op, b0, b1, b2, b3) == if b0 >= 0x80 then b0 | 0xffff_ff00 else b0
    ensures op.LHU? ==> Extended(op, b0, b1, b2, b3) == b0 | (b1 << 8)
    ensures op.LH? ==> Extended(op, b0, b1, b2, b3) == if b1 >= 0x80 then (b0 | (b1 << 8)) | 0xffff_0000 else b0 | (b1 << 8)
    ensures op.LW? ==> Extended(op, b0, b1, b2, b3) == (b0 | (b1 << 8)) | ((b2 | (b3 << 8)) << 16)
  {
  }
}

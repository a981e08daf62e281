/**
 The load/store unit in the engine: every load reads byte memory as all the older stores
 of its path left it.

 The engine carries operands and memory words as plain numbers; `Unit` says how they are
 read as 32-bit registers, and what each memory instruction is.
 */
module LoadStore {
  import opened Rings
  import opened Program
  import opened Records
  import opened Engine
  import opened Invariant
  import opened Theorems
  import opened ByteMemory
  import R = KeepReport
  import Results

  datatype Unit = Unit(bits: Word -> Bits, word: Bits -> Word, index: Bits -> nat,
                       load: Op -> Load, store: Op -> Store)
  {
    /** Words survive a trip through memory, and word addresses do not collide. */
    ghost predicate Sound()
    {
      && (forall b: Bits :: bits(word(b)) == b)
      && (forall a: Bits, b: Bits :: index(a) == index(b) ==> a == b)
    }
  }

  function Nth(u: Unit, operands: seq<Word>, k: nat): Bits
  {
    if k < |operands| then u.bits(operands[k]) else 0
  }

  /** The adder, wrapping at the register's width. */
  function Sum(a: Bits, b: Bits): Bits { a + b }

  /** Base plus immediate; a store's data sits between the two. */
  function ByteAddr(u: Unit, op: Op, operands: seq<Word>): Bits
  {
    Sum(Nth(u, operands, 0), Nth(u, operands, if op.isStore then 2 else 1))
  }

  /** Words on words, halfwords on halfwords, bytes anywhere. */
  predicate LoadFits(load: Load, addr: Bits)
  {
    (load.LW? ==> addr & 3 == 0) && (load.LH? || load.LHU? ==> addr & 1 == 0)
  }

  predicate StoreFits(store: Store, addr: Bits)
  {
    (store.SW? ==> addr & 3 == 0) && (store.SH? ==> addr & 1 == 0)
  }

  /** Which is to be aligned to the access's size. */
  lemma FitsIsAligned(load: Load, store: Store, addr: Bits)
    ensures LoadSize(load) > 0 && (LoadFits(load, addr) <==> Aligned(addr, LoadSize(load)))
    ensures StoreSize(store) > 0 && (StoreFits(store, addr) <==> Aligned(addr, StoreSize(store)))
  {
  }

  /** The instruction set's memory operations are the ones this unit performs: a store's
      address is its first operand plus its third, its data the second; a load's address is
      its first plus its second. */
  ghost predicate Performs(c: Config, u: Unit) { Stores(c, u) && Loads(c, u) }

  ghost predicate Stores(c: Config, u: Unit)
  {
    forall op: Op, v, w: Word | op.isStore ::
      && c.isa.addr(op, v) == u.index(WordOf(Sum(Nth(u, v, 0), Nth(u, v, 2))))
      && c.isa.merge(op, v, w) == u.word(StoreWord(u.store(op), u.bits(w), Nth(u, v, 1), Sum(Nth(u, v, 0), Nth(u, v, 2))))
  }

  ghost predicate Loads(c: Config, u: Unit)
  {
    forall op: Op, pc, v, w | op.isLoad && !op.isStore ::
      && c.isa.addr(op, v) == u.index(WordOf(Sum(Nth(u, v, 0), Nth(u, v, 1))))
      && c.isa.value(op, pc, v, w) == u.word(LoadResult(u.load(op), u.bits(w), Sum(Nth(u, v, 0), Nth(u, v, 1))))
  }

  /** The word memory as the unit indexes it; beyond its end it reads zero. */
  ghost function WordsOf(u: Unit, mem: seq<Word>): Memory
  {
    a => if u.index(a) < |mem| then u.bits(mem[u.index(a)]) else 0
  }

  /** Byte memory after the first n instructions of a path: the reset image, then each
      store's bytes in program order. */
  ghost function Bytes(c: Config, u: Unit, path: seq<Inst>, n: nat): Memory
    requires PathOk(c, path) && n <= |path|
  {
    if n == 0 then BytesOf(WordsOf(u, c.boot.mem))
    else
      var before, op := Bytes(c, u, path, n - 1), path[n - 1].op;
      if op.isStore then
        var operands := OperandsAt(c, path, n - 1);
        PutBytes(before, u.store(op), ByteAddr(u, op, operands), Nth(u, operands, 1))
      else before
  }

  ghost function OperandsAt(c: Config, path: seq<Inst>, i: nat): seq<Word>
    requires PathOk(c, path) && i < |path|
  {
    FitsAt(c, path, i);
    Operands(c, path[i].op, Upto(c, path, i).m)
  }

  lemma FitsAt(c: Config, path: seq<Inst>, i: nat)
    requires PathOk(c, path) && i < |path|
    ensures Fits(c, path[i].op, Upto(c, path, i).m)
  {
    hide Wrap, Upto;
    Decoded(c, path, i);
  }

  /** Access i is aligned to its size and inside the memory: what a program must keep to. */
  ghost predicate Lawful(c: Config, u: Unit, path: seq<Inst>, i: nat)
    requires PathOk(c, path) && i < |path|
  {
    var op := path[i].op;
    op.IsMem() ==>
      var addr := ByteAddr(u, op, OperandsAt(c, path, i));
      && u.index(WordOf(addr)) < |c.boot.mem|
      && if op.isStore then StoreFits(u.store(op), addr) else LoadFits(u.load(op), addr)
  }

  /** What the unit performs is at the access's own address. */
  lemma PerformsThere(c: Config, u: Unit, op: Op, pc: int, v: seq<Word>, w: Word)
    requires Performs(c, u) && op.IsMem() && !(op.isLoad && op.isStore)
    ensures c.isa.addr(op, v) == u.index(WordOf(ByteAddr(u, op, v)))
    ensures op.isStore ==> c.isa.merge(op, v, w) == u.word(StoreWord(u.store(op), u.bits(w), Nth(u, v, 1), ByteAddr(u, op, v)))
    ensures op.isLoad ==> c.isa.value(op, pc, v, w) == u.word(LoadResult(u.load(op), u.bits(w), ByteAddr(u, op, v)))
  {
    hide Nth, Sum, WordOf, StoreWord, LoadResult;
    if op.isStore {
      assert c.isa.merge(op, v, w) == u.word(StoreWord(u.store(op), u.bits(w), Nth(u, v, 1), Sum(Nth(u, v, 0), Nth(u, v, 2))));
    } else {
      assert c.isa.value(op, pc, v, w) == u.word(LoadResult(u.load(op), u.bits(w), Sum(Nth(u, v, 0), Nth(u, v, 1))));
    }
  }

  /** The engine's word address is the unit's own, when it is inside the memory. */
  lemma WordIndex(c: Config, u: Unit, path: seq<Inst>, i: nat)
    requires PathOk(c, path) && i < |path| && Performs(c, u) && path[i].op.IsMem() && Lawful(c, u, path, i)
    ensures Fits(c, path[i].op, Upto(c, path, i).m)
    ensures WordAddr(c, path[i].op, OperandsAt(c, path, i)) == u.index(WordOf(ByteAddr(u, path[i].op, OperandsAt(c, path, i))))
  {
    hide Upto, Operands, ByteAddr, WordOf, Aligned, Performs;
    FitsAt(c, path, i);
    Decoded(c, path, i);
    PerformsThere(c, u, path[i].op, path[i].pc, OperandsAt(c, path, i), 0);
  }

  /** A store of the path is that store on the words the unit sees. */
  lemma StoreOnWords(c: Config, u: Unit, path: seq<Inst>, i: nat)
    requires PathOk(c, path) && i < |path| && u.Sound() && Performs(c, u) && path[i].op.isStore && Lawful(c, u, path, i)
    ensures var op, operands := path[i].op, OperandsAt(c, path, i);
            forall a :: WordsOf(u, Upto(c, path, i + 1).m.mem)(a)
              == StoreThrough(WordsOf(u, Upto(c, path, i).m.mem), u.store(op), ByteAddr(u, op, operands), Nth(u, operands, 1))(a)
  {
    hide Wrap, Upto, Operands, ByteAddr, WordOf, StoreWord, Aligned, Lawful, Nth, Performs;
    UptoStep(c, path, i);
    Decoded(c, path, i);
    FitsAt(c, path, i);
    PerformsThere(c, u, path[i].op, path[i].pc, OperandsAt(c, path, i), WordSeen(c, path[i].op, Upto(c, path, i).m));
    WordIndex(c, u, path, i);
    assert Lawful(c, u, path, i);
    InRange(c, u, path, i);
  }

  lemma InRange(c: Config, u: Unit, path: seq<Inst>, i: nat)
    requires PathOk(c, path) && i < |path| && path[i].op.IsMem() && Lawful(c, u, path, i)
    ensures u.index(WordOf(ByteAddr(u, path[i].op, OperandsAt(c, path, i)))) < |c.boot.mem|
    ensures var op, addr := path[i].op, ByteAddr(u, path[i].op, OperandsAt(c, path, i));
            if op.isStore then StoreSize(u.store(op)) > 0 && Aligned(addr, StoreSize(u.store(op)))
            else LoadSize(u.load(op)) > 0 && Aligned(addr, LoadSize(u.load(op)))
  {
    hide Upto, ByteAddr, Aligned, LoadSize, StoreSize, LoadFits, StoreFits;
    FitsIsAligned(u.load(path[i].op), u.store(path[i].op), ByteAddr(u, path[i].op, OperandsAt(c, path, i)));
  }

  lemma SameWords(words: Memory, others: Memory, bytes: Memory)
    requires Stands(words, bytes) && forall a :: words(a) == others(a)
    ensures Stands(others, bytes)
  {
    hide ByteAt, WordOf;
  }

  /** Word memory stands for byte memory all along a lawful path. */
  lemma {:induction false} MemoryStands(c: Config, u: Unit, path: seq<Inst>, n: nat)
    requires PathOk(c, path) && n <= |path| && u.Sound() && Performs(c, u)
    requires forall i | 0 <= i < n :: Lawful(c, u, path, i)
    ensures Stands(WordsOf(u, Upto(c, path, n).m.mem), Bytes(c, u, path, n))
  {
    hide Wrap, Operands, ByteAddr, WordOf, StoreWord, ByteAt, Aligned, PutBytes, Apply, Performs, Unit.Sound, WordsOf, StoreThrough;
    if n > 0 {
      MemoryStands(c, u, path, n - 1);
      var op, before := path[n - 1].op, WordsOf(u, Upto(c, path, n - 1).m.mem);
      if op.isStore {
        var operands := OperandsAt(c, path, n - 1);
        assert Lawful(c, u, path, n - 1);
        InRange(c, u, path, n - 1);
        StoreOnWords(c, u, path, n - 1);
        StoreRefines(before, Bytes(c, u, path, n - 1), u.store(op), ByteAddr(u, op, operands), Nth(u, operands, 1));
        SameWords(StoreThrough(before, u.store(op), ByteAddr(u, op, operands), Nth(u, operands, 1)),
                  WordsOf(u, Upto(c, path, n).m.mem), Bytes(c, u, path, n));
      } else {
        NoStore(c, path, n - 1);
      }
    }
  }

  lemma NoStore(c: Config, path: seq<Inst>, i: nat)
    requires PathOk(c, path) && i < |path| && !path[i].op.isStore
    ensures Upto(c, path, i + 1).m.mem == Upto(c, path, i).m.mem
  {
    hide Upto, Operands, WordAddr;
    UptoStep(c, path, i);
  }

  /** In every reachable state, a load about to report writes back what a little-endian byte
      memory holds after all the older stores of its path, whether they are in memory, in
      the buffer, or long retired. */
  lemma LoadsSeeBytes(c: Config, z: Core, s: Core, events: seq<Event>, u: Unit, p: Place)
    requires Reaches(c, z, s, events) && u.Sound() && Performs(c, u)
    requires AtLastStage(c, s, p) && s.live[p].op.isLoad
    ensures PathOk(c, s.path) && s.live[p].n < |s.path| && s.live[p].op == s.path[s.live[p].n].op
    ensures var n, op := s.live[p].n, s.live[p].op;
            (forall i | 0 <= i <= n :: Lawful(c, u, s.path, i)) ==>
              Value(c, s.live[p])
              == u.word(GetBytes(Bytes(c, u, s.path, n), u.load(op), ByteAddr(u, op, OperandsAt(c, s.path, n))))
  {
    hide Wrap, Upto, Operands, ByteAddr, WordOf, ByteAt, Aligned, LoadResult, GetBytes, Bytes, Apply, Stands, Consistent, ResolvedOk, Reaches,
         Unit.Sound, Performs, Lawful, Value, WordsOf;
    RunKeeps(c, z, s, events);
    Reported(c, s, p);
    var n := s.live[p].n;
    if forall i | 0 <= i <= n :: Lawful(c, u, s.path, i) {
      MemoryStands(c, u, s.path, n);
      LoadOnWords(c, u, s.path, n);
    }
  }

  // --- spelled out in operands and bytes --------------------------------------------------

  lemma SumIs(a: Bits, b: Bits)
    ensures Sum(a, b) == a + b
  {
  }

  /** Byte memory along a path: a store with operands [base, data, immediate] puts the bytes of
      its data at base plus immediate, and nothing else changes any. */
  lemma BytesAre(c: Config, u: Unit, path: seq<Inst>, i: nat)
    requires PathOk(c, path) && i < |path|
    ensures !path[i].op.isStore ==> Bytes(c, u, path, i + 1) == Bytes(c, u, path, i)
    ensures var op, v := path[i].op, OperandsAt(c, path, i);
            op.isStore && |v| >= 3 ==>
              Bytes(c, u, path, i + 1) == PutBytes(Bytes(c, u, path, i), u.store(op), Sum(u.bits(v[0]), u.bits(v[2])), u.bits(v[1]))
  {
    hide PutBytes, Operands, Upto, Sum;
  }

  /** What a program must keep to, at base plus immediate. */
  lemma LawfulAre(c: Config, u: Unit, path: seq<Inst>, i: nat)
    requires PathOk(c, path) && i < |path|
    ensures !path[i].op.IsMem() ==> Lawful(c, u, path, i)
    ensures var op, v := path[i].op, OperandsAt(c, path, i);
            op.isStore && |v| >= 3 ==>
              (Lawful(c, u, path, i) <==> u.index(WordOf(Sum(u.bits(v[0]), u.bits(v[2])))) < |c.boot.mem|
                                          && StoreFits(u.store(op), Sum(u.bits(v[0]), u.bits(v[2]))))
    ensures var op, v := path[i].op, OperandsAt(c, path, i);
            op.isLoad && !op.isStore && |v| >= 2 ==>
              (Lawful(c, u, path, i) <==> u.index(WordOf(Sum(u.bits(v[0]), u.bits(v[1])))) < |c.boot.mem|
                                          && LoadFits(u.load(op), Sum(u.bits(v[0]), u.bits(v[1]))))
  {
    hide Operands, Upto, Sum, WordOf, LoadFits, StoreFits;
  }

  /** In every reachable state, a load about to report, with operands [base, immediate], writes
      back the bytes at base plus immediate, as the load extends them. */
  lemma LoadsReadSum(c: Config, z: Core, s: Core, events: seq<Event>, u: Unit, p: Place)
    requires Reaches(c, z, s, events) && u.Sound() && Performs(c, u)
    requires AtLastStage(c, s, p) && s.live[p].op.isLoad
    ensures PathOk(c, s.path) && s.live[p].n < |s.path| && s.path[s.live[p].n].op == s.live[p].op
    ensures var n := s.live[p].n;
            var v := OperandsAt(c, s.path, n);
            (forall i | 0 <= i <= n :: Lawful(c, u, s.path, i)) && |v| >= 2 ==>
              Value(c, s.live[p])
              == u.word(GetBytes(Bytes(c, u, s.path, n), u.load(s.live[p].op), Sum(u.bits(v[0]), u.bits(v[1]))))
  {
    hide Wrap, Upto, Operands, GetBytes, Bytes, Consistent, ResolvedOk, Reaches, Unit.Sound, Performs, Lawful, Value, Config.OpOk, Sum;
    LoadsSeeBytes(c, z, s, events, u, p);
    Decoded(c, s.path, s.live[p].n);
  }

  lemma Reported(c: Config, s: Core, p: Place)
    requires Inv(c, s) && AtLastStage(c, s, p)
    ensures PathOk(c, s.path) && s.live[p].n < |s.path| && s.live[p].op == s.path[s.live[p].n].op
    ensures Fits(c, s.live[p].op, Upto(c, s.path, s.live[p].n).m)
    ensures Value(c, s.live[p]) == Result(c, s.path[s.live[p].n], Upto(c, s.path, s.live[p].n).m)
  {
    hide Wrap, Upto, RobOk, TagsOk, ResolvedOk, PrfCounts, PrfValues, RtOk, ArfOk, OnceOk, OrderOk, LinkOk, BufferOk, MemoryOk,
         Config.OpOk, SlotsOk, TagIs, Value, Result;
    R.ReportsResult(c, s, p);
  }

  /** On the sequential machine, a lawful load of the path reads its bytes. */
  lemma LoadOnWords(c: Config, u: Unit, path: seq<Inst>, i: nat)
    requires PathOk(c, path) && i < |path| && u.Sound() && Performs(c, u) && path[i].op.isLoad && !path[i].op.isStore
    requires Lawful(c, u, path, i) && Stands(WordsOf(u, Upto(c, path, i).m.mem), Bytes(c, u, path, i))
    ensures Fits(c, path[i].op, Upto(c, path, i).m)
    ensures var op := path[i].op;
            Result(c, path[i], Upto(c, path, i).m)
            == u.word(GetBytes(Bytes(c, u, path, i), u.load(op), ByteAddr(u, op, OperandsAt(c, path, i))))
  {
    hide Wrap, Upto, Operands, ByteAddr, WordOf, ByteAt, LoadResult, GetBytes, Bytes, Stands, Performs;
    var op, operands := path[i].op, OperandsAt(c, path, i);
    FitsAt(c, path, i);
    PerformsThere(c, u, op, path[i].pc, operands, WordSeen(c, op, Upto(c, path, i).m));
    WordIndex(c, u, path, i);
    InRange(c, u, path, i);
    LoadRefines(WordsOf(u, Upto(c, path, i).m.mem), Bytes(c, u, path, i), u.load(op), ByteAddr(u, op, operands));
  }

  // --- the assumptions can be met ---------------------------------------------------------

  /** A register as the number it reads as, and back. */
  function Number(b: Bits): Word { b as int }

  function Index(b: Bits): nat { b as nat }

  function FromNumber(w: Word): Bits
  {
    if 0 <= w < 0x1_0000_0000 then w as Bits else 0
  }

  /** The 32-bit reading is sound, whatever ids the memory instructions have. */
  lemma SomeUnit(load: Op -> Load, store: Op -> Store) returns (u: Unit)
    ensures u.Sound() && u.load == load && u.store == store
  {
    u := Unit(FromNumber, Number, Index, load, store);
    forall b: Bits ensures FromNumber(Number(b)) == b { ReadsBack(b); }
    forall a: Bits, b: Bits | Index(a) == Index(b) ensures a == b {
      ReadsBack(a);
      ReadsBack(b);
    }
  }

  lemma ReadsBack(b: Bits)
    ensures (b as int) as Bits == b && FromNumber(Number(b)) == b
  {
  }

  /** Any instruction set can be given this unit's memory operations. */
  lemma SomeIsa(c: Config, u: Unit) returns (d: Config)
    requires c.Valid()
    ensures d.Valid() && Performs(d, u)
  {
    hide Nth, Sum, WordOf, StoreWord, LoadResult;
    var value := (op: Op, pc: int, v: seq<Word>, w: Word) =>
      if op.isLoad then u.word(LoadResult(u.load(op), u.bits(w), Sum(Nth(u, v, 0), Nth(u, v, 1)))) else c.isa.value(op, pc, v, w);
    var merge := (op: Op, v: seq<Word>, w: Word) =>
      u.word(StoreWord(u.store(op), u.bits(w), Nth(u, v, 1), Sum(Nth(u, v, 0), Nth(u, v, 2))));
    var addr := (op: Op, v: seq<Word>) => u.index(WordOf(Sum(Nth(u, v, 0), Nth(u, v, if op.isStore then 2 else 1))));
    d := c.(isa := Isa(c.isa.prog, value, c.isa.next, addr, merge));
    SameDecode(c, d);
  }

  lemma SameDecode(c: Config, d: Config)
    requires c.Valid() && d == c.(isa := d.isa) && d.isa.prog == c.isa.prog
    ensures d.Valid()
  {
    assert forall op :: c.OpOk(op) ==> d.OpOk(op);
  }
}

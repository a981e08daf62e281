/**
 What the machine runs: an ISA description, the decoded instruction, and the
 sequential machine the out-of-order engine must agree with.

 The ISA is a parameter: five functions. Nothing below depends on what they
 compute, so every result holds for every instruction set the engine is built for.
 */
module Program {
  import opened Rings

  type Word = int

  /** One source slot of a decoded instruction: left empty, an immediate whose
      value is known at decode, or an architectural register. */
  datatype Src = Empty | Imm(value: Word) | Reg(ar: nat)

  /** A decoded instruction: `active` says rename allocates a physical register,
      `required` that the write becomes architectural. */
  datatype Op = Op(uop: nat, isBranch: bool, isLoad: bool, isStore: bool, station: nat,
                   srcs: seq<Src>, active: bool, required: bool, ar: nat)
  {
    predicate IsMem() { isLoad || isStore }
  }

  /** The instruction set and the program. `value` is what is written back, `next`
      where a branch really continues, `addr` the word address of a memory access,
      `merge` the whole word a store leaves behind; the last `Word` of `value` and
      `merge` is the memory word at that address. */
  datatype Isa = Isa(
    prog: int -> Op,
    value: (Op, int, seq<Word>, Word) -> Word,
    next: (Op, int, seq<Word>) -> int,
    addr: (Op, seq<Word>) -> nat,
    merge: (Op, seq<Word>, Word) -> Word)

  /** Everything one core is built from. `depth` rows in the reorder buffer, `phy`
      physical registers, `tags` tag bits, `sbDepth` store-buffer rows, `lanes` and
      `commitLanes` wide. Station st has `rows(st)` rows; its unit u runs the ids
      `runs(st, u, id)` allows, in stages `0 ..= lastStage(st, u)`, none of the station's
      units deeper than `deepest(st)`. */
  datatype Config = Config(
    isa: Isa, ilen: int, consts: map<nat, Word>, boot: Arch,
    depth: nat, phy: nat, tags: nat, sbDepth: nat, lanes: nat, commitLanes: nat,
    brStation: nat, lsStation: nat, inOrder: set<nat>, rows: nat -> nat,
    runs: (nat, nat, nat) -> bool, lastStage: (nat, nat) -> nat, deepest: nat -> nat)
  {
    ghost predicate Valid()
    {
      && depth >= 1 && phy > depth && tags >= 2 && sbDepth >= 1
      && lanes >= 1 && commitLanes >= 1
      && brStation != lsStation && brStation in inOrder && lsStation in inOrder
      && lastStage(brStation, 0) == 0 && lastStage(lsStation, 0) == 1
      && (forall st, u :: lastStage(st, u) <= deepest(st))
      && lanes <= depth && (forall st :: rows(st) > 0) && (forall st | st in inOrder :: rows(st) >= lanes)
      && |boot.mem| > 0
      && forall pc: int :: OpOk(isa.prog(pc))
    }

    /** What decode guarantees of every instruction: a written destination is an
        allocated one, a branch allocates whatever it writes, register numbers are in
        range, branches and memory operations go to their own stations, and some unit of
        the station it goes to runs it, the only unit where the station is in order. */
    ghost predicate OpOk(op: Op)
    {
      && (op.required ==> op.active) && (op.isBranch ==> op.active)
      && op.ar < |boot.regs|
      && (forall i | 0 <= i < |op.srcs| && op.srcs[i].Reg? :: op.srcs[i].ar < |boot.regs|)
      && (op.isBranch <==> op.station == brStation)
      && (op.IsMem() <==> op.station == lsStation)
      && !(op.isLoad && op.isStore)
      && (exists u: nat :: runs(op.station, u, op.uop)) && (op.station in inOrder ==> runs(op.station, 0, op.uop))
    }
  }

  /** Architectural state: the next pc, the register file, and data memory by word. */
  datatype Arch = Arch(pc: int, regs: seq<Word>, mem: seq<Word>)

  /** One dispatched instruction and the pc it was fetched from. */
  datatype Inst = Inst(op: Op, pc: int)

  // --- one instruction on the sequential machine -------------------------------------

  function ReadReg(c: Config, regs: seq<Word>, ar: nat): Word
    requires ar < |regs|
  {
    if ar in c.consts then c.consts[ar] else regs[ar]
  }

  /** The register this instruction changes, if it changes one. */
  predicate Writes(c: Config, op: Op, r: nat)
  {
    op.required && op.ar == r && r !in c.consts
  }

  function Operand(c: Config, regs: seq<Word>, src: Src): Word
    requires src.Reg? ==> src.ar < |regs|
  {
    match src
    case Empty => 0
    case Imm(v) => v
    case Reg(ar) => ReadReg(c, regs, ar)
  }

  ghost predicate Fits(c: Config, op: Op, m: Arch)
  {
    && c.OpOk(op) && |m.regs| == |c.boot.regs| && |m.mem| == |c.boot.mem| && |m.mem| > 0
  }

  ghost function Operands(c: Config, op: Op, m: Arch): (v: seq<Word>)
    requires Fits(c, op, m)
    ensures |v| == |op.srcs|
  {
    seq(|op.srcs|, i requires 0 <= i < |op.srcs| => Operand(c, m.regs, op.srcs[i]))
  }

  /** The word address a memory operation names, cut to the memory's index. */
  function WordAddr(c: Config, op: Op, operands: seq<Word>): (a: nat)
    requires |c.boot.mem| > 0
    ensures a < |c.boot.mem|
  {
    Wrap(c.isa.addr(op, operands), |c.boot.mem|)
  }

  /** The memory word the instruction sees. */
  ghost function WordSeen(c: Config, op: Op, m: Arch): Word
    requires Fits(c, op, m)
  {
    if op.IsMem() then m.mem[WordAddr(c, op, Operands(c, op, m))] else 0
  }

  /** What the instruction writes back. */
  ghost function Result(c: Config, i: Inst, m: Arch): Word
    requires Fits(c, i.op, m)
  {
    c.isa.value(i.op, i.pc, Operands(c, i.op, m), WordSeen(c, i.op, m))
  }

  /** The word a store leaves in memory. */
  ghost function Stored(c: Config, op: Op, m: Arch): Word
    requires Fits(c, op, m)
  {
    c.isa.merge(op, Operands(c, op, m), WordSeen(c, op, m))
  }

  /** The architectural effect of one instruction: only a branch chooses where to go on. */
  ghost function Apply(c: Config, i: Inst, m: Arch): (m': Arch)
    requires Fits(c, i.op, m)
    ensures |m'.regs| == |m.regs| && |m'.mem| == |m.mem|
  {
    Arch(
      if i.op.isBranch then c.isa.next(i.op, i.pc, Operands(c, i.op, m)) else i.pc + c.ilen,
      if Writes(c, i.op, i.op.ar) then m.regs[i.op.ar := Result(c, i, m)] else m.regs,
      if i.op.isStore then m.mem[WordAddr(c, i.op, Operands(c, i.op, m)) := Stored(c, i.op, m)] else m.mem)
  }

  /** The sequential machine after `n` instructions from reset. */
  ghost function Sequential(c: Config, n: nat): (m: Arch)
    requires c.Valid()
    ensures |m.regs| == |c.boot.regs| && |m.mem| == |c.boot.mem|
  {
    if n == 0 then c.boot
    else
      var before := Sequential(c, n - 1);
      Apply(c, Inst(c.isa.prog(before.pc), before.pc), before)
  }

  // --- a dispatched path, and what it has used so far ---------------------------------

  /** What the first `n` instructions of a path add up to: physical registers
      allocated, branches and stores met, the last writer of each register (-1 for
      none), and the architectural state they leave. */
  datatype Sum = Sum(acts: nat, brs: nat, sts: nat, writer: seq<int>, m: Arch)

  ghost predicate PathOk(c: Config, path: seq<Inst>)
  {
    c.Valid() && forall i | 0 <= i < |path| :: path[i].op == c.isa.prog(path[i].pc)
  }

  /** What decode guarantees, along a path. */
  lemma Decoded(c: Config, path: seq<Inst>, i: nat)
    requires PathOk(c, path) && i < |path|
    ensures c.OpOk(path[i].op)
    ensures var op := path[i].op;
            && (op.required || op.isBranch ==> op.active) && op.ar < |c.boot.regs|
            && (op.isBranch <==> op.station == c.brStation) && (op.IsMem() <==> op.station == c.lsStation)
            && !(op.isBranch && op.IsMem()) && !(op.isLoad && op.isStore)
  {
    assert path[i].op == c.isa.prog(path[i].pc);
  }

  ghost predicate SumOk(c: Config, s: Sum, n: nat)
  {
    && |s.writer| == |s.m.regs| == |c.boot.regs| && |s.m.mem| == |c.boot.mem|
    && s.acts <= n && s.brs <= n && s.sts <= n
    && forall r | 0 <= r < |s.writer| :: -1 <= s.writer[r] < n
  }

  ghost function Upto(c: Config, path: seq<Inst>, n: nat): (s: Sum)
    requires PathOk(c, path) && n <= |path|
    ensures SumOk(c, s, n)
  {
    if n == 0 then Sum(0, 0, 0, seq(|c.boot.regs|, _ => -1), c.boot)
    else
      var s := Upto(c, path, n - 1);
      var i := path[n - 1];
      Sum(s.acts + (if i.op.active then 1 else 0),
          s.brs + (if i.op.isBranch then 1 else 0),
          s.sts + (if i.op.isStore then 1 else 0),
          if Writes(c, i.op, i.op.ar) then s.writer[i.op.ar := n - 1] else s.writer,
          Apply(c, i, s.m))
  }

  /** One more instruction. */
  lemma UptoStep(c: Config, p: seq<Inst>, n: nat)
    requires PathOk(c, p) && n < |p|
    ensures var s, t, i := Upto(c, p, n), Upto(c, p, n + 1), p[n];
            && t.acts == s.acts + (if i.op.active then 1 else 0)
            && t.brs == s.brs + (if i.op.isBranch then 1 else 0)
            && t.sts == s.sts + (if i.op.isStore then 1 else 0)
            && t.writer == (if Writes(c, i.op, i.op.ar) then s.writer[i.op.ar := n] else s.writer)
            && t.m == Apply(c, i, s.m)
  {
  }

  /** A sum depends only on the instructions it covers. */
  lemma {:induction false} UptoPrefix(c: Config, p: seq<Inst>, q: seq<Inst>, n: nat)
    requires PathOk(c, p) && PathOk(c, q) && n <= |p| && n <= |q| && p[..n] == q[..n]
    ensures Upto(c, p, n) == Upto(c, q, n)
  {
    if n > 0 {
      assert p[..n - 1] == p[..n][..n - 1] == q[..n][..n - 1] == q[..n - 1];
      assert p[n - 1] == p[..n][n - 1] == q[..n][n - 1] == q[n - 1];
      UptoPrefix(c, p, q, n - 1);
    }
  }

  lemma UptoPrefixes(c: Config, p: seq<Inst>, q: seq<Inst>, n: nat)
    requires PathOk(c, p) && PathOk(c, q) && n <= |p| && n <= |q| && p[..n] == q[..n]
    ensures forall m | 0 <= m <= n :: Upto(c, p, m) == Upto(c, q, m)
  {
    forall m | 0 <= m <= n ensures Upto(c, p, m) == Upto(c, q, m) {
      assert p[..m] == p[..n][..m] == q[..n][..m] == q[..m];
      UptoPrefix(c, p, q, m);
    }
  }

  /** Counts never fall along a path, and rise by at most one an instruction. */
  lemma {:induction false} CountsRise(c: Config, p: seq<Inst>, m: nat, n: nat)
    requires PathOk(c, p) && m <= n <= |p|
    ensures Upto(c, p, m).acts <= Upto(c, p, n).acts <= Upto(c, p, m).acts + (n - m)
    ensures Upto(c, p, m).brs <= Upto(c, p, n).brs <= Upto(c, p, m).brs + (n - m)
    ensures Upto(c, p, m).sts <= Upto(c, p, n).sts <= Upto(c, p, m).sts + (n - m)
    decreases n - m
  {
    hide Wrap, Upto, Apply, Config.OpOk;
    if m < n {
      CountsRise(c, p, m, n - 1);
      UptoStep(c, p, n - 1);
    }
  }

  /** An instruction that uses a count leaves it strictly higher for all behind it. */
  lemma CountsSplit(c: Config, p: seq<Inst>, m: nat, n: nat)
    requires PathOk(c, p) && m < n <= |p|
    ensures p[m].op.active ==> Upto(c, p, m).acts < Upto(c, p, n).acts
    ensures p[m].op.isBranch ==> Upto(c, p, m).brs < Upto(c, p, n).brs
    ensures p[m].op.isStore ==> Upto(c, p, m).sts < Upto(c, p, n).sts
  {
    hide Wrap, Upto, Apply, Config.OpOk;
    UptoStep(c, p, m);
    CountsRise(c, p, m + 1, n);
  }

  /** A register holds what its last writer wrote, or its reset value. */
  lemma {:induction false} WriterHolds(c: Config, p: seq<Inst>, n: nat, r: nat)
    requires PathOk(c, p) && n <= |p| && r < |c.boot.regs|
    ensures var w := Upto(c, p, n).writer[r];
            && (w >= 0 ==> Writes(c, p[w].op, r) && Upto(c, p, n).m.regs[r] == Result(c, p[w], Upto(c, p, w).m))
            && (w < 0 ==> Upto(c, p, n).m.regs[r] == c.boot.regs[r])
  {
    if n > 0 { WriterHolds(c, p, n - 1, r); }
  }

  /** A register not written between two points holds the same value at both. */
  lemma {:induction false} Unwritten(c: Config, p: seq<Inst>, m: nat, n: nat, r: nat)
    requires PathOk(c, p) && m <= n <= |p| && r < |c.boot.regs| && Upto(c, p, n).writer[r] < m
    ensures Upto(c, p, n).m.regs[r] == Upto(c, p, m).m.regs[r]
    ensures Upto(c, p, n).writer[r] == Upto(c, p, m).writer[r]
    decreases n - m
  {
    if m < n { Unwritten(c, p, m, n - 1, r); }
  }

  /** Memory changes only at stores. */
  lemma {:induction false} MemoryBetween(c: Config, p: seq<Inst>, m: nat, n: nat)
    requires PathOk(c, p) && m <= n <= |p| && Upto(c, p, m).sts == Upto(c, p, n).sts
    ensures Upto(c, p, m).m.mem == Upto(c, p, n).m.mem
    decreases n - m
  {
    hide Wrap, Upto, Operands, WordAddr, Config.OpOk, Writes, Result, Stored;
    if m < n {
      CountsRise(c, p, m, n - 1);
      CountsRise(c, p, n - 1, n);
      MemoryBetween(c, p, m, n - 1);
      UptoStep(c, p, n - 1);
    }
  }

  /** Every store number below the total belongs to a store. */
  lemma {:induction false} StoreNumbered(c: Config, p: seq<Inst>, n: nat, k: nat) returns (i: nat)
    requires PathOk(c, p) && n <= |p| && k < Upto(c, p, n).sts
    ensures i < n && p[i].op.isStore && Upto(c, p, i).sts == k
  {
    if k < Upto(c, p, n - 1).sts { i := StoreNumbered(c, p, n - 1, k); } else { i := n - 1; }
  }

  /** Every branch number below the total belongs to a branch. */
  lemma {:induction false} BranchNumbered(c: Config, p: seq<Inst>, n: nat, k: nat) returns (i: nat)
    requires PathOk(c, p) && n <= |p| && k < Upto(c, p, n).brs
    ensures i < n && p[i].op.isBranch && Upto(c, p, i).brs == k
  {
    if k < Upto(c, p, n - 1).brs { i := BranchNumbered(c, p, n - 1, k); } else { i := n - 1; }
  }

  lemma UptoStart(c: Config, p: seq<Inst>)
    requires PathOk(c, p)
    ensures Upto(c, p, 0).m == c.boot
  {
  }

  /** A path whose pcs follow its own control flow is the sequential machine's run. */
  lemma {:induction false} PathIsSequential(c: Config, p: seq<Inst>, n: nat)
    requires PathOk(c, p) && n <= |p|
    requires forall i | 0 <= i < n :: p[i].pc == Upto(c, p, i).m.pc
    ensures Upto(c, p, n).m == Sequential(c, n)
  {
    hide Wrap, Upto, Apply, Config.OpOk;
    if n == 0 {
      UptoStart(c, p);
    } else {
      PathIsSequential(c, p, n - 1);
      UptoStep(c, p, n - 1);
    }
  }
}

/**
 What holds between any two events: every register of every block is the value the
 dispatched path dictates.

 The path is the program order. Row `Wrap(i, depth)` of the reorder buffer is
 instruction i, physical register `Wrap(a, phy)` is the a-th allocation, tag
 `Wrap(b, tags)` the b-th branch, store-buffer row `Wrap(k, sbDepth)` the k-th store.
 */
module Invariant {
  import opened Rings
  import opened Program
  import opened Records
  import opened Engine
  import B = Reorder
  import N = Rename
  import S = Stores

  /** Instruction i has reported. */
  ghost predicate Fin(c: Config, s: Core, i: nat)
    requires Sized(c, s)
  {
    s.rob.table[Wrap(i, c.depth)].fin
  }

  ghost predicate CountsOk(c: Config, s: Core)
  {
    && PathOk(c, s.path) && s.ret <= |s.path|
    && Upto(c, s.path, s.ret).brs <= s.res <= Upto(c, s.path, |s.path|).brs
    && s.written <= Upto(c, s.path, s.ret).sts <= s.buffered <= Upto(c, s.path, |s.path|).sts
  }

  // --- the reorder buffer -----------------------------------------------------------

  predicate RowIs(c: Config, row: B.RobRow, i: Inst, acts: nat)
    requires c.phy > 0
  {
    && row.isBranch == i.op.isBranch && row.isStore == i.op.isStore
    && row.active == i.op.active && row.required == i.op.required
    && row.ar == i.op.ar && row.pr == Wrap(acts, c.phy) && row.pc == i.pc
  }

  ghost predicate RobOk(c: Config, s: Core)
    requires Sized(c, s) && CountsOk(c, s)
  {
    && s.rob.com == Wrap(s.ret, c.depth) && s.rob.alloc == Wrap(|s.path|, c.depth)
    && s.rob.used == |s.path| - s.ret <= c.depth
    && forall i | s.ret <= i < |s.path| ::
         RowIs(c, s.rob.table[Wrap(i, c.depth)], s.path[i], Upto(c, s.path, i).acts)
  }

  // --- speculation tags -------------------------------------------------------------

  /** The branches resolved are the first `res`; the tags between that and the last
      branch dispatched are open, and each row of the fix table is its open prefix. */
  ghost predicate TagsOk(c: Config, s: Core)
    requires Sized(c, s) && CountsOk(c, s)
  {
    var brs := Upto(c, s.path, |s.path|).brs;
    && s.tags.next == {Wrap(brs, c.tags)}
    && s.tags.free + (brs - s.res) == c.tags - 1
    && (forall k | s.res <= k < brs :: s.mpft[Wrap(k, c.tags)] == Span(s.res, k + 1, c.tags))
  }

  ghost predicate ResolvedOk(c: Config, s: Core)
    requires Sized(c, s) && CountsOk(c, s)
  {
    forall i | s.ret <= i < |s.path| && s.path[i].op.isBranch :: Fin(c, s, i) <==> Upto(c, s.path, i).brs < s.res
  }

  /** The speculation pair instruction i carries: a branch its own tag, anything else
      the tag of the nearest branch before it, while that branch is open. */
  ghost predicate TagIs(c: Config, s: Core, i: nat, isSpec: bool, tag: Mask)
    requires PathOk(c, s.path) && i < |s.path|
  {
    var b := Upto(c, s.path, i).brs;
    if s.path[i].op.isBranch then
      tag == {Wrap(b, c.tags)} && (!isSpec ==> b <= s.res)
    else
      isSpec == (b > s.res) && tag == (if b > s.res then {Wrap(b - 1, c.tags)} else {})
  }

  // --- rename -----------------------------------------------------------------------

  ghost predicate PrfCounts(c: Config, s: Core)
    requires Sized(c, s) && CountsOk(c, s)
  {
    var acts := Upto(c, s.path, |s.path|).acts;
    s.prf.next == Wrap(acts, c.phy) && s.prf.free + (acts - Upto(c, s.path, s.ret).acts) == c.phy
  }

  /** An in-flight destination is written exactly when its instruction has reported,
      and then holds the value the sequential machine computes there. */
  ghost predicate PrfValues(c: Config, s: Core)
    requires Sized(c, s) && CountsOk(c, s)
  {
    forall i | s.ret <= i < |s.path| && s.path[i].op.active ::
      var p := Wrap(Upto(c, s.path, i).acts, c.phy);
      && (Fin(c, s, i) && s.path[i].op.required ==>
            s.prf.fin[p] && s.prf.data[p] == Result(c, s.path[i], Upto(c, s.path, i).m))
      && (!Fin(c, s, i) ==> !s.prf.fin[p])
  }

  /** `row` is the rename map after the first n instructions: a register is renamed
      exactly while its last writer among them is in flight. */
  ghost predicate Maps(c: Config, s: Core, row: N.RtRow, n: nat)
    requires PathOk(c, s.path) && n <= |s.path| && |row| == |c.boot.regs|
  {
    forall r | 0 <= r < |row| ::
      var w := Upto(c, s.path, n).writer[r];
      row[r].renamed == (w >= s.ret) && (w >= s.ret ==> row[r].prf == Wrap(Upto(c, s.path, w).acts, c.phy))
  }

  ghost predicate RtOk(c: Config, s: Core)
    requires Sized(c, s) && CountsOk(c, s)
  {
    && Maps(c, s, s.rt.master, |s.path|)
    && forall i | s.ret <= i < |s.path| && s.path[i].op.isBranch && Upto(c, s.path, i).brs >= s.res ::
         Maps(c, s, s.rt.planes[Wrap(Upto(c, s.path, i).brs, c.tags)], i + 1)
  }

  ghost predicate ArfOk(c: Config, s: Core)
    requires CountsOk(c, s)
  {
    s.arf == Upto(c, s.path, s.ret).m.regs
  }

  // --- records ----------------------------------------------------------------------

  /** A source holds its value, or waits for a writer in flight that has not reported. */
  ghost predicate SlotOk(c: Config, s: Core, n: nat, src: Src, slot: Slot)
    requires Sized(c, s) && CountsOk(c, s) && n < |s.path|
  {
    match src
    case Empty => !slot.active
    case Imm(v) => slot.active && slot.valid && slot.data == v
    case Reg(ar) =>
      ar < |c.boot.regs| &&
      var w := Upto(c, s.path, n).writer[ar];
      && slot.active
      && (slot.valid ==> slot.data == ReadReg(c, Upto(c, s.path, n).m.regs, ar))
      && (!slot.valid ==> w >= s.ret && !Fin(c, s, w) && slot.pr == Wrap(Upto(c, s.path, w).acts, c.phy))
  }

  ghost predicate SlotsOk(c: Config, s: Core, r: Rec)
    requires Sized(c, s) && CountsOk(c, s) && r.n < |s.path|
  {
    |r.slots| == |r.op.srcs|
    && forall j | 0 <= j < |r.slots| :: SlotOk(c, s, r.n, r.op.srcs[j], r.slots[j])
  }

  /** The record at p is that of one unreported in-flight instruction. */
  ghost predicate RecordIs(c: Config, s: Core, p: Place, r: Rec)
    requires Sized(c, s) && CountsOk(c, s)
  {
    && s.ret <= r.n < |s.path| && !Fin(c, s, r.n)
    && r.op == s.path[r.n].op && r.pc == s.path[r.n].pc && r.npc == r.pc + c.ilen
    && r.rob == Wrap(r.n, c.depth) && r.pr == Wrap(Upto(c, s.path, r.n).acts, c.phy)
    && p.station == r.op.station
    && (p.Stage? ==> p.stage <= c.lastStage(p.station, p.unit) && Ready(r) && (p.station in c.inOrder ==> p.unit == 0))
  }

  ghost predicate RecordsOk(c: Config, s: Core)
    requires Sized(c, s) && CountsOk(c, s)
  {
    forall p | p in s.live ::
      && RecordIs(c, s, p, s.live[p]) && SlotsOk(c, s, s.live[p])
      && TagIs(c, s, s.live[p].n, s.live[p].isSpec, s.live[p].tag)
  }

  ghost predicate Holds(s: Core, i: nat)
  {
    exists p | p in s.live :: s.live[p].n == i
  }

  /** Exactly one record for each in-flight instruction that has not reported. */
  ghost predicate OnceOk(c: Config, s: Core)
    requires Sized(c, s) && CountsOk(c, s)
  {
    && (forall p, q | p in s.live && q in s.live && s.live[p].n == s.live[q].n :: p == q)
    && (forall i | s.ret <= i < |s.path| && !Fin(c, s, i) :: Holds(s, i))
  }

  function Along(p: Place): nat { if p.Row? then 0 else p.stage + 1 }

  /** In an in-order station, further along is older. */
  ghost predicate OrderOk(c: Config, s: Core)
  {
    forall p, q | p in s.live && q in s.live && p.station == q.station && p.station in c.inOrder
                  && Along(p) > Along(q) :: s.live[p].n < s.live[q].n
  }

  // --- control flow -----------------------------------------------------------------

  function PcAt(s: Core, i: nat): int
    requires i <= |s.path|
  {
    if i < |s.path| then s.path[i].pc else s.fetchPc
  }

  /** Each instruction was fetched where the one before it leads; that is where the
      program really goes, except behind a branch still open. */
  ghost predicate LinkOk(c: Config, s: Core)
    requires CountsOk(c, s)
  {
    && |s.link| == |s.path|
    && PcAt(s, 0) == c.boot.pc
    && (forall i | 0 <= i < |s.path| :: PcAt(s, i + 1) == s.link[i])
    && (forall i | 0 <= i < |s.path| && (s.path[i].op.isBranch ==> Upto(c, s.path, i).brs < s.res) ::
          s.link[i] == Upto(c, s.path, i + 1).m.pc)
    && (forall i | 0 <= i < |s.path| && s.path[i].op.isBranch && Upto(c, s.path, i).brs >= s.res ::
          s.link[i] == s.path[i].pc + c.ilen)
  }

  // --- memory -----------------------------------------------------------------------

  /** The store buffer holds exactly the stores numbered `written .. buffered`. */
  ghost predicate BufferOk(c: Config, s: Core)
    requires Sized(c, s) && CountsOk(c, s)
  {
    && s.sb.ret == Wrap(s.written, c.sbDepth) && s.sb.alloc == Wrap(s.buffered, c.sbDepth)
    && s.sb.com == Wrap(Upto(c, s.path, s.ret).sts, c.sbDepth)
    && s.buffered <= s.written + c.sbDepth
    && (forall k | s.buffered <= k < s.written + c.sbDepth :: !s.sb.table[Wrap(k, c.sbDepth)].busy)
    && (forall i | 0 <= i < |s.path| && s.path[i].op.isStore && s.written <= Upto(c, s.path, i).sts < s.buffered ::
          RowHolds(c, s, i))
  }

  ghost predicate RowHolds(c: Config, s: Core, i: nat)
    requires Sized(c, s) && CountsOk(c, s) && i < |s.path|
  {
    var m := Upto(c, s.path, i);
    var row := s.sb.table[Wrap(m.sts, c.sbDepth)];
    && row.busy && row.complete == (i < s.ret) && TagIs(c, s, i, row.isSpec, row.tag)
    && row.addr == WordAddr(c, s.path[i].op, Operands(c, s.path[i].op, m.m))
    && row.data == Stored(c, s.path[i].op, m.m)
  }

  /** Data memory is the program's memory after the stores written so far. */
  ghost predicate MemoryOk(c: Config, s: Core)
    requires CountsOk(c, s)
  {
    forall i | 0 <= i <= |s.path| && Upto(c, s.path, i).sts == s.written :: s.mem == Upto(c, s.path, i).m.mem
  }

  /** A memory operation has been through the buffer once it is past its first stage. */
  ghost predicate AccessOk(c: Config, s: Core)
    requires Sized(c, s) && CountsOk(c, s) && RecordsOk(c, s)
  {
    && (forall p | p in s.live && !s.live[p].op.IsMem() :: s.live[p].word == 0)
    && (forall p | p in s.live && s.live[p].op.IsMem() ::
          if Along(p) <= 1 then Upto(c, s.path, s.live[p].n).sts >= s.buffered
          else s.live[p].word == WordSeen(c, s.live[p].op, Upto(c, s.path, s.live[p].n).m)
               && (s.live[p].op.isStore ==> Upto(c, s.path, s.live[p].n).sts < s.buffered))
    && (forall i | s.ret <= i < |s.path| && s.path[i].op.isStore && Fin(c, s, i) :: Upto(c, s.path, i).sts < s.buffered)
  }

  /** Everything but which branches have resolved. */
  ghost predicate Consistent(c: Config, s: Core)
  {
    && Sized(c, s) && CountsOk(c, s)
    && RobOk(c, s) && TagsOk(c, s)
    && PrfCounts(c, s) && PrfValues(c, s) && RtOk(c, s) && ArfOk(c, s)
    && RecordsOk(c, s) && OnceOk(c, s) && OrderOk(c, s)
    && LinkOk(c, s)
    && BufferOk(c, s) && MemoryOk(c, s) && AccessOk(c, s)
  }

  ghost predicate Inv(c: Config, s: Core)
  {
    Consistent(c, s) && ResolvedOk(c, s)
  }
}

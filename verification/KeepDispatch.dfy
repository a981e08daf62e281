/** Renaming and dispatching one more instruction. */
module KeepDispatch {
  import opened Rings
  import opened Program
  import opened Records
  import opened Engine
  import opened Invariant
  import B = Reorder
  import N = Rename
  import P = Physical
  import T = Tags
  import K = KillMask
  import R = KeepReport
  import M = KeepMove
  import A = KeepAccess

  /** t is s one instruction further along the path, with the same history otherwise. */
  ghost predicate Extends(c: Config, s: Core, t: Core)
  {
    && PathOk(c, s.path)
    && t.path == s.path + [Inst(c.isa.prog(s.fetchPc), s.fetchPc)]
    && t.ret == s.ret && t.res == s.res && t.written == s.written && t.buffered == s.buffered
  }

  /** What came before on the path is as it was. */
  lemma Before(c: Config, s: Core, t: Core)
    requires Extends(c, s, t)
    ensures PathOk(c, t.path)
    ensures forall i | 0 <= i < |s.path| :: t.path[i] == s.path[i]
    ensures forall m | 0 <= m <= |s.path| :: Upto(c, t.path, m) == Upto(c, s.path, m)
  {
    hide Wrap, Upto, Config.OpOk;
    assert t.path[..|s.path|] == s.path == s.path[..|s.path|];
    UptoPrefixes(c, t.path, s.path, |s.path|);
  }

  lemma DispatchSized(c: Config, s: Core, row: nat)
    requires Sized(c, s) && CanDispatch(c, s, row)
    ensures Sized(c, DoDispatch(c, s, row))
  {
    hide Wrap, RotateLeft, RotateRight;
  }

  /** The new row lands past every row in flight. */
  lemma FinNew(c: Config, s: Core, row: nat)
    requires Sized(c, s) && CountsOk(c, s) && RobOk(c, s) && CanDispatch(c, s, row) && Sized(c, DoDispatch(c, s, row))
    ensures var t := DoDispatch(c, s, row);
            !Fin(c, t, |s.path|) && forall i | s.ret <= i < |s.path| :: Fin(c, t, i) == Fin(c, s, i)
  {
    hide Wrap, Upto, Config.OpOk, N.Overlay, T.Book, K.Book, P.Rename;
    forall i | s.ret <= i < |s.path| ensures Wrap(i, c.depth) != Wrap(|s.path|, c.depth) {
      if Wrap(i, c.depth) == Wrap(|s.path|, c.depth) { Apart(i, |s.path|, c.depth); }
    }
  }

  lemma DispatchCounts(c: Config, s: Core, row: nat)
    requires Sized(c, s) && CountsOk(c, s) && RobOk(c, s) && ResolvedOk(c, s) && PrfCounts(c, s)
    requires CanDispatch(c, s, row) && Sized(c, DoDispatch(c, s, row))
    ensures var t := DoDispatch(c, s, row); CountsOk(c, t) && RobOk(c, t) && ResolvedOk(c, t) && PrfCounts(c, t)
  {
    hide Wrap, Upto, Config.OpOk, N.Overlay, K.Book, Apply, Fin, P.Rename;
    var t := DoDispatch(c, s, row);
    Before(c, s, t);
    UptoStep(c, t.path, |s.path|);
    WrapAdd(|s.path|, 1, c.depth);
    FinNew(c, s, row);
    DispatchRows(c, s, row);
    DispatchPool(c, s, row);
  }

  lemma DispatchPool(c: Config, s: Core, row: nat)
    requires Sized(c, s) && CountsOk(c, s) && PrfCounts(c, s) && CanDispatch(c, s, row) && Sized(c, DoDispatch(c, s, row))
    ensures CountsOk(c, DoDispatch(c, s, row)) ==> PrfCounts(c, DoDispatch(c, s, row))
  {
    hide Wrap, Upto, Config.OpOk, N.Overlay, K.Book, Apply, Fin, B.Push, T.Book;
    var t := DoDispatch(c, s, row);
    Before(c, s, t);
    UptoStep(c, t.path, |s.path|);
    WrapAdd(Upto(c, s.path, |s.path|).acts, 1, c.phy);
  }

  lemma DispatchRows(c: Config, s: Core, row: nat)
    requires Sized(c, s) && CountsOk(c, s) && RobOk(c, s) && PrfCounts(c, s) && CanDispatch(c, s, row)
    requires Sized(c, DoDispatch(c, s, row))
    ensures var t := DoDispatch(c, s, row);
            PathOk(c, t.path) && forall i | s.ret <= i < |t.path| :: RowIs(c, t.rob.table[Wrap(i, c.depth)], t.path[i], Upto(c, t.path, i).acts)
  {
    hide Wrap, Upto, Config.OpOk, N.Overlay, K.Book, T.Book, P.Rename;
    var t := DoDispatch(c, s, row);
    Before(c, s, t);
    forall i | s.ret <= i < |t.path| ensures RowIs(c, t.rob.table[Wrap(i, c.depth)], t.path[i], Upto(c, t.path, i).acts) {
      if i < |s.path| && Wrap(i, c.depth) == Wrap(|s.path|, c.depth) { Apart(i, |s.path|, c.depth); }
    }
  }

  /** The pointer really is one past the newest open tag. */
  lemma LastTagIs(c: Config, s: Core)
    requires Sized(c, s) && CountsOk(c, s) && TagsOk(c, s)
    ensures var brs := Upto(c, s.path, |s.path|).brs;
            && T.Outstanding(s.tags, c.tags) == (brs > s.res)
            && T.LastTag(s.tags, c.tags) == (if brs > s.res then {Wrap(brs - 1, c.tags)} else {})
            && K.OpenTags(s.mpft, T.LastTag(s.tags, c.tags)) == Span(s.res, brs, c.tags)
  {
    hide Wrap, Upto, Config.OpOk, RotateRight, K.LowestFrom;
    var brs := Upto(c, s.path, |s.path|).brs;
    if brs > s.res {
      RotateRightAt(brs, c.tags);
      K.LowestFromAt(Wrap(brs - 1, c.tags), 0, c.tags);
      assert {Wrap(brs - 1, c.tags)} != {} by { assert Wrap(brs - 1, c.tags) in {Wrap(brs - 1, c.tags)}; }
    } else {
      assert Span(s.res, brs, c.tags) == {};
    }
  }

  lemma SpanMore(lo: nat, hi: nat, size: nat)
    requires size > 0 && lo <= hi
    ensures Span(lo, hi, size) + {Wrap(hi, size)} == Span(lo, hi + 1, size)
  {
    hide Wrap;
  }

  lemma DispatchTags(c: Config, s: Core, row: nat)
    requires Sized(c, s) && CountsOk(c, s) && TagsOk(c, s) && CanDispatch(c, s, row)
    requires Sized(c, DoDispatch(c, s, row)) && CountsOk(c, DoDispatch(c, s, row))
    ensures TagsOk(c, DoDispatch(c, s, row))
  {
    hide Wrap, Upto, Config.OpOk, N.Overlay, P.Rename, B.Push, Apply, RotateLeft, RotateRight, T.LastTag, K.OpenTags, Span, ReadSource, Writes;
    var t, brs := DoDispatch(c, s, row), Upto(c, s.path, |s.path|).brs;
    Before(c, s, t);
    UptoStep(c, t.path, |s.path|);
    RotateLeftAt(brs, c.tags);
    LastTagIs(c, s);
    SpanMore(s.res, brs, c.tags);
    forall k | s.res <= k < brs && c.isa.prog(s.fetchPc).isBranch ensures Wrap(k, c.tags) != Wrap(brs, c.tags) {
      if Wrap(k, c.tags) == Wrap(brs, c.tags) { Apart(k, brs, c.tags); }
    }
  }

  /** An entry at the allocation pointer is nobody's, because there are more of them
      than instructions in flight. */
  lemma NextIsFree(c: Config, s: Core, i: nat)
    requires Sized(c, s) && CountsOk(c, s) && RobOk(c, s) && PrfCounts(c, s)
    requires s.ret <= i < |s.path| && s.path[i].op.active
    ensures Wrap(Upto(c, s.path, i).acts, c.phy) != s.prf.next
  {
    hide Wrap, Upto, Config.OpOk;
    CountsRise(c, s.path, s.ret, |s.path|);
    CountsRise(c, s.path, s.ret, i);
    CountsSplit(c, s.path, i, |s.path|);
    if Wrap(Upto(c, s.path, i).acts, c.phy) == s.prf.next {
      Apart(Upto(c, s.path, i).acts, Upto(c, s.path, |s.path|).acts, c.phy);
    }
  }

  lemma DispatchValues(c: Config, s: Core, row: nat)
    requires Sized(c, s) && CountsOk(c, s) && RobOk(c, s) && PrfCounts(c, s) && PrfValues(c, s) && ArfOk(c, s)
    requires CanDispatch(c, s, row) && Sized(c, DoDispatch(c, s, row)) && CountsOk(c, DoDispatch(c, s, row))
    ensures PrfValues(c, DoDispatch(c, s, row)) && ArfOk(c, DoDispatch(c, s, row))
  {
    hide Wrap, Upto, Config.OpOk, N.Overlay, B.Push, T.Book, K.Book, Result, Fin, RobOk, PrfCounts;
    var t := DoDispatch(c, s, row);
    Before(c, s, t);
    FinNew(c, s, row);
    assert s.prf.next == Wrap(Upto(c, s.path, |s.path|).acts, c.phy) by { PointerAt(c, s); }
    forall i | s.ret <= i < |s.path| && s.path[i].op.active
      ensures Wrap(Upto(c, s.path, i).acts, c.phy) != s.prf.next
    {
      NextIsFree(c, s, i);
    }
  }

  lemma PointerAt(c: Config, s: Core)
    requires Sized(c, s) && CountsOk(c, s) && PrfCounts(c, s)
    ensures s.prf.next == Wrap(Upto(c, s.path, |s.path|).acts, c.phy)
  {
    hide Wrap, Upto, Config.OpOk;
  }

  /** A map of the path so far, read on the extended path. */
  lemma MapsBefore(c: Config, s: Core, t: Core, row: N.RtRow, n: nat)
    requires Extends(c, s, t) && PathOk(c, t.path) && n <= |s.path| && |row| == |c.boot.regs| && Maps(c, s, row, n)
    ensures Maps(c, t, row, n)
  {
    hide Wrap, Upto, Config.OpOk;
    Before(c, s, t);
  }

  lemma MapsNext(c: Config, s: Core, t: Core, row: N.RtRow)
    requires Sized(c, s) && CountsOk(c, s) && PrfCounts(c, s) && Extends(c, s, t) && PathOk(c, t.path)
    requires |row| == |c.boot.regs| && Maps(c, s, row, |s.path|)
    ensures var op := c.isa.prog(s.fetchPc);
            op.ar < |row| && Maps(c, t, if Writes(c, op, op.ar) then row[op.ar := N.RtEntry(true, s.prf.next)] else row, |t.path|)
  {
    hide Wrap, Upto, Config.OpOk, Apply;
    Before(c, s, t);
    Decoded(c, t.path, |s.path|);
    UptoStep(c, t.path, |s.path|);
  }

  lemma DispatchRename(c: Config, s: Core, row: nat)
    requires Sized(c, s) && CountsOk(c, s) && TagsOk(c, s) && PrfCounts(c, s) && RtOk(c, s) && CanDispatch(c, s, row)
    requires Sized(c, DoDispatch(c, s, row)) && CountsOk(c, DoDispatch(c, s, row))
    ensures RtOk(c, DoDispatch(c, s, row))
  {
    hide Wrap, Upto, Config.OpOk, P.Rename, B.Push, T.Book, K.Book, Maps, T.LastTag, PrfCounts;
    var t, brs := DoDispatch(c, s, row), Upto(c, s.path, |s.path|).brs;
    Before(c, s, t);
    MapsNext(c, s, t, s.rt.master);
    forall i | t.ret <= i < |t.path| && t.path[i].op.isBranch && Upto(c, t.path, i).brs >= t.res
      ensures Maps(c, t, t.rt.planes[Wrap(Upto(c, t.path, i).brs, c.tags)], i + 1)
    {
      if i < |s.path| {
        PlaneStays(c, s, i);
        MapsBefore(c, s, t, s.rt.planes[Wrap(Upto(c, s.path, i).brs, c.tags)], i + 1);
      }
    }
  }

  /** An open branch's snapshot is not the one the next branch takes. */
  lemma PlaneStays(c: Config, s: Core, i: nat)
    requires Sized(c, s) && CountsOk(c, s) && TagsOk(c, s)
    requires i < |s.path| && s.path[i].op.isBranch && Upto(c, s.path, i).brs >= s.res
    ensures Wrap(Upto(c, s.path, i).brs, c.tags) !in s.tags.next
  {
    hide Wrap, Upto, Config.OpOk;
    var brs := Upto(c, s.path, |s.path|).brs;
    CountsSplit(c, s.path, i, |s.path|);
    if Wrap(Upto(c, s.path, i).brs, c.tags) == Wrap(brs, c.tags) { Apart(Upto(c, s.path, i).brs, brs, c.tags); }
  }

  /** Rename answers every source: the value where it can be read, else its producer. */
  lemma SourceAnswered(c: Config, s: Core, src: Src)
    requires Sized(c, s) && CountsOk(c, s) && RobOk(c, s) && PrfCounts(c, s) && PrfValues(c, s) && RtOk(c, s) && ArfOk(c, s)
    requires src.Reg? ==> src.ar < |c.boot.regs|
    ensures var slot, m := ReadSource(c, s, src), Upto(c, s.path, |s.path|);
            match src
            case Empty => !slot.active
            case Imm(v) => slot.active && slot.valid && slot.data == v
            case Reg(ar) =>
              && slot.active
              && (slot.valid ==> slot.data == ReadReg(c, m.m.regs, ar))
              && (!slot.valid ==> m.writer[ar] >= s.ret && !Fin(c, s, m.writer[ar])
                                  && slot.pr == Wrap(Upto(c, s.path, m.writer[ar]).acts, c.phy))
  {
    hide Wrap, Upto, Config.OpOk, Result, Fin, RobOk, PrfCounts;
    if src.Reg? {
      var ar, m := src.ar, Upto(c, s.path, |s.path|);
      var w := m.writer[ar];
      assert s.rt.master[ar].renamed == (w >= s.ret);
      WriterHolds(c, s.path, |s.path|, ar);
      if w >= s.ret {
        Decoded(c, s.path, w);
      } else {
        Unwritten(c, s.path, s.ret, |s.path|, ar);
      }
    }
  }

  lemma NewRecordOk(c: Config, s: Core, row: nat)
    requires Sized(c, s) && CountsOk(c, s) && RobOk(c, s) && TagsOk(c, s) && PrfCounts(c, s) && PrfValues(c, s)
    requires RtOk(c, s) && ArfOk(c, s) && CanDispatch(c, s, row)
    requires Sized(c, DoDispatch(c, s, row)) && CountsOk(c, DoDispatch(c, s, row))
    ensures var t, r := DoDispatch(c, s, row), NewRecord(c, s);
            RecordIs(c, t, Row(r.op.station, row), r) && SlotsOk(c, t, r) && TagIs(c, t, r.n, r.isSpec, r.tag)
  {
    hide Wrap, Upto, Config.OpOk, P.Rename, B.Push, T.Book, K.Book, N.Overlay, T.LastTag, T.Outstanding, ReadSource,
         PrfValues, RtOk, ArfOk, TagsOk;
    var t, r := DoDispatch(c, s, row), NewRecord(c, s);
    Before(c, s, t);
    FinNew(c, s, row);
    LastTagIs(c, s);
    assert s.tags.next == {Wrap(Upto(c, s.path, |s.path|).brs, c.tags)} by { NextTag(c, s); }
    R.OpRange(c, r.op) by { DecodeHolds(c, s.fetchPc); }
    forall j | 0 <= j < |r.slots| ensures SlotOk(c, t, r.n, r.op.srcs[j], r.slots[j]) {
      SourceAnswered(c, s, r.op.srcs[j]);
    }
  }

  lemma NextTag(c: Config, s: Core)
    requires Sized(c, s) && CountsOk(c, s) && TagsOk(c, s)
    ensures s.tags.next == {Wrap(Upto(c, s.path, |s.path|).brs, c.tags)}
  {
    hide Wrap, Upto;
  }

  lemma DecodeHolds(c: Config, pc: int)
    requires c.Valid()
    ensures c.OpOk(c.isa.prog(pc))
  {
  }

  /** A record already in flight is as it was. */
  lemma OldRecordOk(c: Config, s: Core, row: nat, p: Place)
    requires Sized(c, s) && CountsOk(c, s) && RobOk(c, s) && CanDispatch(c, s, row) && p in s.live
    requires RecordIs(c, s, p, s.live[p]) && SlotsOk(c, s, s.live[p]) && TagIs(c, s, s.live[p].n, s.live[p].isSpec, s.live[p].tag)
    requires Sized(c, DoDispatch(c, s, row)) && CountsOk(c, DoDispatch(c, s, row))
    ensures var t, r := DoDispatch(c, s, row), s.live[p];
            RecordIs(c, t, p, r) && SlotsOk(c, t, r) && TagIs(c, t, r.n, r.isSpec, r.tag)
  {
    hide Wrap, Upto, Config.OpOk, P.Rename, B.Push, T.Book, K.Book, N.Overlay, NewRecord, Fin, RobOk;
    var t, r := DoDispatch(c, s, row), s.live[p];
    Before(c, s, t);
    FinNew(c, s, row);
    forall j | 0 <= j < |r.slots| ensures SlotOk(c, t, r.n, r.op.srcs[j], r.slots[j]) {
      assert SlotOk(c, s, r.n, r.op.srcs[j], r.slots[j]);
    }
  }

  lemma DispatchRecords(c: Config, s: Core, row: nat)
    requires Sized(c, s) && CountsOk(c, s) && RobOk(c, s) && TagsOk(c, s) && PrfCounts(c, s) && PrfValues(c, s)
    requires RtOk(c, s) && ArfOk(c, s) && RecordsOk(c, s) && CanDispatch(c, s, row)
    requires Sized(c, DoDispatch(c, s, row)) && CountsOk(c, DoDispatch(c, s, row))
    ensures RecordsOk(c, DoDispatch(c, s, row))
  {
    hide Wrap, Upto, Config.OpOk, P.Rename, B.Push, T.Book, K.Book, N.Overlay, RecordIs, SlotsOk, TagIs, RobOk,
         TagsOk, PrfCounts, PrfValues, RtOk, ArfOk;
    var t := DoDispatch(c, s, row);
    forall p | p in t.live
      ensures RecordIs(c, t, p, t.live[p]) && SlotsOk(c, t, t.live[p])
      ensures TagIs(c, t, t.live[p].n, t.live[p].isSpec, t.live[p].tag)
    {
      if p == Row(c.isa.prog(s.fetchPc).station, row) { NewRecordOk(c, s, row); } else { OldRecordOk(c, s, row, p); }
    }
  }

  lemma DispatchOnce(c: Config, s: Core, row: nat)
    requires Sized(c, s) && CountsOk(c, s) && RobOk(c, s) && RecordsOk(c, s) && OnceOk(c, s) && OrderOk(c, s) && CanDispatch(c, s, row)
    requires Sized(c, DoDispatch(c, s, row)) && CountsOk(c, DoDispatch(c, s, row))
    ensures OnceOk(c, DoDispatch(c, s, row)) && OrderOk(c, DoDispatch(c, s, row))
  {
    hide Wrap, Upto, Config.OpOk, P.Rename, B.Push, T.Book, K.Book, N.Overlay, RecordsOk, RobOk, Fin, NewRecord;
    var t := DoDispatch(c, s, row);
    var q := Row(c.isa.prog(s.fetchPc).station, row);
    FinNew(c, s, row);
    NewNumber(c, s);
    OlderNumbers(c, s);
    forall i | t.ret <= i < |t.path| && !Fin(c, t, i) ensures Holds(t, i) {
      if i < |s.path| {
        assert Holds(s, i);
        var o :| o in s.live && s.live[o].n == i;
        assert o in t.live && t.live[o].n == i;
      } else {
        assert q in t.live && t.live[q].n == i;
      }
    }
  }

  lemma NewNumber(c: Config, s: Core)
    requires Sized(c, s)
    ensures NewRecord(c, s).n == |s.path| && NewRecord(c, s).op == c.isa.prog(s.fetchPc)
  {
  }

  lemma OlderNumbers(c: Config, s: Core)
    requires Sized(c, s) && CountsOk(c, s) && RecordsOk(c, s)
    ensures forall p | p in s.live :: s.live[p].n < |s.path|
  {
    hide Wrap, Upto, Config.OpOk, SlotsOk, TagIs;
    forall p | p in s.live ensures s.live[p].n < |s.path| { assert RecordIs(c, s, p, s.live[p]); }
  }

  lemma DispatchLink(c: Config, s: Core, row: nat)
    requires Sized(c, s) && CountsOk(c, s) && LinkOk(c, s) && CanDispatch(c, s, row)
    requires Sized(c, DoDispatch(c, s, row)) && CountsOk(c, DoDispatch(c, s, row))
    ensures LinkOk(c, DoDispatch(c, s, row))
  {
    hide Wrap, Upto, Config.OpOk, P.Rename, B.Push, T.Book, K.Book, N.Overlay, Stored, Operands, Result;
    var t := DoDispatch(c, s, row);
    Before(c, s, t);
    UptoStep(c, t.path, |s.path|);
    forall i | 0 <= i < |t.path| ensures PcAt(t, i + 1) == t.link[i] {
      assert i < |s.path| ==> PcAt(s, i + 1) == s.link[i];
    }
  }

  lemma DispatchRest(c: Config, s: Core, row: nat)
    requires Sized(c, s) && CountsOk(c, s) && BufferOk(c, s) && MemoryOk(c, s) && CanDispatch(c, s, row)
    requires Sized(c, DoDispatch(c, s, row)) && CountsOk(c, DoDispatch(c, s, row))
    ensures var t := DoDispatch(c, s, row); BufferOk(c, t) && MemoryOk(c, t)
  {
    hide Wrap, Upto, Config.OpOk, P.Rename, B.Push, T.Book, K.Book, N.Overlay, Stored, Operands, Result;
    var t := DoDispatch(c, s, row);
    Before(c, s, t);
    UptoStep(c, t.path, |s.path|);
    forall i | 0 <= i < |t.path| && t.path[i].op.isStore && t.written <= Upto(c, t.path, i).sts < t.buffered
      ensures RowHolds(c, t, i)
    {
      assert RowHolds(c, s, i);
    }
  }

  lemma DispatchAccess(c: Config, s: Core, row: nat)
    requires Sized(c, s) && CountsOk(c, s) && RobOk(c, s) && RecordsOk(c, s) && AccessOk(c, s) && CanDispatch(c, s, row)
    requires Sized(c, DoDispatch(c, s, row)) && CountsOk(c, DoDispatch(c, s, row)) && RecordsOk(c, DoDispatch(c, s, row))
    ensures AccessOk(c, DoDispatch(c, s, row))
  {
    hide Wrap, Upto, Config.OpOk, P.Rename, B.Push, T.Book, K.Book, N.Overlay, RecordIs, SlotsOk, TagIs, WordSeen, Fin, RobOk;
    var t := DoDispatch(c, s, row);
    Before(c, s, t);
    FinNew(c, s, row);
  }

  lemma DispatchKeeps(c: Config, s: Core, row: nat)
    requires Inv(c, s) && CanDispatch(c, s, row)
    ensures Inv(c, DoDispatch(c, s, row))
  {
    hide Wrap, Upto, Sized, CountsOk, RobOk, TagsOk, ResolvedOk, PrfCounts, PrfValues, RtOk, ArfOk, OnceOk, OrderOk,
         LinkOk, BufferOk, MemoryOk, AccessOk, RecordsOk, CanDispatch;
    DispatchSized(c, s, row);
    DispatchCounts(c, s, row);
    DispatchTags(c, s, row);
    DispatchValues(c, s, row);
    DispatchRename(c, s, row);
    DispatchRecords(c, s, row);
    DispatchOnce(c, s, row);
    DispatchLink(c, s, row);
    DispatchRest(c, s, row);
    DispatchAccess(c, s, row);
  }

  /** A lane that carries nothing still touches the entry at the pointer, and harms nobody. */
  lemma EmptyLaneKeeps(c: Config, s: Core)
    requires Inv(c, s)
    ensures Inv(c, s.(prf := P.Rename(s.prf, c.phy, false)))
  {
    hide Wrap, Upto, Config.OpOk, Result, RtOk, BufferOk, RecordsOk, OnceOk, OrderOk, AccessOk;
    var t := s.(prf := P.Rename(s.prf, c.phy, false));
    forall i | s.ret <= i < |s.path| && s.path[i].op.active
      ensures Wrap(Upto(c, s.path, i).acts, c.phy) != s.prf.next
    {
      NextIsFree(c, s, i);
    }
    M.SameRename(c, s, t);
    M.SameBuffer(c, s, t);
    A.SameRecords(c, s, t);
    A.SameOnce(c, s, t);
    A.SameAccess(c, s, t);
  }
}

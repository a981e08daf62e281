/** Retiring the oldest instruction keeps the invariant. */
module KeepCommit {
  import opened Rings
  import opened Program
  import opened Records
  import opened Engine
  import opened Invariant
  import N = Rename

  /** The oldest row is instruction `ret`, reported. */
  lemma Oldest(c: Config, s: Core)
    requires Sized(c, s) && CountsOk(c, s) && RobOk(c, s) && CanCommit(c, s)
    ensures s.ret < |s.path| && Fin(c, s, s.ret)
    ensures RowIs(c, s.rob.table[s.rob.com], s.path[s.ret], Upto(c, s.path, s.ret).acts)
  {
    hide Wrap, Upto;
    assert s.path[s.ret] == s.path[s.ret];
  }

  /** Two in-flight allocations never share a physical register. */
  lemma OneRegister(c: Config, s: Core, i: nat, j: nat)
    requires Sized(c, s) && CountsOk(c, s) && PrfCounts(c, s)
    requires s.ret <= i < |s.path| && s.ret <= j < |s.path| && s.path[i].op.active && s.path[j].op.active
    requires Wrap(Upto(c, s.path, i).acts, c.phy) == Wrap(Upto(c, s.path, j).acts, c.phy)
    ensures i == j
  {
    hide Wrap, Upto;
    CountsRise(c, s.path, s.ret, i);
    CountsRise(c, s.path, s.ret, j);
    CountsSplit(c, s.path, i, |s.path|);
    CountsSplit(c, s.path, j, |s.path|);
    Apart(Upto(c, s.path, i).acts, Upto(c, s.path, j).acts, c.phy);
    if i < j { CountsSplit(c, s.path, i, j); }
    if j < i { CountsSplit(c, s.path, j, i); }
  }

  lemma CommitSized(c: Config, s: Core)
    requires Sized(c, s) && CanCommit(c, s)
    ensures Sized(c, DoCommit(c, s))
  {
    hide Wrap, Config.OpOk;
  }

  lemma CommitCounts(c: Config, s: Core)
    requires Sized(c, s) && CanCommit(c, s)
    requires CountsOk(c, s) && RobOk(c, s) && TagsOk(c, s) && ResolvedOk(c, s) && PrfCounts(c, s) && RecordsOk(c, s) && AccessOk(c, s)
    ensures var t := DoCommit(c, s);
            Sized(c, t) && CountsOk(c, t) && RobOk(c, t) && TagsOk(c, t) && ResolvedOk(c, t) && PrfCounts(c, t)
  {
    hide Wrap, Upto, Config.OpOk, RecordsOk, Apply, N.Retire;
    CommitSized(c, s);
    Oldest(c, s);
    WrapAdd(s.ret, 1, c.depth);
    UptoStep(c, s.path, s.ret);
    CountsRise(c, s.path, s.ret + 1, |s.path|);
    assert s.path[s.ret].op.isStore ==> Upto(c, s.path, s.ret).sts < s.buffered;
  }

  /** Dropping the retired mapping leaves the map of the instructions still in flight. */
  lemma CommitMap(c: Config, s: Core, row: N.RtRow, n: nat)
    requires Sized(c, s) && CanCommit(c, s) && CountsOk(c, s) && RobOk(c, s) && PrfCounts(c, s) && CountsOk(c, DoCommit(c, s))
    requires n <= |s.path| && |row| == |c.boot.regs| && Maps(c, s, row, n)
    ensures var head := s.rob.table[s.rob.com];
            Maps(c, DoCommit(c, s), if head.active && head.required then N.Drop(row, head.ar, head.pr) else row, n)
  {
    hide Wrap, Upto, Config.OpOk, N.Retire;
    Oldest(c, s);
    var t, head := DoCommit(c, s), s.rob.table[s.rob.com];
    var after := if head.active && head.required then N.Drop(row, head.ar, head.pr) else row;
    forall r | 0 <= r < |row|
      ensures var w := Upto(c, s.path, n).writer[r];
              && after[r].renamed == (w >= t.ret)
              && (w >= t.ret ==> after[r].prf == Wrap(Upto(c, s.path, w).acts, c.phy))
    {
      var w := Upto(c, s.path, n).writer[r];
      WriterHolds(c, s.path, n, r);
      if w >= 0 { Decoded(c, s.path, w); }
      if w >= s.ret && r == head.ar && row[r].prf == head.pr && s.path[s.ret].op.active {
        OneRegister(c, s, w, s.ret);
      }
    }
  }

  lemma CommitRename(c: Config, s: Core)
    requires Sized(c, s) && CanCommit(c, s) && CountsOk(c, s) && RobOk(c, s) && PrfCounts(c, s) && RtOk(c, s)
    requires Sized(c, DoCommit(c, s)) && CountsOk(c, DoCommit(c, s))
    ensures RtOk(c, DoCommit(c, s))
  {
    hide Wrap, Upto, Config.OpOk, Maps;
    Oldest(c, s);
    var t := DoCommit(c, s);
    CommitMap(c, s, s.rt.master, |s.path|);
    forall i | t.ret <= i < |t.path| && t.path[i].op.isBranch && Upto(c, t.path, i).brs >= t.res
      ensures Maps(c, t, t.rt.planes[Wrap(Upto(c, t.path, i).brs, c.tags)], i + 1)
    {
      CommitMap(c, s, s.rt.planes[Wrap(Upto(c, s.path, i).brs, c.tags)], i + 1);
    }
  }

  lemma CommitValues(c: Config, s: Core)
    requires Sized(c, s) && CanCommit(c, s) && CountsOk(c, s) && RobOk(c, s) && PrfValues(c, s) && ArfOk(c, s)
    requires Sized(c, DoCommit(c, s)) && CountsOk(c, DoCommit(c, s))
    ensures PrfValues(c, DoCommit(c, s)) && ArfOk(c, DoCommit(c, s))
  {
    hide Wrap, Upto, Config.OpOk, Result, N.Retire;
    Oldest(c, s);
    Decoded(c, s.path, s.ret);
    UptoStep(c, s.path, s.ret);
  }

  lemma CommitRecord(c: Config, s: Core, p: Place)
    requires Sized(c, s) && CanCommit(c, s) && CountsOk(c, s) && RobOk(c, s) && p in s.live
    requires Sized(c, DoCommit(c, s)) && CountsOk(c, DoCommit(c, s))
    requires RecordIs(c, s, p, s.live[p]) && SlotsOk(c, s, s.live[p])
    ensures RecordIs(c, DoCommit(c, s), p, s.live[p]) && SlotsOk(c, DoCommit(c, s), s.live[p])
  {
    hide Wrap, Upto, Config.OpOk, N.Retire, RowIs;
    Oldest(c, s);
    var t, r := DoCommit(c, s), s.live[p];
    forall j | 0 <= j < |r.slots| ensures SlotOk(c, t, r.n, r.op.srcs[j], r.slots[j]) {
      assert SlotOk(c, s, r.n, r.op.srcs[j], r.slots[j]);
    }
  }

  lemma CommitRecords(c: Config, s: Core)
    requires Sized(c, s) && CanCommit(c, s) && CountsOk(c, s) && RobOk(c, s)
    requires RecordsOk(c, s) && OnceOk(c, s) && OrderOk(c, s) && AccessOk(c, s)
    requires Sized(c, DoCommit(c, s)) && CountsOk(c, DoCommit(c, s))
    ensures var t := DoCommit(c, s); RecordsOk(c, t) && OnceOk(c, t) && OrderOk(c, t) && AccessOk(c, t)
  {
    hide Wrap, Upto, Config.OpOk, N.Retire, RecordIs, SlotsOk, RobOk, WordSeen;
    var t := DoCommit(c, s);
    forall p | p in t.live ensures RecordIs(c, t, p, t.live[p]) && SlotsOk(c, t, t.live[p]) {
      CommitRecord(c, s, p);
    }
    forall i | t.ret <= i < |t.path| && !Fin(c, t, i) ensures Holds(t, i) {
      assert Holds(s, i);
    }
  }

  lemma CommitMemory(c: Config, s: Core)
    requires Sized(c, s) && CanCommit(c, s) && CountsOk(c, s) && RobOk(c, s) && BufferOk(c, s)
    requires Sized(c, DoCommit(c, s)) && CountsOk(c, DoCommit(c, s))
    ensures BufferOk(c, DoCommit(c, s))
  {
    hide Wrap, Upto, Config.OpOk, N.Retire, Apply, Stored, Operands;
    Oldest(c, s);
    var t := DoCommit(c, s);
    var k := Upto(c, s.path, s.ret).sts;
    UptoStep(c, s.path, s.ret);
    WrapAdd(k, 1, c.sbDepth);
    forall i | 0 <= i < |t.path| && t.path[i].op.isStore && t.written <= Upto(c, t.path, i).sts < t.buffered
      ensures RowHolds(c, t, i)
    {
      assert RowHolds(c, s, i);
      if s.path[s.ret].op.isStore { SameStore(c, s, i); }
    }
  }

  /** A buffered store is in the row the next retirement marks only if it is the one retiring. */
  lemma SameStore(c: Config, s: Core, i: nat)
    requires Sized(c, s) && CountsOk(c, s) && BufferOk(c, s) && s.ret < |s.path| && Upto(c, s.path, s.ret).sts < s.buffered
    requires i < |s.path| && s.path[i].op.isStore && s.written <= Upto(c, s.path, i).sts < s.buffered && s.path[s.ret].op.isStore
    ensures Wrap(Upto(c, s.path, s.ret).sts, c.sbDepth) == Wrap(Upto(c, s.path, i).sts, c.sbDepth) <==> i == s.ret
  {
    hide Wrap, Upto, Config.OpOk, RowHolds;
    var k := Upto(c, s.path, s.ret).sts;
    if i < s.ret { CountsSplit(c, s.path, i, s.ret); } else if i > s.ret { CountsSplit(c, s.path, s.ret, i); }
    if Wrap(k, c.sbDepth) == Wrap(Upto(c, s.path, i).sts, c.sbDepth) { Apart(k, Upto(c, s.path, i).sts, c.sbDepth); }
  }

  lemma CommitKeeps(c: Config, s: Core)
    requires Inv(c, s) && CanCommit(c, s)
    ensures Inv(c, DoCommit(c, s))
  {
    hide Wrap, Upto, Sized, CountsOk, RobOk, TagsOk, ResolvedOk, PrfCounts, PrfValues, RtOk, ArfOk, RecordsOk,
         OnceOk, OrderOk, BufferOk, AccessOk, CanCommit;
    CommitCounts(c, s);
    CommitRename(c, s);
    CommitValues(c, s);
    CommitRecords(c, s);
    CommitMemory(c, s);
    assert LinkOk(c, DoCommit(c, s)) && MemoryOk(c, DoCommit(c, s));
  }
}

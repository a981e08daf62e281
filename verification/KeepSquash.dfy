/** A misprediction: the kill mask selects exactly the younger instructions, and every
    block rolls back to the branch. */
module KeepSquash {
  import opened Rings
  import opened Program
  import opened Records
  import opened Engine
  import opened Invariant
  import B = Reorder
  import N = Rename
  import P = Physical
  import S = Stores
  import T = Tags
  import K = KillMask
  import R = KeepReport
  import V = KeepResolve

  /** s is consistent, instruction n is a branch that has just reported, it is the oldest
      one not resolved, and r is the record it reported from. */
  ghost predicate Culprit(c: Config, s: Core, r: Rec)
  {
    && Sized(c, s) && CountsOk(c, s) && s.ret <= r.n < |s.path| && s.path[r.n].op.isBranch && Fin(c, s, r.n)
    && Upto(c, s.path, r.n).brs == s.res && r.tag == {Wrap(s.res, c.tags)}
    && r.rob == Wrap(r.n, c.depth) && r.pr == Wrap(Upto(c, s.path, r.n).acts, c.phy)
    && Upto(c, s.path, r.n + 1).m.pc == BranchTarget(c, r)
    && (forall i | s.ret <= i < |s.path| && s.path[i].op.isBranch && !Fin(c, s, i) :: Upto(c, s.path, i).brs > s.res)
    && (forall q | q in s.live :: s.live[q].n != r.n)
  }

  /** The kill mask of the squash. */
  ghost function Fix(s: Core, r: Rec): Mask
  {
    K.FixTag(s.mpft, r.tag)
  }

  /** Every block rolled back. */
  ghost function Rolled(c: Config, s: Core, r: Rec): Core
    requires Sized(c, s) && r.n < |s.path| && r.rob < c.depth && r.pr < c.phy
  {
    s.(live := Kill(s.live, Fix(s, r)), tags := T.Restart(c.tags, r.tag), mpft := K.Restart(s.mpft, r.tag),
       sb := S.Kill(s.sb, c.sbDepth, Fix(s, r)), rob := B.Truncate(s.rob, c.depth, r.rob),
       rt := N.Restore(s.rt, |c.boot.regs|, c.tags, r.tag), prf := P.Restart(s.prf, c.phy, r.pr),
       fetchPc := BranchTarget(c, r), path := s.path[..r.n + 1], link := s.link[..r.n] + [BranchTarget(c, r)],
       res := s.res + 1, buffered := PopCount(S.Survivors(s.sb, Fix(s, r))) + s.written)
  }

  /** The mask holds every open tag: all of them sit under the oldest. */
  lemma FixHoldsOpen(c: Config, s: Core, r: Rec, k: nat)
    requires Culprit(c, s, r) && TagsOk(c, s) && s.res <= k < Upto(c, s.path, |s.path|).brs
    ensures Wrap(k, c.tags) in Fix(s, r)
  {
    hide Wrap, Upto, Config.OpOk;
    InSpan(s.res, s.res, k + 1, c.tags);
    assert Wrap(s.res, c.tags) in s.mpft[Wrap(k, c.tags)] * r.tag;
  }

  /** The speculation pair of instruction i is hit exactly when i is younger. */
  lemma PairHit(c: Config, s: Core, r: Rec, i: nat, isSpec: bool, tag: Mask)
    requires Culprit(c, s, r) && TagsOk(c, s) && i < |s.path| && TagIs(c, s, i, isSpec, tag)
    requires s.path[i].op.isBranch ==> Upto(c, s.path, i).brs > s.res
    ensures (isSpec && tag * Fix(s, r) != {}) <==> i > r.n
  {
    hide Wrap, Upto, Config.OpOk, Fix;
    var b := Upto(c, s.path, i).brs;
    if i > r.n {
      CountsSplit(c, s.path, r.n, i);
      CountsRise(c, s.path, i, |s.path|);
      CountsSplit(c, s.path, i, |s.path|);
      var k := if s.path[i].op.isBranch then b else b - 1;
      FixHoldsOpen(c, s, r, k);
      assert Wrap(k, c.tags) in tag * Fix(s, r);
    } else {
      CountsRise(c, s.path, i, r.n);
    }
  }

  /** Exactly the records of the instructions behind the branch are killed. */
  lemma KillsYounger(c: Config, s: Core, r: Rec)
    requires Culprit(c, s, r) && TagsOk(c, s) && RecordsOk(c, s)
    ensures forall q | q in s.live :: Squashed(s.live[q], Fix(s, r)) <==> s.live[q].n > r.n
  {
    hide Wrap, Upto, Config.OpOk, Fix, SlotsOk, TagIs;
    forall q | q in s.live ensures Squashed(s.live[q], Fix(s, r)) <==> s.live[q].n > r.n {
      assert RecordIs(c, s, q, s.live[q]);
      OpenBranch(c, s, r, s.live[q].n);
      PairHit(c, s, r, s.live[q].n, s.live[q].isSpec, s.live[q].tag);
    }
  }

  lemma OpenBranch(c: Config, s: Core, r: Rec, i: nat)
    requires Culprit(c, s, r) && s.ret <= i < |s.path| && !Fin(c, s, i)
    ensures s.path[i].op.isBranch ==> Upto(c, s.path, i).brs > s.res
  {
    hide Wrap, Upto, Config.OpOk;
  }

  /** Exactly the buffered stores behind the branch are killed. */
  lemma KillsYoungerStores(c: Config, s: Core, r: Rec)
    requires Culprit(c, s, r) && TagsOk(c, s) && BufferOk(c, s)
    ensures forall i | 0 <= i < |s.path| && s.path[i].op.isStore && s.written <= Upto(c, s.path, i).sts < s.buffered ::
              S.Squashed(s.sb.table[Wrap(Upto(c, s.path, i).sts, c.sbDepth)], Fix(s, r)) <==> i > r.n
  {
    hide Wrap, Upto, Config.OpOk, Fix, TagsOk;
    forall i | 0 <= i < |s.path| && s.path[i].op.isStore && s.written <= Upto(c, s.path, i).sts < s.buffered
      ensures S.Squashed(s.sb.table[Wrap(Upto(c, s.path, i).sts, c.sbDepth)], Fix(s, r)) <==> i > r.n
    {
      assert RowHolds(c, s, i);
      Decoded(c, s.path, i);
      var row := s.sb.table[Wrap(Upto(c, s.path, i).sts, c.sbDepth)];
      PairHit(c, s, r, i, row.isSpec, row.tag) by { assert TagsOk(c, s); }
    }
  }

  /** How many stores a squash leaves in the buffer. */
  ghost function Kept(c: Config, s: Core, r: Rec): nat
    requires CountsOk(c, s) && r.n < |s.path|
  {
    var older := Upto(c, s.path, r.n + 1).sts;
    if older < s.buffered then older else s.buffered
  }

  /** Counting the survivors finds the tail. */
  lemma SurvivorCount(c: Config, s: Core, r: Rec)
    requires Culprit(c, s, r) && TagsOk(c, s) && BufferOk(c, s)
    ensures s.written <= Upto(c, s.path, s.ret).sts <= Kept(c, s, r) <= s.buffered
    ensures PopCount(S.Survivors(s.sb, Fix(s, r))) + s.written == Kept(c, s, r)
    ensures forall k | Kept(c, s, r) <= k < s.written + c.sbDepth :: !S.Survivors(s.sb, Fix(s, r))[Wrap(k, c.sbDepth)]
  {
    hide Wrap, Upto, Config.OpOk, Fix, PopCount, TagIs, Stored, Operands, TagsOk;
    KillsYoungerStores(c, s, r) by { assert TagsOk(c, s); }
    CountsRise(c, s.path, s.ret, r.n + 1);
    var bits, kept := S.Survivors(s.sb, Fix(s, r)), Kept(c, s, r);
    forall k | s.written <= k < s.written + c.sbDepth ensures bits[Wrap(k, c.sbDepth)] <==> k < kept {
      if k < s.buffered {
        var i := StoreNumbered(c, s.path, |s.path|, k);
        assert RowHolds(c, s, i);
        if i <= r.n { CountsSplit(c, s.path, i, r.n + 1); } else { CountsRise(c, s.path, r.n + 1, i); }
      }
    }
    PopCountRun(bits, s.written, kept);
  }

  lemma RolledSized(c: Config, s: Core, r: Rec)
    requires Culprit(c, s, r) && TagsOk(c, s) && RecordsOk(c, s)
    ensures r.rob < c.depth && r.pr < c.phy && Sized(c, Rolled(c, s, r))
  {
    hide Wrap, Upto, Config.OpOk, Fix, PopCount, SlotsOk, TagIs, RotateLeft;
    KillsYounger(c, s, r);
  }

  /** What is left of the path is as it was. */
  lemma Shorter(c: Config, s: Core, r: Rec, u: Core)
    requires CountsOk(c, s) && r.n < |s.path| && u.path == s.path[..r.n + 1]
    ensures PathOk(c, u.path)
    ensures forall i | 0 <= i <= r.n :: u.path[i] == s.path[i]
    ensures forall m | 0 <= m <= r.n + 1 :: Upto(c, u.path, m) == Upto(c, s.path, m)
  {
    hide Wrap, Upto, Config.OpOk;
    UptoPrefixes(c, u.path, s.path, r.n + 1);
  }

  lemma RolledCounts(c: Config, s: Core, r: Rec)
    requires Culprit(c, s, r) && TagsOk(c, s) && BufferOk(c, s) && r.rob < c.depth && r.pr < c.phy
    ensures CountsOk(c, Rolled(c, s, r))
  {
    hide Wrap, Upto, Config.OpOk, Fix, PopCount, Apply, Kill, BufferOk, TagsOk;
    Shorter(c, s, r, Rolled(c, s, r));
    SurvivorCount(c, s, r) by { assert TagsOk(c, s) && BufferOk(c, s); }
    UptoStep(c, s.path, r.n);
    CountsRise(c, s.path, s.ret, r.n + 1);
  }

  lemma RolledBlocks(c: Config, s: Core, r: Rec)
    requires Culprit(c, s, r) && RobOk(c, s) && TagsOk(c, s) && PrfCounts(c, s) && r.rob < c.depth && r.pr < c.phy
    requires Sized(c, Rolled(c, s, r)) && CountsOk(c, Rolled(c, s, r))
    ensures var u := Rolled(c, s, r); RobOk(c, u) && TagsOk(c, u) && ResolvedOk(c, u) && PrfCounts(c, u)
  {
    hide Wrap, Upto, Sized, RobOk, TagsOk, ResolvedOk, PrfCounts, Culprit, Rolled;
    RolledRob(c, s, r);
    RolledTags(c, s, r);
    RolledPool(c, s, r);
  }

  lemma RolledRob(c: Config, s: Core, r: Rec)
    requires Culprit(c, s, r) && RobOk(c, s) && r.rob < c.depth && r.pr < c.phy
    requires Sized(c, Rolled(c, s, r)) && CountsOk(c, Rolled(c, s, r))
    ensures RobOk(c, Rolled(c, s, r))
  {
    hide Wrap, Upto, Config.OpOk, Fix, PopCount, Apply, Kill, RotateLeft, S.Kill, N.Restore;
    Shorter(c, s, r, Rolled(c, s, r));
    WrapAdd(r.n, 1, c.depth);
    Distance(s.ret, r.n, c.depth);
  }

  lemma RolledTags(c: Config, s: Core, r: Rec)
    requires Culprit(c, s, r) && TagsOk(c, s) && r.rob < c.depth && r.pr < c.phy
    requires Sized(c, Rolled(c, s, r)) && CountsOk(c, Rolled(c, s, r))
    ensures TagsOk(c, Rolled(c, s, r))
  {
    hide Wrap, Upto, Config.OpOk, Fix, PopCount, Apply, Kill, RotateLeft, S.Kill, N.Restore;
    Shorter(c, s, r, Rolled(c, s, r));
    UptoStep(c, s.path, r.n);
    RotateLeftAt(s.res, c.tags);
  }

  lemma RolledPool(c: Config, s: Core, r: Rec)
    requires Culprit(c, s, r) && RobOk(c, s) && PrfCounts(c, s) && r.rob < c.depth && r.pr < c.phy
    requires Sized(c, Rolled(c, s, r)) && CountsOk(c, Rolled(c, s, r))
    ensures var u := Rolled(c, s, r); ResolvedOk(c, u) && PrfCounts(c, u)
  {
    hide Wrap, Upto, Config.OpOk, Fix, PopCount, Apply, Kill, RotateLeft, S.Kill, N.Restore;
    var u := Rolled(c, s, r);
    Shorter(c, s, r, u);
    Decoded(c, s.path, r.n);
    UptoStep(c, s.path, r.n);
    var a := Upto(c, s.path, r.n).acts;
    WrapAdd(a, 1, c.phy);
    CountsRise(c, s.path, s.ret, r.n);
    CountsRise(c, s.path, r.n + 1, |s.path|);
    Distance(a + 1, Upto(c, s.path, |s.path|).acts, c.phy);
    forall i | u.ret <= i < |u.path| && u.path[i].op.isBranch ensures Fin(c, u, i) && Upto(c, u.path, i).brs < u.res {
      CountsRise(c, s.path, i, r.n);
    }
  }

  lemma RolledRename(c: Config, s: Core, r: Rec)
    requires Culprit(c, s, r) && RtOk(c, s) && PrfValues(c, s) && ArfOk(c, s) && r.rob < c.depth && r.pr < c.phy
    requires Sized(c, Rolled(c, s, r)) && CountsOk(c, Rolled(c, s, r))
    ensures var u := Rolled(c, s, r); RtOk(c, u) && PrfValues(c, u) && ArfOk(c, u)
  {
    hide Wrap, Upto, Config.OpOk, Fix, PopCount, Kill, S.Kill, Result, K.LowestFrom, Apply;
    var u := Rolled(c, s, r);
    Shorter(c, s, r, u);
    UptoStep(c, s.path, r.n);
    K.LowestFromAt(Wrap(s.res, c.tags), 0, c.tags);
    forall i | u.ret <= i < |u.path| && u.path[i].op.isBranch ensures Upto(c, u.path, i).brs < u.res {
      CountsRise(c, s.path, i, r.n);
    }
  }

  /** A record that survives is that of an older instruction, and is under nothing now. */
  lemma SurvivorOk(c: Config, s: Core, r: Rec, q: Place)
    requires Culprit(c, s, r) && q in s.live && r.rob < c.depth && r.pr < c.phy && s.live[q].n < r.n
    requires RecordIs(c, s, q, s.live[q]) && SlotsOk(c, s, s.live[q]) && TagIs(c, s, s.live[q].n, s.live[q].isSpec, s.live[q].tag)
    requires Sized(c, Rolled(c, s, r)) && CountsOk(c, Rolled(c, s, r))
    ensures var u, v := Rolled(c, s, r), s.live[q];
            RecordIs(c, u, q, v) && SlotsOk(c, u, v) && TagIs(c, u, v.n, v.isSpec, v.tag)
  {
    hide Wrap, Upto, Config.OpOk, Fix, PopCount, Kill, S.Kill, N.Restore;
    var u, v := Rolled(c, s, r), s.live[q];
    Shorter(c, s, r, u);
    CountsRise(c, s.path, v.n, r.n);
    forall j | 0 <= j < |v.slots| ensures SlotOk(c, u, v.n, v.op.srcs[j], v.slots[j]) {
      assert SlotOk(c, s, v.n, v.op.srcs[j], v.slots[j]);
    }
  }

  lemma RolledRecords(c: Config, s: Core, r: Rec)
    requires Culprit(c, s, r) && TagsOk(c, s) && RecordsOk(c, s) && r.rob < c.depth && r.pr < c.phy
    requires Sized(c, Rolled(c, s, r)) && CountsOk(c, Rolled(c, s, r))
    ensures RecordsOk(c, Rolled(c, s, r))
    ensures var u := Rolled(c, s, r); forall q | q in s.live :: (q in u.live <==> s.live[q].n < r.n) && (q in u.live ==> u.live[q] == s.live[q])
  {
    hide Wrap, Upto, Config.OpOk, Fix, PopCount, SlotsOk, TagIs, RecordIs, S.Kill, N.Restore, TagsOk, Squashed, Fin;
    var u := Rolled(c, s, r);
    KillsYounger(c, s, r) by { assert TagsOk(c, s); }
    forall q | q in u.live
      ensures RecordIs(c, u, q, u.live[q]) && SlotsOk(c, u, u.live[q])
      ensures TagIs(c, u, u.live[q].n, u.live[q].isSpec, u.live[q].tag)
    {
      SurvivorOk(c, s, r, q);
    }
  }

  lemma RolledOnce(c: Config, s: Core, r: Rec)
    requires Culprit(c, s, r) && OnceOk(c, s) && OrderOk(c, s) && r.rob < c.depth && r.pr < c.phy
    requires Sized(c, Rolled(c, s, r)) && CountsOk(c, Rolled(c, s, r))
    requires var u := Rolled(c, s, r); forall q | q in s.live :: (q in u.live <==> s.live[q].n < r.n) && (q in u.live ==> u.live[q] == s.live[q])
    ensures OnceOk(c, Rolled(c, s, r)) && OrderOk(c, Rolled(c, s, r))
  {
    hide Wrap, Upto, Config.OpOk, Fix, PopCount, S.Kill, N.Restore, Squashed;
    var u := Rolled(c, s, r);
    forall i | u.ret <= i < |u.path| && !Fin(c, u, i) ensures Holds(u, i) {
      assert Fin(c, u, i) == Fin(c, s, i);
      assert Holds(s, i);
      var q :| q in s.live && s.live[q].n == i;
      assert q in u.live && u.live[q].n == i;
    }
  }

  lemma KeptRow(c: Config, s: Core, r: Rec, i: nat)
    requires Culprit(c, s, r) && i < r.n && s.path[i].op.isStore && RowHolds(c, s, i) && r.rob < c.depth && r.pr < c.phy
    requires !S.Squashed(s.sb.table[Wrap(Upto(c, s.path, i).sts, c.sbDepth)], Fix(s, r))
    requires Sized(c, Rolled(c, s, r)) && CountsOk(c, Rolled(c, s, r))
    ensures RowHolds(c, Rolled(c, s, r), i)
  {
    hide Wrap, Upto, Config.OpOk, Fix, PopCount, Kill, N.Restore, Stored, Operands;
    Shorter(c, s, r, Rolled(c, s, r));
    CountsRise(c, s.path, i, r.n);
    Decoded(c, s.path, i);
  }

  lemma RolledBuffer(c: Config, s: Core, r: Rec)
    requires Culprit(c, s, r) && TagsOk(c, s) && BufferOk(c, s) && r.rob < c.depth && r.pr < c.phy
    requires Sized(c, Rolled(c, s, r)) && CountsOk(c, Rolled(c, s, r))
    ensures BufferOk(c, Rolled(c, s, r))
  {
    hide Wrap, Upto, Config.OpOk, Fix, PopCount, Kill, N.Restore, RowHolds, TagsOk;
    var u := Rolled(c, s, r);
    Shorter(c, s, r, u);
    SurvivorCount(c, s, r) by { assert TagsOk(c, s); }
    KillsYoungerStores(c, s, r) by { assert TagsOk(c, s); }
    WrapAdd(s.written, PopCount(S.Survivors(s.sb, Fix(s, r))), c.sbDepth);
    Decoded(c, s.path, r.n);
    forall i | 0 <= i < |u.path| && u.path[i].op.isStore && u.written <= Upto(c, u.path, i).sts < u.buffered
      ensures RowHolds(c, u, i)
    {
      KeptRow(c, s, r, i);
    }
  }

  lemma RolledAccess(c: Config, s: Core, r: Rec)
    requires Culprit(c, s, r) && RecordsOk(c, s) && AccessOk(c, s) && r.rob < c.depth && r.pr < c.phy
    requires Sized(c, Rolled(c, s, r)) && CountsOk(c, Rolled(c, s, r)) && RecordsOk(c, Rolled(c, s, r))
    requires Rolled(c, s, r).buffered == Kept(c, s, r)
    requires var u := Rolled(c, s, r); forall q | q in s.live :: (q in u.live <==> s.live[q].n < r.n) && (q in u.live ==> u.live[q] == s.live[q])
    ensures AccessOk(c, Rolled(c, s, r))
  {
    hide Wrap, Upto, Config.OpOk, Fix, PopCount, S.Kill, N.Restore, SlotsOk, TagIs, RecordIs, WordSeen, Squashed;
    var u := Rolled(c, s, r);
    Shorter(c, s, r, u);
    Decoded(c, s.path, r.n);
    forall i | 0 <= i < r.n ensures u.path[i].op.isStore ==> Upto(c, s.path, i).sts < Upto(c, s.path, r.n + 1).sts {
      CountsSplit(c, s.path, i, r.n + 1);
    }
    forall q | q in u.live ensures u.live[q].n < r.n && u.live[q].op == u.path[u.live[q].n].op {
      assert RecordIs(c, u, q, u.live[q]);
      RecordOp(c, u, q);
    }
    forall i | u.ret <= i < |u.path| && u.path[i].op.isStore && Fin(c, u, i) ensures Upto(c, u.path, i).sts < u.buffered {
      assert Fin(c, s, i);
    }
  }

  lemma RecordOp(c: Config, s: Core, q: Place)
    requires Sized(c, s) && CountsOk(c, s) && q in s.live && RecordIs(c, s, q, s.live[q])
    ensures s.live[q].op == s.path[s.live[q].n].op
  {
    hide Wrap, Upto, Config.OpOk;
  }

  lemma RolledMemory(c: Config, s: Core, r: Rec)
    requires Culprit(c, s, r) && MemoryOk(c, s) && r.rob < c.depth && r.pr < c.phy && CountsOk(c, Rolled(c, s, r))
    ensures MemoryOk(c, Rolled(c, s, r))
  {
    hide Wrap, Upto, Config.OpOk, Fix, PopCount, Kill, S.Kill, N.Restore;
    Shorter(c, s, r, Rolled(c, s, r));
  }

  lemma RolledLink(c: Config, s: Core, r: Rec)
    requires Culprit(c, s, r) && LinkOk(c, s) && r.rob < c.depth && r.pr < c.phy && CountsOk(c, Rolled(c, s, r))
    ensures LinkOk(c, Rolled(c, s, r))
  {
    hide Wrap, Upto, Config.OpOk, Fix, PopCount, Kill, S.Kill, N.Restore;
    var u := Rolled(c, s, r);
    Shorter(c, s, r, u);
    forall i | 0 <= i < |u.path| ensures PcAt(u, i + 1) == u.link[i] {
      assert i < r.n ==> PcAt(s, i + 1) == s.link[i];
    }
    forall i | 0 <= i < |u.path| && u.path[i].op.isBranch ensures Upto(c, u.path, i).brs < u.res {
      CountsRise(c, s.path, i, r.n);
    }
    forall i | 0 <= i < |u.path| ensures u.link[i] == Upto(c, u.path, i + 1).m.pc {
      if i < r.n { CountsSplit(c, s.path, i, r.n); }
    }
  }

  lemma RollKeeps(c: Config, s: Core, r: Rec)
    requires Culprit(c, s, r) && Consistent(c, s)
    ensures r.rob < c.depth && r.pr < c.phy && Inv(c, Rolled(c, s, r))
  {
    hide Wrap, Upto, Sized, CountsOk, RobOk, TagsOk, ResolvedOk, PrfCounts, PrfValues, RtOk, ArfOk, OnceOk, OrderOk,
         LinkOk, BufferOk, MemoryOk, AccessOk, RecordsOk, PopCount, Culprit, Fix;
    RolledSized(c, s, r);
    RolledCounts(c, s, r);
    RolledBlocks(c, s, r);
    RolledRename(c, s, r);
    RolledRecords(c, s, r);
    RolledOnce(c, s, r);
    RolledBuffer(c, s, r);
    RolledMemory(c, s, r);
    SurvivorCount(c, s, r);
    RolledAccess(c, s, r);
    RolledLink(c, s, r);
  }

  lemma MisPredictKeeps(c: Config, s: Core, p: Place)
    requires Inv(c, s) && AtLastStage(c, s, p) && s.live[p].op.isBranch
    ensures Inv(c, DoMisPredict(c, s, p))
  {
    hide Wrap, Upto, CountsOk, RobOk, TagsOk, ResolvedOk, PrfCounts, PrfValues, RtOk, ArfOk, OnceOk, OrderOk,
         LinkOk, BufferOk, MemoryOk, AccessOk, RecordsOk, PopCount, Config.OpOk;
    ReportsCulprit(c, s, p);
    RollKeeps(c, Report(c, s, p), s.live[p]);
    assert DoMisPredict(c, s, p) == Rolled(c, Report(c, s, p), s.live[p]);
  }

  lemma ReportsCulprit(c: Config, s: Core, p: Place)
    requires Inv(c, s) && AtLastStage(c, s, p) && s.live[p].op.isBranch
    ensures Consistent(c, Report(c, s, p)) && Culprit(c, Report(c, s, p), s.live[p])
  {
    hide Wrap, Upto, RobOk, TagsOk, ResolvedOk, PrfCounts, PrfValues, RtOk, ArfOk, OrderOk,
         LinkOk, BufferOk, MemoryOk, AccessOk, RecordsOk, Config.OpOk;
    V.OldestOpen(c, s, p);
    V.BranchReport(c, s, p);
  }
}

/** A branch resolving as predicted: its tag leaves every record, row and table. */
module KeepResolve {
  import opened Rings
  import opened Program
  import opened Records
  import opened Engine
  import opened Invariant
  import K = KillMask
  import S = Stores
  import T = Tags
  import R = KeepReport

  /** Branches report in program order: the one in the branch unit is the oldest open. */
  lemma OldestOpen(c: Config, s: Core, p: Place)
    requires Sized(c, s) && CountsOk(c, s) && ResolvedOk(c, s) && RecordsOk(c, s) && OnceOk(c, s) && OrderOk(c, s)
    requires AtLastStage(c, s, p) && s.live[p].op.isBranch
    ensures Upto(c, s.path, s.live[p].n).brs == s.res
  {
    hide Wrap, Upto, Config.OpOk, SlotsOk, TagIs;
    var n := s.live[p].n;
    Decoded(c, s.path, n);
    if Upto(c, s.path, n).brs > s.res {
      var i := BranchNumbered(c, s.path, n, s.res);
      if i < s.ret { CountsSplit(c, s.path, i, s.ret); }
      assert Holds(s, i);
      var q :| q in s.live && s.live[q].n == i;
      assert RecordIs(c, s, q, s.live[q]);
      Decoded(c, s.path, i);
    }
  }

  /** The open tags are fewer than a whole ring, so no two share a bit. */
  lemma OpenTagsFit(c: Config, s: Core, n: nat)
    requires Sized(c, s) && CountsOk(c, s) && TagsOk(c, s) && n < |s.path|
    ensures Upto(c, s.path, n).brs <= Upto(c, s.path, |s.path|).brs < s.res + c.tags
    ensures s.path[n].op.isBranch ==> Upto(c, s.path, n).brs < Upto(c, s.path, |s.path|).brs
  {
    hide Wrap, Upto;
    CountsRise(c, s.path, n, |s.path|);
    CountsSplit(c, s.path, n, |s.path|);
  }

  /** s with its oldest open tag returned. */
  ghost function Masked(c: Config, s: Core, tag: Mask): Core
    requires Sized(c, s)
  {
    s.(live := Records.Resolve(s.live, tag), tags := T.Return(s.tags), mpft := K.Resolve(s.mpft, tag),
       sb := S.Resolve(s.sb, c.sbDepth, tag), res := s.res + 1)
  }

  lemma MaskTag(c: Config, s: Core, i: nat, isSpec: bool, tag: Mask)
    requires Sized(c, s) && CountsOk(c, s) && TagsOk(c, s) && i < |s.path| && TagIs(c, s, i, isSpec, tag)
    requires s.path[i].op.isBranch ==> Upto(c, s.path, i).brs > s.res
    ensures var left := tag - {Wrap(s.res, c.tags)};
            TagIs(c, s.(res := s.res + 1), i, isSpec && left != {}, if isSpec then left else tag)
  {
    hide Wrap, Upto, Config.OpOk;
    OpenTagsFit(c, s, i);
    var b := Upto(c, s.path, i).brs;
    if s.path[i].op.isBranch {
      if Wrap(b, c.tags) == Wrap(s.res, c.tags) { Apart(b, s.res, c.tags); }
      assert Wrap(b, c.tags) in tag - {Wrap(s.res, c.tags)} && tag - {Wrap(s.res, c.tags)} == tag;
    } else if b > s.res + 1 {
      if Wrap(b - 1, c.tags) == Wrap(s.res, c.tags) { Apart(b - 1, s.res, c.tags); }
      assert tag - {Wrap(s.res, c.tags)} == {Wrap(b - 1, c.tags)};
    }
  }

  lemma MaskSized(c: Config, s: Core, tag: Mask)
    requires Sized(c, s)
    ensures Sized(c, Masked(c, s, tag))
  {
    hide Wrap, Config.OpOk;
  }

  /** A row loses its oldest bit. */
  lemma SpanLess(lo: nat, hi: nat, size: nat)
    requires size > 0 && lo < hi < lo + size + 1
    ensures Span(lo, hi, size) - {Wrap(lo, size)} == Span(lo + 1, hi, size)
  {
    hide Wrap;
    forall k | lo < k < hi ensures Wrap(k, size) != Wrap(lo, size) {
      if Wrap(k, size) == Wrap(lo, size) { Apart(k, lo, size); }
    }
  }

  lemma MaskTables(c: Config, s: Core, n: nat)
    requires Sized(c, s) && CountsOk(c, s) && TagsOk(c, s) && n < |s.path|
    requires s.path[n].op.isBranch && Upto(c, s.path, n).brs == s.res
    ensures var u := Masked(c, s, {Wrap(s.res, c.tags)}); Sized(c, u) && CountsOk(c, u) && TagsOk(c, u)
  {
    hide Wrap, Upto, Config.OpOk, Records.Resolve;
    var tag := {Wrap(s.res, c.tags)};
    MaskSized(c, s, tag);
    OpenTagsFit(c, s, n);
    var u, brs := Masked(c, s, tag), Upto(c, s.path, |s.path|).brs;
    forall k | u.res <= k < brs ensures u.mpft[Wrap(k, c.tags)] == Span(u.res, k + 1, c.tags) {
      SpanLess(s.res, k + 1, c.tags);
    }
  }

  /** What a record must be does not depend on the speculation state. */
  lemma RecordSame(c: Config, s: Core, u: Core, p: Place, r: Rec)
    requires Sized(c, s) && CountsOk(c, s) && Sized(c, u) && CountsOk(c, u)
    requires s.rob == u.rob && s.path == u.path && s.ret == u.ret
    requires RecordIs(c, s, p, r) && SlotsOk(c, s, r)
    ensures RecordIs(c, u, p, r) && SlotsOk(c, u, r)
  {
    hide Wrap, Upto, Config.OpOk;
    forall j | 0 <= j < |r.slots| ensures SlotOk(c, u, r.n, r.op.srcs[j], r.slots[j]) {
      assert SlotOk(c, s, r.n, r.op.srcs[j], r.slots[j]);
    }
  }

  lemma MaskRecord(c: Config, s: Core, p: Place)
    requires Sized(c, s) && CountsOk(c, s) && TagsOk(c, s) && p in s.live
    requires var u := Masked(c, s, {Wrap(s.res, c.tags)}); Sized(c, u) && CountsOk(c, u)
    requires var r := s.live[p]; RecordIs(c, s, p, r) && SlotsOk(c, s, r) && TagIs(c, s, r.n, r.isSpec, r.tag)
    requires s.path[s.live[p].n].op.isBranch ==> Upto(c, s.path, s.live[p].n).brs > s.res
    ensures var u := Masked(c, s, {Wrap(s.res, c.tags)});
            p in u.live && u.live[p] == s.live[p].(isSpec := u.live[p].isSpec, tag := u.live[p].tag)
            && RecordIs(c, u, p, u.live[p]) && SlotsOk(c, u, u.live[p])
            && TagIs(c, u, u.live[p].n, u.live[p].isSpec, u.live[p].tag)
  {
    hide Wrap, Upto, Config.OpOk, SlotOk, TagIs, Fin;
    var u, r := Masked(c, s, {Wrap(s.res, c.tags)}), s.live[p];
    RecordSame(c, s, u, p, r);
    MaskTag(c, s, r.n, r.isSpec, r.tag);
    R.TagSame(c, s.(res := s.res + 1), u, r.n, u.live[p].isSpec, u.live[p].tag);
  }

  lemma MaskRecords(c: Config, s: Core)
    requires Sized(c, s) && CountsOk(c, s) && TagsOk(c, s) && RecordsOk(c, s)
    requires forall i | s.ret <= i < |s.path| && s.path[i].op.isBranch && !Fin(c, s, i) :: Upto(c, s.path, i).brs > s.res
    requires var u := Masked(c, s, {Wrap(s.res, c.tags)}); Sized(c, u) && CountsOk(c, u)
    ensures var u := Masked(c, s, {Wrap(s.res, c.tags)}); SamePlaces(s, u) && RecordsOk(c, u)
  {
    hide Wrap, Upto, Config.OpOk, SlotsOk, TagIs, Fin, TagsOk;
    var u := Masked(c, s, {Wrap(s.res, c.tags)});
    forall p | p in u.live
      ensures u.live[p].n == s.live[p].n && u.live[p].op == s.live[p].op && u.live[p].word == s.live[p].word
      ensures RecordIs(c, u, p, u.live[p]) && SlotsOk(c, u, u.live[p])
      ensures TagIs(c, u, u.live[p].n, u.live[p].isSpec, u.live[p].tag)
    {
      hide RecordIs;
      MaskRecord(c, s, p) by { assert RecordIs(c, s, p, s.live[p]) && !Fin(c, s, s.live[p].n); }
    }
  }

  /** Every place holds a record of the same instruction as before. */
  ghost predicate SamePlaces(s: Core, u: Core)
  {
    u.live.Keys == s.live.Keys && forall p | p in u.live ::
      u.live[p].n == s.live[p].n && u.live[p].op == s.live[p].op && u.live[p].word == s.live[p].word
  }

  lemma OnceSame(c: Config, s: Core, u: Core)
    requires Sized(c, s) && CountsOk(c, s) && OnceOk(c, s) && OrderOk(c, s)
    requires Sized(c, u) && CountsOk(c, u) && u.rob == s.rob && u.path == s.path && u.ret == s.ret && SamePlaces(s, u)
    ensures OnceOk(c, u) && OrderOk(c, u)
  {
    hide Wrap, Upto, Config.OpOk;
    forall i | u.ret <= i < |u.path| && !Fin(c, u, i) ensures Holds(u, i) {
      assert Holds(s, i);
      var q :| q in s.live && s.live[q].n == i;
      assert q in u.live && u.live[q].n == i;
    }
  }

  lemma MaskAccess(c: Config, s: Core)
    requires Sized(c, s) && CountsOk(c, s) && RecordsOk(c, s) && AccessOk(c, s)
    requires var u := Masked(c, s, {Wrap(s.res, c.tags)}); Sized(c, u) && CountsOk(c, u) && RecordsOk(c, u) && SamePlaces(s, u)
    ensures AccessOk(c, Masked(c, s, {Wrap(s.res, c.tags)}))
  {
    hide Wrap, Upto, Config.OpOk, SlotsOk, TagIs, WordSeen, RecordIs, Records.Resolve;
  }

  lemma MaskBuffer(c: Config, s: Core)
    requires Sized(c, s) && CountsOk(c, s) && TagsOk(c, s) && BufferOk(c, s)
    requires var u := Masked(c, s, {Wrap(s.res, c.tags)}); Sized(c, u) && CountsOk(c, u)
    ensures BufferOk(c, Masked(c, s, {Wrap(s.res, c.tags)}))
  {
    hide Wrap, Upto, Config.OpOk, TagIs, Stored, Operands, TagsOk;
    var u := Masked(c, s, {Wrap(s.res, c.tags)});
    forall i | 0 <= i < |u.path| && u.path[i].op.isStore && u.written <= Upto(c, u.path, i).sts < u.buffered
      ensures RowHolds(c, u, i)
    {
      assert RowHolds(c, s, i);
      Decoded(c, s.path, i);
      var k := Wrap(Upto(c, s.path, i).sts, c.sbDepth);
      MaskTag(c, s, i, s.sb.table[k].isSpec, s.sb.table[k].tag);
      R.TagSame(c, s.(res := s.res + 1), u, i, u.sb.table[k].isSpec, u.sb.table[k].tag);
    }
  }

  lemma MaskRename(c: Config, s: Core, n: nat)
    requires Consistent(c, s) && n < |s.path| && s.path[n].op.isBranch && Upto(c, s.path, n).brs == s.res
    requires Upto(c, s.path, n + 1).m.pc == s.path[n].pc + c.ilen
    requires var u := Masked(c, s, {Wrap(s.res, c.tags)}); Sized(c, u) && CountsOk(c, u)
    ensures var u := Masked(c, s, {Wrap(s.res, c.tags)});
            RobOk(c, u) && PrfCounts(c, u) && PrfValues(c, u) && RtOk(c, u) && ArfOk(c, u) && LinkOk(c, u) && MemoryOk(c, u)
  {
    hide Wrap, Upto, Config.OpOk, TagsOk, RecordsOk, OnceOk, OrderOk, AccessOk, BufferOk, Result, Records.Resolve;
    var u := Masked(c, s, {Wrap(s.res, c.tags)});
    forall i | 0 <= i < |u.path| && (u.path[i].op.isBranch ==> Upto(c, u.path, i).brs < u.res)
      ensures u.link[i] == Upto(c, u.path, i + 1).m.pc
    {
      if u.path[i].op.isBranch && i != n {
        if i < n { CountsSplit(c, s.path, i, n); } else { CountsSplit(c, s.path, n, i); }
      }
    }
  }

  lemma ResolveKeeps(c: Config, s: Core, p: Place)
    requires Inv(c, s) && AtLastStage(c, s, p) && s.live[p].op.isBranch && BranchTarget(c, s.live[p]) == s.live[p].npc
    ensures Inv(c, DoResolve(c, s, p))
  {
    hide Wrap, Upto, Sized, CountsOk, RobOk, TagsOk, PrfCounts, PrfValues, RtOk, ArfOk, RecordsOk, OnceOk, OrderOk, LinkOk,
         BufferOk, MemoryOk, AccessOk, R.Slimmer, TagIs, Fin, Apply, Report, BranchTarget;
    OldestOpen(c, s, p);
    BranchReport(c, s, p);
    var n, t, tag := s.live[p].n, Report(c, s, p), {Wrap(s.res, c.tags)};
    var u := Masked(c, t, tag);
    MaskTables(c, t, n);
    MaskRecords(c, t);
    OnceSame(c, t, u);
    MaskAccess(c, t);
    MaskBuffer(c, t);
    MaskRename(c, t, n);
    MaskResolved(c, s, t, n);
    assert DoResolve(c, s, p) == u by { hide Consistent; Masks(c, s, p); }
  }

  lemma Masks(c: Config, s: Core, p: Place)
    requires Sized(c, s) && p in s.live
    ensures DoResolve(c, s, p) == Masked(c, Report(c, s, p), s.live[p].tag)
  {
    hide Wrap, Config.OpOk;
  }

  /** The branch leaves, every other branch in flight is younger, and it went as predicted. */
  lemma BranchReport(c: Config, s: Core, p: Place)
    requires Inv(c, s) && AtLastStage(c, s, p) && s.live[p].op.isBranch && Upto(c, s.path, s.live[p].n).brs == s.res
    ensures var n, t := s.live[p].n, Report(c, s, p);
            && Consistent(c, t) && s.ret <= n < |t.path| && t.path == s.path && t.res == s.res && t.ret == s.ret
            && t.path[n].op.isBranch && s.live[p].tag == {Wrap(s.res, c.tags)}
            && s.live[p].npc == s.path[n].pc + c.ilen && s.live[p].pc == s.path[n].pc && s.live[p].rob == Wrap(n, c.depth)
            && s.live[p].pr == Wrap(Upto(c, s.path, n).acts, c.phy)
            && Upto(c, t.path, n + 1).m.pc == BranchTarget(c, s.live[p])
            && R.Slimmer(s, t, p)
            && (forall i | s.ret <= i < |s.path| :: Fin(c, t, i) == (i == n || Fin(c, s, i)))
            && (forall i | t.ret <= i < |t.path| && t.path[i].op.isBranch && !Fin(c, t, i) :: Upto(c, t.path, i).brs > t.res)
  {
    hide Wrap, Upto, RobOk, TagsOk, PrfCounts, PrfValues, RtOk, ArfOk, OnceOk, OrderOk, LinkOk, BufferOk, MemoryOk,
         AccessOk, R.Slimmer, SlotsOk, Fin, Config.OpOk;
    var n, t := s.live[p].n, Report(c, s, p);
    R.ReportKeeps(c, s, p);
    R.ReportsResult(c, s, p);
    UptoStep(c, s.path, n);
    assert RecordIs(c, s, p, s.live[p]) && TagIs(c, s, n, s.live[p].isSpec, s.live[p].tag);
    forall i | t.ret <= i < |t.path| && t.path[i].op.isBranch && !Fin(c, t, i) ensures Upto(c, t.path, i).brs > t.res {
      if i < n { CountsSplit(c, s.path, i, n); } else { CountsSplit(c, s.path, n, i); }
    }
  }

  lemma MaskResolved(c: Config, s: Core, t: Core, n: nat)
    requires Sized(c, s) && CountsOk(c, s) && ResolvedOk(c, s) && Sized(c, t) && CountsOk(c, t)
    requires t.path == s.path && t.ret == s.ret && t.res == s.res
    requires s.ret <= n < |s.path| && s.path[n].op.isBranch && Upto(c, s.path, n).brs == s.res
    requires forall i | s.ret <= i < |s.path| :: Fin(c, t, i) == (i == n || Fin(c, s, i))
    requires var u := Masked(c, t, {Wrap(s.res, c.tags)}); Sized(c, u) && CountsOk(c, u)
    ensures ResolvedOk(c, Masked(c, t, {Wrap(s.res, c.tags)}))
  {
    hide Wrap, Upto, Config.OpOk, Records.Resolve;
    var u := Masked(c, t, {Wrap(s.res, c.tags)});
    forall i | u.ret <= i < |u.path| && u.path[i].op.isBranch
      ensures Fin(c, u, i) <==> Upto(c, u.path, i).brs < u.res
    {
      assert Fin(c, u, i) == Fin(c, t, i);
      if i < n { CountsSplit(c, s.path, i, n); } else if n < i { CountsSplit(c, s.path, n, i); }
    }
  }
}

/** A finished instruction reporting: its value is the sequential one, and the writeback
    wakes exactly the sources waiting for it. */
module KeepReport {
  import opened Rings
  import opened Program
  import opened Records
  import opened Engine
  import opened Invariant
  import K = KeepCommit
  import B = Reorder
  import P = Physical

  /** Once every source has landed, a record's operands are the sequential ones. */
  lemma OperandsLanded(c: Config, s: Core, r: Rec)
    requires Sized(c, s) && CountsOk(c, s) && r.n < |s.path| && r.op == s.path[r.n].op && SlotsOk(c, s, r) && Ready(r)
    ensures Fits(c, r.op, Upto(c, s.path, r.n).m)
    ensures Values(r.slots) == Operands(c, r.op, Upto(c, s.path, r.n).m)
  {
    hide Wrap, Upto, Config.OpOk;
    Decoded(c, s.path, r.n);
    OpRange(c, r.op);
    var m := Upto(c, s.path, r.n).m;
    forall j | 0 <= j < |r.slots| ensures Values(r.slots)[j] == Operands(c, r.op, m)[j] {
      assert SlotOk(c, s, r.n, r.op.srcs[j], r.slots[j]);
    }
  }

  lemma OpRange(c: Config, op: Op)
    requires c.OpOk(op)
    ensures forall i | 0 <= i < |op.srcs| && op.srcs[i].Reg? :: op.srcs[i].ar < |c.boot.regs|
  {
  }

  /** p holds an in-flight instruction about to report its sequential result. */
  ghost predicate Reports(c: Config, s: Core, p: Place)
    requires Sized(c, s) && CountsOk(c, s)
  {
    && p in s.live && p.Stage? && RecordIs(c, s, p, s.live[p])
    && Fits(c, s.path[s.live[p].n].op, Upto(c, s.path, s.live[p].n).m)
    && Value(c, s.live[p]) == Result(c, s.path[s.live[p].n], Upto(c, s.path, s.live[p].n).m)
  }

  /** What a last stage writes back is what the sequential machine computes. */
  lemma ReportsResult(c: Config, s: Core, p: Place)
    requires Sized(c, s) && CountsOk(c, s) && RecordsOk(c, s) && AccessOk(c, s) && AtLastStage(c, s, p)
    ensures Reports(c, s, p)
    ensures BranchTarget(c, s.live[p]) == Apply(c, s.path[s.live[p].n], Upto(c, s.path, s.live[p].n).m).pc
  {
    hide Wrap, Upto, Config.OpOk, SlotsOk, TagIs;
    var r := s.live[p];
    assert RecordIs(c, s, p, r);
    OperandsLanded(c, s, r);
    Decoded(c, s.path, r.n);
  }

  lemma ReportSized(c: Config, s: Core, p: Place)
    requires Sized(c, s) && p in s.live
    ensures Sized(c, Report(c, s, p))
  {
    hide Wrap, Config.OpOk;
  }

  /** Only the reporting instruction's own row changes. */
  lemma FinAfter(c: Config, s: Core, p: Place)
    requires Sized(c, s) && CountsOk(c, s) && RobOk(c, s) && Reports(c, s, p) && Sized(c, Report(c, s, p))
    ensures forall i | s.ret <= i < |s.path| :: Fin(c, Report(c, s, p), i) == (i == s.live[p].n || Fin(c, s, i))
    ensures RobOk(c, Report(c, s, p))
  {
    hide Wrap, Upto, Config.OpOk, Wake;
    var n := s.live[p].n;
    forall i | s.ret <= i < |s.path| ensures Wrap(i, c.depth) == Wrap(n, c.depth) ==> i == n {
      if Wrap(i, c.depth) == Wrap(n, c.depth) { Apart(i, n, c.depth); }
    }
  }

  lemma ReportValues(c: Config, s: Core, p: Place)
    requires Sized(c, s) && CountsOk(c, s) && RobOk(c, s) && PrfCounts(c, s) && PrfValues(c, s)
    requires Reports(c, s, p) && Sized(c, Report(c, s, p))
    ensures PrfValues(c, Report(c, s, p))
  {
    hide Wrap, Upto, Config.OpOk, Wake, Result, SlotsOk, TagIs, RobOk, WordSeen, PrfCounts;
    var r := s.live[p];
    FinAfter(c, s, p);
    Decoded(c, s.path, r.n);
    var t := Report(c, s, p);
    forall i | s.ret <= i < |s.path| && s.path[i].op.active && i != r.n && r.op.active
      ensures Wrap(Upto(c, s.path, i).acts, c.phy) != r.pr
    {
      if Wrap(Upto(c, s.path, i).acts, c.phy) == r.pr { K.OneRegister(c, s, i, r.n); }
    }
  }

  /** A source waiting for this instruction takes its value; no other source moves. */
  lemma WokenSlot(c: Config, s: Core, p: Place, n: nat, src: Src, slot: Slot)
    requires Sized(c, s) && CountsOk(c, s) && RobOk(c, s) && PrfCounts(c, s)
    requires Reports(c, s, p) && Sized(c, Report(c, s, p)) && n < |s.path| && SlotOk(c, s, n, src, slot)
    ensures var r := s.live[p];
            SlotOk(c, Report(c, s, p), n, src,
              if r.op.required && SlotHit(slot, r.pr) then slot.(valid := true, data := Value(c, r)) else slot)
  {
    hide Wrap, Upto, Config.OpOk, Wake, Result, SlotsOk, TagIs, RobOk, WordSeen, PrfCounts;
    var r := s.live[p];
    FinAfter(c, s, p);
    if src.Reg? && !slot.valid {
      var w := Upto(c, s.path, n).writer[src.ar];
      WriterHolds(c, s.path, n, src.ar);
      Decoded(c, s.path, w);
      Decoded(c, s.path, r.n);
      if r.op.required && slot.pr == r.pr { K.OneRegister(c, s, w, r.n); }
    }
  }

  /** A source that has landed stays landed, whatever reports. */
  lemma LandedSlot(c: Config, s: Core, t: Core, n: nat, src: Src, slot: Slot)
    requires Sized(c, s) && CountsOk(c, s) && Sized(c, t) && CountsOk(c, t) && s.path == t.path
    requires n < |s.path| && SlotOk(c, s, n, src, slot) && (slot.active ==> slot.valid)
    ensures SlotOk(c, t, n, src, slot)
  {
    hide Wrap, Upto, Config.OpOk;
  }

  lemma ReportRecord(c: Config, s: Core, p: Place, q: Place)
    requires Sized(c, s) && CountsOk(c, s) && RobOk(c, s) && PrfCounts(c, s)
    requires Reports(c, s, p) && Sized(c, Report(c, s, p)) && q in s.live && s.live[q].n != s.live[p].n
    requires RecordIs(c, s, q, s.live[q]) && SlotsOk(c, s, s.live[q])
    ensures var t := Report(c, s, p);
            q in t.live && RecordIs(c, t, q, t.live[q]) && SlotsOk(c, t, t.live[q])
    ensures var t := Report(c, s, p);
            t.live[q] == s.live[q].(slots := t.live[q].slots) && (q.Stage? ==> t.live[q] == s.live[q])
  {
    hide Wrap, Upto, Config.OpOk, SlotOk, TagIs, RobOk, PrfCounts, Value;
    FinAfter(c, s, p);
    var t, r := Report(c, s, p), s.live[q];
    assert q != p;
    var u := t.live[q];
    assert u == if q.Row? && s.live[p].op.required then r.(slots := WakeSlots(r.slots, s.live[p].pr, Value(c, s.live[p]))) else r;
    forall j | 0 <= j < |u.slots| ensures SlotOk(c, t, u.n, u.op.srcs[j], u.slots[j]) {
      assert SlotOk(c, s, r.n, r.op.srcs[j], r.slots[j]);
      if q.Row? { WokenSlot(c, s, p, r.n, r.op.srcs[j], r.slots[j]); } else { LandedSlot(c, s, t, r.n, r.op.srcs[j], r.slots[j]); }
    }
  }

  lemma ReportRecords(c: Config, s: Core, p: Place)
    requires Sized(c, s) && CountsOk(c, s) && RobOk(c, s) && PrfCounts(c, s) && RecordsOk(c, s) && OnceOk(c, s)
    requires Reports(c, s, p) && Sized(c, Report(c, s, p))
    ensures Slimmer(s, Report(c, s, p), p) && RecordsOk(c, Report(c, s, p))
  {
    hide Wrap, Upto, Config.OpOk, SlotsOk, TagIs, RobOk, PrfCounts, Fits, Result, Value, Fin, RecordIs;
    var t := Report(c, s, p);
    forall q | q in t.live
      ensures t.live[q] == s.live[q].(slots := t.live[q].slots)
      ensures RecordIs(c, t, q, t.live[q]) && SlotsOk(c, t, t.live[q])
      ensures TagIs(c, t, t.live[q].n, t.live[q].isSpec, t.live[q].tag)
    {
      ReportRecord(c, s, p, q);
      TagSame(c, s, t, s.live[q].n, s.live[q].isSpec, s.live[q].tag);
    }
  }

  /** t has the records of s without the one at p, with only their slots changed. */
  ghost predicate Slimmer(s: Core, t: Core, p: Place)
  {
    t.live.Keys == s.live.Keys - {p} && forall q | q in t.live :: t.live[q] == s.live[q].(slots := t.live[q].slots)
  }

  lemma ReportOnce(c: Config, s: Core, p: Place)
    requires Sized(c, s) && CountsOk(c, s) && OnceOk(c, s) && p in s.live
    requires Sized(c, Report(c, s, p)) && Slimmer(s, Report(c, s, p), p)
    requires forall i | s.ret <= i < |s.path| :: Fin(c, Report(c, s, p), i) == (i == s.live[p].n || Fin(c, s, i))
    ensures OnceOk(c, Report(c, s, p))
  {
    hide Wrap, Upto, Config.OpOk, Value, Fin;
    var t := Report(c, s, p);
    forall i | t.ret <= i < |t.path| && !Fin(c, t, i) ensures Holds(t, i) {
      assert Holds(s, i);
      var q :| q in s.live && s.live[q].n == i;
      assert q in t.live && t.live[q].n == i;
    }
  }

  lemma TagSame(c: Config, s: Core, t: Core, i: nat, isSpec: bool, tag: Mask)
    requires PathOk(c, s.path) && i < |s.path| && s.path == t.path && s.res == t.res && TagIs(c, s, i, isSpec, tag)
    ensures TagIs(c, t, i, isSpec, tag)
  {
    hide Wrap, Upto;
  }

  lemma ReportAccess(c: Config, s: Core, p: Place)
    requires Sized(c, s) && CountsOk(c, s) && RecordsOk(c, s) && AccessOk(c, s) && AtLastStage(c, s, p)
    requires Sized(c, Report(c, s, p)) && RecordsOk(c, Report(c, s, p)) && Slimmer(s, Report(c, s, p), p)
    requires forall i | s.ret <= i < |s.path| :: Fin(c, Report(c, s, p), i) == (i == s.live[p].n || Fin(c, s, i))
    ensures AccessOk(c, Report(c, s, p))
  {
    hide Wrap, Upto, Config.OpOk, SlotsOk, TagIs, Value, WordSeen, Fin;
    Decoded(c, s.path, s.live[p].n);
  }

  /** Everything but the record of which branches resolved survives a report. */
  lemma ReportKeeps(c: Config, s: Core, p: Place)
    requires Consistent(c, s) && AtLastStage(c, s, p)
    ensures Reports(c, s, p) && Consistent(c, Report(c, s, p))
    ensures forall i | s.ret <= i < |s.path| :: Fin(c, Report(c, s, p), i) == (i == s.live[p].n || Fin(c, s, i))
    ensures Slimmer(s, Report(c, s, p), p)
  {
    hide Wrap, Upto, Slimmer, Sized, CountsOk, RobOk, PrfCounts, PrfValues, RecordsOk, OnceOk, AccessOk, Fin, TagsOk, RtOk, ArfOk,
         LinkOk, BufferOk, MemoryOk;
    ReportsResult(c, s, p);
    ReportSized(c, s, p);
    ReportFrame(c, s, p);
    FinAfter(c, s, p);
    ReportValues(c, s, p);
    ReportRecords(c, s, p);
    ReportOnce(c, s, p);
    ReportAccess(c, s, p);
  }

  lemma ReportFrame(c: Config, s: Core, p: Place)
    requires Consistent(c, s) && p in s.live && Sized(c, Report(c, s, p))
    ensures var t := Report(c, s, p);
            && CountsOk(c, t) && TagsOk(c, t) && PrfCounts(c, t) && RtOk(c, t) && ArfOk(c, t)
            && LinkOk(c, t) && BufferOk(c, t) && MemoryOk(c, t)
  {
    hide Wrap, Upto, Sized, RobOk, PrfValues, RecordsOk, OnceOk, OrderOk, AccessOk, CountsOk, TagsOk, PrfCounts, RtOk, ArfOk,
         LinkOk, BufferOk, MemoryOk, Report;
    ReportTables(c, s, p);
    ReportHistory(c, s, p);
  }

  lemma ReportTables(c: Config, s: Core, p: Place)
    requires Sized(c, s) && CountsOk(c, s) && TagsOk(c, s) && PrfCounts(c, s) && RtOk(c, s)
    requires p in s.live && Sized(c, Report(c, s, p))
    ensures var t := Report(c, s, p); CountsOk(c, t) && TagsOk(c, t) && PrfCounts(c, t) && RtOk(c, t)
  {
    hide Wrap, Upto, Sized, Wake, Value, Span;
  }

  lemma ReportHistory(c: Config, s: Core, p: Place)
    requires Sized(c, s) && CountsOk(c, s) && ArfOk(c, s) && LinkOk(c, s) && BufferOk(c, s) && MemoryOk(c, s)
    requires p in s.live && Sized(c, Report(c, s, p)) && CountsOk(c, Report(c, s, p))
    ensures var t := Report(c, s, p); ArfOk(c, t) && LinkOk(c, t) && BufferOk(c, t) && MemoryOk(c, t)
  {
    hide Wrap, Upto, Sized, Wake, Value, Stored, Operands, B.Finish, P.WriteBack;
    var t := Report(c, s, p);
    forall i | 0 <= i < |t.path| && t.path[i].op.isStore && t.written <= Upto(c, t.path, i).sts < t.buffered
      ensures RowHolds(c, t, i)
    {
      assert RowHolds(c, s, i);
    }
  }

  lemma CompleteKeeps(c: Config, s: Core, p: Place)
    requires Inv(c, s) && AtLastStage(c, s, p) && !s.live[p].op.isBranch
    ensures Inv(c, Report(c, s, p))
  {
    hide Wrap, Upto, Consistent, Fin;
    ReportKeeps(c, s, p);
  }
}

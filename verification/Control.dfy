/** What an instruction is given and where it goes on, said of the instruction set itself:
    its operands, source by source, and its continuation. */
module Control {
  import opened Rings
  import opened Program
  import opened Records
  import opened Engine
  import opened Invariant
  import opened Theorems
  import R = KeepReport
  import S = Stores
  import Results

  /** Each operand is an immediate, a hardwired register's constant, or the register's own
      value; an empty slot gives nothing. */
  lemma OperandsAre(c: Config, op: Op, m: Arch)
    requires Fits(c, op, m)
    ensures |Operands(c, op, m)| == |op.srcs|
    ensures forall j | 0 <= j < |op.srcs| ::
              match op.srcs[j]
              case Empty => Operands(c, op, m)[j] == 0
              case Imm(v) => Operands(c, op, m)[j] == v
              case Reg(ar) => ar < |m.regs| && Operands(c, op, m)[j] == if ar in c.consts then c.consts[ar] else m.regs[ar]
  {
  }

  /** The sequential machine goes on where the instruction set sends a branch, given the
      branch's operands, and else to the next instruction. */
  lemma StepGoes(c: Config, n: nat)
    requires c.Valid()
    ensures var m := Sequential(c, n);
            var op := c.isa.prog(m.pc);
            Fits(c, op, m) && Sequential(c, n + 1).pc == if op.isBranch then c.isa.next(op, m.pc, Operands(c, op, m)) else m.pc + c.ilen
  {
    hide Wrap, Result, Stored, WordAddr;
  }

  lemma PathStepGoes(c: Config, path: seq<Inst>, i: nat)
    requires PathOk(c, path) && i < |path|
    ensures var m, op := Upto(c, path, i).m, path[i].op;
            && Fits(c, op, m)
            && Upto(c, path, i + 1).m.pc == if op.isBranch then c.isa.next(op, path[i].pc, Operands(c, op, m)) else path[i].pc + c.ilen
  {
    hide Wrap, Upto, Result, Stored, WordAddr;
    Decoded(c, path, i);
    UptoStep(c, path, i);
  }

  /** In every reachable state, a branch at its last stage was mispredicted exactly when the
      instruction set, given what the program before it leaves in its operands, goes anywhere
      but the next instruction; and a squash goes there. */
  lemma BranchGoes(c: Config, z: Core, s: Core, events: seq<Event>, p: Place)
    requires Reaches(c, z, s, events) && AtLastStage(c, s, p) && s.live[p].op.isBranch
    ensures Sized(c, s) && PathOk(c, s.path) && s.live[p].n < |s.path| && Fits(c, s.live[p].op, Upto(c, s.path, s.live[p].n).m)
    ensures s.path[s.live[p].n] == Inst(s.live[p].op, s.live[p].pc)
    ensures var r := s.live[p];
            var goes := c.isa.next(r.op, r.pc, Operands(c, r.op, Upto(c, s.path, r.n).m));
            && (Enabled(c, s, MisPredict(p)) <==> goes != r.pc + c.ilen)
            && (Enabled(c, s, Resolve(p)) <==> goes == r.pc + c.ilen)
            && (Enabled(c, s, MisPredict(p)) ==> Next(c, s, MisPredict(p)).fetchPc == goes)
            && Upto(c, s.path, r.n + 1).m.pc == goes
  {
    hide Wrap, Upto, Reaches, Sized, RobOk, TagsOk, ResolvedOk, PrfCounts, PrfValues, RtOk, ArfOk, OnceOk, OrderOk, LinkOk, BufferOk,
         MemoryOk, AccessOk, SlotsOk, TagIs, Config.OpOk, Fin;
    RunKeeps(c, z, s, events);
    Results.Counts(c, s);
    var r := s.live[p];
    assert RecordIs(c, s, p, r);
    LandedHere(c, s, p);
    R.OperandsLanded(c, s, r);
    PathStepGoes(c, s.path, r.n);
  }

  lemma LandedHere(c: Config, s: Core, p: Place)
    requires Inv(c, s) && p in s.live
    ensures Sized(c, s) && CountsOk(c, s) && s.live[p].n < |s.path| && SlotsOk(c, s, s.live[p])
  {
    hide Wrap, Upto, RobOk, TagsOk, ResolvedOk, PrfCounts, PrfValues, RtOk, ArfOk, OnceOk, OrderOk, LinkOk, BufferOk,
         MemoryOk, AccessOk, SlotsOk, TagIs, Config.OpOk, Fin;
    assert RecordIs(c, s, p, s.live[p]);
  }

  /** In every reachable state, a source that names a hardwired register has its constant. */
  lemma HardwiredSource(c: Config, z: Core, s: Core, events: seq<Event>, p: Place, j: nat)
    requires Reaches(c, z, s, events) && p in s.live && j < |s.live[p].op.srcs|
    requires s.live[p].op.srcs[j].Reg? && s.live[p].op.srcs[j].ar in c.consts
    ensures |s.live[p].slots| == |s.live[p].op.srcs|
    ensures var slot := s.live[p].slots[j];
            slot.active && slot.valid && slot.data == c.consts[s.live[p].op.srcs[j].ar]
  {
    hide Wrap, Upto, Reaches, RobOk, TagsOk, ResolvedOk, PrfCounts, PrfValues, RtOk, ArfOk, OnceOk, OrderOk, LinkOk, BufferOk,
         MemoryOk, AccessOk, RecordsOk, TagIs, Config.OpOk, Fin, Inv;
    RunKeeps(c, z, s, events);
    LandedHere(c, s, p);
    var r := s.live[p];
    assert SlotOk(c, s, r.n, r.op.srcs[j], r.slots[j]);
    WriterHolds(c, s.path, r.n, r.op.srcs[j].ar);
  }

  // --- where records are ------------------------------------------------------------------

  /** Every record is in a row its station has, or in a unit that runs its instruction. */
  ghost predicate WellPlaced(c: Config, live: Live)
  {
    forall p | p in live :: if p.Row? then p.row < c.rows(p.station) else c.runs(p.station, p.unit, live[p].op.uop)
  }

  lemma PlacedFewer(c: Config, live: Live, t: Live)
    requires WellPlaced(c, live) && forall p | p in t :: p in live && t[p].op == live[p].op
    ensures WellPlaced(c, t)
  {
  }

  lemma ReportPlaced(c: Config, s: Core, p: Place)
    requires Sized(c, s) && p in s.live && WellPlaced(c, s.live)
    ensures WellPlaced(c, Report(c, s, p).live)
  {
    hide Wrap, Value, WakeSlots, Config.OpOk;
    PlacedFewer(c, s.live, Report(c, s, p).live);
  }

  lemma StepPlaced(c: Config, s: Core, e: Event)
    requires Sized(c, s) && Enabled(c, s, e) && WellPlaced(c, s.live)
    ensures WellPlaced(c, Next(c, s, e).live)
  {
    hide Wrap, Sized, Report, BranchTarget, WellPlaced, MaskRec, Squashed, S.IsFull, S.CanDrain, CanRename, Loaded;
    match e
    case Complete(p) => ReportPlaced(c, s, p);
    case Resolve(p) =>
      ReportPlaced(c, s, p);
      ResolvedPlaced(c, Report(c, s, p).live, s.live[p].tag);
    case MisPredict(p) =>
      ReportPlaced(c, s, p);
      PlacedFewer(c, Report(c, s, p).live, Next(c, s, e).live);
    case Issue(p, q) => MovePlaced(c, s.live, p, q, s.live[p]);
    case Hop(p, q) => MovePlaced(c, s.live, p, q, s.live[p]);
    case Access(p, q) => MovePlaced(c, s.live, p, q, DoAccess(c, s, p, q).live[q]);
    case Dispatch(row) => LandPlaced(c, s, row);
    case _ =>
  }

  lemma ResolvedPlaced(c: Config, live: Live, tag: Mask)
    requires WellPlaced(c, live)
    ensures WellPlaced(c, Records.Resolve(live, tag))
  {
    PlacedFewer(c, live, Records.Resolve(live, tag));
  }

  lemma MovePlaced(c: Config, live: Live, p: Place, q: Place, r: Rec)
    requires WellPlaced(c, live) && p in live && q.Stage? && r.op == live[p].op
    requires c.runs(q.station, q.unit, r.op.uop) || (p.Stage? && p.station == q.station && p.unit == q.unit)
    ensures WellPlaced(c, (live - {p})[q := r])
  {
  }

  lemma LandPlaced(c: Config, s: Core, row: nat)
    requires Sized(c, s) && CanDispatch(c, s, row) && WellPlaced(c, s.live)
    ensures WellPlaced(c, DoDispatch(c, s, row).live)
  {
    hide Wrap, CanRename, Sized;
  }

  /** In every reachable state, a waiting record is in a row of its station's table, and an
      executing one in a unit that runs its instruction. */
  lemma {:induction false} PlacedAlways(c: Config, z: Core, s: Core, events: seq<Event>)
    requires Reaches(c, z, s, events)
    ensures forall p | p in s.live && p.Row? :: p.row < c.rows(p.station)
    ensures forall p | p in s.live && p.Stage? :: c.runs(p.station, p.unit, s.live[p].op.uop)
    ensures WellPlaced(c, s.live)
    decreases |events|
  {
    hide Sized, Enabled, Next;
    if events != [] {
      var last := events[|events| - 1];
      var before :| Reaches(c, z, before, events[..|events| - 1])
                    && Sized(c, before) && Enabled(c, before, last) && s == Next(c, before, last);
      PlacedAlways(c, z, before, events[..|events| - 1]);
      StepPlaced(c, before, last);
    }
  }
}

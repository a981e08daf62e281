/**
 The engine, one event at a time: every block's registers together, and what each
 event of a cycle does to all of them. A clock cycle is a run of these events.
 */
module Engine {
  import opened Rings
  import opened Program
  import T = Tags
  import K = KillMask
  import P = Physical
  import N = Rename
  import B = Reorder
  import S = Stores
  import A = Architectural
  import opened Records

  /** The registers of every block, then the history they are judged against. */
  datatype Core = Core(
    rob: B.RobState, tags: T.TagState, mpft: seq<Mask>, prf: P.PrfState, rt: N.RtState,
    arf: seq<Word>, live: Live, sb: S.StState, mem: seq<Word>, fetchPc: int,
    // history, read by no step: the dispatched path and the pc each instruction leads
    // to; how many have retired, branches resolved, stores buffered, stores in memory
    path: seq<Inst>, link: seq<int>, ret: nat, res: nat, buffered: nat, written: nat)

  /** Everything is as wide as its table: what register widths guarantee. */
  ghost predicate Sized(c: Config, s: Core)
  {
    && c.Valid()
    && s.rob.Sized(c.depth) && s.prf.Sized(c.phy) && s.rt.Sized(|c.boot.regs|, c.tags)
    && s.sb.Sized(c.sbDepth) && |s.mpft| == c.tags && |s.arf| == |c.boot.regs| && |s.mem| == |c.boot.mem|
    && (forall i | 0 <= i < c.depth :: s.rob.table[i].pr < c.phy && s.rob.table[i].ar < |c.boot.regs|)
    && (forall i | 0 <= i < c.sbDepth :: s.sb.table[i].addr < |c.boot.mem|)
    && (forall r | 0 <= r < |s.rt.master| :: s.rt.master[r].prf < c.phy)
    && (forall t, r | 0 <= t < c.tags && 0 <= r < |c.boot.regs| :: s.rt.planes[t][r].prf < c.phy)
    && |s.link| == |s.path|
    && (forall p | p in s.live ::
          s.live[p].rob < c.depth && s.live[p].pr < c.phy && s.live[p].n < |s.path| && c.OpOk(s.live[p].op))
  }

  datatype Event =
    | Commit                        // the oldest instruction retires
    | Complete(p: Place)            // a last stage reports and writes back
    | Resolve(p: Place)             // a branch reports, predicted right
    | MisPredict(p: Place)          // a branch reports, predicted wrong
    | Issue(p: Place, q: Place)     // a station row goes to a unit
    | Hop(p: Place, q: Place)       // a stage record goes to the next stage
    | Access(p: Place, q: Place)    // the same for a memory access: search, read, push
    | Dispatch(row: nat)            // the next instruction is renamed into a station row
    | EmptyLane                     // a dispatch lane carrying nothing
    | Drain                         // the head store is written to memory

  // --- commit ---------------------------------------------------------------------

  ghost predicate CanCommit(c: Config, s: Core)
    requires Sized(c, s)
  {
    s.rob.used > 0 && s.rob.table[s.rob.com].fin
  }

  ghost function DoCommit(c: Config, s: Core): Core
    requires Sized(c, s) && CanCommit(c, s)
  {
    var row := s.rob.table[s.rob.com];
    var writes := row.active && row.required;
    s.(rob := B.Retire(s.rob, c.depth),
       arf := if writes && row.ar !in c.consts then s.arf[row.ar := s.prf.data[row.pr]] else s.arf,
       rt := if writes then N.Retire(s.rt, |c.boot.regs|, c.tags, row.ar, row.pr) else s.rt,
       prf := P.Free(s.prf, row.active),
       sb := if row.isStore then S.Commit(s.sb, c.sbDepth) else s.sb,
       ret := s.ret + 1)
  }

  // --- execution ------------------------------------------------------------------

  ghost predicate AtLastStage(c: Config, s: Core, p: Place)
  {
    p in s.live && p.Stage? && p.stage == c.lastStage(p.station, p.unit)
  }

  function BranchTarget(c: Config, r: Rec): int
  {
    if r.op.isBranch then c.isa.next(r.op, r.pc, Values(r.slots)) else r.pc + c.ilen
  }

  function Value(c: Config, r: Rec): Word
  {
    c.isa.value(r.op, r.pc, Values(r.slots), r.word)
  }

  /** The report of one finished instruction: its register, the broadcast, its entry. */
  ghost function Report(c: Config, s: Core, p: Place): Core
    requires Sized(c, s) && p in s.live
  {
    var r := s.live[p];
    var value := Value(c, r);
    var rest := s.live - {p};
    s.(live := if r.op.required then Wake(rest, r.pr, value) else rest,
       prf := if r.op.required then P.WriteBack(s.prf, c.phy, r.pr, value) else s.prf,
       rob := B.Finish(s.rob, c.depth, r.rob))
  }

  ghost function DoResolve(c: Config, s: Core, p: Place): Core
    requires Sized(c, s) && p in s.live
  {
    var r := s.live[p];
    var t := Report(c, s, p);
    t.(live := Records.Resolve(t.live, r.tag),
       tags := T.Return(s.tags),
       mpft := K.Resolve(s.mpft, r.tag),
       sb := S.Resolve(s.sb, c.sbDepth, r.tag),
       res := s.res + 1)
  }

  ghost function DoMisPredict(c: Config, s: Core, p: Place): Core
    requires Sized(c, s) && p in s.live
  {
    var r := s.live[p];
    var t := Report(c, s, p);
    var fix := K.FixTag(s.mpft, r.tag);
    t.(live := Kill(t.live, fix),
       tags := T.Restart(c.tags, r.tag),
       mpft := K.Restart(s.mpft, r.tag),
       sb := S.Kill(s.sb, c.sbDepth, fix),
       rob := B.Truncate(t.rob, c.depth, r.rob),
       rt := N.Restore(s.rt, |c.boot.regs|, c.tags, r.tag),
       prf := P.Restart(t.prf, c.phy, r.pr),
       fetchPc := BranchTarget(c, r),
       path := s.path[..r.n + 1],
       link := s.link[..r.n] + [BranchTarget(c, r)],
       res := s.res + 1,
       buffered := PopCount(S.Survivors(s.sb, fix)) + s.written)
  }

  // --- issue and the stage chain -----------------------------------------------------

  function Move(live: Live, p: Place, q: Place): Live
    requires p in live
  {
    (live - {p})[q := live[p]]
  }

  /** A ready row goes to a free first stage; an in-order station offers only the row
      it was dispatched first. */
  ghost predicate CanIssue(c: Config, s: Core, p: Place, q: Place)
  {
    && p in s.live && q !in s.live && p.Row? && q.Stage? && p.station == q.station && q.stage == 0
    && Ready(s.live[p]) && c.runs(p.station, q.unit, s.live[p].op.uop)
    && (p.station in c.inOrder ==>
          q.unit == 0 && forall o | o in s.live && o.Row? && o.station == p.station :: s.live[p].n <= s.live[o].n)
  }

  ghost predicate CanHop(c: Config, s: Core, p: Place, q: Place)
  {
    && p in s.live && q !in s.live && p.Stage? && q.Stage?
    && p.station == q.station && p.unit == q.unit && q.stage == p.stage + 1
    && p.stage < c.lastStage(p.station, p.unit)
  }

  /** The word a memory access picks up: the newest buffered store, else memory. */
  function Loaded(c: Config, s: Core, addr: nat): Word
    requires s.sb.Sized(c.sbDepth) && addr < |s.mem|
  {
    match S.Newest(s.sb, c.sbDepth, c.sbDepth, addr)
    case Hit(d) => d
    case Miss => s.mem[addr]
  }

  ghost predicate CanAccess(c: Config, s: Core, p: Place, q: Place)
    requires Sized(c, s)
  {
    CanHop(c, s, p, q) && p.station == c.lsStation && (s.live[p].op.isLoad || !S.IsFull(s.sb, c.sbDepth))
  }

  ghost function DoAccess(c: Config, s: Core, p: Place, q: Place): Core
    requires Sized(c, s) && p in s.live
  {
    var r := s.live[p];
    var operands := Values(r.slots);
    var addr := WordAddr(c, r.op, operands);
    var word := Loaded(c, s, addr);
    var t := s.(live := (s.live - {p})[q := r.(word := word)]);
    if r.op.isStore then
      t.(sb := S.Push(s.sb, c.sbDepth, r.isSpec, r.tag, addr, c.isa.merge(r.op, operands, word)),
         buffered := s.buffered + 1)
    else t
  }

  // --- dispatch ---------------------------------------------------------------------

  /** One source as rename answers it: the value if it can be read now, else the
      physical register that will hold it. */
  ghost function ReadSource(c: Config, s: Core, src: Src): Slot
    requires Sized(c, s) && (src.Reg? ==> src.ar < |c.boot.regs|)
  {
    match src
    case Empty => Slot(false, false, 0, 0)
    case Imm(v) => Slot(true, true, 0, v)
    case Reg(ar) =>
      var e := s.rt.master[ar];
      if e.renamed && !s.prf.fin[e.prf] then Slot(true, false, e.prf, 0)
      else Slot(true, true, 0, if e.renamed then s.prf.data[e.prf] else A.Read(s.arf, c.consts, ar))
  }

  /** Every block but the station has room for the next instruction. */
  ghost predicate CanRename(c: Config, s: Core)
    requires Sized(c, s)
  {
    var op := c.isa.prog(s.fetchPc);
    s.rob.used < c.depth && (op.active ==> s.prf.free > 0) && (op.isBranch ==> s.tags.free > 0)
  }

  ghost predicate CanDispatch(c: Config, s: Core, row: nat)
    requires Sized(c, s)
  {
    var op := c.isa.prog(s.fetchPc);
    CanRename(c, s) && row < c.rows(op.station) && Row(op.station, row) !in s.live
  }

  ghost function NewRecord(c: Config, s: Core): Rec
    requires Sized(c, s)
  {
    var op := c.isa.prog(s.fetchPc);
    Rec(op, s.fetchPc, s.fetchPc + c.ilen, s.rob.alloc, s.prf.next,
        T.Outstanding(s.tags, c.tags), T.InForce(s.tags, c.tags, op.isBranch),
        seq(|op.srcs|, i requires 0 <= i < |op.srcs| => ReadSource(c, s, op.srcs[i])), 0, |s.path|)
  }

  ghost function DoDispatch(c: Config, s: Core, row: nat): Core
    requires Sized(c, s) && CanDispatch(c, s, row)
  {
    var r := NewRecord(c, s);
    var op := r.op;
    s.(rob := B.Push(s.rob, c.depth,
                     B.RobRow(op.isBranch, op.isStore, op.active, op.required, op.ar, r.pr, r.pc, false)),
       prf := P.Rename(s.prf, c.phy, op.active),
       rt := N.Overlay(s.rt, |c.boot.regs|, c.tags, Writes(c, op, op.ar), op.ar, r.pr, op.isBranch, r.tag),
       tags := T.Book(s.tags, c.tags, op.isBranch),
       mpft := if op.isBranch then K.Book(s.mpft, K.OpenTags(s.mpft, T.LastTag(s.tags, c.tags)), r.tag) else s.mpft,
       live := s.live[Row(op.station, row) := r],
       fetchPc := s.fetchPc + c.ilen,
       path := s.path + [Inst(op, s.fetchPc)],
       link := s.link + [s.fetchPc + c.ilen])
  }

  // --- one event ----------------------------------------------------------------------

  ghost predicate Enabled(c: Config, s: Core, e: Event)
    requires Sized(c, s)
  {
    match e
    case Commit => CanCommit(c, s)
    case Complete(p) => AtLastStage(c, s, p) && !s.live[p].op.isBranch
    case Resolve(p) => AtLastStage(c, s, p) && s.live[p].op.isBranch && BranchTarget(c, s.live[p]) == s.live[p].npc
    case MisPredict(p) => AtLastStage(c, s, p) && s.live[p].op.isBranch && BranchTarget(c, s.live[p]) != s.live[p].npc
    case Issue(p, q) => CanIssue(c, s, p, q)
    case Hop(p, q) => CanHop(c, s, p, q) && p.station != c.lsStation
    case Access(p, q) => CanAccess(c, s, p, q)
    case Dispatch(row) => CanDispatch(c, s, row)
    case EmptyLane => true
    case Drain => S.CanDrain(s.sb, c.sbDepth)
  }

  ghost function Next(c: Config, s: Core, e: Event): Core
    requires Sized(c, s) && Enabled(c, s, e)
  {
    match e
    case Commit => DoCommit(c, s)
    case Complete(p) => Report(c, s, p)
    case Resolve(p) => DoResolve(c, s, p)
    case MisPredict(p) => DoMisPredict(c, s, p)
    case Issue(p, q) => s.(live := Move(s.live, p, q))
    case Hop(p, q) => s.(live := Move(s.live, p, q))
    case Access(p, q) => DoAccess(c, s, p, q)
    case Dispatch(row) => DoDispatch(c, s, row)
    case EmptyLane => s.(prf := P.Rename(s.prf, c.phy, false))
    case Drain =>
      var head := s.sb.table[s.sb.ret];
      s.(mem := s.mem[head.addr := head.data], sb := S.Drain(s.sb, c.sbDepth), written := s.written + 1)
  }
}

/**
 One clock cycle of the whole engine.

 Everything a cycle does, it works out from the registers as they stood: what reports,
 issues and hops, what retires, what goes to memory, and what the dispatch bundle reads
 through the same-cycle views. The blocks' own cycle functions say what each register
 then holds; this file puts them together.
 */
module Cycle {
  import opened Rings
  import opened Program
  import opened Records
  import opened Engine
  import opened Invariant
  import A = Architectural
  import B = Reorder
  import K = KillMask
  import N = Rename
  import P = Physical
  import S = Stores
  import T = Tags

  /** A last stage reports, or a record goes on to the next place. */
  datatype Act = Done(p: Place) | Go(p: Place, q: Place)

  predicate Sources(s: Core, acts: seq<Act>)
  {
    forall i | 0 <= i < |acts| :: acts[i].p in s.live
  }

  predicate IsAccess(c: Config, a: Act)
  {
    a.Go? && a.p.Stage? && a.p.station == c.lsStation
  }

  /** One move, legal once its destination has been left. */
  ghost predicate ActOk(c: Config, s: Core, a: Act)
    requires Sized(c, s)
  {
    match a
    case Done(p) => AtLastStage(c, s, p) && (s.live[p].op.isBranch ==> BranchTarget(c, s.live[p]) == s.live[p].npc)
    case Go(p, q) =>
      var u := s.(live := s.live - {q});
      if p.Row? then CanIssue(c, u, p, q)
      else CanHop(c, u, p, q) && (p.station == c.lsStation ==> s.live[p].op.isLoad || !S.IsFull(s.sb, c.sbDepth))
  }

  /** The moves of one cycle: no two from one place or to one place, and a place still
      held is entered only as its holder leaves. They are listed front of the pipe first. */
  ghost predicate Plan(c: Config, s: Core, acts: seq<Act>)
    requires Sized(c, s)
  {
    && (forall i | 0 <= i < |acts| :: acts[i].p in s.live && ActOk(c, s, acts[i]))
    && (forall i, j | 0 <= i < j < |acts| :: acts[i].p != acts[j].p)
    && (forall i, j | 0 <= i < j < |acts| && acts[i].Go? && acts[j].Go? :: acts[i].q != acts[j].q)
    && (forall i | 0 <= i < |acts| && acts[i].Go? && acts[i].q in s.live :: exists j :: 0 <= j < i && acts[j].p == acts[i].q)
  }

  // --- what the moves put on each block's ports ------------------------------------------

  /** The reorder-buffer entries that report. */
  ghost function Reported(s: Core, acts: seq<Act>): (idxs: seq<nat>)
    requires Sources(s, acts)
  {
    if acts == [] then []
    else
      var before, last := Reported(s, acts[..|acts| - 1]), acts[|acts| - 1];
      if last.Done? then before + [s.live[last.p].rob] else before
  }

  /** The registers that are written back. */
  ghost function Written(c: Config, s: Core, acts: seq<Act>): (wbs: seq<P.WbPort>)
    requires Sources(s, acts)
  {
    if acts == [] then []
    else
      var before, last := Written(c, s, acts[..|acts| - 1]), acts[|acts| - 1];
      if last.Done? && s.live[last.p].op.required
      then before + [P.WbPort(s.live[last.p].pr, Value(c, s.live[last.p]))] else before
  }

  /** The tag that resolves, or no bit. */
  ghost function Resolved(s: Core, acts: seq<Act>): Mask
    requires Sources(s, acts)
  {
    if acts == [] then {}
    else
      var before, last := Resolved(s, acts[..|acts| - 1]), acts[|acts| - 1];
      if last.Done? && s.live[last.p].op.isBranch then s.live[last.p].tag else before
  }

  ghost function AccessAddr(c: Config, r: Rec): (a: nat)
    requires |c.boot.mem| > 0
    ensures a < |c.boot.mem|
  {
    WordAddr(c, r.op, Values(r.slots))
  }

  /** The store that is pushed. */
  ghost function Pushed(c: Config, s: Core, acts: seq<Act>): S.PushPort
    requires Sized(c, s) && Sources(s, acts)
  {
    if acts == [] then S.NoPush
    else
      var before, last := Pushed(c, s, acts[..|acts| - 1]), acts[|acts| - 1];
      if IsAccess(c, last) && s.live[last.p].op.isStore then
        var r := s.live[last.p];
        S.PushOne(r.isSpec, r.tag, AccessAddr(c, r), c.isa.merge(r.op, Values(r.slots), Loaded(c, s, AccessAddr(c, r))))
      else before
  }

  // --- what every place holds after the moves ----------------------------------------------

  predicate Leaves(acts: seq<Act>, p: Place)
  {
    exists i :: 0 <= i < |acts| && acts[i].p == p
  }


  function Targets(acts: seq<Act>): set<Place>
  {
    set i | 0 <= i < |acts| && acts[i].Go? :: acts[i].q
  }

  /** The move that ends at q. */
  function Into(acts: seq<Act>, q: Place): (a: Act)
    requires q in Targets(acts)
    ensures a in acts && a.Go? && a.q == q
  {
    if acts[|acts| - 1].Go? && acts[|acts| - 1].q == q then acts[|acts| - 1] else Into(acts[..|acts| - 1], q)
  }

  function Woken(slots: seq<Slot>, wbs: seq<P.WbPort>): (w: seq<Slot>)
    ensures |w| == |slots|
  {
    if wbs == [] then slots
    else
      var last := wbs[|wbs| - 1];
      WakeSlots(Woken(slots, wbs[..|wbs| - 1]), last.pr, last.value)
  }

  function Unmasked(r: Rec, tag: Mask): Rec
  {
    if tag == {} then r else MaskRec(r, tag)
  }

  /** What a record takes along: a memory access picks up its word on the way. */
  ghost function Carried(c: Config, s: Core, a: Act): Rec
    requires Sized(c, s) && a.p in s.live
  {
    var r := s.live[a.p];
    if IsAccess(c, a) then r.(word := Loaded(c, s, AccessAddr(c, r))) else r
  }

  /** A row that stays hears the broadcasts; a record that moves is read before them. Both
      lose the resolved tag. */
  ghost function Occupant(c: Config, s: Core, acts: seq<Act>, p: Place): Rec
    requires Sized(c, s) && Sources(s, acts) && (p in Targets(acts) || p in s.live)
  {
    var r := if p in Targets(acts) then Carried(c, s, Into(acts, p))
             else if p.Row? then s.live[p].(slots := Woken(s.live[p].slots, Written(c, s, acts))) else s.live[p];
    Unmasked(r, Resolved(s, acts))
  }

  ghost function LiveAfter(c: Config, s: Core, acts: seq<Act>): Live
    requires Sized(c, s) && Sources(s, acts)
  {
    map p | p in s.live.Keys + Targets(acts) && (p in Targets(acts) || !Leaves(acts, p)) :: Occupant(c, s, acts, p)
  }

  lemma PortsFit(c: Config, s: Core, acts: seq<Act>)
    requires Sized(c, s) && Sources(s, acts)
    ensures forall i | 0 <= i < |Reported(s, acts)| :: Reported(s, acts)[i] < c.depth
    ensures forall i | 0 <= i < |Written(c, s, acts)| :: Written(c, s, acts)[i].pr < c.phy
  {
    hide Wrap;
    if acts != [] { PortsFit(c, s, acts[..|acts| - 1]); }
  }

  /** Every register after the moves of one cycle. */
  ghost function Moves(c: Config, s: Core, acts: seq<Act>): Core
    requires Sized(c, s) && Sources(s, acts)
  {
    PortsFit(c, s, acts);
    var tag, push := Resolved(s, acts), Pushed(c, s, acts);
    s.(rob := B.FinishAll(s.rob, c.depth, Reported(s, acts)),
       prf := P.WriteAll(s.prf, c.phy, Written(c, s, acts)),
       tags := if tag != {} then T.Return(s.tags) else s.tags,
       mpft := if tag != {} then K.Resolve(s.mpft, tag) else s.mpft,
       sb := S.Cycle(s.sb, c.sbDepth, push, tag, false, false),
       live := LiveAfter(c, s, acts),
       res := if tag != {} then s.res + 1 else s.res,
       buffered := if push.PushOne? then s.buffered + 1 else s.buffered)
  }

  // --- retirement ---------------------------------------------------------------------------

  /** The first k lanes of the head group retire, as the buffer stood. */
  predicate MayRetire(c: Config, s: Core, k: nat)
    requires s.rob.Sized(c.depth)
  {
    k <= s.rob.used && (k > 0 ==> B.Retires(s.rob, c.depth, k - 1))
  }

  function Lane(c: Config, s: Core, j: nat): B.RobRow
    requires s.rob.Sized(c.depth)
  {
    B.RowAt(s.rob, c.depth, j)
  }

  ghost function ArfPorts(c: Config, s: Core, k: nat): (ports: seq<A.ArfPort>)
    requires Sized(c, s)
    ensures forall i | 0 <= i < |ports| :: ports[i].ar < |s.arf|
  {
    if k == 0 then []
    else
      var before, row := ArfPorts(c, s, k - 1), Lane(c, s, k - 1);
      if row.active && row.required then before + [A.ArfPort(row.ar, s.prf.data[row.pr])] else before
  }

  ghost function RtPorts(c: Config, s: Core, k: nat): (ports: seq<N.CommitPort>)
    requires Sized(c, s)
    ensures forall i | 0 <= i < |ports| :: ports[i].ar < |c.boot.regs|
  {
    if k == 0 then []
    else
      var before, row := RtPorts(c, s, k - 1), Lane(c, s, k - 1);
      if row.active && row.required then before + [N.CommitPort(row.ar, row.pr)] else before
  }

  ghost function Frees(c: Config, s: Core, k: nat): (frees: seq<bool>)
    requires Sized(c, s)
    ensures |frees| == k
  {
    if k == 0 then [] else Frees(c, s, k - 1) + [Lane(c, s, k - 1).active]
  }

  /** Some lane retires a store; it is then the last of the group. */
  predicate RetiresStore(c: Config, s: Core, k: nat)
    requires s.rob.Sized(c.depth)
  {
    k > 0 && Lane(c, s, k - 1).isStore
  }

  /** Every register after the moves and the retirements of one cycle. */
  ghost function Retired(c: Config, s: Core, acts: seq<Act>, k: nat): Core
    requires Sized(c, s) && Sources(s, acts) && k <= s.rob.used
  {
    PortsFit(c, s, acts);
    var u := Moves(c, s, acts);
    u.(rob := B.RetireAll(u.rob, c.depth, k),
       arf := A.WriteAll(s.arf, c.consts, ArfPorts(c, s, k)),
       rt := N.RetireAll(s.rt, |c.boot.regs|, c.tags, RtPorts(c, s, k)),
       prf := P.FreeAll(u.prf, Frees(c, s, k)),
       sb := S.Cycle(s.sb, c.sbDepth, Pushed(c, s, acts), Resolved(s, acts), RetiresStore(c, s, k), false),
       ret := s.ret + k)
  }

  /** And with the head store taken by memory. */
  ghost function Drained(c: Config, s: Core, acts: seq<Act>, k: nat, drain: bool): Core
    requires Sized(c, s) && Sources(s, acts) && k <= s.rob.used
  {
    var u, head := Retired(c, s, acts, k), s.sb.table[s.sb.ret];
    if drain then
      u.(sb := S.Cycle(s.sb, c.sbDepth, Pushed(c, s, acts), Resolved(s, acts), RetiresStore(c, s, k), true),
         mem := s.mem[head.addr := head.data], written := s.written + 1)
    else u
  }
}

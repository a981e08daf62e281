/**
 The clocked engine: every cycle, worked out from the registers it began with, is a run of
 events, so everything proved of events holds of the machine cycle by cycle.
 */
module Clock {
  import opened Rings
  import opened Program
  import opened Records
  import opened Engine
  import opened Invariant
  import opened Theorems
  import opened Cycle
  import opened CycleDispatch
  import opened Results
  import A = KeepAccess
  import C = CycleRetire
  import E = CycleEvents
  import L = CycleBundle
  import M = CycleMoves
  import K = KillMask
  import S = Stores
  import T = Tags

  /** What one cycle does. A squash cycle retires, issues, dispatches and pushes nothing. */
  datatype Edge =
    | Tick(acts: seq<Act>, commits: nat, drain: bool, lanes: seq<Bus>)
    | Squash(acts: seq<Act>, p: Place, drain: bool)

  /** Beside a squash, units report and records hop; nothing else moves. */
  ghost predicate QuietPlan(c: Config, s: Core, acts: seq<Act>, p: Place)
    requires Sized(c, s)
  {
    && Plan(c, s, acts)
    && forall i | 0 <= i < |acts| :: acts[i].p != p && (acts[i].Go? ==> acts[i].q != p)
         && (if acts[i].Done? then !s.live[acts[i].p].op.isBranch else acts[i].p.Stage? && acts[i].p.station != c.lsStation)
  }

  ghost predicate EdgeOk(c: Config, s: Core, e: Edge)
    requires Sized(c, s)
  {
    match e
    case Tick(acts, commits, drain, lanes) =>
      && Plan(c, s, acts) && MayRetire(c, s, commits) && (drain ==> S.CanDrain(s.sb, c.sbDepth))
      && commits <= c.commitLanes && |lanes| <= c.lanes && (Resolved(s, acts) != {} ==> lanes == [])
      && Room(c, Drained(c, s, acts, commits, drain), s.rob.used, s.live, lanes)
    case Squash(acts, p, drain) =>
      && QuietPlan(c, s, acts, p) && (drain ==> S.CanDrain(s.sb, c.sbDepth))
      && AtLastStage(c, s, p) && s.live[p].op.isBranch && BranchTarget(c, s.live[p]) != s.live[p].npc
  }

  /** Halfway through, every table is still as wide as it was: always so (`EdgeIsRun`). */
  ghost predicate StaysSized(c: Config, s: Core, e: Edge)
    requires Sized(c, s) && EdgeOk(c, s, e)
  {
    match e
    case Tick(acts, commits, drain, lanes) => Sized(c, Drained(c, s, acts, commits, drain))
    case Squash(acts, p, drain) => Sized(c, Moves(c, s, acts)) && p in Moves(c, s, acts).live
  }

  /** The registers after the clock edge. */
  ghost function AtEdge(c: Config, s: Core, e: Edge): Core
    requires Sized(c, s) && EdgeOk(c, s, e) && StaysSized(c, s, e)
  {
    match e
    case Tick(acts, commits, drain, lanes) =>
      var v := Drained(c, s, acts, commits, drain);
      Landed(c, v, lanes, Promises(c, v, lanes))
    case Squash(acts, p, drain) =>
      var t, head := DoMisPredict(c, Moves(c, s, acts), p), s.sb.table[s.sb.ret];
      if drain then
        t.(sb := S.Drain(t.sb, c.sbDepth), mem := s.mem[head.addr := head.data], written := s.written + 1)
      else t
  }

  // --- an ordinary cycle ----------------------------------------------------------------------

  /** Up to the dispatch bundle. */
  lemma BackEndIsRun(c: Config, s: Core, e: Edge) returns (events: seq<Event>)
    requires Inv(c, s) && EdgeOk(c, s, e) && e.Tick?
    ensures e.commits <= s.rob.used && Sources(s, e.acts)
    ensures E.Run(c, s, Drained(c, s, e.acts, e.commits, e.drain), events) && Inv(c, Drained(c, s, e.acts, e.commits, e.drain))
  {
    hide Wrap, Upto, Inv, Sized, Moves, Retired, Drained, E.Run, Enabled, Next, Plan, C.Beside, MayRetire, Room, S.CanDrain, EdgeOk, LiveAfter;
    E.Counted(c, s);
    Ticking(c, s, e);
    var acts, k := e.acts, e.commits;
    assert acts[..|acts|] == acts;
    E.MovesAreEvents(c, s, acts, |acts|);
    C.PortsBeside(c, s, acts);
    events := E.EventsOf(c, s, acts);
    C.RetirementsAreEvents(c, s, acts, k, events);
    events := events + C.Commits(k);
    if e.drain {
      E.Counted(c, Retired(c, s, acts, k));
      C.DrainIsEvent(c, s, acts, k);
      StepKeeps(c, Retired(c, s, acts, k), Drain);
      E.RunMore(c, s, Retired(c, s, acts, k), events, Drain);
      events := events + [Drain];
    } else {
      NotDrained(c, s, acts, k);
    }
  }

  lemma TickIsRun(c: Config, s: Core, e: Edge) returns (events: seq<Event>)
    requires Inv(c, s) && EdgeOk(c, s, e) && e.Tick?
    ensures StaysSized(c, s, e) && E.Run(c, s, AtEdge(c, s, e), events) && Inv(c, AtEdge(c, s, e))
  {
    hide Wrap, Upto, Inv, Sized, Moves, Retired, Drained, Landed, E.Run, Plan, MayRetire, Room, S.CanDrain, Promises,
         PopCount, L.At, AtEdge, EdgeOk, LiveAfter;
    E.Counted(c, s);
    Ticking(c, s, e);
    events := BackEndIsRun(c, s, e);
    var v := Drained(c, s, e.acts, e.commits, e.drain);
    E.Counted(c, v);
    Landing(c, s, e);
    RowsLeft(c, s, e.acts, e.commits, e.drain);
    L.BundleIsEvents(c, s, v, s.rob.used, s.live, e.lanes, |e.lanes|, events);
    assert e.lanes[..|e.lanes|] == e.lanes;
    L.AtInv(c, v, e.lanes, |e.lanes|);
    events := events + L.LaneEvents(e.lanes);
  }

  /** What an ordinary cycle rests on. */
  lemma Ticking(c: Config, s: Core, e: Edge)
    requires Sized(c, s) && EdgeOk(c, s, e) && e.Tick?
    ensures Plan(c, s, e.acts) && MayRetire(c, s, e.commits) && (e.drain ==> S.CanDrain(s.sb, c.sbDepth))
    ensures e.commits <= s.rob.used && Sources(s, e.acts)
    ensures Room(c, Drained(c, s, e.acts, e.commits, e.drain), s.rob.used, s.live, e.lanes)
  {
    hide Wrap, Moves, Retired, Drained;
  }

  lemma Landing(c: Config, s: Core, e: Edge)
    requires Sized(c, s) && EdgeOk(c, s, e) && e.Tick? && e.commits <= s.rob.used && Sources(s, e.acts)
    requires Sized(c, Drained(c, s, e.acts, e.commits, e.drain))
    ensures StaysSized(c, s, e)
    ensures var v := Drained(c, s, e.acts, e.commits, e.drain);
            && c.phy > 0 && PopCount(Asks(c, v, e.lanes)) <= v.prf.free
            && AtEdge(c, s, e) == Landed(c, v, e.lanes, Promises(c, v, e.lanes))
  {
    hide Wrap, Moves, Retired, Drained, Landed, PopCount, Promises;
  }

  lemma NotDrained(c: Config, s: Core, acts: seq<Act>, k: nat)
    requires Sized(c, s) && Sources(s, acts) && k <= s.rob.used
    ensures Drained(c, s, acts, k, false) == Retired(c, s, acts, k)
  {
    hide Retired;
  }

  /** A station row held after the moves was held before them. */
  lemma RowsLeft(c: Config, s: Core, acts: seq<Act>, k: nat, drain: bool)
    requires Sized(c, s) && Plan(c, s, acts) && Sources(s, acts) && k <= s.rob.used
    ensures var v := Drained(c, s, acts, k, drain);
            v.rob.used <= s.rob.used && forall p | p in v.live && p.Row? :: p in s.live
  {
    hide Wrap, Reported, Written, Resolved, Pushed, Occupant, BranchTarget, Ready, AtLastStage, S.IsFull, Loaded, S.Cycle, Sized;
    PortsFit(c, s, acts);
    forall q | q in Targets(acts) ensures q.Stage? {
      var i :| 0 <= i < |acts| && acts[i].Go? && acts[i].q == q;
      assert ActOk(c, s, acts[i]);
    }
  }

  // --- a squash cycle ---------------------------------------------------------------------------

  lemma {:induction false} QuietPorts(c: Config, s: Core, acts: seq<Act>)
    requires Sized(c, s) && Sources(s, acts)
    requires forall i | 0 <= i < |acts| ::
               if acts[i].Done? then !s.live[acts[i].p].op.isBranch else acts[i].p.Stage? && acts[i].p.station != c.lsStation
    ensures Resolved(s, acts) == {} && Pushed(c, s, acts) == S.NoPush
    decreases |acts|
  {
    hide Wrap, Sized, Loaded, WordAddr;
    if acts != [] { QuietPorts(c, s, acts[..|acts| - 1]); }
  }

  /** What a squash reads is untouched by whatever moves beside it: the fix table, the
      snapshots, the store buffer, the tag pointer and the branch's own record. */
  lemma SquashReadsRegisters(c: Config, s: Core, acts: seq<Act>, p: Place)
    requires Sized(c, s) && QuietPlan(c, s, acts, p) && p in s.live && p.Stage?
    ensures Sources(s, acts)
    ensures var u := Moves(c, s, acts);
            && u.mpft == s.mpft && u.rt == s.rt && u.sb == s.sb && u.tags == s.tags && u.mem == s.mem && u.written == s.written
            && p in u.live && u.live[p] == s.live[p]
  {
    hide Wrap, Loaded, Reported, Written, Resolved, Pushed, BranchTarget, Ready, AtLastStage, S.IsFull, Sized;
    QuietPorts(c, s, acts);
    PortsFit(c, s, acts);
    NoPushHere(c, s);
  }

  lemma NoPushHere(c: Config, s: Core)
    requires Sized(c, s)
    ensures s.sb.Sized(c.sbDepth) && S.Cycle(s.sb, c.sbDepth, S.NoPush, {}, false, false) == s.sb
  {
  }

  /** The head store is retired, so no squash takes it. */
  lemma HeadSurvives(c: Config, s: Core, t: Core)
    requires Inv(c, s) && Inv(c, t) && S.CanDrain(s.sb, c.sbDepth)
    requires t.written == s.written && t.ret == s.ret && s.ret <= |t.path| && s.ret <= |s.path| && t.path[..s.ret] == s.path[..s.ret]
    ensures S.CanDrain(t.sb, c.sbDepth)
    ensures t.sb.table[t.sb.ret].addr == s.sb.table[s.sb.ret].addr && t.sb.table[t.sb.ret].data == s.sb.table[s.sb.ret].data
  {
    hide Wrap, Upto, RobOk, TagsOk, ResolvedOk, PrfCounts, PrfValues, RtOk, ArfOk, RecordsOk, OnceOk, OrderOk, LinkOk, MemoryOk, AccessOk,
         Config.OpOk, TagIs, Stored, Operands;
    var j := A.DrainTurn(c, s);
    assert s.path[j] == s.path[..s.ret][j] == t.path[..s.ret][j] == t.path[j];
    UptoPrefixes(c, s.path, t.path, s.ret);
    assert Upto(c, s.path, j) == Upto(c, t.path, j);
    CountsSplit(c, t.path, j, t.ret);
    assert RowHolds(c, t, j);
  }

  lemma SquashIsRun(c: Config, s: Core, e: Edge) returns (events: seq<Event>)
    requires Inv(c, s) && EdgeOk(c, s, e) && e.Squash?
    ensures StaysSized(c, s, e) && E.Run(c, s, AtEdge(c, s, e), events) && Inv(c, AtEdge(c, s, e))
  {
    hide Wrap, Upto, Inv, Sized, Moves, E.Run, Plan, S.CanDrain, LiveAfter, DoMisPredict, BranchTarget;
    E.Counted(c, s);
    var acts, p := e.acts, e.p;
    assert acts[..|acts|] == acts;
    E.MovesAreEvents(c, s, acts, |acts|);
    SquashReadsRegisters(c, s, acts, p);
    var u := Moves(c, s, acts);
    E.Counted(c, u);
    StepKeeps(c, u, MisPredict(p));
    events := E.EventsOf(c, s, acts);
    E.RunMore(c, s, u, events, MisPredict(p));
    events := events + [MisPredict(p)];
    if e.drain {
      var t := DoMisPredict(c, u, p);
      SquashKeepsHead(c, u, p);
      HeadSurvives(c, u, t);
      E.Counted(c, t);
      StepKeeps(c, t, Drain);
      E.RunMore(c, s, t, events, Drain);
      events := events + [Drain];
    }
  }

  lemma SquashKeepsHead(c: Config, u: Core, p: Place)
    requires Inv(c, u) && Sized(c, u) && p in u.live && u.live[p].op.isBranch
    ensures var t := DoMisPredict(c, u, p);
            && t.written == u.written && t.ret == u.ret && t.mem == u.mem
            && u.ret <= |t.path| && u.ret <= |u.path| && t.path[..u.ret] == u.path[..u.ret]
  {
    hide Wrap, Upto, Inv, Sized, PopCount, BranchTarget, Kill;
    InFlightRecord(c, u, p);
  }

  // --- every cycle -----------------------------------------------------------------------------------

  /** Any cycle the registers allow is a run of events, and keeps the invariant. */
  lemma EdgeIsRun(c: Config, s: Core, e: Edge) returns (events: seq<Event>)
    requires Inv(c, s) && EdgeOk(c, s, e)
    ensures StaysSized(c, s, e) && E.Run(c, s, AtEdge(c, s, e), events) && Inv(c, AtEdge(c, s, e))
  {
    hide Inv, Sized, E.Run, EdgeOk, AtEdge, StaysSized;
    if e.Tick? { events := TickIsRun(c, s, e); } else { events := SquashIsRun(c, s, e); }
  }

  /** Reset, then any run of cycles. */
  ghost predicate Clocked(c: Config, z: Core, s: Core, edges: seq<Edge>)
    decreases |edges|
  {
    if edges == [] then Reset(c, z) && s == z
    else exists before ::
      && Clocked(c, z, before, edges[..|edges| - 1])
      && Sized(c, before) && EdgeOk(c, before, edges[|edges| - 1]) && StaysSized(c, before, edges[|edges| - 1])
      && s == AtEdge(c, before, edges[|edges| - 1])
  }

  lemma {:induction false} ReachesRun(c: Config, z: Core, s: Core, t: Core, past: seq<Event>, events: seq<Event>)
    requires Reaches(c, z, s, past) && E.Run(c, s, t, events)
    ensures Reaches(c, z, t, past + events)
    decreases |events|
  {
    hide Sized, Enabled, Next;
    if events == [] {
      assert past + events == past;
    } else {
      var last := events[|events| - 1];
      var before :| E.Run(c, s, before, events[..|events| - 1]) && Sized(c, before) && Enabled(c, before, last) && t == Next(c, before, last);
      ReachesRun(c, z, s, before, past, events[..|events| - 1]);
      var all := past + events;
      assert all[..|all| - 1] == past + events[..|events| - 1] && all[|all| - 1] == last;
    }
  }

  /** Whatever the clocked engine reaches, events reach. */
  lemma {:induction false} ClockedIsReached(c: Config, z: Core, s: Core, edges: seq<Edge>) returns (events: seq<Event>)
    requires Clocked(c, z, s, edges)
    ensures Reaches(c, z, s, events)
    decreases |edges|
  {
    hide Inv, Sized, E.Run, EdgeOk, AtEdge, Reset, StaysSized;
    if edges == [] {
      events := [];
    } else {
      var last := edges[|edges| - 1];
      var before :| Clocked(c, z, before, edges[..|edges| - 1]) && Sized(c, before) && EdgeOk(c, before, last)
                    && StaysSized(c, before, last) && s == AtEdge(c, before, last);
      var past := ClockedIsReached(c, z, before, edges[..|edges| - 1]);
      RunKeeps(c, z, before, past);
      var more := EdgeIsRun(c, before, last);
      ReachesRun(c, z, before, s, past, more);
      events := past + more;
    }
  }

  /** After any number of cycles, the retired instructions are the sequential run, and the
      register file and data memory are its own. */
  lemma ClockedRefinement(c: Config, z: Core, s: Core, edges: seq<Edge>) returns (m: nat)
    requires Clocked(c, z, s, edges)
    ensures c.Valid() && s.ret <= |s.path| && m <= s.ret
    ensures forall i | 0 <= i < s.ret :: s.path[i] == Inst(c.isa.prog(Sequential(c, i).pc), Sequential(c, i).pc)
    ensures s.arf == Sequential(c, s.ret).regs && s.mem == Sequential(c, m).mem
  {
    hide Clocked, Reaches, Sequential, Wrap, Inv;
    var events := ClockedIsReached(c, z, s, edges);
    RunKeeps(c, z, s, events);
    assert Sized(c, s) by { E.Counted(c, s); }
    SequentialRefinement(c, z, s, events);
    m := MemoryRefinement(c, z, s, events);
  }
}

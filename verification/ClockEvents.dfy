/** The other way: any one event is a cycle by itself, so cycles reach exactly what events do. */
module ClockEvents {
  import opened Rings
  import opened Program
  import opened Records
  import opened Engine
  import opened Invariant
  import opened Theorems
  import opened Cycle
  import opened CycleDispatch
  import opened Clock
  import B = Reorder
  import C = CycleRetire
  import E = CycleEvents
  import L = CycleBundle
  import M = CycleMoves
  import S = Stores
  import O = CorePorts

  /** The cycle in which only this event happens. */
  function EdgeOf(c: Config, e: Event): Edge
  {
    match e
    case Commit => Tick([], 1, false, [])
    case Complete(p) => Tick([Done(p)], 0, false, [])
    case Resolve(p) => Tick([Done(p)], 0, false, [])
    case MisPredict(p) => Squash([], p, false)
    case Issue(p, q) => Tick([Go(p, q)], 0, false, [])
    case Hop(p, q) => Tick([Go(p, q)], 0, false, [])
    case Access(p, q) => Tick([Go(p, q)], 0, false, [])
    case Dispatch(row) => Tick([], 0, false, [Take(row)])
    case EmptyLane => Tick([], 0, false, [Idle])
    case Drain => Tick([], 0, true, [])
  }

  /** A cycle that dispatches nothing is what its back end leaves. */
  lemma NoBundle(c: Config, s: Core, e: Edge, v: Core)
    requires Sized(c, s) && e.Tick? && e.lanes == [] && Plan(c, s, e.acts) && MayRetire(c, s, e.commits) && s.rob.used <= c.depth
    requires e.commits <= c.commitLanes
    requires e.drain ==> S.CanDrain(s.sb, c.sbDepth)
    requires Sources(s, e.acts) && v == Drained(c, s, e.acts, e.commits, e.drain) && Sized(c, v)
    ensures EdgeOk(c, s, e) && StaysSized(c, s, e) && AtEdge(c, s, e) == v
  {
    hide Wrap, PopCount, Plan, MayRetire, Moves, Retired, Drained, Landed, Sized, S.CanDrain;
    L.NothingLanded(c, v, []);
    PopCountEmpty(Takes([]));
    PopCountEmpty(Asks(c, v, []));
    PopCountEmpty(Branches(c, v, []));
    L.PhyPositive(c, v);
  }

  lemma OneWide(c: Config, s: Core)
    requires Sized(c, s)
    ensures c.lanes >= 1 && c.commitLanes >= 1
  {
  }

  lemma RetiresNone(c: Config, s: Core)
    requires Sized(c, s)
    ensures MayRetire(c, s, 0)
  {
  }

  /** One move alone. */
  lemma OneMove(c: Config, s: Core, a: Act)
    requires Inv(c, s) && Sized(c, s) && a.p in s.live && ActOk(c, s, a) && (a.Go? ==> a.q !in s.live)
    ensures var e := Tick([a], 0, false, []);
            && Enabled(c, s, M.EventOf(c, s, a)) && EdgeOk(c, s, e) && StaysSized(c, s, e)
            && AtEdge(c, s, e) == Next(c, s, M.EventOf(c, s, a))
  {
    hide Wrap, Inv, Sized, Moves, Retired, Drained, AtEdge, EdgeOk, StaysSized, Enabled, Next, ActOk, MayRetire;
    var acts := [a];
    assert Plan(c, s, acts);
    E.NoMoves(c, s);
    assert acts[..0] == [] && acts[..1] == acts;
    E.MoveStep(c, s, acts, 0);
    StepKeeps(c, s, M.EventOf(c, s, a));
    E.Counted(c, Moves(c, s, acts));
    C.NoneRetired(c, s, acts);
    NotDrained(c, s, acts, 0);
    O.Pool(c, s);
    RetiresNone(c, s);
    NoBundle(c, s, Tick(acts, 0, false, []), Moves(c, s, acts));
  }

  lemma NoPlan(c: Config, s: Core)
    requires Sized(c, s)
    ensures Plan(c, s, []) && Sources(s, []) && Moves(c, s, []) == s
    ensures s.rob.Sized(c.depth) && Retired(c, s, [], 0) == s && Drained(c, s, [], 0, false) == s
  {
    E.NoMoves(c, s);
    C.NoneRetired(c, s, []);
    NotDrained(c, s, [], 0);
  }

  lemma OneCommit(c: Config, s: Core)
    requires Inv(c, s) && Sized(c, s) && CanCommit(c, s)
    ensures var e := Tick([], 1, false, []); EdgeOk(c, s, e) && StaysSized(c, s, e) && AtEdge(c, s, e) == DoCommit(c, s)
  {
    hide Inv, Sized, Moves, Retired, Drained, AtEdge, EdgeOk, StaysSized, DoCommit, Plan, C.Beside;
    NoPlan(c, s);
    O.Pool(c, s);
    HeadRetires(c, s);
    OneWide(c, s);
    C.PortsBeside(c, s, []);
    C.RetireStep(c, s, [], 0);
    NotDrained(c, s, [], 1);
    C.CommitIs(c, s);
    StepKeeps(c, s, Commit);
    E.Counted(c, DoCommit(c, s));
    NoBundle(c, s, Tick([], 1, false, []), DoCommit(c, s));
  }

  lemma HeadRetires(c: Config, s: Core)
    requires Sized(c, s) && CanCommit(c, s)
    ensures MayRetire(c, s, 1) && 1 <= s.rob.used
  {
    assert Wrap(s.rob.com, c.depth) == s.rob.com;
  }

  lemma OneDrain(c: Config, s: Core)
    requires Inv(c, s) && Sized(c, s) && S.CanDrain(s.sb, c.sbDepth)
    ensures var e := Tick([], 0, true, []);
            Enabled(c, s, Drain) && EdgeOk(c, s, e) && StaysSized(c, s, e) && AtEdge(c, s, e) == Next(c, s, Drain)
  {
    hide Inv, Sized, Moves, Retired, Drained, AtEdge, EdgeOk, StaysSized, Plan, C.Beside, Enabled, Next, S.CanDrain;
    NoPlan(c, s);
    RetiresNone(c, s);
    O.Pool(c, s);
    C.PortsBeside(c, s, []);
    C.DrainIsEvent(c, s, [], 0);
    StepKeeps(c, s, Drain);
    E.Counted(c, Next(c, s, Drain));
    NoBundle(c, s, Tick([], 0, true, []), Next(c, s, Drain));
  }

  lemma OneLane(c: Config, s: Core, lane: Bus)
    requires Inv(c, s) && Sized(c, s) && Enabled(c, s, L.EventOf(lane))
    ensures var e := Tick([], 0, false, [lane]);
            EdgeOk(c, s, e) && StaysSized(c, s, e) && AtEdge(c, s, e) == Next(c, s, L.EventOf(lane))
  {
    hide Wrap, Inv, Sized, Moves, Retired, Drained, Plan, Next, Landed, PopCount, Promises, Enabled, L.At, Room, E.Run;
    NoPlan(c, s);
    RetiresNone(c, s);
    OneWide(c, s);
    O.Pool(c, s);
    var lanes := [lane];
    LaneRoom(c, s, lane);
    E.RunNone(c, s);
    assert lanes[..0] == [] && lanes[..1] == lanes;
    L.BundleIsEvents(c, s, s, s.rob.used, s.live, lanes, 1, []);
    L.BundleIsEvents(c, s, s, s.rob.used, s.live, lanes, 0, []);
    L.AtInv(c, s, lanes, 1);
    L.NothingLanded(c, s, Promises(c, s, lanes));
    L.LaneStep(c, s, s.rob.used, s.live, lanes, 0);
  }

  lemma LaneRoom(c: Config, s: Core, lane: Bus)
    requires Sized(c, s) && s.rob.used <= c.depth && Enabled(c, s, L.EventOf(lane))
    ensures Room(c, s, s.rob.used, s.live, [lane])
  {
    hide Wrap, Sized, Takes, Asks, Branches, PopCount, Config.OpOk;
    var lanes := [lane];
    assert lanes[..0] == [];
    LaneBits(c, s, lane);
    Single(lane.Take?);
    Single(lane.Take? && OpAfter(c, s, []).active);
    Single(lane.Take? && OpAfter(c, s, []).isBranch);
  }

  lemma LaneBits(c: Config, s: Core, lane: Bus)
    ensures Takes([lane]) == [lane.Take?]
    ensures Asks(c, s, [lane]) == [lane.Take? && OpAfter(c, s, []).active]
    ensures Branches(c, s, [lane]) == [lane.Take? && OpAfter(c, s, []).isBranch]
  {
    hide OpAfter;
    assert [lane][..0] == [];
  }

  lemma Single(b: bool)
    ensures PopCount([b]) == if b then 1 else 0
  {
    assert [b][..0] == [];
  }

  lemma OneSquash(c: Config, s: Core, p: Place)
    requires Inv(c, s) && Sized(c, s) && Enabled(c, s, MisPredict(p))
    ensures var e := Squash([], p, false);
            EdgeOk(c, s, e) && StaysSized(c, s, e) && AtEdge(c, s, e) == Next(c, s, MisPredict(p))
  {
    hide Inv, Sized, Moves, DoMisPredict, BranchTarget, Plan;
    NoPlan(c, s);
  }

  /** One event is one cycle. */
  lemma EventIsEdge(c: Config, s: Core, ev: Event)
    requires Inv(c, s) && Sized(c, s) && Enabled(c, s, ev)
    ensures var e := EdgeOf(c, ev); EdgeOk(c, s, e) && StaysSized(c, s, e) && AtEdge(c, s, e) == Next(c, s, ev)
  {
    hide Inv, Sized, EdgeOk, StaysSized, AtEdge, Next, Ready, BranchTarget;
    match ev
    case Commit => OneCommit(c, s); C.CommitIs(c, s);
    case Complete(p) => OneMove(c, s, Done(p));
    case Resolve(p) => OneMove(c, s, Done(p));
    case MisPredict(p) => OneSquash(c, s, p);
    case Issue(p, q) => Alone(c, s, q); OneMove(c, s, Go(p, q));
    case Hop(p, q) => Alone(c, s, q); OneMove(c, s, Go(p, q));
    case Access(p, q) => Alone(c, s, q); OneMove(c, s, Go(p, q));
    case Dispatch(row) => OneLane(c, s, Take(row));
    case EmptyLane => OneLane(c, s, Idle);
    case Drain => OneDrain(c, s);
  }

  lemma Alone(c: Config, s: Core, q: Place)
    requires q !in s.live
    ensures s.(live := s.live - {q}) == s
  {
    assert s.live - {q} == s.live;
  }

  lemma {:induction false} ReachedIsClocked(c: Config, z: Core, s: Core, events: seq<Event>) returns (edges: seq<Edge>)
    requires Reaches(c, z, s, events)
    ensures Clocked(c, z, s, edges)
    decreases |events|
  {
    hide Inv, Sized, EdgeOk, AtEdge, StaysSized, Reset, Enabled, Next;
    if events == [] {
      edges := [];
    } else {
      var last := events[|events| - 1];
      var before :| Reaches(c, z, before, events[..|events| - 1]) && Sized(c, before) && Enabled(c, before, last) && s == Next(c, before, last);
      var past := ReachedIsClocked(c, z, before, events[..|events| - 1]);
      RunKeeps(c, z, before, events[..|events| - 1]);
      EventIsEdge(c, before, last);
      edges := past + [EdgeOf(c, last)];
      assert edges[..|edges| - 1] == past && edges[|edges| - 1] == EdgeOf(c, last);
    }
  }

  /** Cycles and events reach the same states. */
  lemma SameReach(c: Config, z: Core, s: Core)
    ensures (exists edges :: Clocked(c, z, s, edges)) <==> (exists events :: Reaches(c, z, s, events))
  {
    hide Clocked, Reaches;
    if edges :| Clocked(c, z, s, edges) { var events := ClockedIsReached(c, z, s, edges); }
    if events :| Reaches(c, z, s, events) { var edges := ReachedIsClocked(c, z, s, events); }
  }
}

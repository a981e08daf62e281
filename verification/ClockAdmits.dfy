/** What the clock lets happen: every cycle the registers allow can be put together, a move, a
    lane or a whole cycle at a time. */
module ClockAdmits {
  import opened Rings
  import opened Program
  import opened Records
  import opened Engine
  import opened Invariant
  import opened Theorems
  import opened Cycle
  import opened CycleDispatch
  import opened Clock
  import opened InOrderStation
  import opened Queues
  import opened ClockQueues
  import B = Reorder
  import E = CycleEvents
  import S = Stores
  import Results

  /** Nothing moves, and that is a plan; so is any plan with one more record that may report,
      or that may go on to a place that is free or left before it. */
  lemma PlanGrows(c: Config, s: Core, acts: seq<Act>, a: Act)
    requires Sized(c, s)
    requires Plan(c, s, acts) && a.p in s.live && forall i | 0 <= i < |acts| :: acts[i].p != a.p
    requires a.Done? ==> AtLastStage(c, s, a.p) && (s.live[a.p].op.isBranch ==> BranchTarget(c, s.live[a.p]) == s.live[a.p].npc)
    requires a.Go? ==> (forall i | 0 <= i < |acts| && acts[i].Go? :: acts[i].q != a.q)
                       && (a.q !in s.live || exists i :: 0 <= i < |acts| && acts[i].p == a.q)
    requires a.Go? && a.p.Row? ==> CanIssue(c, s.(live := s.live - {a.q}), a.p, a.q)
    requires a.Go? && a.p.Stage? ==>
               CanHop(c, s.(live := s.live - {a.q}), a.p, a.q)
               && (a.p.station == c.lsStation ==> s.live[a.p].op.isLoad || !S.IsFull(s.sb, c.sbDepth))
    ensures Plan(c, s, []) && Plan(c, s, acts + [a])
  {
    hide Wrap, Sized, AtLastStage, CanIssue, CanHop, BranchTarget, S.IsFull;
    var all := acts + [a];
    forall i | 0 <= i < |all| && all[i].Go? && all[i].q in s.live ensures exists j :: 0 <= j < i && all[j].p == all[i].q {
      if i < |acts| {
        assert all[i] == acts[i];
        var j :| 0 <= j < i && acts[j].p == acts[i].q;
        assert all[j].p == all[i].q;
      } else {
        var j :| 0 <= j < |acts| && acts[j].p == a.q;
        assert all[j].p == a.q;
      }
    }
  }

  /** Beside a squash too, as long as what moves is no branch, no issue and no memory access. */
  lemma QuietGrows(c: Config, s: Core, acts: seq<Act>, a: Act, p: Place)
    requires Sized(c, s) && QuietPlan(c, s, acts, p) && Plan(c, s, acts + [a]) && a.p in s.live
    requires a.p != p && (a.Go? ==> a.q != p)
    requires if a.Done? then !s.live[a.p].op.isBranch else a.p.Stage? && a.p.station != c.lsStation
    ensures QuietPlan(c, s, [], p) && QuietPlan(c, s, acts + [a], p)
  {
    hide Wrap, Sized, ActOk;
  }

  /** One more lane is found a row, when it is a free one that no lane before it was given. */
  lemma FoundGrows(c: Config, v: Core, live: Live, lanes: seq<Bus>, lane: Bus)
    requires Found(c, v, live, lanes)
    requires lane.Take? ==>
               && lane.row < c.rows(OpAfter(c, v, lanes).station) && Row(OpAfter(c, v, lanes).station, lane.row) !in live
               && forall i | 0 <= i < |lanes| && lanes[i].Take? :: Spot(c, v, lanes[..i], lanes[i]) != Row(OpAfter(c, v, lanes).station, lane.row)
    ensures Found(c, v, live, []) && Found(c, v, live, lanes + [lane])
  {
    hide OpAfter;
    var all := lanes + [lane];
    assert all[..|lanes|] == lanes;
    assert forall j | 0 <= j < |lanes| :: all[..j] == lanes[..j] && all[j] == lanes[j];
  }

  /** A plan, a group the buffer lets retire, a store that may go to memory and a bundle that
      fits make a cycle. */
  lemma TickAdmitted(c: Config, s: Core, acts: seq<Act>, group: seq<B.RobRow>, drain: bool, lanes: seq<Bus>)
    requires Sized(c, s) && Plan(c, s, acts) && Sources(s, acts)
    requires |group| <= s.rob.used && |group| <= c.commitLanes && |lanes| <= c.lanes
    requires forall k | 0 <= k < |group| :: group[k] == s.rob.table[Wrap(s.rob.com + k, c.depth)] && group[k].fin
    requires forall k | 0 <= k < |group| - 1 :: !group[k].isBranch && !group[k].isStore
    requires drain ==> s.sb.table[s.sb.ret].busy && s.sb.table[s.sb.ret].complete
    requires Resolved(s, acts) != {} ==> lanes == []
    requires var v := Drained(c, s, acts, |group|, drain);
             && s.rob.used + PopCount(Takes(lanes)) <= c.depth && PopCount(Asks(c, v, lanes)) <= v.prf.free
             && PopCount(Branches(c, v, lanes)) <= v.tags.free && Found(c, v, s.live, lanes)
    ensures EdgeOk(c, s, Tick(acts, |group|, drain, lanes))
  {
    hide Wrap, Plan, Drained, PopCount, Found, Takes, Asks, Branches, Resolved, Sized, MayRetire, B.Retires;
    assert s.rob.Sized(c.depth) by { Results.RobSized(c, s); }
    GroupRetires(c, s, group);
  }

  lemma GroupRetires(c: Config, s: Core, group: seq<B.RobRow>)
    requires s.rob.Sized(c.depth) && |group| <= s.rob.used
    requires forall k | 0 <= k < |group| :: group[k] == s.rob.table[Wrap(s.rob.com + k, c.depth)] && group[k].fin
    requires forall k | 0 <= k < |group| - 1 :: !group[k].isBranch && !group[k].isStore
    ensures MayRetire(c, s, |group|)
  {
    hide Wrap, B.Retires;
    if group != [] { B.RetiresExactly(s.rob, c.depth, group, |group| - 1); }
  }

  /** From any state of the clocked core with its rings, any cycle whose lanes land where the
      ports say goes on. */
  lemma QueuedClockGoes(c: Config, z: Core, s: Core, qs: Stations, edges: seq<Edge>, e: Edge)
    requires QueuedClock(c, z, s, qs, edges) && Sized(c, s) && EdgeOk(c, s, e)
    requires e.Tick? ==> forall st | st in qs ::
               |qs[st].table| > 0 && forall k | 0 <= k < |e.lanes| && e.lanes[k].Take? && OpAfter(c, s, e.lanes[..k]).station == st ::
                 e.lanes[k].row == Wrap(qs[st].alloc + Bound(c, s, e.lanes[..k], st), |qs[st].table|)
    ensures Fit(c, qs) && StaysSized(c, s, e) && QueuedClock(c, z, AtEdge(c, s, e), StationsEdge(c, s, qs, e), edges + [e])
  {
    hide Inv, Sized, EdgeOk, StaysSized, AtEdge, AllShow, Fit, StationsEdge, OpAfter, Bound, Wrap, Clocked, Reaches, QueuedClock, E.Run;
    ClockedQueuesShow(c, z, s, qs, edges);
    ShowsFit(c, s, qs);
    var past := ClockedIsReached(c, z, s, edges);
    RunKeeps(c, z, s, past);
    var more := EdgeIsRun(c, s, e);
    OneMoreEdge(c, z, s, qs, edges, e);
  }

  lemma OneMoreEdge(c: Config, z: Core, s: Core, qs: Stations, edges: seq<Edge>, e: Edge)
    requires QueuedClock(c, z, s, qs, edges) && Sized(c, s) && EdgeOk(c, s, e) && StaysSized(c, s, e) && Fit(c, qs) && Landable(c, s, qs, e)
    ensures QueuedClock(c, z, AtEdge(c, s, e), StationsEdge(c, s, qs, e), edges + [e])
  {
    hide Sized, EdgeOk, StaysSized, AtEdge, Fit, StationsEdge, Landable;
    var all := edges + [e];
    assert all[..|all| - 1] == edges && all[|all| - 1] == e;
  }
}

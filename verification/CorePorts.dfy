/** What every block's ports carry in one clock cycle, and what each block's own update of
    its registers then leaves: the cycle of the whole engine, taken apart block by block. */
module CorePorts {
  import opened Rings
  import opened Program
  import opened Records
  import opened Engine
  import opened Invariant
  import opened Cycle
  import opened CycleDispatch
  import opened Clock
  import A = Architectural
  import B = Reorder
  import E = CycleEvents
  import K = KillMask
  import N = Rename
  import P = Physical
  import S = Stores
  import T = Tags
  import L = CycleLanes
  import O = Occupancy

  /** What the units, stations and dispatch put on the blocks' ports in an ordinary cycle. */
  datatype Ports = Ports(
    finished: seq<nat>, wbs: seq<P.WbPort>, sucTag: Mask, push: S.PushPort,
    commits: nat, arfPorts: seq<A.ArfPort>, rtPorts: seq<N.CommitPort>, frees: seq<bool>, storeCommit: bool, drain: bool,
    robLanes: seq<B.RobLane>, asks: seq<bool>, mapPorts: seq<N.RenamePort>, branches: seq<bool>, bookings: seq<K.Booking>,
    places: Live, nextPc: int)

  ghost function PortsOf(c: Config, s: Core, e: Edge): Ports
    requires Sized(c, s) && EdgeOk(c, s, e) && e.Tick? && StaysSized(c, s, e)
  {
    var v := Drained(c, s, e.acts, e.commits, e.drain);
    Ports(Reported(s, e.acts), Written(c, s, e.acts), Resolved(s, e.acts), Pushed(c, s, e.acts),
          e.commits, ArfPorts(c, s, e.commits), RtPorts(c, s, e.commits), Frees(c, s, e.commits), RetiresStore(c, s, e.commits), e.drain,
          RobLanes(c, v, e.lanes), Asks(c, v, e.lanes), MapPorts(c, v, e.lanes), Branches(c, v, e.lanes), Bookings(c, v, e.lanes),
          Rows(c, v, e.lanes, Promises(c, v, e.lanes)), PcAfter(c, v.fetchPc, e.lanes))
  }

  /** What the blocks decide of an ordinary cycle, given the moves the units and stations make,
      the lanes at dispatch with the rows found for them, and whether memory takes a store:
      all that may retire does, the head store drains when it can, and the bundle goes whole
      exactly when everything it books has room and no tag resolves beside it. */
  ghost predicate Decided(c: Config, s: Core, e: Edge, acts: seq<Act>, lanes: seq<Bus>, all_ok: bool, mem_ready: bool)
    requires Sized(c, s)
  {
    && e.Tick? && EdgeOk(c, s, e) && e.acts == acts
    && (e.commits < c.commitLanes ==> !B.Retires(s.rob, c.depth, e.commits))
    && (e.drain <==> mem_ready && S.CanDrain(s.sb, c.sbDepth))
    && var v := Drained(c, s, acts, e.commits, e.drain);
       e.lanes == if all_ok && Resolved(s, acts) == {} && Room(c, v, s.rob.used, s.live, lanes) then lanes else []
  }

  lemma DecidedAre(c: Config, s: Core, e: Edge, acts: seq<Act>, lanes: seq<Bus>, all_ok: bool, mem_ready: bool)
    requires Sized(c, s) && Decided(c, s, e, acts, lanes, all_ok, mem_ready)
    ensures e.Tick? && EdgeOk(c, s, e) && e.acts == acts && Sources(s, acts) && e.commits <= s.rob.used
    ensures e.commits < c.commitLanes ==> !B.Retires(s.rob, c.depth, e.commits)
    ensures e.drain <==> mem_ready && s.sb.table[s.sb.ret].busy && s.sb.table[s.sb.ret].complete
    ensures var v := Drained(c, s, acts, e.commits, e.drain);
            var fits := s.rob.used + PopCount(Takes(lanes)) <= c.depth && PopCount(Asks(c, v, lanes)) <= v.prf.free
                        && PopCount(Branches(c, v, lanes)) <= v.tags.free && Found(c, v, s.live, lanes);
            e.lanes == if all_ok && Resolved(s, acts) == {} && fits then lanes else []
  {
    hide Wrap, Drained, PopCount, Found, Takes, Asks, Branches, Resolved, Plan, MayRetire;
    Ticking(c, s, e);
  }

  /** What the mispredicting branch's unit declares, beside the cycle's other reports. */
  datatype SquashPorts = SquashPorts(
    finished: seq<nat>, wbs: seq<P.WbPort>, tag: Mask, robIdx: nat, pr: nat, redirect: int, drain: bool, places: Live)

  ghost function SquashPortsOf(c: Config, s: Core, e: Edge): SquashPorts
    requires Sized(c, s) && EdgeOk(c, s, e) && e.Squash? && StaysSized(c, s, e)
  {
    var u := Moves(c, s, e.acts);
    var r, value := u.live[e.p], Value(c, u.live[e.p]);
    SquashPorts(Reported(s, e.acts) + [r.rob],
                Written(c, s, e.acts) + (if r.op.required then [P.WbPort(r.pr, value)] else []),
                r.tag, r.rob, r.pr, BranchTarget(c, r), e.drain, Report(c, u, e.p).live)
  }

  // --- a cycle's registers, block by block ----------------------------------------------------

  /** What the ports may ask of the blocks. */
  ghost predicate Granted(c: Config, s: Core, p: Ports)
    requires Sized(c, s)
  {
    && (forall i | 0 <= i < |p.finished| :: p.finished[i] < c.depth)
    && (forall i | 0 <= i < |p.wbs| :: p.wbs[i].pr < c.phy)
    && (forall i | 0 <= i < |p.arfPorts| :: p.arfPorts[i].ar < |s.arf|)
    && (forall i | 0 <= i < |p.rtPorts| :: p.rtPorts[i].ar < |c.boot.regs|)
    && (forall i | 0 <= i < |p.mapPorts| :: p.mapPorts[i].ar < |c.boot.regs|)
    && p.commits <= s.rob.used && PopCount(B.Valids(p.robLanes)) <= c.depth - s.rob.used
    && PopCount(p.asks) <= s.prf.free + PopCount(p.frees) <= c.phy
    && (p.sucTag != {} ==> s.tags.free < c.tags - 1 && p.branches == [] && p.bookings == [])
    && PopCount(p.branches) <= s.tags.free
  }

  /** The back end's part. */
  lemma BackEnd(c: Config, s: Core, acts: seq<Act>, k: nat, drain: bool)
    requires Sized(c, s) && Sources(s, acts) && k <= s.rob.used
    ensures (forall i | 0 <= i < |Reported(s, acts)| :: Reported(s, acts)[i] < c.depth)
         && (forall i | 0 <= i < |Written(c, s, acts)| :: Written(c, s, acts)[i].pr < c.phy)
    ensures var v := Drained(c, s, acts, k, drain);
            && v.rob == B.RetireAll(B.FinishAll(s.rob, c.depth, Reported(s, acts)), c.depth, k)
            && v.prf == P.FreeAll(P.WriteAll(s.prf, c.phy, Written(c, s, acts)), Frees(c, s, k))
            && v.arf == A.WriteAll(s.arf, c.consts, ArfPorts(c, s, k))
            && v.rt == N.RetireAll(s.rt, |c.boot.regs|, c.tags, RtPorts(c, s, k))
            && v.sb == S.Cycle(s.sb, c.sbDepth, Pushed(c, s, acts), Resolved(s, acts), RetiresStore(c, s, k), drain)
            && v.tags == (if Resolved(s, acts) != {} then T.Return(s.tags) else s.tags)
            && v.mpft == (if Resolved(s, acts) != {} then K.Resolve(s.mpft, Resolved(s, acts)) else s.mpft)
            && v.mem == (if drain then s.mem[s.sb.table[s.sb.ret].addr := s.sb.table[s.sb.ret].data] else s.mem)
            && v.fetchPc == s.fetchPc
  {
    hide Wrap, PopCount, B.RetireAll, B.FinishAll, P.WriteAll, A.WriteAll, N.RetireAll, S.Cycle, LiveAfter, ArfPorts, RtPorts, Frees,
         Reported, Written, Resolved, Pushed, K.Resolve;
    PortsFit(c, s, acts);
  }

  lemma Rooms(c: Config, s: Core, e: Edge)
    requires Inv(c, s) && EdgeOk(c, s, e) && e.Tick? && StaysSized(c, s, e)
    ensures Sized(c, s) && Granted(c, s, PortsOf(c, s, e))
  {
    hide Wrap, Upto, PopCount, Inv, B.RetireAll, B.FinishAll, P.WriteAll, A.WriteAll, N.RetireAll, S.Cycle, LiveAfter, ArfPorts, RtPorts, Frees,
         Reported, Written, Resolved, Pushed, K.Resolve, RobLanes, Asks, MapPorts, Branches, Bookings, Rows, PcAfter, Promises, Drained, Sized,
         EdgeOk, StaysSized, B.Valids, Takes, Plan;
    E.Counted(c, s);
    Ticking(c, s, e);
    var v := Drained(c, s, e.acts, e.commits, e.drain);
    var events := BackEndIsRun(c, s, e);
    BackEnd(c, s, e.acts, e.commits, e.drain);
    Pool(c, v);
    Pool(c, s);
    L.ValidLanes(c, v, e.lanes);
    assert Resolved(s, e.acts) != {} ==> e.lanes == [] by { ResolveStalls(c, s, e); }
    if Resolved(s, e.acts) != {} {
      NoLanes(c, v);
      SomeTagOut(c, v);
    }
  }

  /** What a resolve leaves free is at most the whole pool, so one less was free before. */
  lemma SomeTagOut(c: Config, v: Core)
    requires Inv(c, v)
    ensures v.tags.free <= c.tags - 1
  {
    hide Wrap, Upto, Config.OpOk, RobOk, ResolvedOk, PrfCounts, PrfValues, RtOk, ArfOk, RecordsOk, OnceOk, OrderOk, LinkOk, BufferOk,
         MemoryOk, AccessOk;
  }

  lemma Pool(c: Config, v: Core)
    requires Inv(c, v)
    ensures v.prf.free <= c.phy && c.phy > 0 && v.rob.used <= c.depth
  {
    hide Wrap, Upto, Config.OpOk, TagsOk, ResolvedOk, PrfValues, RtOk, ArfOk, RecordsOk, OnceOk, OrderOk, LinkOk, BufferOk,
         MemoryOk, AccessOk;
    CountsRise(c, v.path, v.ret, |v.path|);
  }

  lemma ResolveStalls(c: Config, s: Core, e: Edge)
    requires Sized(c, s) && EdgeOk(c, s, e) && e.Tick?
    ensures Resolved(s, e.acts) != {} ==> e.lanes == []
  {
    hide Wrap, Drained, Resolved;
  }

  lemma NoLanes(c: Config, v: Core)
    requires c.tags > 0
    ensures Branches(c, v, []) == [] && Bookings(c, v, []) == []
  {
  }

  /** Every register after the edge is what its block's own update leaves. */
  lemma TickFields(c: Config, s: Core, e: Edge)
    requires Sized(c, s) && EdgeOk(c, s, e) && e.Tick? && StaysSized(c, s, e) && Granted(c, s, PortsOf(c, s, e))
    ensures var t, p := AtEdge(c, s, e), PortsOf(c, s, e);
            && t.rob == B.PushAll(B.RetireAll(B.FinishAll(s.rob, c.depth, p.finished), c.depth, p.commits), c.depth, p.robLanes)
            && t.prf == P.RenameAll(P.FreeAll(P.WriteAll(s.prf, c.phy, p.wbs), p.frees), c.phy, p.asks)
            && t.arf == A.WriteAll(s.arf, c.consts, p.arfPorts)
            && t.rt == N.OverlayAll(N.RetireAll(s.rt, |c.boot.regs|, c.tags, p.rtPorts), |c.boot.regs|, c.tags, p.mapPorts)
            && t.sb == S.Cycle(s.sb, c.sbDepth, p.push, p.sucTag, p.storeCommit, p.drain)
            && t.tags == T.BookAll(if p.sucTag != {} then T.Return(s.tags) else s.tags, c.tags, p.branches)
            && t.mpft == (if p.sucTag != {} then K.Resolve(s.mpft, p.sucTag)
                          else K.BookRun(s.mpft, K.OpenTags(s.mpft, T.LastTag(s.tags, c.tags)), p.bookings).0)
            && t.live == p.places && t.fetchPc == p.nextPc
            && t.mem == if p.drain then s.mem[s.sb.table[s.sb.ret].addr := s.sb.table[s.sb.ret].data] else s.mem
  {
    hide Wrap, Upto, PopCount, Inv, B.RetireAll, B.FinishAll, P.WriteAll, A.WriteAll, N.RetireAll, S.Cycle, LiveAfter, ArfPorts, RtPorts, Frees,
         Reported, Written, Resolved, Pushed, K.Resolve, RobLanes, Asks, MapPorts, Branches, Bookings, Rows, PcAfter, Promises, Drained, Sized,
         EdgeOk, StaysSized, AtEdge, B.PushAll, P.RenameAll, N.OverlayAll, T.BookAll, K.OpenTags, T.LastTag, Plan, Granted;
    Ticking(c, s, e);
    var v := Drained(c, s, e.acts, e.commits, e.drain);
    assert Sized(c, v) by { Midway(c, s, e); }
    Landing(c, s, e);
    BackEnd(c, s, e.acts, e.commits, e.drain);
    Booked(c, s, PortsOf(c, s, e));
    ResolveStalls(c, s, e);
    if Resolved(s, e.acts) != {} { NoLanes(c, v); }
  }

  lemma Midway(c: Config, s: Core, e: Edge)
    requires Sized(c, s) && EdgeOk(c, s, e) && e.Tick? && StaysSized(c, s, e)
    ensures e.commits <= s.rob.used && Sources(s, e.acts) && Sized(c, Drained(c, s, e.acts, e.commits, e.drain))
  {
    hide Wrap, Drained;
  }

  lemma Booked(c: Config, s: Core, p: Ports)
    requires Sized(c, s) && Granted(c, s, p)
    ensures PopCount(p.branches) <= s.tags.free && c.tags > 0
  {
    hide PopCount;
  }

  /** What a squash asks of the blocks is within their bounds. */
  lemma SquashBounds(c: Config, s: Core, e: Edge)
    requires Sized(c, s) && EdgeOk(c, s, e) && e.Squash? && StaysSized(c, s, e) && Inv(c, s)
    ensures var p := SquashPortsOf(c, s, e);
            && (forall i | 0 <= i < |p.finished| :: p.finished[i] < c.depth)
            && (forall i | 0 <= i < |p.wbs| :: p.wbs[i].pr < c.phy)
            && p.robIdx < c.depth && p.pr < c.phy && (forall t | t in p.tag :: t < c.tags)
            && s.prf.free + Wrap(s.prf.next + c.phy - Wrap(p.pr + 1, c.phy), c.phy) <= c.phy && s.prf.free <= c.phy
  {
    hide Wrap, Upto, PopCount, Inv, Sized, Reported, Written, LiveAfter, BranchTarget, Value, Plan, AtLastStage, Wake, Moves, Report, EdgeOk;
    Squashing(c, s, e);
    SquashReadsRegisters(c, s, e.acts, e.p);
    PortsFit(c, s, e.acts);
    Rollback(c, s, e.p);
    BranchPorts(c, s, e.p);
  }

  /** And the registers after a squash cycle. */
  lemma SquashFields(c: Config, s: Core, e: Edge)
    requires Sized(c, s) && EdgeOk(c, s, e) && e.Squash? && StaysSized(c, s, e)
    requires var p := SquashPortsOf(c, s, e);
             (forall i | 0 <= i < |p.finished| :: p.finished[i] < c.depth) && (forall i | 0 <= i < |p.wbs| :: p.wbs[i].pr < c.phy)
             && p.robIdx < c.depth && p.pr < c.phy
    ensures var t, p := AtEdge(c, s, e), SquashPortsOf(c, s, e);
            && t.rob == B.Truncate(B.FinishAll(s.rob, c.depth, p.finished), c.depth, p.robIdx)
            && t.prf == P.Restart(P.WriteAll(s.prf, c.phy, p.wbs), c.phy, p.pr)
            && t.arf == s.arf && t.rt == N.Restore(s.rt, |c.boot.regs|, c.tags, p.tag)
            && t.sb == (var k := S.Kill(s.sb, c.sbDepth, K.FixTag(s.mpft, p.tag)); if p.drain then S.Drain(k, c.sbDepth) else k)
            && t.tags == T.Restart(c.tags, p.tag) && t.mpft == K.Restart(s.mpft, p.tag)
            && t.live == Kill(p.places, K.FixTag(s.mpft, p.tag)) && t.fetchPc == p.redirect
            && t.mem == if p.drain then s.mem[s.sb.table[s.sb.ret].addr := s.sb.table[s.sb.ret].data] else s.mem
  {
    hide Wrap, Upto, PopCount, Sized, Reported, Written, LiveAfter, BranchTarget, Value, Kill, S.Kill, K.FixTag, K.Restart, N.Restore,
         T.Restart, B.Truncate, P.Restart, S.Drain, S.CanDrain, Plan, B.FinishAll, P.WriteAll, AtLastStage, Wake;
    Squashing(c, s, e);
    SquashReadsRegisters(c, s, e.acts, e.p);
    PortsFit(c, s, e.acts);
    UnfoldReport(c, s, Reported(s, e.acts), Written(c, s, e.acts), s.live[e.p]);
  }

  lemma Squashing(c: Config, s: Core, e: Edge)
    requires Sized(c, s) && EdgeOk(c, s, e) && e.Squash?
    ensures QuietPlan(c, s, e.acts, e.p) && AtLastStage(c, s, e.p) && e.p in s.live && e.p.Stage? && s.live[e.p].op.isBranch
  {
  }

  lemma BranchPorts(c: Config, s: Core, p: Place)
    requires Inv(c, s) && p in s.live && s.live[p].op.isBranch
    ensures Sized(c, s) && s.live[p].rob < c.depth && s.live[p].pr < c.phy && forall t | t in s.live[p].tag :: t < c.tags
  {
    hide Wrap, Upto, RobOk, TagsOk, ResolvedOk, PrfCounts, PrfValues, RtOk, ArfOk, OnceOk, OrderOk, BufferOk, MemoryOk, AccessOk, LinkOk,
         SlotsOk, Config.OpOk;
    assert RecordIs(c, s, p, s.live[p]) && TagIs(c, s, s.live[p].n, s.live[p].isSpec, s.live[p].tag);
  }

  /** What the rollback returns and what is free are at most the whole file. */
  lemma Rollback(c: Config, s: Core, p: Place)
    requires Inv(c, s) && p in s.live && s.live[p].op.isBranch
    ensures c.phy > 0 && s.live[p].pr < c.phy
    ensures s.prf.free + Wrap(s.prf.next + c.phy - Wrap(s.live[p].pr + 1, c.phy), c.phy) <= c.phy && s.prf.free <= c.phy
  {
    hide Wrap, Upto, Config.OpOk, TagsOk, ResolvedOk, PrfValues, RtOk, ArfOk, OnceOk, OrderOk, LinkOk, BufferOk, MemoryOk, AccessOk, SlotsOk,
         TagIs, RobOk;
    O.BranchRegister(c, s, p);
    var lo, hi := Upto(c, s.path, s.live[p].n + 1).acts, Upto(c, s.path, |s.path|).acts;
    Distance(lo, hi, c.phy);
    CountsRise(c, s.path, s.ret, s.live[p].n + 1);
  }

  lemma UnfoldReport(c: Config, s: Core, idxs: seq<nat>, wbs: seq<P.WbPort>, r: Rec)
    requires Sized(c, s) && r.rob < c.depth && r.pr < c.phy
    requires (forall i | 0 <= i < |idxs| :: idxs[i] < c.depth) && (forall i | 0 <= i < |wbs| :: wbs[i].pr < c.phy)
    ensures B.FinishAll(s.rob, c.depth, idxs + [r.rob]) == B.Finish(B.FinishAll(s.rob, c.depth, idxs), c.depth, r.rob)
    ensures P.WriteAll(s.prf, c.phy, wbs + [P.WbPort(r.pr, Value(c, r))])
         == P.WriteBack(P.WriteAll(s.prf, c.phy, wbs), c.phy, r.pr, Value(c, r))
    ensures wbs + [] == wbs
  {
    hide Wrap, Value;
    assert (idxs + [r.rob])[..|idxs|] == idxs;
    assert (wbs + [P.WbPort(r.pr, Value(c, r))])[..|wbs|] == wbs;
  }

  lemma HeadFits(c: Config, s: Core)
    requires Sized(c, s)
    ensures s.sb.Sized(c.sbDepth) && s.sb.table[s.sb.ret].addr < |s.mem|
  {
  }

  // --- no two writes of one cycle meet ----------------------------------------------------------

  /** A writeback is of a record that reports in this cycle. */
  lemma {:induction false} WrittenFrom(c: Config, s: Core, acts: seq<Act>, i: nat) returns (p: Place)
    requires Sized(c, s) && Sources(s, acts) && i < |Written(c, s, acts)|
    ensures p in s.live && s.live[p].op.required && Written(c, s, acts)[i].pr == s.live[p].pr
    decreases |acts|
  {
    hide Wrap, Sized, Value;
    var past := acts[..|acts| - 1];
    if i < |Written(c, s, past)| { p := WrittenFrom(c, s, past, i); } else { p := acts[|past|].p; }
  }

  /** What retires has reported, so what has not stays. */
  lemma StillInFlight(c: Config, s: Core, k: nat, p: Place)
    requires Inv(c, s) && MayRetire(c, s, k) && p in s.live
    ensures CountsOk(c, s) && s.ret + k <= s.live[p].n < |s.path| && s.live[p].op == s.path[s.live[p].n].op
    ensures s.live[p].pr == Wrap(Upto(c, s.path, s.live[p].n).acts, c.phy)
  {
    hide Wrap, Upto, TagsOk, ResolvedOk, PrfCounts, PrfValues, RtOk, ArfOk, OnceOk, OrderOk, LinkOk, BufferOk, MemoryOk, AccessOk, SlotsOk,
         TagIs, Config.OpOk;
    assert RecordIs(c, s, p, s.live[p]);
    var j := s.live[p].n - s.ret;
    if j < k {
      WrapAdd(s.ret, j, c.depth);
      if j < k - 1 { B.LeadingRun(s.rob, c.depth, j, k - 1); }
    }
  }

  /** No register is written back in the cycle it is promised: the two writes of a cycle to the
      file's valid bits never name one entry, so their order does not matter. */
  lemma NoCollision(c: Config, s: Core, e: Edge)
    requires Inv(c, s) && EdgeOk(c, s, e) && e.Tick?
    ensures var v := Drained(c, s, e.acts, e.commits, e.drain);
            forall i | 0 <= i < |Written(c, s, e.acts)| :: Written(c, s, e.acts)[i].pr !in Promises(c, v, e.lanes)
  {
    hide Wrap, Upto, PopCount, Inv, Sized, Drained, Written, Promises, Plan, EdgeOk, Asks, Takes, Promise, MayRetire, Reported,
         Resolved, Room, Config.OpOk;
    E.Counted(c, s);
    Ticking(c, s, e);
    var v := Drained(c, s, e.acts, e.commits, e.drain);
    var events := BackEndIsRun(c, s, e);
    E.Counted(c, v);
    Standing(c, s, e);
    forall i, j | 0 <= i < |Written(c, s, e.acts)| && 0 <= j < |e.lanes|
      ensures Written(c, s, e.acts)[i].pr != Promises(c, v, e.lanes)[j]
    {
      var p := WrittenFrom(c, s, e.acts, i);
      StillInFlight(c, s, e.commits, p);
      Decoded(c, s.path, s.live[p].n);
      L.PromisesAt(c, v, e.lanes, j);
      L.LaterPromise(c, v, v, e.lanes[..0], e.lanes, s.live[p].n, j);
    }
  }

  lemma Standing(c: Config, s: Core, e: Edge)
    requires Inv(c, s) && Sized(c, s) && EdgeOk(c, s, e) && e.Tick? && e.commits <= s.rob.used && Sources(s, e.acts)
    requires Inv(c, Drained(c, s, e.acts, e.commits, e.drain)) && Sized(c, Drained(c, s, e.acts, e.commits, e.drain))
    ensures var v := Drained(c, s, e.acts, e.commits, e.drain);
            L.Midway(c, v, v, e.lanes[..0], e.lanes) && v.path == s.path && v.ret == s.ret + e.commits
  {
    hide Wrap, Inv, LiveAfter, Reported, Written, Resolved, Pushed, ArfPorts, RtPorts, Frees, Plan, MayRetire, PopCount, Config.OpOk;
    PopCountEmpty(Asks(c, Drained(c, s, e.acts, e.commits, e.drain), e.lanes[..0]));
  }
}

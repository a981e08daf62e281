/**
 The core: every block wired to the others, and what one clock edge does to all of them.

 The blocks are the classes of their own modules. The reservation stations and units are
 here as the places they hold (`Live`); their own classes say how the rows get there.
 */
module CoreO3 {
  import opened Rings
  import opened Program
  import opened Records
  import opened Engine
  import opened Invariant
  import opened Cycle
  import opened CycleDispatch
  import opened Clock
  import opened CorePorts
  import opened Wiring
  import opened Theorems
  import A = Architectural
  import B = Reorder
  import E = CycleEvents
  import K = KillMask
  import N = Rename
  import P = Physical
  import S = Stores
  import T = Tags

  class CoreO3 {
    const rob: B.Rob
    const tag_gen: T.TagGen
    const mpft: K.Mpft
    const prf: P.Prf
    const rt: N.Rt
    const arf: A.Arf
    const store_buf: S.StoreBuf
    const memory: array<Word>
    var live: Live
    var fetch_pc: int
    /** How many instructions the path holds: it numbers records, and decides nothing. */
    var dispatched: nat

    /** Every block is as wide as the configuration says. */
    ghost predicate Wired(c: Config)
      reads this, rob, rob.table, tag_gen, prf, prf.fin, prf.data, rt, store_buf, store_buf.table
    {
      && prf.data != arf.storage && prf.data != memory && arf.storage != memory
      && rob.depth == c.depth && rob.commit_lanes == c.commitLanes && tag_gen.width == c.tags && prf.size == c.phy && prf.range == c.phy + 1
      && rt.regs == |c.boot.regs| && rt.tags == c.tags && mpft.storage.Length == c.tags > 0 && arf.consts == c.consts && store_buf.depth == c.sbDepth
      && rob.Valid() && tag_gen.Valid() && prf.Valid() && rt.Valid() && store_buf.Valid()
    }

    /** The blocks' registers are these. */
    ghost predicate Shows(c: Config, s: Core)
      reads this, rob, rob.table, tag_gen, mpft.storage, prf, prf.fin, prf.data, rt, arf.storage, store_buf, store_buf.table, memory
    {
      && Wired(c)
      && rob.View() == s.rob && tag_gen.View() == s.tags && mpft.storage[..] == s.mpft && prf.View() == s.prf
      && rt.View() == s.rt && arf.storage[..] == s.arf && store_buf.View() == s.sb && memory[..] == s.mem
      && live == s.live && fetch_pc == s.fetchPc && dispatched == |s.path|
    }

    /** Every table empty, the register file and memory as the program finds them. What no valid
        bit vouches for, in the physical file and the fix table, is arbitrary. */
    ghost predicate Blank(c: Config)
      reads this, rob, rob.table, tag_gen, mpft.storage, prf, prf.fin, prf.data, rt, arf.storage, store_buf, store_buf.table, memory
    {
      && Wired(c) && rob.View() == B.AtReset(c.depth) && tag_gen.View() == T.TagState(c.tags - 1, {0})
      && prf.free_entry == c.phy && prf.next_index == 0 && rt.View() == N.AtReset(|c.boot.regs|, c.tags)
      && arf.storage[..] == c.boot.regs && store_buf.View() == S.AtReset(c.sbDepth) && memory[..] == c.boot.mem
      && live == map[] && fetch_pc == c.boot.pc && dispatched == 0
    }

    constructor (c: Config)
      requires c.Valid()
      ensures Blank(c)
    {
      hide Config.OpOk, B.Rob.View, B.Rob.Valid, P.Prf.View, P.Prf.Valid, N.Rt.View, N.Rt.Valid, S.StoreBuf.View, S.StoreBuf.Valid,
           T.TagGen.View, T.TagGen.Valid, B.AtReset, S.AtReset, N.AtReset;
      rob := new B.Rob(c.depth, c.commitLanes);
      tag_gen := new T.TagGen(c.tags, c.tags);
      mpft := new K.Mpft(c.tags);
      prf := new P.Prf(c.phy);
      rt := new N.Rt(|c.boot.regs|, c.tags);
      arf := new A.Arf(c.boot.regs, c.consts);
      store_buf := new S.StoreBuf(c.sbDepth);
      memory := new Word[|c.boot.mem|](i requires 0 <= i < |c.boot.mem| => c.boot.mem[i]);
      live, fetch_pc, dispatched := map[], c.boot.pc, 0;
      new;
      assert memory[..] == c.boot.mem;
    }

    /** It is a state every run may start from. */
    lemma StartsRuns(c: Config) returns (s: Core)
      requires c.Valid() && Blank(c)
      ensures Reset(c, s) && Shows(c, s)
    {
      hide Sized, Reset;
      s := Core(rob.View(), tag_gen.View(), mpft.storage[..], prf.View(), rt.View(), arf.storage[..], live,
                store_buf.View(), memory[..], fetch_pc, [], [], 0, 0, 0, 0);
      Booted(c, s);
    }

    // --- the blocks, two at a time ----------------------------------------------------------

    /** Reports, retirements and the bundle, on the reorder buffer and the physical file. */
    method UpdateRows(finished: seq<nat>, wbs: seq<P.WbPort>, commits: nat, frees: seq<bool>, robLanes: seq<B.RobLane>, asks: seq<bool>)
      requires rob.Valid() && prf.Valid() && prf.range == prf.size + 1
      requires (forall i | 0 <= i < |finished| :: finished[i] < rob.depth) && (forall i | 0 <= i < |wbs| :: wbs[i].pr < prf.size)
      requires commits <= rob.View().used && PopCount(B.Valids(robLanes)) <= rob.depth - rob.View().used
      requires PopCount(asks) <= prf.View().free + PopCount(frees) <= prf.size
      modifies rob, rob.table, prf, prf.fin, prf.data
      ensures rob.Valid() && prf.Valid()
      ensures rob.View() == B.PushAll(B.RetireAll(B.FinishAll(old(rob.View()), rob.depth, finished), rob.depth, commits), rob.depth, robLanes)
      ensures prf.View() == P.RenameAll(P.FreeAll(P.WriteAll(old(prf.View()), prf.size, wbs), frees), prf.size, asks)
    {
      hide Wrap, PopCount, B.RetireAll, B.FinishAll, B.PushAll, P.WriteAll, P.RenameAll;
      rob.Update(finished, commits, robLanes, true);
      prf.Update(wbs, frees, asks, true);
    }

    /** The committed file and the rename table. */
    method UpdateMaps(arfPorts: seq<A.ArfPort>, rtPorts: seq<N.CommitPort>, mapPorts: seq<N.RenamePort>)
      requires rt.Valid() && forall i | 0 <= i < |arfPorts| :: arfPorts[i].ar < arf.storage.Length
      requires (forall i | 0 <= i < |rtPorts| :: rtPorts[i].ar < rt.regs) && (forall i | 0 <= i < |mapPorts| :: mapPorts[i].ar < rt.regs)
      modifies rt, arf.storage
      ensures rt.Valid() && arf.storage[..] == A.WriteAll(old(arf.storage[..]), arf.consts, arfPorts)
      ensures rt.View() == N.OverlayAll(N.RetireAll(old(rt.View()), rt.regs, rt.tags, rtPorts), rt.regs, rt.tags, mapPorts)
    {
      hide A.WriteAll, N.RetireAll, N.OverlayAll;
      arf.Update(arfPorts);
      var rows := rt.OnNormalFlow(rtPorts, mapPorts);
    }

    /** The tag pool and the fix table: a resolve, or the bundle's bookings. */
    method UpdateTags(sucTag: Mask, branches: seq<bool>, bookings: seq<K.Booking>)
      requires tag_gen.Valid() && mpft.storage.Length > 0
      requires sucTag != {} ==> tag_gen.View().free < tag_gen.width - 1
      requires PopCount(branches) <= tag_gen.View().free
      modifies tag_gen, mpft.storage
      ensures tag_gen.Valid()
      ensures tag_gen.View()
           == T.BookAll(if sucTag != {} then T.Return(old(tag_gen.View())) else old(tag_gen.View()), tag_gen.width, branches)
      ensures mpft.storage[..]
           == if sucTag != {} then K.Resolve(old(mpft.storage[..]), sucTag)
              else var rows := old(mpft.storage[..]);
                   K.BookRun(rows, K.OpenTags(rows, T.LastTag(old(tag_gen.View()), tag_gen.width)), bookings).0
    {
      hide Wrap, PopCount, K.Resolve, K.BookRun, K.OpenTags, T.LastTag, T.BookAll;
      if sucTag != {} {
        mpft.OnSucPred(sucTag);
      } else {
        mpft.OnRename(bookings, T.LastTag(tag_gen.View(), tag_gen.width));
      }
      tag_gen.Update(branches, true, sucTag != {});
    }

    /** The store buffer, and the memory that takes its head as the table still holds it. */
    method UpdateStores(push: S.PushPort, sucTag: Mask, commit: bool, drain: bool)
      requires store_buf.Valid() && store_buf.View().Sized(store_buf.depth)
      requires store_buf.View().table[store_buf.View().ret].addr < memory.Length
      modifies store_buf, store_buf.table, memory
      ensures store_buf.Valid() && store_buf.View() == S.Cycle(old(store_buf.View()), store_buf.depth, push, sucTag, commit, drain)
      ensures var head := old(store_buf.View().table[store_buf.View().ret]);
              memory[..] == if drain then old(memory[..])[head.addr := head.data] else old(memory[..])
    {
      hide S.Cycle, Wrap;
      if drain {
        var head := store_buf.table[store_buf.ret_ptr];
        memory[head.addr] := head.data;
      }
      store_buf.Update(push, sucTag, commit, drain);
    }

    // --- the clock edge -----------------------------------------------------------------------

    /** Every block is within its own bounds, apart from the others. */
    ghost predicate Sound()
      reads this, rob, rob.table, tag_gen, prf, prf.fin, prf.data, rt, store_buf, store_buf.table
    {
      && rob.Valid() && tag_gen.Valid() && prf.Valid() && rt.Valid() && store_buf.Valid() && prf.range == prf.size + 1
      && prf.data != arf.storage && prf.data != memory && arf.storage != memory && mpft.storage.Length > 0
    }

    /** All the blocks take their ports. */
    method UpdateBlocks(ports: Ports)
      requires Sound() && store_buf.View().Sized(store_buf.depth) && store_buf.View().table[store_buf.View().ret].addr < memory.Length
      requires (forall i | 0 <= i < |ports.finished| :: ports.finished[i] < rob.depth)
      requires (forall i | 0 <= i < |ports.wbs| :: ports.wbs[i].pr < prf.size)
      requires (forall i | 0 <= i < |ports.arfPorts| :: ports.arfPorts[i].ar < arf.storage.Length)
      requires (forall i | 0 <= i < |ports.rtPorts| :: ports.rtPorts[i].ar < rt.regs)
      requires (forall i | 0 <= i < |ports.mapPorts| :: ports.mapPorts[i].ar < rt.regs)
      requires ports.commits <= rob.View().used && PopCount(B.Valids(ports.robLanes)) <= rob.depth - rob.View().used
      requires PopCount(ports.asks) <= prf.View().free + PopCount(ports.frees) <= prf.size
      requires ports.sucTag != {} ==> tag_gen.View().free < tag_gen.width - 1
      requires PopCount(ports.branches) <= tag_gen.View().free
      modifies `live, `fetch_pc, rob, rob.table, tag_gen, mpft.storage, prf, prf.fin, prf.data, rt, arf.storage, store_buf, store_buf.table, memory
      ensures Sound() && live == ports.places && fetch_pc == ports.nextPc
      ensures rob.View() == B.PushAll(B.RetireAll(B.FinishAll(old(rob.View()), rob.depth, ports.finished), rob.depth, ports.commits),
                                      rob.depth, ports.robLanes)
      ensures prf.View() == P.RenameAll(P.FreeAll(P.WriteAll(old(prf.View()), prf.size, ports.wbs), ports.frees), prf.size, ports.asks)
      ensures arf.storage[..] == A.WriteAll(old(arf.storage[..]), arf.consts, ports.arfPorts)
      ensures rt.View() == N.OverlayAll(N.RetireAll(old(rt.View()), rt.regs, rt.tags, ports.rtPorts), rt.regs, rt.tags, ports.mapPorts)
      ensures tag_gen.View()
           == T.BookAll(if ports.sucTag != {} then T.Return(old(tag_gen.View())) else old(tag_gen.View()), tag_gen.width, ports.branches)
      ensures mpft.storage[..]
           == if ports.sucTag != {} then K.Resolve(old(mpft.storage[..]), ports.sucTag)
              else var rows := old(mpft.storage[..]);
                   K.BookRun(rows, K.OpenTags(rows, T.LastTag(old(tag_gen.View()), tag_gen.width)), ports.bookings).0
      ensures store_buf.View()
           == S.Cycle(old(store_buf.View()), store_buf.depth, ports.push, ports.sucTag, ports.storeCommit, ports.drain)
      ensures var head := old(store_buf.View().table[store_buf.View().ret]);
              memory[..] == if ports.drain then old(memory[..])[head.addr := head.data] else old(memory[..])
    {
      hide Wrap, PopCount, B.RetireAll, B.FinishAll, B.PushAll, P.WriteAll, P.RenameAll,
           P.FreeAll, A.WriteAll, N.RetireAll, N.OverlayAll, S.Cycle, K.Resolve, K.BookRun, K.OpenTags, T.LastTag, T.BookAll, T.Return,
           B.Rob.View, B.Rob.Valid, P.Prf.View, P.Prf.Valid, N.Rt.View, N.Rt.Valid, S.StoreBuf.View, S.StoreBuf.Valid, T.TagGen.View,
           T.TagGen.Valid;
      UpdateStores(ports.push, ports.sucTag, ports.storeCommit, ports.drain);
      UpdateRows(ports.finished, ports.wbs, ports.commits, ports.frees, ports.robLanes, ports.asks);
      UpdateMaps(ports.arfPorts, ports.rtPorts, ports.mapPorts);
      UpdateTags(ports.sucTag, ports.branches, ports.bookings);
      live, fetch_pc := ports.places, ports.nextPc;
    }

    /** What the units, the reorder buffer, the store buffer and dispatch put on the wires of an
        ordinary cycle, each read off its block. */
    method DrivePorts(c: Config, ghost s: Core, acts: seq<Act>, lanes: seq<Bus>, all_ok: bool, mem_ready: bool)
      returns (ports: Ports, landed: nat, ghost e: Edge)
      requires Shows(c, s) && Inv(c, s) && Sized(c, s) && Plan(c, s, acts) && |lanes| <= c.lanes && (all_ok ==> Found(c, s, s.live, lanes))
      ensures Decided(c, s, e, acts, lanes, all_ok, mem_ready) && StaysSized(c, s, e) && ports == PortsOf(c, s, e)
      ensures landed == PopCount(Takes(e.lanes)) && Inv(c, AtEdge(c, s, e))
    {
      hide Wrap, PopCount, Inv, EdgeOk, StaysSized, AtEdge, Decided, PortsOf, Plan, Found, Drained, LiveAfter, Rows, Takes, Asks,
           Branches, Promises, RobLanes, MapPorts, Bookings, PcAfter, Reported, Written, Resolved, Pushed, ArfPorts, RtPorts, Frees,
           RetiresStore, Books, Tagged, P.WriteAll, N.RetireAll, A.WriteAll, B.RetireAll, B.FinishAll, S.Cycle, K.Resolve,
           B.Rob.Valid, P.Prf.Valid, N.Rt.Valid, S.StoreBuf.Valid, S.CanDrain, T.TagGen.Valid, Sized, Room, B.Retires;
      PlanSources(c, s, acts);
      var finished, wbs, sucTag, push := UnitPorts(c, s, live, store_buf, memory, acts);
      var commits, arfPorts, rtPorts, frees, storeCommit := RetireGroup(c, s, rob, prf);
      var drain := HeadMay(store_buf, mem_ready);
      var places := NextPlaces(c, s, live, store_buf, memory, acts, wbs, sucTag);
      ghost var v := Midcycle(c, s, acts, commits, drain);
      var go, b, free_idx := Grant(c, v, rob, prf, tag_gen, fetch_pc, lanes, frees, sucTag != {}, all_ok);
      if go {
        places := ReadBundle(c, v, lanes, b, free_idx, prf, rt, arf, wbs, arfPorts, rtPorts, places, dispatched);
      } else {
        NothingBooked(c, v);
      }
      ports := Ports(finished, wbs, sucTag, push, commits, arfPorts, rtPorts, frees, storeCommit, drain,
                     b.robLanes, b.asks, b.mapPorts, b.branches, b.bookings, places, b.nextPc);
      landed := PopCount(b.takes);
      BundleWidths(c, v, if go then lanes else [], b);
      e := Driven(c, s, v, acts, lanes, all_ok, mem_ready, commits, drain, go, b, ports);
    }

    /** An ordinary cycle: the blocks decide what retires, drains and dispatches, and take what
        their ports carry at one edge. */
    method Tick(c: Config, ghost s: Core, acts: seq<Act>, lanes: seq<Bus>, all_ok: bool, mem_ready: bool) returns (ghost e: Edge)
      requires Shows(c, s) && Inv(c, s) && Sized(c, s) && Plan(c, s, acts) && |lanes| <= c.lanes && (all_ok ==> Found(c, s, s.live, lanes))
      modifies this, rob, rob.table, tag_gen, mpft.storage, prf, prf.fin, prf.data, rt, arf.storage, store_buf, store_buf.table, memory
      ensures Decided(c, s, e, acts, lanes, all_ok, mem_ready) && StaysSized(c, s, e)
      ensures Shows(c, AtEdge(c, s, e)) && Inv(c, AtEdge(c, s, e))
    {
      hide Wrap, PopCount, Inv, Sized, Plan, Found, EdgeOk, StaysSized, AtEdge, PortsOf, B.RetireAll, B.FinishAll, B.PushAll, P.WriteAll, P.RenameAll,
           P.FreeAll, A.WriteAll, N.RetireAll, N.OverlayAll, S.Cycle, K.Resolve, K.BookRun, K.OpenTags, T.LastTag, T.BookAll, T.Return,
           B.Rob.View, B.Rob.Valid, P.Prf.View, P.Prf.Valid, N.Rt.View, N.Rt.Valid, S.StoreBuf.View, S.StoreBuf.Valid, T.TagGen.View,
           T.TagGen.Valid, Drained, Room, B.Retires, Resolved, Takes;
      var ports, landed;
      ports, landed, e := DrivePorts(c, s, acts, lanes, all_ok, mem_ready);
      Rooms(c, s, e);
      TickFields(c, s, e);
      PathGrows(c, s, e);
      HeadFits(c, s);
      UpdateBlocks(ports);
      dispatched := dispatched + landed;
    }
    /** The cycle's reports land, and the two rings roll back to the branch. */
    method RollBackRows(finished: seq<nat>, wbs: seq<P.WbPort>, robIdx: nat, pr: nat)
      requires rob.Valid() && prf.Valid() && prf.range == prf.size + 1 && robIdx < rob.depth && pr < prf.size
      requires (forall i | 0 <= i < |finished| :: finished[i] < rob.depth) && (forall i | 0 <= i < |wbs| :: wbs[i].pr < prf.size)
      requires prf.View().free + Wrap(prf.View().next + prf.size - Wrap(pr + 1, prf.size), prf.size) <= prf.size
      modifies rob, rob.table, prf, prf.fin, prf.data
      ensures rob.Valid() && prf.Valid()
      ensures rob.View() == B.Truncate(B.FinishAll(old(rob.View()), rob.depth, finished), rob.depth, robIdx)
      ensures prf.View() == P.Restart(P.WriteAll(old(prf.View()), prf.size, wbs), prf.size, pr)
    {
      hide Wrap, PopCount, B.FinishAll, P.WriteAll, B.Truncate, P.Restart;
      PopCountEmpty([]);
      rob.Update(finished, 0, [], false);
      prf.Update(wbs, [], [], false);
      rob.OnMisPred(robIdx);
      prf.OnMisPred(pr);
    }

    /** The tags, the fix table and the map roll back. */
    method RollBackTags(tag: Mask)
      requires tag_gen.Valid() && rt.Valid() && forall t | t in tag :: t < tag_gen.width
      modifies tag_gen, mpft.storage, rt
      ensures tag_gen.Valid() && rt.Valid() && tag_gen.View() == T.Restart(tag_gen.width, tag)
      ensures mpft.storage[..] == K.Restart(old(mpft.storage[..]), tag) && rt.View() == N.Restore(old(rt.View()), rt.regs, rt.tags, tag)
    {
      hide Wrap, K.Restart, N.Restore, T.Restart;
      tag_gen.OnMisPred(tag);
      mpft.OnMisPred(tag);
      rt.OnMisPred(tag);
    }

    /** The speculative stores die; the head may go to memory beside it. */
    method RollBackStores(fix_tag: Mask, drain: bool)
      requires store_buf.Valid() && store_buf.View().Sized(store_buf.depth)
      requires store_buf.View().table[store_buf.View().ret].addr < memory.Length
      modifies store_buf, store_buf.table, memory
      ensures store_buf.Valid()
      ensures var k := S.Kill(old(store_buf.View()), store_buf.depth, fix_tag);
              store_buf.View() == if drain then S.Drain(k, store_buf.depth) else k
      ensures var head := old(store_buf.View().table[store_buf.View().ret]);
              memory[..] == if drain then old(memory[..])[head.addr := head.data] else old(memory[..])
    {
      hide Wrap, S.Kill, S.Drain;
      if drain {
        var head := store_buf.table[store_buf.ret_ptr];
        memory[head.addr] := head.data;
      }
      store_buf.OnMisPred(fix_tag);
      if drain { store_buf.Retire(); }
    }

    method RollBackBlocks(ports: SquashPorts)
      requires Sound() && store_buf.View().Sized(store_buf.depth) && store_buf.View().table[store_buf.View().ret].addr < memory.Length
      requires (forall i | 0 <= i < |ports.finished| :: ports.finished[i] < rob.depth)
      requires (forall i | 0 <= i < |ports.wbs| :: ports.wbs[i].pr < prf.size)
      requires ports.robIdx < rob.depth && ports.pr < prf.size
      requires forall t | t in ports.tag :: t < tag_gen.width && t < mpft.storage.Length
      requires prf.View().free + Wrap(prf.View().next + prf.size - Wrap(ports.pr + 1, prf.size), prf.size) <= prf.size
      modifies `live, `fetch_pc, rob, rob.table, tag_gen, mpft.storage, prf, prf.fin, prf.data, rt, store_buf, store_buf.table, memory
      ensures Sound() && fetch_pc == ports.redirect && live == Kill(ports.places, K.FixTag(old(mpft.storage[..]), ports.tag))
      ensures rob.View() == B.Truncate(B.FinishAll(old(rob.View()), rob.depth, ports.finished), rob.depth, ports.robIdx)
      ensures prf.View() == P.Restart(P.WriteAll(old(prf.View()), prf.size, ports.wbs), prf.size, ports.pr)
      ensures tag_gen.View() == T.Restart(tag_gen.width, ports.tag) && mpft.storage[..] == K.Restart(old(mpft.storage[..]), ports.tag)
      ensures rt.View() == N.Restore(old(rt.View()), rt.regs, rt.tags, ports.tag)
      ensures var k := S.Kill(old(store_buf.View()), store_buf.depth, K.FixTag(old(mpft.storage[..]), ports.tag));
              store_buf.View() == if ports.drain then S.Drain(k, store_buf.depth) else k
      ensures var head := old(store_buf.View().table[store_buf.View().ret]);
              memory[..] == if ports.drain then old(memory[..])[head.addr := head.data] else old(memory[..])
    {
      hide Wrap, PopCount, B.FinishAll, P.WriteAll, K.FixTag, K.Restart, N.Restore, T.Restart, B.Truncate, P.Restart, S.Kill, S.Drain, Kill,
           B.Rob.View, B.Rob.Valid, P.Prf.View, P.Prf.Valid, N.Rt.View, N.Rt.Valid, S.StoreBuf.View, S.StoreBuf.Valid, T.TagGen.View,
           T.TagGen.Valid;
      var fix_tag := mpft.GetFixTag(ports.tag);
      RollBackStores(fix_tag, ports.drain);
      RollBackRows(ports.finished, ports.wbs, ports.robIdx, ports.pr);
      RollBackTags(ports.tag);
      live, fetch_pc := Kill(ports.places, fix_tag), ports.redirect;
    }

    /** What the mispredicting branch's unit, and the other units beside it, put on the wires. */
    method DriveSquash(c: Config, ghost s: Core, acts: seq<Act>, p: Place, mem_ready: bool) returns (ports: SquashPorts, ghost e: Edge)
      requires Shows(c, s) && Inv(c, s) && Sized(c, s) && QuietPlan(c, s, acts, p)
      requires AtLastStage(c, s, p) && s.live[p].op.isBranch && BranchTarget(c, s.live[p]) != s.live[p].npc
      ensures e == Squash(acts, p, mem_ready && S.CanDrain(s.sb, c.sbDepth)) && EdgeOk(c, s, e) && StaysSized(c, s, e)
      ensures ports == SquashPortsOf(c, s, e) && Inv(c, AtEdge(c, s, e))
    {
      hide Wrap, PopCount, Inv, EdgeOk, StaysSized, SquashPortsOf, Plan, LiveAfter, Reported, Written, Resolved, Pushed,
           S.StoreBuf.Valid, S.CanDrain, BranchTarget, Value, Wake, Sized, AtLastStage, Moves, AtEdge;
      PlanSources(c, s, acts);
      OnBranch(c, s, p);
      var finished, wbs, sucTag, push := UnitPorts(c, s, live, store_buf, memory, acts);
      var places := NextPlaces(c, s, live, store_buf, memory, acts, wbs, sucTag);
      var drain := HeadMay(store_buf, mem_ready);
      e := SquashDriven(c, s, acts, p, drain);
      var r := live[p];
      var value, rest := Value(c, r), places - {p};
      ports := SquashPorts(finished + [r.rob], wbs + (if r.op.required then [P.WbPort(r.pr, value)] else []), r.tag, r.rob, r.pr,
                           BranchTarget(c, r), drain, if r.op.required then Wake(rest, r.pr, value) else rest);
    }

    /** The squash fan-out: one call rolls the whole core back to the branch. */
    method OnMisPred(c: Config, ghost s: Core, acts: seq<Act>, p: Place, mem_ready: bool) returns (ghost e: Edge)
      requires Shows(c, s) && Inv(c, s) && Sized(c, s) && QuietPlan(c, s, acts, p)
      requires AtLastStage(c, s, p) && s.live[p].op.isBranch && BranchTarget(c, s.live[p]) != s.live[p].npc
      modifies this, rob, rob.table, tag_gen, mpft.storage, prf, prf.fin, prf.data, rt, store_buf, store_buf.table, memory
      ensures e == Squash(acts, p, mem_ready && S.CanDrain(s.sb, c.sbDepth)) && EdgeOk(c, s, e) && StaysSized(c, s, e)
      ensures Shows(c, AtEdge(c, s, e)) && Inv(c, AtEdge(c, s, e))
    {
      hide Wrap, PopCount, Inv, Sized, EdgeOk, StaysSized, AtEdge, SquashPortsOf, B.FinishAll, P.WriteAll,
           K.FixTag, K.Restart, N.Restore, T.Restart, B.Truncate, P.Restart, S.Kill, S.Drain, Kill, Plan, QuietPlan, BranchTarget, AtLastStage,
           B.Rob.View, B.Rob.Valid, P.Prf.View, P.Prf.Valid, N.Rt.View, N.Rt.Valid, S.StoreBuf.View, S.StoreBuf.Valid, T.TagGen.View,
           T.TagGen.Valid;
      var ports;
      ports, e := DriveSquash(c, s, acts, p, mem_ready);
      SquashBounds(c, s, e);
      SquashFields(c, s, e);
      HeadFits(c, s);
      PathCut(c, s, e);
      dispatched := live[p].n + 1;
      RollBackBlocks(ports);
    }
  }
}

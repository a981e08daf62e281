/** The whole bundle lands as one dispatch event a lane. */
module CycleBundle {
  import opened Rings
  import opened Program
  import opened Records
  import opened Engine
  import opened Invariant
  import opened Theorems
  import opened CycleDispatch
  import opened CycleLanes
  import B = Reorder
  import D = KeepDispatch
  import E = CycleEvents
  import K = KillMask
  import N = Rename
  import P = Physical
  import T = Tags
  import Tagging

  function EventOf(lane: Bus): Event
  {
    match lane
    case Idle => EmptyLane
    case Take(row) => Dispatch(row)
  }

  /** The running set of open tags the fix table books against. */
  ghost function Sofar(c: Config, v: Core, past: seq<Bus>): Mask
    requires Sized(c, v)
  {
    K.BookRun(v.mpft, K.OpenTags(v.mpft, T.LastTag(v.tags, c.tags)), Bookings(c, v, past)).1
  }

  /** Where the events have got to after a prefix. */
  ghost predicate At(c: Config, v: Core, lanes: seq<Bus>, n: nat)
  {
    && Inv(c, v) && n <= |lanes| && v.rob.used + PopCount(Takes(lanes)) <= c.depth && c.phy > 0
    && PopCount(Asks(c, v, lanes)) <= v.prf.free && PopCount(Branches(c, v, lanes)) <= v.tags.free
    && PopCount(Asks(c, v, lanes[..n])) <= v.prf.free
    && Inv(c, Landed(c, v, lanes[..n], Promises(c, v, lanes)))
    && Tagging.Open(c, Landed(c, v, lanes[..n], Promises(c, v, lanes))) == Sofar(c, v, lanes[..n])
  }

  lemma AtMidway(c: Config, v: Core, lanes: seq<Bus>, n: nat)
    requires At(c, v, lanes, n)
    ensures Sized(c, v) && Midway(c, v, Landed(c, v, lanes[..n], Promises(c, v, lanes)), lanes[..n], lanes)
  {
    hide Wrap, Upto, PopCount, Config.OpOk, Asks, Takes, Insts, Promises, TagsOk, PrfValues, PrfCounts, ArfOk, RecordsOk, CountsOk, RtOk,
         OnceOk, OrderOk, LinkOk, BufferOk, MemoryOk, AccessOk, ResolvedOk, RobOk, Promise, RobLanes, MapPorts, Bookings, Rows, Links,
         Tagging.Open, Sofar, Branches, K.BookRun, N.OverlayAll, B.PushAll;
  }

  /** One more lane books no more than the bundle. */
  lemma NextFits(c: Config, v: Core, lanes: seq<Bus>, n: nat)
    requires At(c, v, lanes, n) && n < |lanes|
    ensures lanes[..n + 1] == lanes[..n] + [lanes[n]]
    ensures PopCount(Asks(c, v, lanes[..n + 1])) <= v.prf.free && PopCount(Branches(c, v, lanes[..n + 1])) <= v.tags.free
    ensures PopCount(Takes(lanes[..n + 1])) <= PopCount(Takes(lanes))
  {
    hide Wrap, PopCount, Asks, Takes, Promises, Landed, Tagging.Open, Sofar, Branches, Inv;
    PrefixBooksLess(c, v, lanes, n + 1);
  }

  lemma {:induction false} SpotFree(c: Config, v: Core, lanes: seq<Bus>, promised: seq<nat>, n: nat, x: Place)
    requires Sized(c, v) && n <= |lanes| && x !in v.live
    requires forall i | 0 <= i < n && lanes[i].Take? :: Spot(c, v, lanes[..i], lanes[i]) != x
    ensures x !in Rows(c, v, lanes[..n], promised)
    decreases n
  {
    hide Wrap, Sized, RecordAt, Spot;
    if n > 0 {
      SpotFree(c, v, lanes, promised, n - 1, x);
      assert lanes[..n][..n - 1] == lanes[..n - 1];
    }
  }

  // --- one lane ---------------------------------------------------------------------------------

  lemma IdleStep(c: Config, v: Core, past: seq<Bus>, promised: seq<nat>)
    requires Sized(c, v) && PopCount(Asks(c, v, past)) <= v.prf.free && PopCount(Branches(c, v, past + [Idle])) <= v.tags.free
    requires PopCount(Asks(c, v, past + [Idle])) <= v.prf.free
    ensures var u := Landed(c, v, past, promised);
            u.prf.Sized(c.phy) && u.(prf := P.Rename(u.prf, c.phy, false)) == Landed(c, v, past + [Idle], promised)
    ensures Sofar(c, v, past + [Idle]) == Sofar(c, v, past)
  {
    hide Wrap, PopCount, Config.OpOk, Takes, Promise, TagFor, RecordAt, Spot, Writes, Promises, TagsAfter, OpAfter, K.OpenTags,
         K.Book, B.Push, Asks, RobLanes, MapPorts, Bookings, Rows, Insts, Links, PcAfter, P.Rename, Branches;
    OneMoreBus(c, v, past, Idle, promised);
    TagsStep(c, v, past, Idle);
    Unfold(Asks(c, v, past), false);
    Unfold(RobLanes(c, v, past), RobLanes(c, v, past + [Idle])[|past|]);
    Unfold(MapPorts(c, v, past), MapPorts(c, v, past + [Idle])[|past|]);
    Unfold(Bookings(c, v, past), Bookings(c, v, past + [Idle])[|past|]);
  }

  lemma Unfold<X>(s: seq<X>, x: X)
    ensures (s + [x])[..|s + [x]| - 1] == s && (s + [x])[|s + [x]| - 1] == x
  {
  }

  lemma NewRecordIs(c: Config, v: Core, lanes: seq<Bus>, n: nat)
    requires At(c, v, lanes, n) && n < |lanes|
    ensures Sized(c, v)
    ensures var promised := Promises(c, v, lanes);
            var u := Landed(c, v, lanes[..n], promised);
            Sized(c, u) && NewRecord(c, u) == RecordAt(c, v, lanes[..n], promised)
  {
    hide Wrap, Upto, PopCount, Config.OpOk, Takes, Asks, Branches, Promises, Inv, K.BookRun, Insts, Links, Rows, TagsAfter, Bookings,
         Tagging.Open, Sofar, ReadSource, ReadAt, PcAfter, P.RenameAll, N.OverlayAll, B.PushAll, MapPorts, RobLanes, Sized, Midway, Promise;
    E.Counted(c, v);
    var past, promised := lanes[..n], Promises(c, v, lanes);
    var u := Landed(c, v, past, promised);
    E.Counted(c, u);
    AtMidway(c, v, lanes, n);
    RobAfter(c, v, past);
    PrfAfter(c, v, past);
    var op := OpAfter(c, v, past);
    OpFits(c, v, past);
    PathGrows(c, v, past);
    forall i | 0 <= i < |op.srcs| ensures ReadSource(c, u, op.srcs[i]) == ReadAt(c, v, MapAfter(c, v, past), promised, op.srcs[i]) {
      SourceAlike(c, v, u, past, lanes, op.srcs[i]);
    }
    assert NewRecord(c, u).slots == RecordAt(c, v, past, promised).slots;
  }

  lemma OpFits(c: Config, v: Core, past: seq<Bus>)
    requires Sized(c, v)
    ensures var op := OpAfter(c, v, past);
            c.OpOk(op) && forall i | 0 <= i < |op.srcs| && op.srcs[i].Reg? :: op.srcs[i].ar < |c.boot.regs|
  {
    hide Wrap;
    assert c.OpOk(OpAfter(c, v, past));
  }

  lemma {:induction false} PathGrows(c: Config, v: Core, past: seq<Bus>)
    ensures |Insts(c, v, past)| == PopCount(Takes(past))
    decreases |past|
  {
    hide PopCount, OpAfter, PcAfter;
    if past == [] {
      PopCountEmpty(Takes(past));
    } else {
      var before := past[..|past| - 1];
      PathGrows(c, v, before);
      CountOne(Takes(before), past[|before|].Take?);
    }
  }

  lemma CanTake(c: Config, v: Core, lanes: seq<Bus>, n: nat)
    requires At(c, v, lanes, n) && n < |lanes| && lanes[n].Take?
    requires Sized(c, v) && Spot(c, v, lanes[..n], lanes[n]) !in Rows(c, v, lanes[..n], Promises(c, v, lanes))
    requires PopCount(Asks(c, v, lanes[..n])) <= v.prf.free
    requires lanes[n].row < c.rows(OpAfter(c, v, lanes[..n]).station)
    ensures var promised := Promises(c, v, lanes);
            var u := Landed(c, v, lanes[..n], promised);
            Sized(c, u) && CanDispatch(c, u, lanes[n].row)
  {
    hide Wrap, Upto, PopCount, Config.OpOk, Takes, Asks, Branches, Promises, Inv, TagsAfter, Bookings, Insts, Links, Rows,
         Tagging.Open, PcAfter, MapPorts, RobLanes, Sized, Promise, K.Book, K.OpenTags, T.Book, N.Overlay, N.OverlayAll,
         P.Rename, P.RenameAll, B.Push, B.PushAll, K.BookRun, T.LastTag, NewRecord, Writes, At, TagFor;
    TakeFits(c, v, lanes, n);
    var past, promised := lanes[..n], Promises(c, v, lanes);
    var u := Landed(c, v, past, promised);
    E.Counted(c, u) by { AtInv(c, v, lanes, n); }
  }

  lemma TakeStep(c: Config, v: Core, lanes: seq<Bus>, n: nat)
    requires At(c, v, lanes, n) && n < |lanes| && lanes[n].Take?
    requires Sized(c, v) && Spot(c, v, lanes[..n], lanes[n]) !in Rows(c, v, lanes[..n], Promises(c, v, lanes))
    requires lanes[..n + 1] == lanes[..n] + [lanes[n]] && PopCount(Asks(c, v, lanes[..n + 1])) <= v.prf.free
    requires lanes[n].row < c.rows(OpAfter(c, v, lanes[..n]).station)
    ensures var promised := Promises(c, v, lanes);
            var u := Landed(c, v, lanes[..n], promised);
            && Sized(c, u) && CanDispatch(c, u, lanes[n].row)
            && DoDispatch(c, u, lanes[n].row) == Landed(c, v, lanes[..n + 1], promised)
  {
    hide Wrap, Upto, PopCount, Config.OpOk, Takes, Asks, Branches, Promises, Inv, TagsAfter, Bookings, Insts, Links, Rows,
         Tagging.Open, PcAfter, MapPorts, RobLanes, Sized, Promise, K.Book, K.OpenTags, T.Book, N.Overlay, N.OverlayAll,
         P.Rename, P.RenameAll, B.Push, B.PushAll, K.BookRun, T.LastTag, NewRecord, Writes, At, TagFor, CanDispatch, CanRename;
    TakeFits(c, v, lanes, n);
    CanTake(c, v, lanes, n);
    var past, promised := lanes[..n], Promises(c, v, lanes);
    var u := Landed(c, v, past, promised);
    E.Counted(c, u) by { AtInv(c, v, lanes, n); }
    NewRecordIs(c, v, lanes, n);
    OneMoreBus(c, v, past, lanes[n], promised);
    OpenNow(c, v, lanes, n);
    UnfoldAll(c, v, past, lanes[n]);
  }

  lemma AtInv(c: Config, v: Core, lanes: seq<Bus>, n: nat)
    requires At(c, v, lanes, n)
    ensures Sized(c, v) && PopCount(Asks(c, v, lanes[..n])) <= v.prf.free && c.phy > 0
    ensures Inv(c, Landed(c, v, lanes[..n], Promises(c, v, lanes)))
  {
    hide Wrap, Upto, PopCount, Takes, Asks, Branches, Promises, Landed, Tagging.Open, Sofar;
  }

  lemma OpenNow(c: Config, v: Core, lanes: seq<Bus>, n: nat)
    requires At(c, v, lanes, n) && Sized(c, v) && Sized(c, Landed(c, v, lanes[..n], Promises(c, v, lanes)))
    ensures var u := Landed(c, v, lanes[..n], Promises(c, v, lanes));
            K.OpenTags(u.mpft, T.LastTag(u.tags, c.tags)) == Sofar(c, v, lanes[..n])
  {
    hide Wrap, PopCount, Asks, Takes, Branches, Promises, Sofar, Inv, K.OpenTags, T.LastTag, Landed;
  }

  /** The resources the next lane needs are there. */
  lemma TakeFits(c: Config, v: Core, lanes: seq<Bus>, n: nat)
    requires At(c, v, lanes, n) && n < |lanes| && lanes[n].Take?
    ensures Sized(c, v) && PopCount(Asks(c, v, lanes[..n])) <= v.prf.free
    ensures var u, op := Landed(c, v, lanes[..n], Promises(c, v, lanes)), OpAfter(c, v, lanes[..n]);
            && u.rob.used < c.depth && (op.active ==> u.prf.free > 0) && (op.isBranch ==> u.tags.free > 0)
            && TagsAfter(c, v, lanes[..n + 1]) == T.Book(u.tags, c.tags, op.isBranch)
  {
    hide Wrap, Upto, PopCount, Config.OpOk, Takes, Asks, Branches, Promises, Inv, TagsAfter, Bookings, Insts, Links, Rows,
         Tagging.Open, OpAfter, PcAfter, MapPorts, RobLanes, Sized, Promise, K.BookRun, T.Book, N.OverlayAll, P.RenameAll, B.PushAll, Sofar;
    AtInv(c, v, lanes, n);
    NextFits(c, v, lanes, n);
    var past := lanes[..n];
    RobAfter(c, v, past);
    TagsStep(c, v, past, lanes[n]);
    OneMoreBus(c, v, past, lanes[n], []);
    CountOne(Takes(past), true);
    CountOne(Asks(c, v, past), OpAfter(c, v, past).active);
  }

  /** Each block's own fold, one lane longer. */
  lemma UnfoldAll(c: Config, v: Core, past: seq<Bus>, lane: Bus)
    requires Sized(c, v) && lane.Take? && PopCount(Asks(c, v, past + [lane])) <= v.prf.free && PopCount(Asks(c, v, past)) <= v.prf.free
    ensures var all, op, pr, pc := past + [lane], OpAfter(c, v, past), Promise(c, v, past), PcAfter(c, v.fetchPc, past);
            && op.ar < |c.boot.regs|
            && (op.active ==> P.RenameAll(v.prf, c.phy, Asks(c, v, past)).free > 0)
            && B.PushAll(v.rob, c.depth, RobLanes(c, v, all))
               == B.Push(B.PushAll(v.rob, c.depth, RobLanes(c, v, past)), c.depth,
                         B.RobRow(op.isBranch, op.isStore, op.active, op.required, op.ar, pr, pc, false))
            && P.RenameAll(v.prf, c.phy, Asks(c, v, all)) == P.Rename(P.RenameAll(v.prf, c.phy, Asks(c, v, past)), c.phy, op.active)
            && N.OverlayAll(v.rt, |c.boot.regs|, c.tags, MapPorts(c, v, all))
               == N.Overlay(N.OverlayAll(v.rt, |c.boot.regs|, c.tags, MapPorts(c, v, past)), |c.boot.regs|, c.tags,
                            Writes(c, op, op.ar), op.ar, pr, op.isBranch, TagFor(c, v, past, op.isBranch))
            && (var open := K.OpenTags(v.mpft, T.LastTag(v.tags, c.tags));
                var was, now := K.BookRun(v.mpft, open, Bookings(c, v, past)), K.BookRun(v.mpft, open, Bookings(c, v, all));
                now == if op.isBranch then (K.Book(was.0, was.1, TagFor(c, v, past, true)), was.1 + TagFor(c, v, past, true)) else was)
  {
    hide Wrap, PopCount, Config.OpOk, Takes, Asks, Branches, Promises, TagsAfter, Bookings, Insts, Links, Rows,
         OpAfter, PcAfter, MapPorts, RobLanes, Promise, TagFor, K.Book, K.OpenTags, N.Overlay, P.Rename, B.Push, T.LastTag, Writes, RecordAt;
    OneMoreBus(c, v, past, lane, []);
    CountOne(Asks(c, v, past), OpAfter(c, v, past).active);
    Unfold(Asks(c, v, past), OpAfter(c, v, past).active);
    Unfold(RobLanes(c, v, past), RobLanes(c, v, past + [lane])[|past|]);
    Unfold(MapPorts(c, v, past), MapPorts(c, v, past + [lane])[|past|]);
    Unfold(Bookings(c, v, past), Bookings(c, v, past + [lane])[|past|]);
  }

  // --- the running set of open tags ---------------------------------------------------------------

  lemma OpenStep(c: Config, v: Core, lanes: seq<Bus>, n: nat)
    requires At(c, v, lanes, n) && n < |lanes| && Sized(c, v)
    requires PopCount(Asks(c, v, lanes[..n + 1])) <= v.prf.free && lanes[..n + 1] == lanes[..n] + [lanes[n]]
    requires Inv(c, Landed(c, v, lanes[..n + 1], Promises(c, v, lanes)))
    requires lanes[n].Take? ==> Spot(c, v, lanes[..n], lanes[n]) !in Rows(c, v, lanes[..n], Promises(c, v, lanes))
                                && lanes[n].row < c.rows(OpAfter(c, v, lanes[..n]).station)
    ensures Tagging.Open(c, Landed(c, v, lanes[..n + 1], Promises(c, v, lanes))) == Sofar(c, v, lanes[..n + 1])
  {
    hide Wrap, Upto, PopCount, Takes, Asks, Branches, Promises, Inv, Bookings, Landed, DoDispatch, Config.OpOk, CanDispatch, RecordAt, Writes,
         K.OpenTags, T.LastTag, K.BookRun, Sized, Rows, PcAfter, Tagging.Open, Sofar, Tagging.Tidy, T.BookAll;
    AtInv(c, v, lanes, n);
    var promised := Promises(c, v, lanes);
    var u, t := Landed(c, v, lanes[..n], promised), Landed(c, v, lanes[..n + 1], promised);
    E.Counted(c, u);
    E.Counted(c, t);
    if lanes[n].Take? {
      TakeStep(c, v, lanes, n);
      Tagging.OpenGrows(c, u, lanes[n].row);
      LandedFields(c, v, lanes[..n], promised);
      SofarTake(c, v, lanes[..n], lanes[n]);
    } else {
      IdleOpen(c, v, lanes, n);
    }
  }

  lemma LandedFields(c: Config, v: Core, past: seq<Bus>, promised: seq<nat>)
    requires Sized(c, v) && PopCount(Asks(c, v, past)) <= v.prf.free
    ensures var u := Landed(c, v, past, promised);
            c.isa.prog(u.fetchPc) == OpAfter(c, v, past) && u.tags == TagsAfter(c, v, past)
  {
    hide Wrap, PopCount, Asks, Bookings, Rows, RobLanes, MapPorts, Insts, Links, TagsAfter, Sized;
  }

  lemma SofarTake(c: Config, v: Core, past: seq<Bus>, lane: Bus)
    requires Sized(c, v) && lane.Take? && PopCount(Asks(c, v, past + [lane])) <= v.prf.free && PopCount(Asks(c, v, past)) <= v.prf.free
    ensures Sofar(c, v, past + [lane])
         == if OpAfter(c, v, past).isBranch then Sofar(c, v, past) + TagFor(c, v, past, true) else Sofar(c, v, past)
  {
    hide Wrap, PopCount, Config.OpOk, Takes, Asks, Branches, Promises, TagsAfter, Bookings, Insts, Links, Rows,
         OpAfter, PcAfter, MapPorts, RobLanes, Promise, TagFor, K.Book, K.OpenTags, N.Overlay, P.Rename, B.Push, T.LastTag, Writes, RecordAt;
    UnfoldAll(c, v, past, lane);
  }

  lemma IdleOpen(c: Config, v: Core, lanes: seq<Bus>, n: nat)
    requires At(c, v, lanes, n) && n < |lanes| && lanes[n].Idle? && Sized(c, v)
    requires PopCount(Asks(c, v, lanes[..n + 1])) <= v.prf.free && lanes[..n + 1] == lanes[..n] + [lanes[n]]
    requires Sized(c, Landed(c, v, lanes[..n + 1], Promises(c, v, lanes)))
    ensures Tagging.Open(c, Landed(c, v, lanes[..n + 1], Promises(c, v, lanes))) == Sofar(c, v, lanes[..n + 1])
  {
    hide Wrap, Upto, PopCount, Takes, Asks, Branches, Promises, Inv, Bookings, Landed, Config.OpOk, K.OpenTags, T.LastTag, K.BookRun,
         Sized, Sofar, Rows;
    NextFits(c, v, lanes, n);
    IdleStep(c, v, lanes[..n], Promises(c, v, lanes));
  }

  // --- the bundle ------------------------------------------------------------------------------------

  function LaneEvents(lanes: seq<Bus>): (events: seq<Event>)
    ensures |events| == |lanes|
  {
    seq(|lanes|, i requires 0 <= i < |lanes| => EventOf(lanes[i]))
  }

  lemma NothingLanded(c: Config, v: Core, promised: seq<nat>)
    requires Sized(c, v)
    ensures PopCount(Asks(c, v, [])) <= v.prf.free && Landed(c, v, [], promised) == v
    ensures Tagging.Open(c, v) == Sofar(c, v, [])
  {
    hide Wrap, PopCount, Config.OpOk;
    PopCountEmpty(Asks(c, v, []));
    PopCountEmpty(Branches(c, v, []));
  }

  lemma {:induction false} BundleIsEvents(c: Config, s: Core, v: Core, used: nat, live: Live, lanes: seq<Bus>, n: nat, events: seq<Event>)
    requires Inv(c, v) && Room(c, v, used, live, lanes) && v.rob.used <= used && n <= |lanes|
    requires forall p | p in v.live && p.Row? :: p in live
    requires E.Run(c, s, v, events)
    ensures At(c, v, lanes, n)
    ensures E.Run(c, s, Landed(c, v, lanes[..n], Promises(c, v, lanes)), events + LaneEvents(lanes[..n]))
    decreases n
  {
    hide Wrap, Upto, PopCount, Takes, Asks, Branches, Promises, Inv, Landed, DoDispatch, CanDispatch, Sized, Sofar, Tagging.Open,
         E.Run, Spot, Rows, Config.Valid;
    E.Counted(c, v);
    PhyPositive(c, v);
    var promised := Promises(c, v, lanes);
    if n == 0 {
      assert lanes[..0] == [];
      NothingLanded(c, v, promised);
      assert events + LaneEvents(lanes[..0]) == events;
    } else {
      BundleIsEvents(c, s, v, used, live, lanes, n - 1, events);
      NextFits(c, v, lanes, n - 1);
      AtInv(c, v, lanes, n - 1);
      var u, lane := Landed(c, v, lanes[..n - 1], promised), lanes[n - 1];
      E.Counted(c, u);
      LaneStep(c, v, used, live, lanes, n - 1);
      StepKeeps(c, u, EventOf(lane));
      OpenStep(c, v, lanes, n - 1);
      E.RunMore(c, s, u, events + LaneEvents(lanes[..n - 1]), EventOf(lane));
      assert events + LaneEvents(lanes[..n - 1]) + [EventOf(lane)] == events + LaneEvents(lanes[..n]);
    }
  }

  lemma PhyPositive(c: Config, v: Core)
    requires Sized(c, v)
    ensures c.phy > 0
  {
  }

  /** One lane's event leads from one prefix to the next. */
  lemma LaneStep(c: Config, v: Core, used: nat, live: Live, lanes: seq<Bus>, n: nat)
    requires At(c, v, lanes, n) && Room(c, v, used, live, lanes) && n < |lanes| && Sized(c, v)
    requires forall p | p in v.live && p.Row? :: p in live
    requires PopCount(Asks(c, v, lanes[..n + 1])) <= v.prf.free
    ensures var u := Landed(c, v, lanes[..n], Promises(c, v, lanes));
            && Sized(c, u) && Enabled(c, u, EventOf(lanes[n]))
            && Next(c, u, EventOf(lanes[n])) == Landed(c, v, lanes[..n + 1], Promises(c, v, lanes))
    ensures lanes[n].Take? ==> Spot(c, v, lanes[..n], lanes[n]) !in Rows(c, v, lanes[..n], Promises(c, v, lanes))
  {
    hide Wrap, Upto, PopCount, Takes, Asks, Branches, Promises, Inv, Landed, DoDispatch, CanDispatch, Sized, Sofar, Tagging.Open,
         Rows, OpAfter, Config.Valid;
    AtInv(c, v, lanes, n);
    var promised := Promises(c, v, lanes);
    E.Counted(c, Landed(c, v, lanes[..n], promised));
    NextFits(c, v, lanes, n);
    if lanes[n].Take? {
      SpotFree(c, v, lanes, promised, n, Spot(c, v, lanes[..n], lanes[n]));
      TakeStep(c, v, lanes, n);
    } else {
      IdleStep(c, v, lanes[..n], promised);
    }
  }
}

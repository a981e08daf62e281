/** Lane by lane, what the bundle reads through the views of its cycle is what the dispatch
    events read one after another. */
module CycleLanes {
  import opened Rings
  import opened Program
  import opened Records
  import opened Engine
  import opened Invariant
  import opened Theorems
  import opened CycleDispatch
  import B = Reorder
  import D = KeepDispatch
  import E = CycleEvents
  import K = KillMask
  import N = Rename
  import P = Physical
  import T = Tags
  import Tagging

  // --- prefixes of the bundle -----------------------------------------------------------------

  lemma {:induction false} Prefixes(c: Config, v: Core, lanes: seq<Bus>, n: nat)
    requires n <= |lanes|
    ensures Takes(lanes)[..n] == Takes(lanes[..n])
    ensures Asks(c, v, lanes)[..n] == Asks(c, v, lanes[..n])
    ensures Branches(c, v, lanes)[..n] == Branches(c, v, lanes[..n])
    decreases |lanes|
  {
    if n < |lanes| {
      var past := lanes[..|lanes| - 1];
      Prefixes(c, v, past, n);
      assert past[..n] == lanes[..n];
    } else {
      assert lanes[..n] == lanes;
    }
  }

  /** What a prefix books is no more than what the bundle books. */
  lemma PrefixBooksLess(c: Config, v: Core, lanes: seq<Bus>, n: nat)
    requires n <= |lanes|
    ensures PopCount(Takes(lanes[..n])) <= PopCount(Takes(lanes))
    ensures PopCount(Asks(c, v, lanes[..n])) <= PopCount(Asks(c, v, lanes))
    ensures PopCount(Branches(c, v, lanes[..n])) <= PopCount(Branches(c, v, lanes))
  {
    hide PopCount, Takes, Asks, Branches;
    Prefixes(c, v, lanes, n);
    PopCountPrefix(Takes(lanes), n);
    PopCountPrefix(Asks(c, v, lanes), n);
    PopCountPrefix(Branches(c, v, lanes), n);
  }

  lemma {:induction false} AsksAreTakes(c: Config, v: Core, lanes: seq<Bus>)
    ensures PopCount(Asks(c, v, lanes)) <= PopCount(Takes(lanes))
    decreases |lanes|
  {
    hide PopCount, OpAfter;
    if lanes == [] {
      PopCountEmpty(Asks(c, v, lanes));
    } else {
      var past := lanes[..|lanes| - 1];
      AsksAreTakes(c, v, past);
      CountOne(Asks(c, v, past), Asks(c, v, lanes)[|past|]);
      CountOne(Takes(past), Takes(lanes)[|past|]);
    }
  }

  lemma CountOne(bits: seq<bool>, b: bool)
    ensures PopCount(bits + [b]) == PopCount(bits) + (if b then 1 else 0)
  {
    assert (bits + [b])[..|bits|] == bits;
  }

  lemma {:induction false} PromisesAt(c: Config, v: Core, lanes: seq<Bus>, j: nat)
    requires c.phy > 0 && j < |lanes|
    ensures Promises(c, v, lanes)[j] == Promise(c, v, lanes[..j])
    decreases |lanes|
  {
    hide Promise;
    var past := lanes[..|lanes| - 1];
    if j < |past| {
      PromisesAt(c, v, past, j);
      assert past[..j] == lanes[..j];
    }
  }

  // --- one more lane on every port ----------------------------------------------------------------

  lemma OneMoreBus(c: Config, v: Core, past: seq<Bus>, lane: Bus, promised: seq<nat>)
    requires Sized(c, v)
    ensures var all, op, pc := past + [lane], OpAfter(c, v, past), PcAfter(c, v.fetchPc, past);
            var books := lane.Take? && op.isBranch;
            && op.ar < |c.boot.regs|
            && Takes(all) == Takes(past) + [lane.Take?]
            && Asks(c, v, all) == Asks(c, v, past) + [lane.Take? && op.active]
            && Branches(c, v, all) == Branches(c, v, past) + [lane.Take? && op.isBranch]
            && PcAfter(c, v.fetchPc, all) == pc + (if lane.Take? then c.ilen else 0)
            && RobLanes(c, v, all) == RobLanes(c, v, past)
               + [B.RobLane(lane.Take?, B.RobRow(op.isBranch, op.isStore, op.active, op.required, op.ar, Promise(c, v, past), pc, false))]
            && MapPorts(c, v, all) == MapPorts(c, v, past)
               + [N.RenamePort(lane.Take? && Writes(c, op, op.ar), op.ar, Promise(c, v, past), books, TagFor(c, v, past, books))]
            && Bookings(c, v, all) == Bookings(c, v, past) + [K.Booking(books, TagFor(c, v, past, books))]
            && Promises(c, v, all) == Promises(c, v, past) + [Promise(c, v, past)]
            && Insts(c, v, all) == Insts(c, v, past) + (if lane.Take? then [Inst(op, pc)] else [])
            && Links(c, v, all) == Links(c, v, past) + (if lane.Take? then [pc + c.ilen] else [])
            && Rows(c, v, all, promised)
               == if lane.Take? then Rows(c, v, past, promised)[Spot(c, v, past, lane) := RecordAt(c, v, past, promised)]
                  else Rows(c, v, past, promised)
  {
    hide Promise, TagFor, RecordAt, Writes, Wrap;
    var all := past + [lane];
    assert all[..|all| - 1] == past;
    assert c.OpOk(OpAfter(c, v, past));
  }

  /** The reorder-buffer lanes are valid where the bus is. */
  lemma {:induction false} ValidLanes(c: Config, v: Core, lanes: seq<Bus>)
    requires c.phy > 0
    ensures B.Valids(RobLanes(c, v, lanes)) == Takes(lanes)
    decreases |lanes|
  {
    hide Promise;
    if lanes != [] { ValidLanes(c, v, lanes[..|lanes| - 1]); }
  }

  lemma RobAfter(c: Config, v: Core, lanes: seq<Bus>)
    requires Sized(c, v)
    ensures var r := B.PushAll(v.rob, c.depth, RobLanes(c, v, lanes));
            r.alloc == Wrap(v.rob.alloc + PopCount(Takes(lanes)), c.depth) && r.used == v.rob.used + PopCount(Takes(lanes))
  {
    hide Wrap, PopCount, Takes, RobLanes, B.PushAll, Config.OpOk;
    ValidLanes(c, v, lanes);
    B.PushAllPointer(v.rob, c.depth, RobLanes(c, v, lanes));
  }

  /** The physical file after a prefix: the pointer stepped past its asks, the promised
      entries not written, and no data touched. */
  lemma {:induction false} PrfAfter(c: Config, v: Core, past: seq<Bus>)
    requires Sized(c, v) && PopCount(Asks(c, v, past)) <= v.prf.free
    ensures var r := P.RenameAll(v.prf, c.phy, Asks(c, v, past));
            && r.next == Promise(c, v, past) && r.data == v.prf.data && |r.fin| == c.phy
            && forall p | 0 <= p < c.phy :: r.fin[p] == (v.prf.fin[p] && p !in Promises(c, v, past))
    decreases |past|
  {
    hide Wrap, PopCount, Config.OpOk, OpAfter;
    if past == [] {
      PopCountEmpty(Asks(c, v, past));
      assert Wrap(v.prf.next, c.phy) == v.prf.next by { WrapSmall(v.prf.next, c.phy); }
    } else {
      var before, ask := past[..|past| - 1], Asks(c, v, past)[|past| - 1];
      assert Asks(c, v, past) == Asks(c, v, before) + [ask];
      CountOne(Asks(c, v, before), ask);
      PrfAfter(c, v, before);
      assert Asks(c, v, past)[..|before|] == Asks(c, v, before);
      WrapAdd(v.prf.next + PopCount(Asks(c, v, before)), 1, c.phy);
    }
  }

  lemma WrapSmall(k: nat, size: nat)
    requires k < size
    ensures Wrap(k, size) == k
  {
  }

  lemma TagsStep(c: Config, v: Core, past: seq<Bus>, lane: Bus)
    requires Sized(c, v) && PopCount(Branches(c, v, past + [lane])) <= v.tags.free
    ensures var books := lane.Take? && OpAfter(c, v, past).isBranch;
            && (books ==> TagsAfter(c, v, past).free > 0)
            && TagsAfter(c, v, past + [lane]) == T.Book(TagsAfter(c, v, past), c.tags, books)
  {
    hide Wrap, PopCount, Config.OpOk, RobLanes, MapPorts, Bookings, Rows, Promise, Promises, TagFor, OpAfter, T.Book;
    OneMoreBus(c, v, past, lane, []);
    var bits := Branches(c, v, past);
    CountOne(bits, lane.Take? && OpAfter(c, v, past).isBranch);
    assert Branches(c, v, past + [lane])[..|bits|] == bits;
  }

  // --- reading ------------------------------------------------------------------------------------

  /** The prefix before a lane has landed, one event a lane. */
  ghost predicate Midway(c: Config, v: Core, u: Core, past: seq<Bus>, lanes: seq<Bus>)
  {
    && Inv(c, v) && Inv(c, u) && c.phy > 0 && |past| <= |lanes| && past == lanes[..|past|]
    && v.rob.used + PopCount(Takes(lanes)) <= c.depth
    && PopCount(Asks(c, v, past)) <= v.prf.free
    && v.prf.Sized(c.phy) && u.prf == P.RenameAll(v.prf, c.phy, Asks(c, v, past))
    && u.ret == v.ret && u.arf == v.arf && u.path == v.path + Insts(c, v, past)
  }

  /** Allocation counts along the way. */
  lemma ActsMidway(c: Config, v: Core, u: Core, past: seq<Bus>, lanes: seq<Bus>)
    requires Midway(c, v, u, past, lanes)
    ensures PathOk(c, v.path) && PathOk(c, u.path) && v.ret <= |v.path| <= |u.path|
    ensures Upto(c, u.path, v.ret).acts == Upto(c, v.path, v.ret).acts
    ensures Upto(c, u.path, |u.path|).acts == Upto(c, v.path, |v.path|).acts + PopCount(Asks(c, v, past))
    ensures v.prf.next == Wrap(Upto(c, v.path, |v.path|).acts, c.phy)
    ensures Upto(c, v.path, |v.path|).acts - Upto(c, v.path, v.ret).acts <= v.rob.used && c.depth < c.phy
  {
    hide Wrap, Upto, PopCount, Config.OpOk, TagsOk, PrfValues, RtOk, ArfOk, RecordsOk, OnceOk, OrderOk, LinkOk, BufferOk, MemoryOk,
         AccessOk, ResolvedOk, Asks, Takes, Insts, P.RenameAll;
    assert u.path[..v.ret] == v.path[..v.ret];
    UptoPrefix(c, u.path, v.path, v.ret);
    CountsRise(c, v.path, v.ret, |v.path|);
  }

  /** A later lane's promise is not a register this lane's map names. */
  lemma LaterPromise(c: Config, v: Core, u: Core, past: seq<Bus>, lanes: seq<Bus>, w: nat, j: nat)
    requires Midway(c, v, u, past, lanes) && |past| <= j < |lanes|
    requires PathOk(c, u.path) && u.ret <= w < |u.path| && u.path[w].op.active
    ensures Promise(c, v, lanes[..j]) != Wrap(Upto(c, u.path, w).acts, c.phy)
  {
    hide Wrap, Upto, PopCount, Config.OpOk, Asks, Takes, Inv, P.RenameAll, Insts;
    ActsMidway(c, v, u, past, lanes);
    var lo, a, m := Upto(c, u.path, w).acts, Upto(c, v.path, |v.path|).acts, PopCount(Asks(c, v, lanes[..j]));
    CountsRise(c, u.path, u.ret, w);
    CountsSplit(c, u.path, w, |u.path|);
    assert lanes[..j][..|past|] == past;
    PrefixBooksLess(c, v, lanes[..j], |past|);
    AsksAreTakes(c, v, lanes[..j]);
    PrefixBooksLess(c, v, lanes, j);
    WrapAdd(a, m, c.phy);
    if Wrap(a + m, c.phy) == Wrap(lo, c.phy) { Apart(a + m, lo, c.phy); }
  }

  /** The register the map names reads alike in the cycle's view and after the events. */
  lemma SeenAlike(c: Config, v: Core, u: Core, past: seq<Bus>, lanes: seq<Bus>, ar: nat)
    requires Midway(c, v, u, past, lanes) && ar < |u.rt.master| == |c.boot.regs| && u.rt.master[ar].renamed
    ensures var p := u.rt.master[ar].prf;
            && p < c.phy
            && u.prf.fin[p] == (v.prf.fin[p] && p !in Promises(c, v, lanes))
            && u.prf.data[p] == v.prf.data[p]
  {
    hide Wrap, Upto, PopCount, Config.OpOk, Asks, Takes, P.RenameAll, Insts, Promises, TagsOk, PrfValues, PrfCounts, ArfOk, RecordsOk,
         OnceOk, OrderOk, LinkOk, BufferOk, MemoryOk, AccessOk, ResolvedOk, RobOk, Promise;
    var p := u.rt.master[ar].prf;
    PrfAfter(c, v, past);
    var w := Upto(c, u.path, |u.path|).writer[ar];
    assert w >= u.ret && p == Wrap(Upto(c, u.path, w).acts, c.phy);
    WriterHolds(c, u.path, |u.path|, ar);
    Decoded(c, u.path, w);
    forall q | q in Promises(c, v, past) ensures q in Promises(c, v, lanes) {
      var j :| 0 <= j < |past| && Promises(c, v, past)[j] == q;
      PromisesAt(c, v, past, j);
      PromisesAt(c, v, lanes, j);
      assert past[..j] == lanes[..j];
    }
    if p in Promises(c, v, lanes) && p !in Promises(c, v, past) {
      var j :| 0 <= j < |lanes| && Promises(c, v, lanes)[j] == p;
      PromisesAt(c, v, lanes, j);
      if j < |past| {
        assert past[..j] == lanes[..j];
        PromisesAt(c, v, past, j);
      } else {
        LaterPromise(c, v, u, past, lanes, w, j);
      }
    }
  }

  lemma SourceAlike(c: Config, v: Core, u: Core, past: seq<Bus>, lanes: seq<Bus>, src: Src)
    requires Midway(c, v, u, past, lanes) && Sized(c, v) && Sized(c, u) && (src.Reg? ==> src.ar < |c.boot.regs|)
    ensures ReadSource(c, u, src) == ReadAt(c, v, u.rt.master, Promises(c, v, lanes), src)
  {
    hide Wrap, Upto, PopCount, Config.OpOk, Asks, Takes, P.RenameAll, Insts, Promises, Inv, Promise;
    if src.Reg? && u.rt.master[src.ar].renamed { SeenAlike(c, v, u, past, lanes, src.ar); }
  }
}

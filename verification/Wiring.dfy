/**
 The wires of one clock cycle: what goes onto every block's ports, worked out from the
 blocks by the blocks' own answers.

 Each method only reads. Its contract says that what it reads off the blocks is what the
 cycle's definition puts on those ports.
 */
module Wiring {
  import opened Rings
  import opened Program
  import opened Records
  import opened Engine
  import opened Invariant
  import opened Cycle
  import opened CycleDispatch
  import opened Clock
  import opened CorePorts
  import A = Architectural
  import B = Reorder
  import E = CycleEvents
  import G = CycleBundle
  import K = KillMask
  import L = CycleLanes
  import M = CycleMoves
  import N = Rename
  import O = Occupancy
  import P = Physical
  import S = Stores
  import T = Tags

  // --- retirement --------------------------------------------------------------------------

  /** The head group retires as far as it may. A retiring write goes to the committed file and
      drops its mapping, an allocated register returns, and a store is marked. */
  method RetireGroup(c: Config, ghost s: Core, rob: B.Rob, prf: P.Prf)
    returns (commits: nat, arfPorts: seq<A.ArfPort>, rtPorts: seq<N.CommitPort>, frees: seq<bool>, storeCommit: bool)
    requires Sized(c, s) && rob.Valid() && rob.depth == c.depth && rob.commit_lanes == c.commitLanes && rob.View() == s.rob
    requires prf.Valid() && prf.View() == s.prf
    ensures commits <= c.commitLanes && MayRetire(c, s, commits)
    ensures commits < c.commitLanes ==> !B.Retires(s.rob, c.depth, commits)
    ensures arfPorts == ArfPorts(c, s, commits) && rtPorts == RtPorts(c, s, commits)
    ensures frees == Frees(c, s, commits) && storeCommit == RetiresStore(c, s, commits)
  {
    hide Wrap;
    var commit_ok, rows := rob.CommitLanes();
    commits, arfPorts, rtPorts, frees, storeCommit := 0, [], [], [], false;
    for lane := 0 to |commit_ok|
      invariant commits <= lane && MayRetire(c, s, commits)
      invariant commits < lane ==> !B.Retires(s.rob, c.depth, commits)
      invariant arfPorts == ArfPorts(c, s, commits) && rtPorts == RtPorts(c, s, commits)
      invariant frees == Frees(c, s, commits) && storeCommit == RetiresStore(c, s, commits)
    {
      if commit_ok[lane] {
        if commits < lane { B.LeadingRun(s.rob, c.depth, commits, lane); }
        var row := rows[lane];
        if row.active && row.required {
          arfPorts, rtPorts := arfPorts + [A.ArfPort(row.ar, prf.data[row.pr])], rtPorts + [N.CommitPort(row.ar, row.pr)];
        }
        frees, storeCommit := frees + [row.active], storeCommit || row.isStore;
        commits := commits + 1;
      }
    }
  }

  /** The head store goes to memory once it is retired and memory takes it. */
  method HeadMay(sb: S.StoreBuf, mem_ready: bool) returns (drain: bool)
    requires sb.Valid()
    ensures drain <==> mem_ready && S.CanDrain(sb.View(), sb.depth)
  {
    var head := sb.table[sb.ret_ptr];
    drain := mem_ready && head.busy && head.complete;
  }

  // --- the units and stations -----------------------------------------------------------------

  /** A load's word: the newest buffered store the comparison tree finds, else memory. */
  method Search(c: Config, ghost s: Core, sb: S.StoreBuf, memory: array<Word>, addr: nat) returns (word: Word)
    requires Inv(c, s) && sb.Valid() && sb.depth == c.sbDepth && sb.View() == s.sb && memory[..] == s.mem && addr < memory.Length
    ensures s.sb.Sized(c.sbDepth) && word == Loaded(c, s, addr)
  {
    hide Wrap, Inv, S.SearchNewest, S.Newest;
    O.SearchHere(c, s, addr);
    match S.SearchNewest(sb.View(), sb.depth, addr)
    case Hit(data) => word := data;
    case Miss => word := memory[addr];
  }

  /** What the units put out: the entries that finish, the writebacks, the tag that resolves,
      the store that is pushed. */
  method UnitPorts(c: Config, ghost s: Core, live: Live, sb: S.StoreBuf, memory: array<Word>, acts: seq<Act>)
    returns (finished: seq<nat>, wbs: seq<P.WbPort>, sucTag: Mask, push: S.PushPort)
    requires Inv(c, s) && sb.Valid() && sb.depth == c.sbDepth && sb.View() == s.sb && memory[..] == s.mem
    requires live == s.live && Sources(s, acts)
    ensures Sized(c, s)
    ensures finished == Reported(s, acts) && wbs == Written(c, s, acts) && sucTag == Resolved(s, acts) && push == Pushed(c, s, acts)
  {
    hide Wrap, Inv, Sized, Loaded, Value, Reported, Written, Resolved, Pushed;
    Widths(c, s);
    NoMoves(c, s, acts[..0]);
    finished, wbs, sucTag, push := [], [], {}, S.NoPush;
    for i := 0 to |acts|
      invariant finished == Reported(s, acts[..i]) && wbs == Written(c, s, acts[..i])
      invariant sucTag == Resolved(s, acts[..i]) && push == Pushed(c, s, acts[..i])
    {
      assert acts[..i + 1] == acts[..i] + [acts[i]];
      M.OneMore(c, s, acts[..i], acts[i]);
      var r := live[acts[i].p];
      if acts[i].Done? {
        finished := finished + [r.rob];
        if r.op.required { wbs := wbs + [P.WbPort(r.pr, Value(c, r))]; }
        if r.op.isBranch { sucTag := r.tag; }
      } else if IsAccess(c, acts[i]) && r.op.isStore {
        var operands := Values(r.slots);
        var addr := WordAddr(c, r.op, operands);
        var word := Search(c, s, sb, memory, addr);
        push := S.PushOne(r.isSpec, r.tag, addr, c.isa.merge(r.op, operands, word));
      }
    }
    assert acts[..|acts|] == acts;
  }

  lemma Widths(c: Config, s: Core)
    requires Inv(c, s)
    ensures Sized(c, s) && c.Valid() && |s.mem| == |c.boot.mem| > 0
  {
    hide Config.OpOk;
  }

  lemma NoMoves(c: Config, s: Core, acts: seq<Act>)
    requires Sized(c, s) && acts == []
    ensures Reported(s, acts) == [] && Written(c, s, acts) == [] && Resolved(s, acts) == {} && Pushed(c, s, acts) == S.NoPush
  {
  }

  /** A place whose record stays: a station row hears the broadcasts. */
  function Staying(r: Rec, p: Place, wbs: seq<P.WbPort>, sucTag: Mask): Rec
  {
    Unmasked(if p.Row? then r.(slots := Woken(r.slots, wbs)) else r, sucTag)
  }

  /** What every place holds after the moves. */
  method NextPlaces(c: Config, ghost s: Core, live: Live, sb: S.StoreBuf, memory: array<Word>, acts: seq<Act>,
                    wbs: seq<P.WbPort>, sucTag: Mask) returns (places: Live)
    requires Inv(c, s) && sb.Valid() && sb.depth == c.sbDepth && sb.View() == s.sb && memory[..] == s.mem
    requires live == s.live && Sources(s, acts) && Sized(c, s) && wbs == Written(c, s, acts) && sucTag == Resolved(s, acts)
    ensures places == LiveAfter(c, s, acts)
  {
    hide Wrap, Inv, Sized, Loaded, Written, Resolved, Unmasked, Woken;
    Widths(c, s);
    places := map p | p in live && !Leaves(acts, p) :: Staying(live[p], p, wbs, sucTag);
    for i := 0 to |acts|
      invariant forall p :: p in places <==> p in Targets(acts[..i]) || (p in live && !Leaves(acts, p))
      invariant forall p | p in places ::
                  places[p] == if p in Targets(acts[..i]) then Unmasked(Carried(c, s, Into(acts[..i], p)), sucTag)
                               else Staying(live[p], p, wbs, sucTag)
    {
      Entering(acts, i);
      if acts[i].Go? {
        var r := live[acts[i].p];
        if IsAccess(c, acts[i]) {
          var word := Search(c, s, sb, memory, WordAddr(c, r.op, Values(r.slots)));
          r := r.(word := word);
        }
        places := places[acts[i].q := Unmasked(r, sucTag)];
      }
    }
    assert acts[..|acts|] == acts;
  }

  /** One more move enters one more place. */
  lemma Entering(acts: seq<Act>, i: nat)
    requires i < |acts|
    ensures Targets(acts[..i + 1]) == Targets(acts[..i]) + (if acts[i].Go? then {acts[i].q} else {})
    ensures forall p | p in Targets(acts[..i + 1]) ::
              Into(acts[..i + 1], p) == if acts[i].Go? && acts[i].q == p then acts[i] else Into(acts[..i], p)
  {
    assert acts[..i + 1] == acts[..i] + [acts[i]];
    M.OneMorePlace(acts[..i], acts[i]);
    assert acts[..i + 1][..i] == acts[..i];
  }

  // --- the dispatch bundle -----------------------------------------------------------------------

  /** What the lanes of one bundle book. `specs` says which dispatch under an open tag. */
  datatype Bundle = Bundle(
    insts: seq<Inst>, takes: seq<bool>, asks: seq<bool>, branches: seq<bool>, promised: seq<nat>, specs: seq<bool>,
    robLanes: seq<B.RobLane>, mapPorts: seq<N.RenamePort>, bookings: seq<K.Booking>, nextPc: int)

  /** The tags are answered only as far as the pool goes; past it the bundle stalls. */
  ghost predicate Books(c: Config, v: Core, lanes: seq<Bus>, b: Bundle)
    requires Sized(c, v)
  {
    && b.takes == Takes(lanes) && b.asks == Asks(c, v, lanes) && b.branches == Branches(c, v, lanes)
    && b.promised == Promises(c, v, lanes) && b.robLanes == RobLanes(c, v, lanes) && b.nextPc == PcAfter(c, v.fetchPc, lanes)
    && |b.insts| == |lanes| && (forall k | 0 <= k < |lanes| :: b.insts[k] == InstAt(c, v, lanes[..k]))
    && (PopCount(b.branches) <= v.tags.free ==> Tagged(c, v, lanes, b))
  }

  ghost predicate Tagged(c: Config, v: Core, lanes: seq<Bus>, b: Bundle)
    requires Sized(c, v)
  {
    && b.mapPorts == MapPorts(c, v, lanes) && b.bookings == Bookings(c, v, lanes)
    && |b.specs| == |lanes| && forall k | 0 <= k < |lanes| :: b.specs[k] == T.Outstanding(TagsAfter(c, v, lanes[..k]), c.tags)
  }

  function InstAt(c: Config, v: Core, past: seq<Bus>): Inst
  {
    Inst(OpAfter(c, v, past), PcAfter(c, v.fetchPc, past))
  }

  /** Every lane asks the allocators what it is promised. */
  method BookBundle(c: Config, ghost v: Core, prf: P.Prf, tag_gen: T.TagGen, pc: int, lanes: seq<Bus>) returns (b: Bundle)
    requires Sized(c, v) && prf.Valid() && prf.size == c.phy && prf.next_index == v.prf.next
    requires tag_gen.Valid() && tag_gen.width == c.tags && tag_gen.View() == v.tags && pc == v.fetchPc
    ensures Books(c, v, lanes, b)
  {
    hide Books, Sized;
    b := Bundle([], [], [], [], [], [], [], [], [], pc);
    NoLanes(c, v, lanes[..0], b);
    for k := 0 to |lanes|
      invariant Books(c, v, lanes[..k], b)
    {
      assert lanes[..k + 1] == lanes[..k] + [lanes[k]];
      b := BookLane(c, v, lanes[..k], b, prf, tag_gen, lanes[k]);
    }
    assert lanes[..|lanes|] == lanes;
  }

  method BookLane(c: Config, ghost v: Core, ghost past: seq<Bus>, was: Bundle, prf: P.Prf, tag_gen: T.TagGen, lane: Bus)
    returns (b: Bundle)
    requires Sized(c, v) && prf.Valid() && prf.size == c.phy && prf.next_index == v.prf.next
    requires tag_gen.Valid() && tag_gen.width == c.tags && tag_gen.View() == v.tags && Books(c, v, past, was)
    ensures Books(c, v, past + [lane], b)
  {
    hide Wrap, PopCount, Sized, Takes, Asks, Branches, Promises, RobLanes, MapPorts, Bookings, PcAfter, TagsAfter, TagFor, OpAfter,
         Promise, Writes, P.RenameAll, T.BookAll, T.Outstanding, T.InForce, P.Prf.Valid, T.TagGen.Valid, Tagged, Books;
    var op, takes := c.isa.prog(was.nextPc), lane.Take?;
    var books := takes && op.isBranch;
    var asks, branches := was.asks + [takes && op.active], was.branches + [books];
    BundleWidths(c, v, past, was);
    var pr := prf.BookRename(asks, |was.asks|);
    var isSpec, tag := tag_gen.BookRename(branches, |was.branches|);
    b := Bundle(was.insts + [Inst(op, was.nextPc)], was.takes + [takes], asks, branches, was.promised + [pr], was.specs + [isSpec],
                was.robLanes + [B.RobLane(takes, B.RobRow(op.isBranch, op.isStore, op.active, op.required, op.ar, pr, was.nextPc, false))],
                was.mapPorts + [N.RenamePort(takes && Writes(c, op, op.ar), op.ar, pr, books, tag)],
                was.bookings + [K.Booking(books, tag)],
                if takes then was.nextPc + c.ilen else was.nextPc);
    assert asks[..|was.asks|] == was.asks && branches[..|was.branches|] == was.branches;
    LaneBooked(c, v, past, lane, was, b, isSpec, tag);
  }

  lemma BundleWidths(c: Config, v: Core, past: seq<Bus>, b: Bundle)
    requires Sized(c, v) && Books(c, v, past, b)
    ensures |b.takes| == |b.asks| == |b.branches| == |past| && b.branches == Branches(c, v, past)
    ensures b.takes == Takes(past)
    ensures c.tags > 0 && c.phy > 0
  {
    hide PopCount, Config.OpOk, Tagged;
  }

  /** One more lane, booked past the lanes before it. */
  lemma LaneBooked(c: Config, v: Core, past: seq<Bus>, lane: Bus, was: Bundle, b: Bundle, isSpec: bool, tag: Mask)
    requires Sized(c, v) && Books(c, v, past, was) && c.phy > 0 && c.tags > 0
    requires var op, takes := c.isa.prog(was.nextPc), lane.Take?;
             var books, pr := takes && op.isBranch, Wrap(v.prf.next + PopCount(was.asks), c.phy);
             && b == Bundle(was.insts + [Inst(op, was.nextPc)], was.takes + [takes], was.asks + [takes && op.active], was.branches + [books],
                            was.promised + [pr], was.specs + [isSpec],
                            was.robLanes + [B.RobLane(takes, B.RobRow(op.isBranch, op.isStore, op.active, op.required, op.ar, pr, was.nextPc, false))],
                            was.mapPorts + [N.RenamePort(takes && Writes(c, op, op.ar), op.ar, pr, books, tag)],
                            was.bookings + [K.Booking(books, tag)], if takes then was.nextPc + c.ilen else was.nextPc)
             && (PopCount(was.branches) <= v.tags.free ==>
                   var t := T.BookAll(v.tags, c.tags, was.branches);
                   isSpec == T.Outstanding(t, c.tags) && tag == T.InForce(t, c.tags, books))
    ensures Books(c, v, past + [lane], b)
  {
    hide Wrap, PopCount, Sized, Takes, Asks, Branches, Promises, RobLanes, MapPorts, Bookings, PcAfter, TagsAfter, TagFor, OpAfter,
         Promise, Writes, T.BookAll, T.Outstanding, T.InForce, Tagged, Rows, RecordAt, Insts, Links;
    L.OneMoreBus(c, v, past, lane, []);
    Promised(c, v, past);
    Fetched(c, v, past);
    assert forall j | 0 <= j <= |past| :: (past + [lane])[..j] == past[..j];
    assert past[..|past|] == past;
    if PopCount(b.branches) <= v.tags.free {
      var books := lane.Take? && OpAfter(c, v, past).isBranch;
      L.CountOne(was.branches, books);
      TagsSeen(c, v, past);
      MoreTagged(c, v, past, lane, was, b, isSpec, tag, books);
    }
  }

  lemma NoLanes(c: Config, v: Core, lanes: seq<Bus>, b: Bundle)
    requires Sized(c, v) && lanes == [] && b == Bundle([], [], [], [], [], [], [], [], [], v.fetchPc)
    ensures Books(c, v, lanes, b)
  {
    hide PopCount, Config.OpOk;
  }

  lemma Promised(c: Config, v: Core, past: seq<Bus>)
    requires c.phy > 0
    ensures Promise(c, v, past) == Wrap(v.prf.next + PopCount(Asks(c, v, past)), c.phy)
  {
  }

  lemma Fetched(c: Config, v: Core, past: seq<Bus>)
    ensures OpAfter(c, v, past) == c.isa.prog(PcAfter(c, v.fetchPc, past))
  {
  }

  lemma TagsSeen(c: Config, v: Core, past: seq<Bus>)
    requires c.tags > 0 && PopCount(Branches(c, v, past)) <= v.tags.free
    ensures TagsAfter(c, v, past) == T.BookAll(v.tags, c.tags, Branches(c, v, past))
    ensures forall books :: TagFor(c, v, past, books) == T.InForce(TagsAfter(c, v, past), c.tags, books)
  {
    hide PopCount;
  }

  lemma MoreTagged(c: Config, v: Core, past: seq<Bus>, lane: Bus, was: Bundle, b: Bundle, isSpec: bool, tag: Mask, books: bool)
    requires Sized(c, v) && Tagged(c, v, past, was) && books == (lane.Take? && OpAfter(c, v, past).isBranch)
    requires isSpec == T.Outstanding(TagsAfter(c, v, past), c.tags) && tag == TagFor(c, v, past, books)
    requires var op := OpAfter(c, v, past);
             b.mapPorts == was.mapPorts + [N.RenamePort(lane.Take? && Writes(c, op, op.ar), op.ar, Promise(c, v, past), books, tag)]
    requires b.bookings == was.bookings + [K.Booking(books, tag)] && b.specs == was.specs + [isSpec]
    ensures Tagged(c, v, past + [lane], b)
  {
    hide Wrap, PopCount, Sized, MapPorts, Bookings, TagsAfter, TagFor, OpAfter, Promise, Writes, T.Outstanding;
    L.OneMoreBus(c, v, past, lane, []);
    forall k | 0 <= k <= |past| ensures (past + [lane])[..k] == past[..k] { }
    assert past[..|past|] == past;
  }

  // --- what the lanes read -----------------------------------------------------------------------

  /** A source through the row of its own port and the views of the cycle. */
  function SourceAt(c: Config, row: N.RtRow, seen: P.PrfState, regs: seq<Word>, src: Src): Slot
    requires src.Reg? ==> src.ar < |row| && src.ar < |regs| && row[src.ar].prf < |seen.fin| && row[src.ar].prf < |seen.data|
  {
    match src
    case Empty => Slot(false, false, 0, 0)
    case Imm(x) => Slot(true, true, 0, x)
    case Reg(ar) =>
      var e := row[ar];
      if e.renamed && !seen.fin[e.prf] then Slot(true, false, e.prf, 0)
      else Slot(true, true, 0, if e.renamed then seen.data[e.prf] else A.Read(regs, c.consts, ar))
  }

  /** The views are the ones the cycle's definition reads through. */
  ghost predicate Views(c: Config, v: Core, lanes: seq<Bus>, b: Bundle, rows: seq<N.RtRow>, seen: P.PrfState, regs: seq<Word>)
    requires Sized(c, v)
  {
    && |rows| == |lanes| && (forall k | 0 <= k < |lanes| :: rows[k] == MapAfter(c, v, lanes[..k]))
    && seen.Sized(c.phy) && seen.data == v.prf.data && regs == v.arf
    && forall p | 0 <= p < c.phy :: seen.fin[p] == (v.prf.fin[p] && p !in b.promised)
  }

  lemma SourceIs(c: Config, v: Core, row: N.RtRow, seen: P.PrfState, promised: seq<nat>, src: Src)
    requires Sized(c, v) && |row| == |c.boot.regs| && (src.Reg? ==> src.ar < |row|) && forall r | 0 <= r < |row| :: row[r].prf < c.phy
    requires seen.Sized(c.phy) && seen.data == v.prf.data && forall p | 0 <= p < c.phy :: seen.fin[p] == (v.prf.fin[p] && p !in promised)
    ensures SourceAt(c, row, seen, v.arf, src) == ReadAt(c, v, row, promised, src)
  {
    hide Wrap, Config.OpOk;
  }

  lemma {:induction false} PortAt(c: Config, v: Core, lanes: seq<Bus>, k: nat)
    requires Sized(c, v) && k < |lanes|
    ensures MapPorts(c, v, lanes)[..k] == MapPorts(c, v, lanes[..k])
    ensures lanes[k].Take? ==> MapPorts(c, v, lanes)[k].tag == TagFor(c, v, lanes[..k], OpAfter(c, v, lanes[..k]).isBranch)
    decreases |lanes|
  {
    hide Wrap, Sized, Promise, TagFor, OpAfter, Writes, Config.OpOk;
    var past := lanes[..|lanes| - 1];
    if k < |past| {
      PortAt(c, v, past, k);
      assert past[..k] == lanes[..k];
    }
  }

  /** Every lane that carries something lands in its station row. */
  method FillRows(c: Config, ghost v: Core, lanes: seq<Bus>, b: Bundle, free_idx: seq<nat>, rows: seq<N.RtRow>, seen: P.PrfState,
                  regs: seq<Word>, live: Live, number: nat) returns (places: Live)
    requires Sized(c, v) && Books(c, v, lanes, b) && Tagged(c, v, lanes, b) && Views(c, v, lanes, b, rows, seen, regs)
    requires |free_idx| == |lanes| && forall k | 0 <= k < |lanes| :: free_idx[k] == Wrap(v.rob.alloc + PopCount(b.takes[..k]), c.depth)
    requires live == v.live && number == |v.path|
    ensures places == Rows(c, v, lanes, b.promised)
  {
    hide Wrap, PopCount, Sized, Rows, RecordAt, Tagged, Books, Views, SourceAt;
    places := live;
    assert Rows(c, v, lanes[..0], b.promised) == live by { NoRows(c, v, lanes[..0], b.promised); }
    for k := 0 to |lanes|
      invariant places == Rows(c, v, lanes[..k], b.promised)
    {
      assert lanes[..k + 1] == lanes[..k] + [lanes[k]];
      RowsStep(c, v, lanes[..k], lanes[k], b.promised);
      if lanes[k].Take? {
        LaneWidths(c, v, lanes, b, rows, seen, regs, k);
        var op, pc := b.insts[k].op, b.insts[k].pc;
        var slots := seq(|op.srcs|, i requires 0 <= i < |op.srcs| => SourceAt(c, rows[k], seen, regs, op.srcs[i]));
        var r := Rec(op, pc, pc + c.ilen, free_idx[k], b.promised[k], b.specs[k], b.mapPorts[k].tag, slots, 0,
                     number + PopCount(b.takes[..k]));
        RecordIsAt(c, v, lanes, b, rows, seen, regs, k, r);
        places := places[Row(op.station, lanes[k].row) := r];
      }
    }
    assert lanes[..|lanes|] == lanes;
  }

  lemma NoRows(c: Config, v: Core, lanes: seq<Bus>, promised: seq<nat>)
    requires Sized(c, v) && lanes == []
    ensures Rows(c, v, lanes, promised) == v.live
  {
  }

  lemma RowsStep(c: Config, v: Core, past: seq<Bus>, lane: Bus, promised: seq<nat>)
    requires Sized(c, v)
    ensures Rows(c, v, past + [lane], promised)
         == if lane.Take? then Rows(c, v, past, promised)[Spot(c, v, past, lane) := RecordAt(c, v, past, promised)]
            else Rows(c, v, past, promised)
  {
    hide Wrap, Sized, RecordAt, Spot;
    assert (past + [lane])[..|past|] == past;
  }

  /** What lane k's record is made of. */
  lemma LaneWidths(c: Config, v: Core, lanes: seq<Bus>, b: Bundle, rows: seq<N.RtRow>, seen: P.PrfState, regs: seq<Word>, k: nat)
    requires Sized(c, v) && Books(c, v, lanes, b) && Tagged(c, v, lanes, b) && Views(c, v, lanes, b, rows, seen, regs) && k < |lanes|
    ensures |b.insts| == |b.promised| == |b.specs| == |b.mapPorts| == |b.takes| == |rows| == |lanes|
    ensures b.insts[k] == InstAt(c, v, lanes[..k]) && rows[k] == MapAfter(c, v, lanes[..k]) && regs == v.arf
    ensures b.promised[k] == Promise(c, v, lanes[..k]) && b.takes[..k] == Takes(lanes[..k])
    ensures b.specs[k] == T.Outstanding(TagsAfter(c, v, lanes[..k]), c.tags)
    ensures lanes[k].Take? ==> b.mapPorts[k].tag == TagFor(c, v, lanes[..k], OpAfter(c, v, lanes[..k]).isBranch)
    ensures forall i | 0 <= i < |b.insts[k].op.srcs| ::
              var src := b.insts[k].op.srcs[i];
              src.Reg? ==> src.ar < |rows[k]| && src.ar < |regs| && rows[k][src.ar].prf < |seen.fin| && rows[k][src.ar].prf < |seen.data|
  {
    hide Wrap, PopCount, Promise, TagFor, OpAfter, T.Outstanding, TagsAfter, Takes, MapAfter, Promises;
    L.Prefixes(c, v, lanes, k);
    L.PromisesAt(c, v, lanes, k);
    PortAt(c, v, lanes, k);
    Fetched(c, v, lanes[..k]);
    assert c.OpOk(b.insts[k].op);
  }

  lemma RecordIsAt(c: Config, v: Core, lanes: seq<Bus>, b: Bundle, rows: seq<N.RtRow>, seen: P.PrfState, regs: seq<Word>, k: nat, r: Rec)
    requires Sized(c, v) && Books(c, v, lanes, b) && Tagged(c, v, lanes, b) && Views(c, v, lanes, b, rows, seen, regs)
    requires k < |lanes| && lanes[k].Take? && r.op == OpAfter(c, v, lanes[..k]) && r.pc == PcAfter(c, v.fetchPc, lanes[..k])
    requires r.npc == r.pc + c.ilen && r.rob == Wrap(v.rob.alloc + PopCount(Takes(lanes[..k])), c.depth)
    requires r.pr == Promise(c, v, lanes[..k]) && r.isSpec == T.Outstanding(TagsAfter(c, v, lanes[..k]), c.tags)
    requires r.tag == TagFor(c, v, lanes[..k], r.op.isBranch) && r.word == 0 && r.n == |v.path| + PopCount(Takes(lanes[..k]))
    requires |r.slots| == |r.op.srcs| && |rows| == |lanes| && rows[k] == MapAfter(c, v, lanes[..k])
    requires forall i | 0 <= i < |r.op.srcs| ::
               var src := r.op.srcs[i];
               && (src.Reg? ==> src.ar < |rows[k]| && src.ar < |v.arf| && rows[k][src.ar].prf < |seen.fin| && rows[k][src.ar].prf < |seen.data|)
               && r.slots[i] == SourceAt(c, rows[k], seen, v.arf, src)
    ensures r == RecordAt(c, v, lanes[..k], b.promised)
  {
    hide Wrap, PopCount, Promise, TagFor, OpAfter, T.Outstanding, TagsAfter, Takes, MapAfter, Promises, SourceAt, ReadAt, Books, Tagged,
         PcAfter, Config.OpOk;
    forall i | 0 <= i < |r.op.srcs| ensures r.slots[i] == ReadAt(c, v, MapAfter(c, v, lanes[..k]), b.promised, r.op.srcs[i]) {
      SourceIs(c, v, rows[k], seen, b.promised, r.op.srcs[i]);
    }
  }

  // --- whether the bundle goes ----------------------------------------------------------------------

  function Nothing(pc: int): Bundle { Bundle([], [], [], [], [], [], [], [], [], pc) }

  /** The bundle goes when every block has room for all of it and no tag resolves beside it;
      else the lanes stall and book nothing. */
  method Grant(c: Config, ghost v: Core, rob: B.Rob, prf: P.Prf, tag_gen: T.TagGen, pc: int, lanes: seq<Bus>, frees: seq<bool>,
               resolves: bool, all_ok: bool) returns (go: bool, b: Bundle, free_idx: seq<nat>)
    requires Sized(c, v) && rob.Valid() && rob.depth == c.depth && rob.alloc_ptr == v.rob.alloc
    requires prf.Valid() && prf.size == c.phy && prf.next_index == v.prf.next && prf.free_entry + PopCount(frees) == v.prf.free
    requires tag_gen.Valid() && tag_gen.width == c.tags && (!resolves ==> tag_gen.View() == v.tags) && pc == v.fetchPc
    ensures go <==> !resolves && all_ok && rob.used_entry_cnt + PopCount(Takes(lanes)) <= c.depth
                    && PopCount(Asks(c, v, lanes)) <= v.prf.free && PopCount(Branches(c, v, lanes)) <= v.tags.free
    ensures if go then Books(c, v, lanes, b) && Tagged(c, v, lanes, b) else b == Nothing(pc)
    ensures go ==> |free_idx| == |lanes|
                   && forall k | 0 <= k < |lanes| :: free_idx[k] == Wrap(v.rob.alloc + PopCount(b.takes[..k]), c.depth)
  {
    hide Wrap, PopCount, Sized, Takes, Asks, Branches, Tagged, Config.OpOk;
    go, b, free_idx := false, Nothing(pc), [];
    if !resolves {
      var bundle := BookBundle(c, v, prf, tag_gen, pc, lanes);
      BundleWidths(c, v, lanes, bundle);
      var fits, idx := rob.FreeSlots(bundle.takes);
      var prf_over := prf.OverUse(bundle.asks, frees);
      var tags_over := tag_gen.OverUse(bundle.branches, false);
      if fits && !prf_over && !tags_over && all_ok {
        go, b, free_idx := true, bundle, idx;
      }
    }
  }

  /** What the granted lanes read: each through its own port's row, the physical file with the
      cycle's writebacks in and its promises out, the committed file with its commits in. */
  method ReadBundle(c: Config, ghost v: Core, lanes: seq<Bus>, b: Bundle, free_idx: seq<nat>, prf: P.Prf, rt: N.Rt, arf: A.Arf,
                    wbs: seq<P.WbPort>, arfPorts: seq<A.ArfPort>, rtPorts: seq<N.CommitPort>, live: Live, number: nat)
    returns (places: Live)
    requires Sized(c, v) && Books(c, v, lanes, b) && Tagged(c, v, lanes, b)
    requires |free_idx| == |lanes| && forall k | 0 <= k < |lanes| :: free_idx[k] == Wrap(v.rob.alloc + PopCount(b.takes[..k]), c.depth)
    requires prf.Valid() && prf.size == c.phy && forall i | 0 <= i < |wbs| :: wbs[i].pr < c.phy
    requires var w := P.WriteAll(prf.View(), c.phy, wbs); v.prf.fin == w.fin && v.prf.data == w.data
    requires rt.Valid() && rt.regs == |c.boot.regs| && rt.tags == c.tags && forall i | 0 <= i < |rtPorts| :: rtPorts[i].ar < rt.regs
    requires v.rt == N.RetireAll(rt.View(), rt.regs, rt.tags, rtPorts)
    requires arf.consts == c.consts && forall i | 0 <= i < |arfPorts| :: arfPorts[i].ar < arf.storage.Length
    requires v.arf == A.WriteAll(arf.storage[..], c.consts, arfPorts)
    requires live == v.live && number == |v.path|
    ensures places == Rows(c, v, lanes, b.promised)
  {
    hide Wrap, PopCount, Sized, P.WriteAll, N.RetireAll, A.WriteAll, N.OverlayAll, Rows, N.Rt.View, N.Rt.Valid, P.Prf.Valid, P.Prf.View, Books;
    MapBooked(c, v, lanes, b);
    var rows, temp, planes := rt.Flow(rtPorts, b.mapPorts);
    var seen := prf.ReadView(wbs, b.promised);
    var regs := arf.ReadLane(arfPorts);
    forall k | 0 <= k < |lanes| ensures rows[k] == MapAfter(c, v, lanes[..k]) { PortAt(c, v, lanes, k); }
    places := FillRows(c, v, lanes, b, free_idx, rows, seen, regs, live, number);
  }

  lemma MapBooked(c: Config, v: Core, lanes: seq<Bus>, b: Bundle)
    requires Sized(c, v) && Books(c, v, lanes, b) && Tagged(c, v, lanes, b)
    ensures b.mapPorts == MapPorts(c, v, lanes) && b.promised == Promises(c, v, lanes)
    ensures |b.mapPorts| == |lanes| && forall i | 0 <= i < |b.mapPorts| :: b.mapPorts[i].ar < |c.boot.regs|
  {
    hide PopCount, Config.OpOk;
  }

  // --- the cycle those wires are -----------------------------------------------------------------------

  lemma PlanSources(c: Config, s: Core, acts: seq<Act>)
    requires Sized(c, s) && Plan(c, s, acts)
    ensures Sources(s, acts)
  {
  }

  /** A cycle that dispatches nothing. */
  lemma BackEndAlone(c: Config, s: Core, acts: seq<Act>, k: nat, drain: bool)
    requires Inv(c, s) && Sized(c, s) && Plan(c, s, acts) && MayRetire(c, s, k) && k <= c.commitLanes && (drain ==> S.CanDrain(s.sb, c.sbDepth))
    ensures EdgeOk(c, s, Tick(acts, k, drain, []))
  {
    hide Wrap, Inv, Plan, Drained, Resolved;
    PlanSources(c, s, acts);
    Pool(c, s);
    assert PopCount([]) == 0;
  }

  /** What the bundle finds once the moves and retirements of its cycle are in. */
  lemma Midcycle(c: Config, s: Core, acts: seq<Act>, k: nat, drain: bool) returns (v: Core)
    requires Inv(c, s) && Sized(c, s) && Plan(c, s, acts) && MayRetire(c, s, k) && k <= c.commitLanes && (drain ==> S.CanDrain(s.sb, c.sbDepth))
    ensures Sources(s, acts) && k <= s.rob.used && v == Drained(c, s, acts, k, drain) && Sized(c, v) && Inv(c, v)
    ensures forall i | 0 <= i < |Written(c, s, acts)| :: Written(c, s, acts)[i].pr < c.phy
    ensures s.prf.Sized(c.phy) && s.rt.Sized(|c.boot.regs|, c.tags)
    ensures v.rob.alloc == s.rob.alloc && v.prf.next == s.prf.next && v.prf.free == s.prf.free + PopCount(Frees(c, s, k))
    ensures v.fetchPc == s.fetchPc && v.path == s.path && (Resolved(s, acts) == {} ==> v.tags == s.tags) && v.live == LiveAfter(c, s, acts)
    ensures var w := P.WriteAll(s.prf, c.phy, Written(c, s, acts)); v.prf.fin == w.fin && v.prf.data == w.data
    ensures v.arf == A.WriteAll(s.arf, c.consts, ArfPorts(c, s, k))
    ensures v.rt == N.RetireAll(s.rt, |c.boot.regs|, c.tags, RtPorts(c, s, k))
  {
    hide Wrap, PopCount, Inv, Sized, EdgeOk, Plan, Drained, LiveAfter, Reported, Written, Resolved, Pushed, ArfPorts, RtPorts, Frees,
         P.WriteAll, A.WriteAll, N.RetireAll, B.RetireAll, B.FinishAll, S.Cycle, K.Resolve, S.CanDrain;
    PlanSources(c, s, acts);
    BackEndAlone(c, s, acts, k, drain);
    var events := BackEndIsRun(c, s, Tick(acts, k, drain, []));
    v := Drained(c, s, acts, k, drain);
    E.Counted(c, v);
    SizedBlocks(c, s);
    BackEnd(c, s, acts, k, drain);
    PathStays(c, s, acts, k, drain);
  }

  lemma SizedBlocks(c: Config, s: Core)
    requires Sized(c, s)
    ensures s.prf.Sized(c.phy) && s.rt.Sized(|c.boot.regs|, c.tags)
  {
    hide Config.OpOk;
  }

  lemma PathStays(c: Config, s: Core, acts: seq<Act>, k: nat, drain: bool)
    requires Sized(c, s) && Sources(s, acts) && k <= s.rob.used
    ensures var v := Drained(c, s, acts, k, drain); v.path == s.path && v.live == LiveAfter(c, s, acts)
  {
    hide Wrap, LiveAfter, Reported, Written, Resolved, Pushed, ArfPorts, RtPorts, Frees;
  }

  /** The lanes fetch where the bundle does, so they were found rows for the same instructions. */
  lemma {:induction false} SamePc(c: Config, s: Core, v: Core, lanes: seq<Bus>)
    requires v.fetchPc == s.fetchPc
    ensures Found(c, v, s.live, lanes) <==> Found(c, s, s.live, lanes)
  {
    assert forall past: seq<Bus> :: OpAfter(c, v, past) == OpAfter(c, s, past);
  }

  lemma NothingBooked(c: Config, v: Core)
    requires Sized(c, v)
    ensures Books(c, v, [], Nothing(v.fetchPc)) && Tagged(c, v, [], Nothing(v.fetchPc)) && Rows(c, v, [], []) == v.live
  {
    hide Config.OpOk;
    assert PopCount([]) == 0;
  }

  /** What was driven is what the cycle's definition puts on the ports. */
  lemma Driven(c: Config, s: Core, v: Core, acts: seq<Act>, lanes: seq<Bus>, all_ok: bool, mem_ready: bool, commits: nat, drain: bool, go: bool, b: Bundle,
               ports: Ports) returns (e: Edge)
    requires Inv(c, s) && Sized(c, s) && Plan(c, s, acts) && Sources(s, acts) && |lanes| <= c.lanes && (all_ok ==> Found(c, s, s.live, lanes))
    requires MayRetire(c, s, commits) && commits <= c.commitLanes && (commits < c.commitLanes ==> !B.Retires(s.rob, c.depth, commits))
    requires drain == (mem_ready && S.CanDrain(s.sb, c.sbDepth)) && v == Drained(c, s, acts, commits, drain) && Sized(c, v) && v.fetchPc == s.fetchPc
    requires go <==> Resolved(s, acts) == {} && all_ok && s.rob.used + PopCount(Takes(lanes)) <= c.depth
                     && PopCount(Asks(c, v, lanes)) <= v.prf.free && PopCount(Branches(c, v, lanes)) <= v.tags.free
    requires var landed := if go then lanes else [];
             && Books(c, v, landed, b) && Tagged(c, v, landed, b)
             && ports == Ports(Reported(s, acts), Written(c, s, acts), Resolved(s, acts), Pushed(c, s, acts), commits,
                               ArfPorts(c, s, commits), RtPorts(c, s, commits), Frees(c, s, commits), RetiresStore(c, s, commits),
                               drain, b.robLanes, b.asks, b.mapPorts, b.branches, b.bookings,
                               Rows(c, v, landed, b.promised), b.nextPc)
    ensures Decided(c, s, e, acts, lanes, all_ok, mem_ready) && StaysSized(c, s, e) && ports == PortsOf(c, s, e)
    ensures Inv(c, AtEdge(c, s, e))
    ensures e.lanes == (if go then lanes else [])
  {
    hide Wrap, PopCount, Inv, Plan, Found, Drained, LiveAfter, Rows, Takes, Asks, Branches, Promises, RobLanes, MapPorts, Bookings, PcAfter,
         Reported, Written, Resolved, Pushed, ArfPorts, RtPorts, Frees, RetiresStore, MayRetire, Sized, S.CanDrain;
    e := Tick(acts, commits, drain, if go then lanes else []);
    SamePc(c, s, v, lanes);
    BackEndAlone(c, s, acts, commits, drain);
    var events := TickIsRun(c, s, e);
  }

  /** The path grows by what the bundle carries. */
  lemma PathGrows(c: Config, s: Core, e: Edge)
    requires Sized(c, s) && EdgeOk(c, s, e) && e.Tick? && StaysSized(c, s, e)
    ensures |AtEdge(c, s, e).path| == |s.path| + PopCount(Takes(e.lanes))
  {
    hide Wrap, PopCount, Drained, EdgeOk, StaysSized, AtEdge, Insts, Takes, Sized, Plan, MayRetire, Asks, Promises;
    Ticking(c, s, e);
    Midway(c, s, e);
    Landing(c, s, e);
    PathStays(c, s, e.acts, e.commits, e.drain);
    G.PathGrows(c, Drained(c, s, e.acts, e.commits, e.drain), e.lanes);
  }

  // --- a squash cycle -------------------------------------------------------------------------------------

  lemma OnBranch(c: Config, s: Core, p: Place)
    requires AtLastStage(c, s, p)
    ensures p in s.live && p.Stage?
  {
  }

  /** What the squash takes off the units is what its definition reads after the moves beside it. */
  lemma SquashDriven(c: Config, s: Core, acts: seq<Act>, p: Place, drain: bool) returns (e: Edge)
    requires Inv(c, s) && Sized(c, s) && QuietPlan(c, s, acts, p) && AtLastStage(c, s, p) && s.live[p].op.isBranch
    requires BranchTarget(c, s.live[p]) != s.live[p].npc && (drain ==> S.CanDrain(s.sb, c.sbDepth))
    ensures e == Squash(acts, p, drain) && EdgeOk(c, s, e) && StaysSized(c, s, e) && Sources(s, acts) && Inv(c, AtEdge(c, s, e))
    ensures var r := s.live[p];
            var value, rest := Value(c, r), LiveAfter(c, s, acts) - {p};
            SquashPortsOf(c, s, e) ==
            SquashPorts(Reported(s, acts) + [r.rob], Written(c, s, acts) + (if r.op.required then [P.WbPort(r.pr, value)] else []), r.tag,
                        r.rob, r.pr, BranchTarget(c, r), drain, if r.op.required then Wake(rest, r.pr, value) else rest)
  {
    hide Wrap, Inv, Sized, Plan, LiveAfter, Reported, Written, Resolved, Pushed, S.CanDrain, BranchTarget, Value, Wake, QuietPlan,
         B.FinishAll, P.WriteAll, S.Cycle, K.Resolve;
    e := Squash(acts, p, drain);
    var events := SquashIsRun(c, s, e);
    SquashReadsRegisters(c, s, acts, p);
    SquashPlaces(c, s, acts);
  }

  lemma SquashPlaces(c: Config, s: Core, acts: seq<Act>)
    requires Sized(c, s) && Sources(s, acts)
    ensures Moves(c, s, acts).live == LiveAfter(c, s, acts) && Moves(c, s, acts).path == s.path
  {
    hide Wrap, LiveAfter;
  }

  /** The path is cut behind the branch. */
  lemma PathCut(c: Config, s: Core, e: Edge)
    requires Inv(c, s) && Sized(c, s) && EdgeOk(c, s, e) && e.Squash? && StaysSized(c, s, e)
    ensures e.p in s.live && |AtEdge(c, s, e).path| == s.live[e.p].n + 1
  {
    hide Wrap, Upto, Inv, Plan, LiveAfter, Reported, Written, Resolved, Pushed, BranchTarget, Value, Wake, PopCount, Kill;
    Squashing(c, s, e);
    SquashReadsRegisters(c, s, e.acts, e.p);
    SquashPlaces(c, s, e.acts);
  }
}

/** The dispatch bundle of one cycle, lane by lane through the same-cycle views, is a run of
    dispatch events. */
module CycleDispatch {
  import opened Rings
  import opened Program
  import opened Records
  import opened Engine
  import opened Invariant
  import opened Theorems
  import A = Architectural
  import B = Reorder
  import D = KeepDispatch
  import E = CycleEvents
  import K = KillMask
  import N = Rename
  import P = Physical
  import T = Tags
  import Tagging

  /** A lane carries nothing, or an instruction with the station row it was found. */
  datatype Bus = Idle | Take(row: nat)

  // --- what each lane books -----------------------------------------------------------------

  /** Where a lane fetched from: past the instructions of the lanes before it. */
  function PcAfter(c: Config, pc: int, lanes: seq<Bus>): int
  {
    if lanes == [] then pc
    else PcAfter(c, pc, lanes[..|lanes| - 1]) + (if lanes[|lanes| - 1].Take? then c.ilen else 0)
  }

  /** The instruction behind `past`. */
  function OpAfter(c: Config, v: Core, past: seq<Bus>): Op
  {
    c.isa.prog(PcAfter(c, v.fetchPc, past))
  }

  function Takes(lanes: seq<Bus>): (bits: seq<bool>)
    ensures |bits| == |lanes|
  {
    if lanes == [] then [] else Takes(lanes[..|lanes| - 1]) + [lanes[|lanes| - 1].Take?]
  }

  /** The lanes that ask for a physical register. */
  function Asks(c: Config, v: Core, lanes: seq<Bus>): (bits: seq<bool>)
    ensures |bits| == |lanes|
  {
    if lanes == [] then []
    else
      var past := lanes[..|lanes| - 1];
      Asks(c, v, past) + [lanes[|past|].Take? && OpAfter(c, v, past).active]
  }

  function Branches(c: Config, v: Core, lanes: seq<Bus>): (bits: seq<bool>)
    ensures |bits| == |lanes|
  {
    if lanes == [] then []
    else
      var past := lanes[..|lanes| - 1];
      Branches(c, v, past) + [lanes[|past|].Take? && OpAfter(c, v, past).isBranch]
  }

  /** The register the lane behind `past` is promised, whether or not it asks. */
  function Promise(c: Config, v: Core, past: seq<Bus>): (pr: nat)
    requires c.phy > 0
    ensures pr < c.phy
  {
    Wrap(v.prf.next + PopCount(Asks(c, v, past)), c.phy)
  }

  function Promises(c: Config, v: Core, lanes: seq<Bus>): (prs: seq<nat>)
    requires c.phy > 0
    ensures |prs| == |lanes| && forall i | 0 <= i < |prs| :: prs[i] < c.phy
  {
    if lanes == [] then []
    else Promises(c, v, lanes[..|lanes| - 1]) + [Promise(c, v, lanes[..|lanes| - 1])]
  }

  /** The tag allocator as the lane behind `past` sees it. */
  function TagsAfter(c: Config, v: Core, past: seq<Bus>): T.TagState
    requires c.tags > 0
  {
    if PopCount(Branches(c, v, past)) <= v.tags.free then T.BookAll(v.tags, c.tags, Branches(c, v, past)) else v.tags
  }

  /** The tag the lane behind `past` carries; `books` says it carries a branch. */
  function TagFor(c: Config, v: Core, past: seq<Bus>, books: bool): Mask
    requires c.tags > 0
  {
    T.InForce(TagsAfter(c, v, past), c.tags, books)
  }

  ghost function RobLanes(c: Config, v: Core, lanes: seq<Bus>): (rows: seq<B.RobLane>)
    requires c.phy > 0
    ensures |rows| == |lanes|
  {
    if lanes == [] then []
    else
      var past := lanes[..|lanes| - 1];
      var op := OpAfter(c, v, past);
      RobLanes(c, v, past)
      + [B.RobLane(lanes[|past|].Take?,
                   B.RobRow(op.isBranch, op.isStore, op.active, op.required, op.ar, Promise(c, v, past),
                            PcAfter(c, v.fetchPc, past), false))]
  }

  ghost function MapPorts(c: Config, v: Core, lanes: seq<Bus>): (ports: seq<N.RenamePort>)
    requires c.Valid()
    ensures |ports| == |lanes| && forall i | 0 <= i < |ports| :: ports[i].ar < |c.boot.regs|
  {
    if lanes == [] then []
    else
      var past := lanes[..|lanes| - 1];
      var op, takes := OpAfter(c, v, past), lanes[|past|].Take?;
      assert c.OpOk(op);
      MapPorts(c, v, past)
      + [N.RenamePort(takes && Writes(c, op, op.ar), op.ar, Promise(c, v, past), takes && op.isBranch, TagFor(c, v, past, takes && op.isBranch))]
  }

  ghost function Bookings(c: Config, v: Core, lanes: seq<Bus>): (ports: seq<K.Booking>)
    requires c.tags > 0
    ensures |ports| == |lanes|
  {
    if lanes == [] then []
    else
      var past := lanes[..|lanes| - 1];
      var books := lanes[|past|].Take? && OpAfter(c, v, past).isBranch;
      Bookings(c, v, past) + [K.Booking(books, TagFor(c, v, past, books))]
  }

  // --- what each lane reads -------------------------------------------------------------------

  /** A source through the views of the cycle: the map the lane before left, the physical
      file with this cycle's writebacks in and every promised entry not yet written. */
  ghost function ReadAt(c: Config, v: Core, row: N.RtRow, promised: seq<nat>, src: Src): Slot
    requires Sized(c, v) && |row| == |c.boot.regs| && (src.Reg? ==> src.ar < |row|)
    requires forall r | 0 <= r < |row| :: row[r].prf < c.phy
  {
    match src
    case Empty => Slot(false, false, 0, 0)
    case Imm(x) => Slot(true, true, 0, x)
    case Reg(ar) =>
      var e := row[ar];
      var seen := v.prf.fin[e.prf] && e.prf !in promised;
      if e.renamed && !seen then Slot(true, false, e.prf, 0)
      else Slot(true, true, 0, if e.renamed then v.prf.data[e.prf] else A.Read(v.arf, c.consts, ar))
  }

  ghost function MapAfter(c: Config, v: Core, past: seq<Bus>): (row: N.RtRow)
    requires Sized(c, v)
    ensures |row| == |c.boot.regs| && forall r | 0 <= r < |row| :: row[r].prf < c.phy
  {
    MapFits(c, v, past);
    N.OverlayAll(v.rt, |c.boot.regs|, c.tags, MapPorts(c, v, past)).master
  }

  lemma {:induction false} MapFits(c: Config, v: Core, past: seq<Bus>)
    requires Sized(c, v)
    ensures var row := N.OverlayAll(v.rt, |c.boot.regs|, c.tags, MapPorts(c, v, past)).master;
            |row| == |c.boot.regs| && forall r | 0 <= r < |row| :: row[r].prf < c.phy
    decreases |past|
  {
    hide Wrap, Config.OpOk, OpAfter, TagFor, Promise;
    if past != [] {
      var before := past[..|past| - 1];
      MapFits(c, v, before);
      assert MapPorts(c, v, past)[..|before|] == MapPorts(c, v, before);
    }
  }

  ghost function RecordAt(c: Config, v: Core, past: seq<Bus>, promised: seq<nat>): Rec
    requires Sized(c, v)
  {
    var op, pc, t := OpAfter(c, v, past), PcAfter(c, v.fetchPc, past), TagsAfter(c, v, past);
    assert c.OpOk(op);
    Rec(op, pc, pc + c.ilen, Wrap(v.rob.alloc + PopCount(Takes(past)), c.depth), Promise(c, v, past),
        T.Outstanding(t, c.tags), TagFor(c, v, past, op.isBranch),
        seq(|op.srcs|, i requires 0 <= i < |op.srcs| => ReadAt(c, v, MapAfter(c, v, past), promised, op.srcs[i])),
        0, |v.path| + PopCount(Takes(past)))
  }

  function Spot(c: Config, v: Core, past: seq<Bus>, lane: Bus): Place
    requires lane.Take?
  {
    Row(OpAfter(c, v, past).station, lane.row)
  }

  ghost function Rows(c: Config, v: Core, lanes: seq<Bus>, promised: seq<nat>): Live
    requires Sized(c, v)
  {
    if lanes == [] then v.live
    else
      var past, last := lanes[..|lanes| - 1], lanes[|lanes| - 1];
      var before := Rows(c, v, past, promised);
      if last.Take? then before[Spot(c, v, past, last) := RecordAt(c, v, past, promised)] else before
  }

  ghost function Insts(c: Config, v: Core, lanes: seq<Bus>): seq<Inst>
  {
    if lanes == [] then []
    else
      var past, last := lanes[..|lanes| - 1], lanes[|lanes| - 1];
      if last.Take? then Insts(c, v, past) + [Inst(OpAfter(c, v, past), PcAfter(c, v.fetchPc, past))] else Insts(c, v, past)
  }

  ghost function Links(c: Config, v: Core, lanes: seq<Bus>): seq<int>
  {
    if lanes == [] then []
    else
      var past, last := lanes[..|lanes| - 1], lanes[|lanes| - 1];
      if last.Take? then Links(c, v, past) + [PcAfter(c, v.fetchPc, past) + c.ilen] else Links(c, v, past)
  }

  /** Every register after the bundle lands. */
  ghost function Landed(c: Config, v: Core, lanes: seq<Bus>, promised: seq<nat>): Core
    requires Sized(c, v) && PopCount(Asks(c, v, lanes)) <= v.prf.free
  {
    v.(rob := B.PushAll(v.rob, c.depth, RobLanes(c, v, lanes)),
       prf := P.RenameAll(v.prf, c.phy, Asks(c, v, lanes)),
       rt := N.OverlayAll(v.rt, |c.boot.regs|, c.tags, MapPorts(c, v, lanes)),
       tags := TagsAfter(c, v, lanes),
       mpft := K.BookRun(v.mpft, K.OpenTags(v.mpft, T.LastTag(v.tags, c.tags)), Bookings(c, v, lanes)).0,
       live := Rows(c, v, lanes, promised),
       fetchPc := PcAfter(c, v.fetchPc, lanes),
       path := v.path + Insts(c, v, lanes),
       link := v.link + Links(c, v, lanes))
  }

  /** Every lane was found a station row of its own, free as the cycle began. */
  ghost predicate Found(c: Config, v: Core, live: Live, lanes: seq<Bus>)
  {
    && (forall j | 0 <= j < |lanes| && lanes[j].Take? ::
          lanes[j].row < c.rows(OpAfter(c, v, lanes[..j]).station) && Spot(c, v, lanes[..j], lanes[j]) !in live)
    && (forall i, j | 0 <= i < j < |lanes| && lanes[i].Take? && lanes[j].Take? ::
          Spot(c, v, lanes[..i], lanes[i]) != Spot(c, v, lanes[..j], lanes[j]))
  }

  /** The whole bundle has room: rows, registers, tags, and a station row of its own for
      every lane. `used` and `live` are the cycle's own registers. */
  ghost predicate Room(c: Config, v: Core, used: nat, live: Live, lanes: seq<Bus>)
  {
    && used + PopCount(Takes(lanes)) <= c.depth
    && PopCount(Asks(c, v, lanes)) <= v.prf.free
    && PopCount(Branches(c, v, lanes)) <= v.tags.free
    && Found(c, v, live, lanes)
  }
}

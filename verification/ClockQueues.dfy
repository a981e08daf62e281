/**
 The in-order stations under the clock.

 In one cycle a station may issue its head, hear broadcasts, lose a tag and take lanes, each
 worked out from the registers the cycle began with. The ring after the edge still shows the
 clocked core's rows, oldest first.
 */
module ClockQueues {
  import opened Rings
  import opened Program
  import opened Records
  import opened Engine
  import opened Invariant
  import opened Theorems
  import opened Station
  import opened InOrderStation
  import opened Queues
  import opened Cycle
  import opened Clock
  import C = CycleDispatch
  import E = CycleEvents
  import K = KillMask
  import L = CycleLanes
  import P = Physical
  import S = Stores
  import W = Wiring
  import Results

  // --- a ring's clock edge ---------------------------------------------------------------------

  /** A waiting record hears the cycle's broadcasts and loses the tag that resolves. */
  function Stays(r: Rec, wbs: seq<P.WbPort>, sucTag: Mask): Rec
  {
    Unmasked(r.(slots := Woken(r.slots, wbs)), sucTag)
  }

  /** Row i as the edge leaves it: a lane lands in it, or it keeps what it held unless the
      head issues from it. */
  function RowEdge(q: Ring, i: nat, takes: bool, wbs: seq<P.WbPort>, sucTag: Mask, recs: seq<Rec>): Entry
    requires i < |q.table| && q.alloc < |q.table|
  {
    var port := Wrap(i + |q.table| - q.alloc, |q.table|);
    if port < |recs| then Entry(true, recs[port])
    else
      var e := q.table[i];
      Entry(e.valid && !(takes && i == q.head), if e.valid then Stays(e.rec, wbs, sucTag) else e.rec)
  }

  /** The edge of an ordinary cycle, every part of it reading the registers as they stood. */
  function RingEdge(q: Ring, takes: bool, wbs: seq<P.WbPort>, sucTag: Mask, recs: seq<Rec>): (t: Ring)
    requires q.alloc < |q.table|
    ensures |t.table| == |q.table|
  {
    Ring(seq(|q.table|, i requires 0 <= i < |q.table| => RowEdge(q, i, takes, wbs, sucTag, recs)),
         if takes then Wrap(q.head + 1, |q.table|) else q.head, Wrap(q.alloc + |recs|, |q.table|))
  }

  /** Which port lands in the row k past the head, the queue being n long. */
  lemma PortOf(q: Ring, n: nat, k: nat)
    requires Run(q, n) && k < |q.table|
    ensures q.alloc < |q.table|
    ensures Wrap(Wrap(q.head + k, |q.table|) + |q.table| - q.alloc, |q.table|) == if k >= n then k - n else k + |q.table| - n
  {
    hide Wrap;
    var size := |q.table|;
    Laps(q, n);
    if k >= n {
      Distance(q.head + n, q.head + k, size);
    } else {
      Lap(q.head + k, size);
      Distance(q.head + n, q.head + k + size, size);
    }
  }

  lemma Lap(k: nat, size: nat)
    requires size > 0
    ensures Wrap(k + size, size) == Wrap(k, size)
  {
  }

  /** Row by row from the old head. */
  lemma EdgeAt(q: Ring, takes: bool, wbs: seq<P.WbPort>, sucTag: Mask, recs: seq<Rec>, k: nat)
    requires Fifo(q) && k < |q.table| && Count(q) + |recs| <= |q.table| && q.alloc < |q.table|
    ensures var n, e := Count(q), RingEdge(q, takes, wbs, sucTag, recs).table[Wrap(q.head + k, |q.table|)];
            && (k < n ==> e.valid == !(takes && k == 0) && e.rec == Stays(At(q, k).rec, wbs, sucTag))
            && (n <= k < n + |recs| ==> e == Entry(true, recs[k - n]))
            && (n + |recs| <= k ==> !e.valid)
  {
    hide Wrap, Count, Stays;
    PortOf(q, Count(q), k);
    Laps(q, Count(q));
    if k > 0 { RowsApart(q, 0, k); }
    assert At(q, k).valid <==> k < Count(q);
  }

  /** At the edge the queue drops its front if it issued, keeps the rest woken and masked, and
      takes the landing lanes at its back. */
  lemma EdgeIsQueue(q: Ring, takes: bool, wbs: seq<P.WbPort>, sucTag: Mask, recs: seq<Rec>)
    requires Fifo(q) && Count(q) + |recs| <= |q.table| && q.alloc < |q.table| && (takes ==> Count(q) > 0)
    ensures var t, n, gone := RingEdge(q, takes, wbs, sucTag, recs), Count(q), if takes then 1 else 0;
            && Fifo(t) && Count(t) == n - gone + |recs|
            && (forall j | 0 <= j < n - gone :: Contents(t)[j] == Stays(Contents(q)[gone + j], wbs, sucTag))
            && (forall j | 0 <= j < |recs| :: Contents(t)[n - gone + j] == recs[j])
  {
    hide Wrap, Count, Stays, RingEdge;
    var t, n, gone, size := RingEdge(q, takes, wbs, sucTag, recs), Count(q), if takes then 1 else 0, |q.table|;
    Laps(q, n);
    EdgePointers(q, takes, wbs, sucTag, recs);
    forall j | 0 <= j < size
      ensures At(t, j).valid <==> j < n - gone + |recs|
      ensures j < n - gone ==> At(t, j).rec == Stays(At(q, gone + j).rec, wbs, sucTag)
      ensures n - gone <= j < n - gone + |recs| ==> At(t, j).rec == recs[j - (n - gone)]
    {
      WrapAdd(q.head + gone, j, size);
      WrapAdd(q.head, gone, size);
      if gone + j < size {
        EdgeAt(q, takes, wbs, sucTag, recs, gone + j);
      } else {
        EdgeAt(q, takes, wbs, sucTag, recs, 0);
      }
    }
    RunCounts(t, n - gone + |recs|);
  }

  lemma EdgePointers(q: Ring, takes: bool, wbs: seq<P.WbPort>, sucTag: Mask, recs: seq<Rec>)
    requires Fifo(q) && Count(q) + |recs| <= |q.table| && q.alloc < |q.table| && (takes ==> Count(q) > 0)
    ensures var t, gone := RingEdge(q, takes, wbs, sucTag, recs), if takes then 1 else 0;
            && |t.table| == |q.table| && t.head == Wrap(q.head + gone, |q.table|)
            && t.alloc == Wrap(t.head + (Count(q) - gone + |recs|), |q.table|)
  {
    hide Wrap, Count;
    var gone := if takes then 1 else 0;
    Laps(q, Count(q));
    WrapAdd(q.head + Count(q), |recs|, |q.table|);
    WrapAdd(q.head + gone, Count(q) - gone + |recs|, |q.table|);
  }

  /** One more landing lane fills one more row. */
  lemma OneMoreLands(q: Ring, takes: bool, wbs: seq<P.WbPort>, sucTag: Mask, recs: seq<Rec>, r: Rec)
    requires q.alloc < |q.table| && |recs| < |q.table|
    ensures RingEdge(q, takes, wbs, sucTag, recs + [r]).table
         == RingEdge(q, takes, wbs, sucTag, recs).table[Wrap(q.alloc + |recs|, |q.table|) := Entry(true, r)]
  {
    hide Wrap, Stays, RowEdge, RingEdge;
    var size := |q.table|;
    var a, b := RingEdge(q, takes, wbs, sucTag, recs + [r]).table, RingEdge(q, takes, wbs, sucTag, recs).table;
    forall i | 0 <= i < size ensures a[i] == if i == Wrap(q.alloc + |recs|, size) then Entry(true, r) else b[i] {
      PortIs(i, |recs|, q.alloc, size);
      RowLands(q, i, takes, wbs, sucTag, recs, r);
      EdgeRow(q, i, takes, wbs, sucTag, recs + [r]);
      EdgeRow(q, i, takes, wbs, sucTag, recs);
    }
  }

  lemma EdgeRow(q: Ring, i: nat, takes: bool, wbs: seq<P.WbPort>, sucTag: Mask, recs: seq<Rec>)
    requires i < |q.table| && q.alloc < |q.table|
    ensures RingEdge(q, takes, wbs, sucTag, recs).table[i] == RowEdge(q, i, takes, wbs, sucTag, recs)
  {
    hide Wrap, Stays, RowEdge;
  }

  lemma PortIs(i: nat, port: nat, alloc: nat, size: nat)
    requires i < size && port < size && alloc < size
    ensures Wrap(i + size - alloc, size) == port <==> i == Wrap(alloc + port, size)
  {
    hide Wrap;
    WrapAdd(i + size - alloc, alloc, size);
    Lap(i, size);
    WrapSmall(i, size);
    WrapAdd(alloc + port, size - alloc, size);
    Lap(port, size);
    WrapSmall(port, size);
  }

  lemma RowLands(q: Ring, i: nat, takes: bool, wbs: seq<P.WbPort>, sucTag: Mask, recs: seq<Rec>, r: Rec)
    requires i < |q.table| && q.alloc < |q.table|
    ensures RowEdge(q, i, takes, wbs, sucTag, recs + [r])
         == if Wrap(i + |q.table| - q.alloc, |q.table|) == |recs| then Entry(true, r) else RowEdge(q, i, takes, wbs, sucTag, recs)
  {
    hide Wrap, Stays;
  }

  // --- the moves of one cycle, seen at a station -------------------------------------------------

  /** A record leaves the station in this cycle. */
  predicate Issues(acts: seq<Act>, st: nat)
  {
    exists i :: 0 <= i < |acts| && acts[i].p.Row? && acts[i].p.station == st
  }

  /** What leaves an in-order station is its head, once it is there and ready. */
  lemma HeadLeaves(c: Config, s: Core, acts: seq<Act>, st: nat, q: Ring)
    requires Sized(c, s) && Plan(c, s, acts) && Shows(c, s.live, st, q) && st in c.inOrder
    ensures q.head < |q.table| && (Issues(acts, st) ==> Count(q) > 0 && q.table[q.head].valid && Ready(q.table[q.head].rec))
    ensures forall row: nat :: Leaves(acts, Row(st, row)) <==> Issues(acts, st) && row == q.head
  {
    hide Wrap, Count, Shows, Ready, Sized;
    Ringed(c, s.live, st, q);
    Queue(c, s.live, st, q);
    HeadIs(q);
    forall i | 0 <= i < |acts| && acts[i].p.Row? && acts[i].p.station == st
      ensures acts[i].p == Row(st, q.head) && q.table[q.head].valid && Ready(q.table[q.head].rec)
    {
      LeaverIsHead(c, s, acts, i, st, q);
    }
  }

  lemma LeaverIsHead(c: Config, s: Core, acts: seq<Act>, i: nat, st: nat, q: Ring)
    requires Sized(c, s) && Plan(c, s, acts) && Shows(c, s.live, st, q) && st in c.inOrder && i < |acts|
    requires acts[i].p.Row? && acts[i].p.station == st
    ensures q.head < |q.table| && acts[i].p == Row(st, q.head) && q.table[q.head].valid && Ready(q.table[q.head].rec)
  {
    hide Wrap, Shows, Ready, Sized, BranchTarget;
    assert ActOk(c, s, acts[i]);
    var u := s.(live := s.live - {acts[i].q});
    assert AtStation(u.live, st) == AtStation(s.live, st);
    SameRows(c, s.live, u.live, st, q);
    HeadIsOldest(c, u, st, q, acts[i].p, acts[i].q);
  }

  /** The station's places after the moves: the head gone if it issued, the others as they stay. */
  lemma MovesShow(c: Config, s: Core, acts: seq<Act>, st: nat, q: Ring)
    requires Sized(c, s) && Plan(c, s, acts) && Sources(s, acts) && Shows(c, s.live, st, q) && st in c.inOrder && q.alloc < |q.table|
    ensures AtStation(LiveAfter(c, s, acts), st)
         == Rows(st, RingEdge(q, Issues(acts, st), Written(c, s, acts), Resolved(s, acts), []).table)
  {
    hide Wrap, Count, Shows, Ready, Sized, Written, Resolved, Woken, Unmasked, ActOk, Issues, Leaves, Occupant;
    HeadLeaves(c, s, acts, st, q);
    var t := RingEdge(q, Issues(acts, st), Written(c, s, acts), Resolved(s, acts), []).table;
    forall row: nat
      ensures Row(st, row) in LiveAfter(c, s, acts) <==> row < |t| && t[row].valid
      ensures Row(st, row) in LiveAfter(c, s, acts) ==> row < |t| && LiveAfter(c, s, acts)[Row(st, row)] == t[row].rec
    {
      RowStays(c, s, acts, st, row);
      HoldsAt(c, s.live, st, q, row);
    }
    assert forall p | p in AtStation(LiveAfter(c, s, acts), st) :: p == Row(st, p.row);
    assert forall p | p in Rows(st, t) :: p == Row(st, p.row);
  }

  lemma HoldsAt(c: Config, live: Live, st: nat, q: Ring, row: nat)
    requires Shows(c, live, st, q)
    ensures Row(st, row) in live <==> row < |q.table| && q.table[row].valid
    ensures Row(st, row) in live ==> live[Row(st, row)] == q.table[row].rec
  {
    hide Wrap, Count, Fifo, Ascending;
    assert Row(st, row) in live <==> Row(st, row) in AtStation(live, st);
    assert Row(st, row) in live <==> Row(st, row) in Rows(st, q.table);
  }

  lemma RowStays(c: Config, s: Core, acts: seq<Act>, st: nat, row: nat)
    requires Sized(c, s) && Plan(c, s, acts) && Sources(s, acts)
    ensures Row(st, row) in LiveAfter(c, s, acts) <==> Row(st, row) in s.live && !Leaves(acts, Row(st, row))
    ensures Row(st, row) in LiveAfter(c, s, acts) ==>
              LiveAfter(c, s, acts)[Row(st, row)] == Stays(s.live[Row(st, row)], Written(c, s, acts), Resolved(s, acts))
  {
    hide Wrap, Ready, Sized, Written, Resolved, Woken, Unmasked, BranchTarget, Loaded, Leaves, Plan, Targets;
    NoRowEntered(c, s, acts);
  }

  lemma NoRowEntered(c: Config, s: Core, acts: seq<Act>)
    requires Sized(c, s) && Plan(c, s, acts)
    ensures forall q | q in Targets(acts) :: q.Stage?
  {
    hide Wrap, Ready, Sized, BranchTarget, S.IsFull;
    forall q | q in Targets(acts) ensures q.Stage? {
      var i :| 0 <= i < |acts| && acts[i].Go? && acts[i].q == q;
      assert ActOk(c, s, acts[i]);
    }
  }

  // --- the bundle, seen at a station ----------------------------------------------------------------

  /** How many lanes are bound for the station. */
  function Bound(c: Config, v: Core, lanes: seq<C.Bus>, st: nat): (n: nat)
    ensures n <= |lanes|
  {
    if lanes == [] then 0
    else
      var past, last := lanes[..|lanes| - 1], lanes[|lanes| - 1];
      Bound(c, v, past, st) + (if last.Take? && C.OpAfter(c, v, past).station == st then 1 else 0)
  }

  /** What lands there, in lane order. */
  ghost function Arrivals(c: Config, v: Core, lanes: seq<C.Bus>, promised: seq<nat>, st: nat): (recs: seq<Rec>)
    requires Sized(c, v)
    ensures |recs| == Bound(c, v, lanes, st)
  {
    if lanes == [] then []
    else
      var past, last := lanes[..|lanes| - 1], lanes[|lanes| - 1];
      var before := Arrivals(c, v, past, promised, st);
      if last.Take? && C.OpAfter(c, v, past).station == st then before + [C.RecordAt(c, v, past, promised)] else before
  }

  /** Each lane takes the row its port names: a run from the allocation pointer that skips the
      lanes bound elsewhere. */
  predicate InRun(c: Config, v: Core, lanes: seq<C.Bus>, st: nat, q: Ring)
    requires |q.table| > 0
  {
    forall k | 0 <= k < |lanes| && lanes[k].Take? && C.OpAfter(c, v, lanes[..k]).station == st ::
      lanes[k].row == Wrap(q.alloc + Bound(c, v, lanes[..k], st), |q.table|)
  }

  /** Lanes that were found free rows there fit. */
  lemma {:induction false} RunFits(c: Config, s: Core, lanes: seq<C.Bus>, n: nat, st: nat, q: Ring)
    requires Shows(c, s.live, st, q) && |q.table| > 0 && C.Found(c, s, s.live, lanes) && InRun(c, s, lanes, st, q)
    requires n <= |lanes| <= |q.table|
    ensures Count(q) + Bound(c, s, lanes[..n], st) <= |q.table|
    decreases n
  {
    hide Wrap, Count, Shows, C.OpAfter;
    Queue(c, s.live, st, q);
    Laps(q, Count(q));
    if n > 0 {
      RunFits(c, s, lanes, n - 1, st, q);
      assert lanes[..n][..n - 1] == lanes[..n - 1];
      if lanes[n - 1].Take? && C.OpAfter(c, s, lanes[..n - 1]).station == st {
        var m := Bound(c, s, lanes[..n - 1], st);
        assert C.Spot(c, s, lanes[..n - 1], lanes[n - 1]) !in s.live;
        HoldsAt(c, s.live, st, q, lanes[n - 1].row);
        PortFree(q, m);
      }
    }
  }

  lemma {:induction false} LanesShow(c: Config, v: Core, lanes: seq<C.Bus>, promised: seq<nat>, st: nat, q: Ring,
                                     takes: bool, wbs: seq<P.WbPort>, sucTag: Mask)
    requires Sized(c, v) && q.alloc < |q.table| && InRun(c, v, lanes, st, q) && Bound(c, v, lanes, st) <= |q.table|
    requires AtStation(v.live, st) == Rows(st, RingEdge(q, takes, wbs, sucTag, []).table)
    ensures AtStation(C.Rows(c, v, lanes, promised), st)
         == Rows(st, RingEdge(q, takes, wbs, sucTag, Arrivals(c, v, lanes, promised, st)).table)
    decreases |lanes|
  {
    hide Wrap, Sized, RingEdge, C.RecordAt, C.OpAfter, Rows, AtStation;
    if lanes != [] {
      var past, last := lanes[..|lanes| - 1], lanes[|lanes| - 1];
      assert InRun(c, v, past, st, q) by {
        assert forall k | 0 <= k < |past| :: past[..k] == lanes[..k];
      }
      LanesShow(c, v, past, promised, st, q, takes, wbs, sucTag);
      if last.Take? {
        var r, recs := C.RecordAt(c, v, past, promised), Arrivals(c, v, past, promised, st);
        AtLand(C.Rows(c, v, past, promised), C.Spot(c, v, past, last), st, r);
        if C.OpAfter(c, v, past).station == st {
          OneMoreLands(q, takes, wbs, sucTag, recs, r);
          RowsLand(st, RingEdge(q, takes, wbs, sucTag, recs).table, last.row, r);
        }
      }
    }
  }

  lemma AtLand(live: Live, p: Place, st: nat, r: Rec)
    requires p.Row?
    ensures AtStation(live[p := r], st) == if p.station == st then AtStation(live, st)[p := r] else AtStation(live, st)
  {
  }

  /** Lanes land younger than all that waits, and in program order. */
  lemma {:induction false} ArrivalsAscend(c: Config, v: Core, lanes: seq<C.Bus>, promised: seq<nat>, st: nat)
    requires Sized(c, v)
    ensures Ascending(Arrivals(c, v, lanes, promised, st))
    ensures forall r | r in Arrivals(c, v, lanes, promised, st) :: |v.path| <= r.n < |v.path| + PopCount(C.Takes(lanes))
    decreases |lanes|
  {
    hide Wrap, PopCount, Sized, C.OpAfter;
    if lanes != [] {
      var past := lanes[..|lanes| - 1];
      ArrivalsAscend(c, v, past, promised, st);
      L.CountOne(C.Takes(past), lanes[|past|].Take?);
      RecordNumber(c, v, past, promised);
    }
  }

  lemma RecordNumber(c: Config, v: Core, past: seq<C.Bus>, promised: seq<nat>)
    requires Sized(c, v)
    ensures C.RecordAt(c, v, past, promised).n == |v.path| + PopCount(C.Takes(past))
  {
    hide Wrap, PopCount;
  }

  // --- every cycle keeps every ring showing -----------------------------------------------------------

  /** The ring after an ordinary cycle. */
  ghost function TickRing(c: Config, s: Core, e: Edge, st: nat, q: Ring): Ring
    requires Sized(c, s) && EdgeOk(c, s, e) && e.Tick? && StaysSized(c, s, e) && q.alloc < |q.table|
  {
    var v := Drained(c, s, e.acts, e.commits, e.drain);
    RingEdge(q, Issues(e.acts, st), Written(c, s, e.acts), Resolved(s, e.acts),
             Arrivals(c, v, e.lanes, C.Promises(c, v, e.lanes), st))
  }

  /** The ring after a squash cycle: the broadcasts of the cycle, then the kill. */
  ghost function SquashRing(c: Config, s: Core, e: Edge, st: nat, q: Ring): Ring
    requires Sized(c, s) && EdgeOk(c, s, e) && e.Squash? && |q.table| > 0
  {
    KillRing(WakeRing(WakeRing(q, Written(c, s, e.acts)), Broadcast(c, s.live[e.p])), K.FixTag(s.mpft, s.live[e.p].tag))
  }

  lemma SameFetch(c: Config, s: Core, v: Core, lanes: seq<C.Bus>, st: nat, q: Ring)
    requires v.fetchPc == s.fetchPc && |q.table| > 0 && InRun(c, s, lanes, st, q)
    ensures InRun(c, v, lanes, st, q)
  {
    hide Wrap, C.OpAfter, Bound;
    forall k | 0 <= k < |lanes| && lanes[k].Take? && C.OpAfter(c, v, lanes[..k]).station == st
      ensures lanes[k].row == Wrap(q.alloc + Bound(c, v, lanes[..k], st), |q.table|)
    {
      SameOp(c, s, v, lanes[..k]);
      SameBound(c, s, v, lanes[..k], st);
    }
  }

  lemma SameOp(c: Config, s: Core, v: Core, past: seq<C.Bus>)
    requires v.fetchPc == s.fetchPc
    ensures C.OpAfter(c, v, past) == C.OpAfter(c, s, past)
  {
  }

  lemma {:induction false} SameBound(c: Config, s: Core, v: Core, lanes: seq<C.Bus>, st: nat)
    requires v.fetchPc == s.fetchPc
    ensures Bound(c, v, lanes, st) == Bound(c, s, lanes, st)
    decreases |lanes|
  {
    if lanes != [] { SameBound(c, s, v, lanes[..|lanes| - 1], st); }
  }

  lemma LaneBounds(c: Config, s: Core, e: Edge, st: nat, q: Ring)
    requires Sized(c, s) && EdgeOk(c, s, e) && e.Tick? && Shows(c, s.live, st, q) && st in c.inOrder
    ensures |e.lanes| <= |q.table| && Sources(s, e.acts) && e.commits <= s.rob.used
    ensures var v := Drained(c, s, e.acts, e.commits, e.drain);
            v.fetchPc == s.fetchPc && v.path == s.path && v.live == LiveAfter(c, s, e.acts) && C.Found(c, v, s.live, e.lanes)
  {
    hide Wrap, LiveAfter, Reported, Written, Resolved, Pushed, ArfPorts, RtPorts, Frees, Plan, PopCount, C.Found, Fifo, Count, Config.OpOk;
    Ticking(c, s, e);
  }

  /** After an ordinary cycle the ring shows the station's rows, the landed ones youngest. */
  lemma TickShows(c: Config, s: Core, e: Edge, st: nat, q: Ring)
    requires Inv(c, s) && Sized(c, s) && EdgeOk(c, s, e) && e.Tick? && StaysSized(c, s, e) && Shows(c, s.live, st, q) && st in c.inOrder
    requires |q.table| > 0 && InRun(c, s, e.lanes, st, q)
    ensures q.alloc < |q.table| && Shows(c, AtEdge(c, s, e).live, st, TickRing(c, s, e, st, q))
  {
    hide Wrap, Inv, EdgeOk, StaysSized, AtEdge, Drained, LiveAfter, Written, Resolved, RingEdge, Arrivals, Bound, C.Found, InRun,
         Count, Contents, Plan, PopCount, Fifo, C.Rows, Rows, AtStation, C.Promises, Sized, Issues, Stays, C.Landed;
    Ticking(c, s, e);
    LaneBounds(c, s, e, st, q);
    Ringed(c, s.live, st, q);
    var v := Drained(c, s, e.acts, e.commits, e.drain);
    var events := BackEndIsRun(c, s, e);
    E.Counted(c, v);
    Landing(c, s, e);
    var promised, takes, wbs, tag := C.Promises(c, v, e.lanes), Issues(e.acts, st), Written(c, s, e.acts), Resolved(s, e.acts);
    var recs := Arrivals(c, v, e.lanes, promised, st);
    SameFetch(c, s, v, e.lanes, st, q);
    SameBound(c, s, v, e.lanes, st);
    W.SamePc(c, s, v, e.lanes);
    assert e.lanes[..|e.lanes|] == e.lanes;
    RunFits(c, s, e.lanes, |e.lanes|, st, q);
    MovesShow(c, s, e.acts, st, q);
    LanesShow(c, v, e.lanes, promised, st, q, takes, wbs, tag);
    HeadLeaves(c, s, e.acts, st, q);
    EdgeIsQueue(q, takes, wbs, tag, recs);
    EdgeAscends(c, s, v, e.lanes, promised, st, q, takes, wbs, tag);
    LandedLive(c, v, e.lanes, promised);
  }

  lemma LandedLive(c: Config, v: Core, lanes: seq<C.Bus>, promised: seq<nat>)
    requires Sized(c, v) && PopCount(C.Asks(c, v, lanes)) <= v.prf.free
    ensures C.Landed(c, v, lanes, promised).live == C.Rows(c, v, lanes, promised)
  {
    hide Wrap, PopCount, Sized;
  }

  lemma EdgeAscends(c: Config, s: Core, v: Core, lanes: seq<C.Bus>, promised: seq<nat>, st: nat, q: Ring, takes: bool, wbs: seq<P.WbPort>,
                    sucTag: Mask)
    requires Sized(c, s) && Sized(c, v) && v.path == s.path && Shows(c, s.live, st, q) && q.alloc < |q.table|
    requires Count(q) + Bound(c, v, lanes, st) <= |q.table| && (takes ==> Count(q) > 0)
    ensures Ascending(Contents(RingEdge(q, takes, wbs, sucTag, Arrivals(c, v, lanes, promised, st))))
  {
    hide Wrap, Sized, RingEdge, Arrivals, Count, Contents, PopCount, Shows, Stays;
    var recs := Arrivals(c, v, lanes, promised, st);
    var t, n, gone := RingEdge(q, takes, wbs, sucTag, recs), Count(q), if takes then 1 else 0;
    Queue(c, s.live, st, q);
    EdgeIsQueue(q, takes, wbs, sucTag, recs);
    ArrivalsAscend(c, v, lanes, promised, st);
    forall j | 0 <= j < n ensures Contents(q)[j].n < |s.path| && Stays(Contents(q)[j], wbs, sucTag).n == Contents(q)[j].n {
      WaitsOlder(c, s, st, q, j);
      SameNumber(Contents(q)[j], wbs, sucTag);
    }
    var k := n - gone;
    assert forall j | 0 <= j < |recs| :: recs[j] in recs;
    forall i, j | 0 <= i < j < Count(t) ensures Contents(t)[i].n < Contents(t)[j].n {
      assert i < k ==> Contents(t)[i].n == Contents(q)[gone + i].n;
      assert if j < k then Contents(t)[j].n == Contents(q)[gone + j].n else Contents(t)[j] == recs[j - k];
      assert i >= k ==> Contents(t)[i] == recs[i - k];
    }
  }

  lemma WaitsOlder(c: Config, s: Core, st: nat, q: Ring, j: nat)
    requires Sized(c, s) && Shows(c, s.live, st, q) && j < Count(q)
    ensures |q.table| > 0 && Contents(q)[j].n < |s.path|
  {
    hide Wrap, Shows, Count, Contents, Config.OpOk;
    Ringed(c, s.live, st, q);
    Waits(c, s.live, st, q, j);
  }

  lemma SameNumber(r: Rec, wbs: seq<P.WbPort>, sucTag: Mask)
    ensures Stays(r, wbs, sucTag).n == r.n
  {
    hide Woken;
  }

  /** After a squash cycle too: what the kill takes is the last of the queue. */
  lemma SquashCycleShows(c: Config, s: Core, e: Edge, st: nat, q: Ring)
    requires Inv(c, s) && Sized(c, s) && EdgeOk(c, s, e) && e.Squash? && StaysSized(c, s, e) && Shows(c, s.live, st, q) && st in c.inOrder
    requires |q.table| > 0
    ensures Shows(c, AtEdge(c, s, e).live, st, SquashRing(c, s, e, st, q))
  {
    hide Wrap, Inv, LiveAfter, Written, Resolved, Reported, Pushed, Plan, Shows, Sized, BranchTarget, DoMisPredict, KillRing, WakeRing, Broadcast,
         S.CanDrain, Moves;
    assert QuietPlan(c, s, e.acts, e.p) && AtLastStage(c, s, e.p);
    assert e.acts[..|e.acts|] == e.acts;
    E.MovesAreEvents(c, s, e.acts, |e.acts|);
    SquashReadsRegisters(c, s, e.acts, e.p);
    QuietShows(c, s, e.acts, e.p, st, q);
    SquashShows(c, Moves(c, s, e.acts), e.p, st, WakeRing(q, Written(c, s, e.acts)));
  }

  /** Beside a squash a station only hears the broadcasts. */
  lemma QuietShows(c: Config, s: Core, acts: seq<Act>, p: Place, st: nat, q: Ring)
    requires Sized(c, s) && QuietPlan(c, s, acts, p) && Shows(c, s.live, st, q) && st in c.inOrder && |q.table| > 0
    ensures Sources(s, acts) && Shows(c, Moves(c, s, acts).live, st, WakeRing(q, Written(c, s, acts)))
  {
    hide Wrap, Written, Resolved, Plan, Sized, BranchTarget, Shows, WakeRing, RingEdge, LiveAfter, Moves, AtStation, Rows, Issues, AtLastStage,
         Pushed;
    QuietActs(c, s, acts, p);
    QuietPorts(c, s, acts);
    Ringed(c, s.live, st, q);
    MovesShow(c, s, acts, st, q);
    MovesLive(c, s, acts);
    WokenEdge(st, q, Written(c, s, acts));
    NothingIssues(acts, st);
    WokenShows(c, s.live, Moves(c, s, acts).live, st, q, Written(c, s, acts));
  }

  lemma NothingIssues(acts: seq<Act>, st: nat)
    requires forall i | 0 <= i < |acts| :: acts[i].p.Stage?
    ensures !Issues(acts, st)
  {
  }

  lemma WokenShows(c: Config, live: Live, t: Live, st: nat, q: Ring, wbs: seq<P.WbPort>)
    requires Shows(c, live, st, q) && AtStation(t, st) == Rows(st, WakeRing(q, wbs).table)
    ensures Shows(c, t, st, WakeRing(q, wbs))
  {
    hide Wrap, Count, Contents, Run, Woken, AtStation, Rows;
    WakeKeeps(q, wbs);
  }

  lemma QuietActs(c: Config, s: Core, acts: seq<Act>, p: Place)
    requires Sized(c, s) && QuietPlan(c, s, acts, p)
    ensures Sources(s, acts) && Plan(c, s, acts) && forall i | 0 <= i < |acts| :: acts[i].p.Stage?
    ensures forall i | 0 <= i < |acts| ::
              if acts[i].Done? then !s.live[acts[i].p].op.isBranch else acts[i].p.Stage? && acts[i].p.station != c.lsStation
  {
    hide Wrap, Sized, BranchTarget, Ready;
    forall i | 0 <= i < |acts| ensures acts[i].p.Stage? { assert ActOk(c, s, acts[i]); }
  }

  lemma MovesLive(c: Config, s: Core, acts: seq<Act>)
    requires Sized(c, s) && Sources(s, acts)
    ensures Moves(c, s, acts).live == LiveAfter(c, s, acts)
  {
    hide Wrap, LiveAfter;
  }

  /** With nothing leaving, resolving or landing, the edge is the wake-up. */
  lemma WokenEdge(st: nat, q: Ring, wbs: seq<P.WbPort>)
    requires q.alloc < |q.table|
    ensures Rows(st, RingEdge(q, false, wbs, {}, []).table) == Rows(st, WakeRing(q, wbs).table)
  {
    hide Wrap, Woken;
    assert RingEdge(q, false, wbs, {}, []).table == WokenRows(q.table, wbs);
  }

  // --- every run of cycles --------------------------------------------------------------------------------

  ghost predicate Landable(c: Config, s: Core, qs: Stations, e: Edge)
    requires Fit(c, qs)
  {
    e.Tick? ==> forall st | st in qs :: InRun(c, s, e.lanes, st, qs[st])
  }

  ghost function StationsEdge(c: Config, s: Core, qs: Stations, e: Edge): Stations
    requires Sized(c, s) && Fit(c, qs) && EdgeOk(c, s, e) && StaysSized(c, s, e)
  {
    map st | st in qs :: if e.Tick? then TickRing(c, s, e, st, qs[st]) else SquashRing(c, s, e, st, qs[st])
  }

  /** Reset, then cycles whose lanes land where the in-order stations' ports say. */
  ghost predicate QueuedClock(c: Config, z: Core, s: Core, qs: Stations, edges: seq<Edge>)
    decreases |edges|
  {
    if edges == [] then Reset(c, z) && s == z && AllEmpty(c, qs)
    else exists before, was ::
      && QueuedClock(c, z, before, was, edges[..|edges| - 1])
      && Sized(c, before) && EdgeOk(c, before, edges[|edges| - 1]) && StaysSized(c, before, edges[|edges| - 1])
      && Fit(c, was) && Landable(c, before, was, edges[|edges| - 1])
      && s == AtEdge(c, before, edges[|edges| - 1]) && qs == StationsEdge(c, before, was, edges[|edges| - 1])
  }

  /** After any number of cycles, each in-order station's ring shows the clocked core's rows,
      oldest first: what issued was its head, and what every squash killed was its last. */
  lemma {:induction false} ClockedQueuesShow(c: Config, z: Core, s: Core, qs: Stations, edges: seq<Edge>)
    requires QueuedClock(c, z, s, qs, edges)
    ensures Clocked(c, z, s, edges) && AllShow(c, s, qs)
    decreases |edges|
  {
    hide Inv, Sized, EdgeOk, StaysSized, AtEdge, Reset, AllEmpty, AllShow, Fit, StationsEdge, Landable;
    if edges == [] {
      ResetShows(c, s, qs);
    } else {
      var last := edges[|edges| - 1];
      var before, was :| QueuedClock(c, z, before, was, edges[..|edges| - 1])
                         && Sized(c, before) && EdgeOk(c, before, last) && StaysSized(c, before, last)
                         && Fit(c, was) && Landable(c, before, was, last)
                         && s == AtEdge(c, before, last) && qs == StationsEdge(c, before, was, last);
      ClockedQueuesShow(c, z, before, was, edges[..|edges| - 1]);
      var events := ClockedIsReached(c, z, before, edges[..|edges| - 1]);
      RunKeeps(c, z, before, events);
      EdgeShows(c, before, was, last);
    }
  }

  lemma EdgeShows(c: Config, s: Core, qs: Stations, e: Edge)
    requires Inv(c, s) && Sized(c, s) && AllShow(c, s, qs) && Fit(c, qs) && EdgeOk(c, s, e) && StaysSized(c, s, e) && Landable(c, s, qs, e)
    ensures AllShow(c, AtEdge(c, s, e), StationsEdge(c, s, qs, e))
  {
    hide Inv, Sized, EdgeOk, StaysSized, AtEdge, Shows, TickRing, SquashRing, InRun;
    forall st | st in qs ensures Shows(c, AtEdge(c, s, e).live, st, StationsEdge(c, s, qs, e)[st]) {
      if e.Tick? { TickShows(c, s, e, st, qs[st]); } else { SquashCycleShows(c, s, e, st, qs[st]); }
    }
  }
}

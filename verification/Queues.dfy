/**
 The in-order stations inside the engine.

 The engine keeps what waits as a map and lets an in-order station offer its oldest
 record. The source keeps two pointers and offers the row the head names. Here every
 in-order station has its own registers beside the engine's, moved by the ring's own
 updates, and it is proved that the two never part: the ring shows the engine's rows
 oldest first, so the head is the row the engine would offer, the allocation pointer names
 a free row whenever there is one, and a squash always takes the last of the queue.
 */
module Queues {
  import opened Rings
  import opened Program
  import opened Records
  import opened Engine
  import opened Invariant
  import opened Theorems
  import opened Station
  import opened InOrderStation
  import opened Cycle
  import opened Progress
  import K = KillMask
  import P = Physical
  import R = KeepReport
  import Q = KeepSquash
  import S = Stores
  import Results

  // --- the ring shows the engine's rows ----------------------------------------------------

  /** The places of one station's table. */
  function AtStation(live: Live, st: nat): Live
  {
    map p | p in live && p.Row? && p.station == st :: live[p]
  }

  predicate Ascending(recs: seq<Rec>)
  {
    forall i, j | 0 <= i < j < |recs| :: recs[i].n < recs[j].n
  }

  /** The station's valid rows are the engine's, and from the head on they are in program
      order. */
  ghost predicate Shows(c: Config, live: Live, st: nat, q: Ring)
  {
    Fifo(q) && |q.table| == c.rows(st) && AtStation(live, st) == Rows(st, q.table) && Ascending(Contents(q))
  }

  // --- what each event does to a ring --------------------------------------------------------

  /** The broadcasts a report makes. */
  ghost function Broadcast(c: Config, r: Rec): seq<P.WbPort>
  {
    if r.op.required then [P.WbPort(r.pr, Value(c, r))] else []
  }

  ghost function RingNext(c: Config, s: Core, e: Event, st: nat, q: Ring): Ring
    requires Sized(c, s) && q.head < |q.table| && q.alloc < |q.table|
  {
    match e
    case Complete(p) => if p in s.live then WakeRing(q, Broadcast(c, s.live[p])) else q
    case Resolve(p) =>
      if p in s.live then MaskRing(WakeRing(q, Broadcast(c, s.live[p])), s.live[p].tag) else q
    case MisPredict(p) =>
      if p in s.live then KillRing(WakeRing(q, Broadcast(c, s.live[p])), K.FixTag(s.mpft, s.live[p].tag)) else q
    case Issue(p, _) => if p.station == st then TakeHead(q) else q
    case Dispatch(_) => if c.isa.prog(s.fetchPc).station == st then Land(q, NewRecord(c, s)) else q
    case _ => q
  }

  // --- the places, map by map ------------------------------------------------------------------

  lemma AtWake(live: Live, st: nat, pr: nat, value: Word)
    ensures AtStation(Wake(live, pr, value), st) == Wake(AtStation(live, st), pr, value)
  {
    hide WakeSlots;
  }

  lemma AtResolve(live: Live, st: nat, tag: Mask)
    ensures AtStation(Records.Resolve(live, tag), st) == Records.Resolve(AtStation(live, st), tag)
  {
    hide MaskRec;
  }

  lemma AtKill(live: Live, st: nat, fix: Mask)
    ensures AtStation(Kill(live, fix), st) == Kill(AtStation(live, st), fix)
  {
    hide Squashed;
  }

  lemma RowsLand(st: nat, table: seq<Entry>, i: nat, r: Rec)
    requires i < |table|
    ensures Rows(st, table[i := Entry(true, r)]) == Rows(st, table)[Row(st, i) := r]
  {
  }

  lemma RowsTake(st: nat, table: seq<Entry>, i: nat)
    requires i < |table|
    ensures Rows(st, table[i := table[i].(valid := false)]) == Rows(st, table) - {Row(st, i)}
  {
  }

  /** What waits is in the engine's places, row by row. */
  lemma Waits(c: Config, live: Live, st: nat, q: Ring, j: nat)
    requires Shows(c, live, st, q) && j < Count(q)
    ensures Row(st, Wrap(q.head + j, |q.table|)) in live && live[Row(st, Wrap(q.head + j, |q.table|))] == Contents(q)[j]
  {
    hide Wrap, Count;
    var i := Wrap(q.head + j, |q.table|);
    assert At(q, j).valid;
    assert Row(st, i) in Rows(st, q.table);
  }

  /** A row the engine has at the station is somewhere in the queue. */
  lemma InQueue(c: Config, live: Live, st: nat, q: Ring, row: nat) returns (j: nat)
    requires Shows(c, live, st, q) && Row(st, row) in live
    ensures j < Count(q) && row == Wrap(q.head + j, |q.table|) && live[Row(st, row)] == Contents(q)[j]
  {
    hide Wrap, Count;
    assert Row(st, row) in AtStation(live, st);
    j := RowAt(q, row);
    assert At(q, j) == q.table[row];
  }

  // --- every event keeps it -----------------------------------------------------------------------

  lemma WakeShows(c: Config, live: Live, st: nat, q: Ring, wbs: seq<P.WbPort>)
    requires Shows(c, live, st, q) && |wbs| <= 1
    ensures Shows(c, if wbs == [] then live else Wake(live, wbs[0].pr, wbs[0].value), st, WakeRing(q, wbs))
  {
    hide Wrap, Count, Contents, Run, WakeSlots, Wake, AtStation, Rows;
    WakeKeeps(q, wbs);
    WakeAllIs(st, q.table, wbs);
    if wbs != [] {
      assert wbs[..0] == [];
      AtWake(live, st, wbs[0].pr, wbs[0].value);
    }
  }

  lemma MaskShows(c: Config, live: Live, st: nat, q: Ring, tag: Mask)
    requires Shows(c, live, st, q)
    ensures Shows(c, Records.Resolve(live, tag), st, MaskRing(q, tag))
  {
    hide Wrap, Count, Contents, Run, Records.Resolve, AtStation, Rows;
    Laps(q, Count(q));
    MaskKeeps(q, tag);
    MaskedIs(st, q.table, tag);
    AtResolve(live, st, tag);
    forall j | 0 <= j < Count(q) ensures Contents(MaskRing(q, tag))[j].n == Contents(q)[j].n { }
  }

  lemma KillShows(c: Config, live: Live, st: nat, q: Ring, fix: Mask)
    requires Shows(c, live, st, q) && TakesLast(q, fix)
    ensures Shows(c, Kill(live, fix), st, KillRing(q, fix))
  {
    hide Wrap, Count, Contents, Run, Kill, AtStation, Rows, TakesLast, Front, Squashed;
    KillKeeps(q, fix);
    KilledIs(st, q.table, fix);
    AtKill(live, st, fix);
    assert Fifo(q);
  }

  lemma TakeShows(c: Config, live: Live, st: nat, q: Ring, u: Place)
    requires Shows(c, live, st, q) && q.table[q.head].valid && u.Stage?
    ensures Row(st, q.head) in live && Shows(c, Move(live, Row(st, q.head), u), st, TakeHead(q))
  {
    hide Wrap, Count, Contents, Run;
    Laps(q, Count(q));
    TakeKeeps(q);
    RowsTake(st, q.table, q.head);
    assert Row(st, q.head) in Rows(st, q.table);
    assert AtStation(Move(live, Row(st, q.head), u), st) == AtStation(live, st) - {Row(st, q.head)};
  }

  lemma LandShows(c: Config, live: Live, st: nat, q: Ring, r: Rec)
    requires Shows(c, live, st, q) && q.alloc < |q.table| && !q.table[q.alloc].valid
    requires forall p | p in live :: live[p].n < r.n
    ensures Row(st, q.alloc) !in live && Shows(c, live[Row(st, q.alloc) := r], st, Land(q, r))
  {
    hide Wrap, Count, Contents, Run;
    assert Count(q) < |q.table| by { RoomLeft(q); }
    LandKeeps(q, r);
    RowsLand(st, q.table, q.alloc, r);
    assert Row(st, q.alloc) !in AtStation(live, st);
    assert AtStation(live[Row(st, q.alloc) := r], st) == AtStation(live, st)[Row(st, q.alloc) := r];
    forall j | 0 <= j < Count(q) ensures Contents(q)[j].n < r.n { Waits(c, live, st, q, j); }
  }

  lemma RoomLeft(q: Ring)
    requires Fifo(q)
    ensures q.alloc < |q.table| && (!q.table[q.alloc].valid <==> Count(q) < |q.table|)
  {
    hide Wrap, Count;
    Laps(q, Count(q));
    WrapSmall(q.alloc, |q.table|);
    PortFree(q, 0);
  }

  // --- a squash takes the last of every queue ---------------------------------------------------------

  /** Killing exactly the younger is killing the last, and the front is the older ones. */
  lemma YoungestLast(c: Config, live: Live, st: nat, q: Ring, fix: Mask, n: nat)
    requires Shows(c, live, st, q) && forall p | p in live :: Squashed(live[p], fix) <==> live[p].n > n
    ensures TakesLast(q, fix)
    ensures forall j | 0 <= j < Count(q) :: j < Front(Contents(q), fix) <==> Contents(q)[j].n <= n
  {
    hide Wrap, Count, Contents, Run, Squashed, AtStation, Front;
    Laps(q, Count(q));
    forall j | 0 <= j < Count(q) ensures Squashed(Contents(q)[j], fix) <==> Contents(q)[j].n > n {
      Waits(c, live, st, q, j);
    }
  }

  /** A report, seen at the stations: its place leaves, and it is broadcast. */
  lemma ReportShows(c: Config, s: Core, p: Place, st: nat, q: Ring)
    requires Sized(c, s) && p in s.live && p.Stage? && Shows(c, s.live, st, q)
    ensures Shows(c, Report(c, s, p).live, st, WakeRing(q, Broadcast(c, s.live[p])))
  {
    hide Wrap, Shows, Value, Wake, Sized;
    assert AtStation(s.live - {p}, st) == AtStation(s.live, st);
    assert Shows(c, s.live - {p}, st, q) by { SameRows(c, s.live, s.live - {p}, st, q); }
    WakeShows(c, s.live - {p}, st, q, Broadcast(c, s.live[p]));
  }

  lemma Ringed(c: Config, live: Live, st: nat, q: Ring)
    requires Shows(c, live, st, q)
    ensures q.head < |q.table| == c.rows(st) && q.alloc < |q.table|
  {
    hide Wrap;
    Laps(q, Count(q));
  }

  lemma SameRows(c: Config, live: Live, t: Live, st: nat, q: Ring)
    requires Shows(c, live, st, q) && AtStation(t, st) == AtStation(live, st)
    ensures Shows(c, t, st, q)
  {
  }

  /** In every consistent state, what a misprediction kills at a station is the last of its
      queue, and what stays is what is older than the branch. */
  lemma SquashShows(c: Config, s: Core, p: Place, st: nat, q: Ring)
    requires Inv(c, s) && AtLastStage(c, s, p) && s.live[p].op.isBranch && Shows(c, s.live, st, q)
    ensures var woken, fix := WakeRing(q, Broadcast(c, s.live[p])), K.FixTag(s.mpft, s.live[p].tag);
            && Shows(c, Report(c, s, p).live, st, woken) && TakesLast(woken, fix)
            && (forall j | 0 <= j < Count(woken) :: j < Front(Contents(woken), fix) <==> Contents(woken)[j].n < s.live[p].n)
            && Shows(c, DoMisPredict(c, s, p).live, st, KillRing(woken, fix))
  {
    hide Wrap, Upto, CountsOk, RobOk, TagsOk, PrfCounts, PrfValues, RtOk, ArfOk, OnceOk, OrderOk, BufferOk, MemoryOk,
         AccessOk, LinkOk, RecordsOk, ResolvedOk, PopCount, Config.OpOk, Squashed, Fin, BranchTarget, Shows, Value, Wake, Sized,
         Broadcast, Count, Contents, Front, Kill;
    var r, u := s.live[p], Report(c, s, p);
    var woken, fix := WakeRing(q, Broadcast(c, r)), K.FixTag(s.mpft, r.tag);
    ReportShows(c, s, p, st, q);
    Q.ReportsCulprit(c, s, p);
    R.ReportKeeps(c, s, p);
    Q.KillsYounger(c, u, r);
    YoungestLast(c, u.live, st, woken, fix, r.n);
    assert |woken.table| > 0 by { Ringed(c, u.live, st, woken); }
    forall j | 0 <= j < Count(woken) ensures Contents(woken)[j].n != r.n { Waits(c, u.live, st, woken, j); }
    KillShows(c, u.live, st, woken, fix);
  }

  // --- the engine with pointers ---------------------------------------------------------------

  /** The registers of every in-order station. */
  type Stations = map<nat, Ring>

  ghost predicate Fit(c: Config, qs: Stations)
  {
    qs.Keys == c.inOrder && forall st | st in qs :: qs[st].head < |qs[st].table| && qs[st].alloc < |qs[st].table|
  }

  /** What may happen, by the pointers alone: an in-order station issues the row its head
      names, and takes the next instruction into the row its allocation pointer names. */
  ghost predicate Offers(c: Config, s: Core, qs: Stations, e: Event)
    requires Sized(c, s) && Fit(c, qs)
  {
    match e
    case Issue(p, u) => if p.station in qs then OffersHead(c, s.live, p.station, qs[p.station], p, u) else CanIssue(c, s, p, u)
    case Dispatch(row) =>
      var st := c.isa.prog(s.fetchPc).station;
      if st in qs then CanRename(c, s) && row == qs[st].alloc && !qs[st].table[row].valid else CanDispatch(c, s, row)
    case _ => Enabled(c, s, e)
  }

  ghost predicate OffersHead(c: Config, live: Live, st: nat, q: Ring, p: Place, u: Place)
    requires q.head < |q.table|
  {
    var e := q.table[q.head];
    p == Row(st, q.head) && e.valid && Ready(e.rec) && u == Stage(st, 0, 0) && u !in live && c.runs(st, 0, e.rec.op.uop)
  }

  ghost function StationsNext(c: Config, s: Core, qs: Stations, e: Event): Stations
    requires Sized(c, s) && Fit(c, qs)
  {
    map st | st in qs :: RingNext(c, s, e, st, qs[st])
  }

  /** The engine moves on what the pointers offer; did they offer what it cannot do, the two
      would part. */
  ghost function CoreNext(c: Config, s: Core, e: Event): Core
    requires Sized(c, s)
  {
    if Enabled(c, s, e) then Next(c, s, e) else s
  }

  ghost predicate AllEmpty(c: Config, qs: Stations)
  {
    && qs.Keys == c.inOrder
    && forall st | st in qs :: qs[st].head == qs[st].alloc == 0 && |qs[st].table| == c.rows(st)
         && forall i | 0 <= i < c.rows(st) :: !qs[st].table[i].valid
  }

  /** s and qs are reached from reset by what the pointers offer, event by event. */
  ghost predicate Queued(c: Config, z: Core, s: Core, qs: Stations, events: seq<Event>)
    decreases |events|
  {
    if events == [] then Reset(c, z) && s == z && AllEmpty(c, qs)
    else exists before, was ::
      && Queued(c, z, before, was, events[..|events| - 1])
      && Sized(c, before) && Fit(c, was) && Offers(c, before, was, events[|events| - 1])
      && s == CoreNext(c, before, events[|events| - 1]) && qs == StationsNext(c, before, was, events[|events| - 1])
  }

  ghost predicate AllShow(c: Config, s: Core, qs: Stations)
  {
    qs.Keys == c.inOrder && forall st | st in qs :: Shows(c, s.live, st, qs[st])
  }

  lemma ShowsFit(c: Config, s: Core, qs: Stations)
    requires AllShow(c, s, qs)
    ensures Fit(c, qs)
  {
    hide Shows;
    forall st | st in qs ensures qs[st].head < |qs[st].table| && qs[st].alloc < |qs[st].table| {
      Ringed(c, s.live, st, qs[st]);
    }
  }

  // --- what the pointers offer is what the engine may do -----------------------------------------

  /** The head's row is exactly the row the engine would let issue. */
  lemma HeadIsOldest(c: Config, s: Core, st: nat, q: Ring, p: Place, u: Place)
    requires Shows(c, s.live, st, q) && st in c.inOrder && p.station == st
    ensures q.head < |q.table|
    ensures CanIssue(c, s, p, u) <==> OffersHead(c, s.live, st, q, p, u)
  {
    hide Wrap, Shows, Count, Contents, Ready;
    Ringed(c, s.live, st, q);
    assert Fifo(q) && Ascending(Contents(q)) by { Queue(c, s.live, st, q); }
    HeadIs(q);
    Laps(q, Count(q));
    if CanIssue(c, s, p, u) {
      var j := InQueue(c, s.live, st, q, p.row);
      Waits(c, s.live, st, q, 0);
    }
    if OffersHead(c, s.live, st, q, p, u) {
      Waits(c, s.live, st, q, 0);
      forall o | o in s.live && o.Row? && o.station == st ensures s.live[p].n <= s.live[o].n {
        var j := InQueue(c, s.live, st, q, o.row);
      }
    }
  }

  lemma Queue(c: Config, live: Live, st: nat, q: Ring)
    requires Shows(c, live, st, q)
    ensures Fifo(q) && |q.table| == c.rows(st) && Ascending(Contents(q))
  {
  }

  /** Some row is free exactly when the one the allocation pointer names is. */
  lemma AllocIsFree(c: Config, live: Live, st: nat, q: Ring)
    requires Shows(c, live, st, q)
    ensures q.alloc < |q.table| == c.rows(st)
    ensures !q.table[q.alloc].valid <==> Row(st, q.alloc) !in live
    ensures !q.table[q.alloc].valid <==> exists row :: 0 <= row < c.rows(st) && Row(st, row) !in live
  {
    hide Wrap, Count, Contents, Run;
    RoomLeft(q);
    assert forall row: nat :: Row(st, row) in live <==> Row(st, row) in AtStation(live, st);
    assert forall row: nat :: Row(st, row) in live <==> row < |q.table| && q.table[row].valid;
    if q.table[q.alloc].valid {
      forall row | 0 <= row < |q.table| ensures q.table[row].valid { AllTaken(q, row); }
    }
  }

  lemma AllTaken(q: Ring, row: nat)
    requires Fifo(q) && Count(q) >= |q.table| && row < |q.table|
    ensures q.table[row].valid
  {
    hide Wrap, Count;
    var j := RowAt(q, row);
    assert At(q, j).valid;
  }

  /** The pointers offer what the engine may do, and of the rows of an in-order station that
      the engine may dispatch into, the one at the allocation pointer. */
  lemma OffersIs(c: Config, s: Core, qs: Stations, e: Event)
    requires Sized(c, s) && AllShow(c, s, qs)
    ensures Fit(c, qs)
    ensures var st := c.isa.prog(s.fetchPc).station;
            Offers(c, s, qs, e) <==> Enabled(c, s, e) && (e.Dispatch? && st in qs ==> e.row == qs[st].alloc)
  {
    hide Wrap, Shows, CanRename, S.CanDrain, OffersHead, CanCommit, AtLastStage, CanHop, CanAccess, Sized;
    ShowsFit(c, s, qs);
    if e.Issue? && e.p.station in qs {
      HeadIsOldest(c, s, e.p.station, qs[e.p.station], e.p, e.q);
    }
    var st := c.isa.prog(s.fetchPc).station;
    if e.Dispatch? && st in qs { AllocIsFree(c, s.live, st, qs[st]); }
  }

  // --- every event keeps every ring showing -------------------------------------------------------

  lemma EventShows(c: Config, s: Core, qs: Stations, e: Event, st: nat)
    requires Inv(c, s) && AllShow(c, s, qs) && Fit(c, qs) && Offers(c, s, qs, e) && Enabled(c, s, e) && st in qs
    ensures Shows(c, Next(c, s, e).live, st, RingNext(c, s, e, st, qs[st]))
  {
    hide Wrap, Shows, CanRename, S.CanDrain, CanCommit, Inv, Sized, Report, DoMisPredict, Ready, Broadcast, NewRecord, BranchTarget, Loaded;
    Results.Counts(c, s);
    var q := qs[st];
    match e
    case Complete(p) => ReportShows(c, s, p, st, q);
    case Resolve(p) =>
      ReportShows(c, s, p, st, q);
      MaskShows(c, Report(c, s, p).live, st, WakeRing(q, Broadcast(c, s.live[p])), s.live[p].tag);
    case MisPredict(p) => SquashShows(c, s, p, st, q);
    case Issue(p, u) =>
      if p.station == st { TakeShows(c, s.live, st, q, u); } else { MovedElsewhere(c, s.live, p, u, s.live[p], st, q); }
    case Hop(p, u) => MovedElsewhere(c, s.live, p, u, s.live[p], st, q);
    case Access(p, u) => MovedElsewhere(c, s.live, p, u, DoAccess(c, s, p, u).live[u], st, q);
    case Dispatch(row) => DispatchShows(c, s, row, st, q);
    case _ =>
  }

  lemma MovedElsewhere(c: Config, live: Live, p: Place, u: Place, r: Rec, st: nat, q: Ring)
    requires Shows(c, live, st, q) && p in live && u.Stage? && (p.Row? ==> p.station != st)
    ensures Shows(c, (live - {p})[u := r], st, q)
  {
    hide Shows;
    assert AtStation((live - {p})[u := r], st) == AtStation(live, st);
    SameRows(c, live, (live - {p})[u := r], st, q);
  }

  lemma DispatchShows(c: Config, s: Core, row: nat, st: nat, q: Ring)
    requires Sized(c, s) && Shows(c, s.live, st, q) && CanDispatch(c, s, row)
    requires q.head < |q.table| && q.alloc < |q.table|
    requires c.isa.prog(s.fetchPc).station == st ==> row == q.alloc && !q.table[row].valid
    ensures Shows(c, DoDispatch(c, s, row).live, st, RingNext(c, s, Dispatch(row), st, q))
  {
    hide Wrap, Shows, CanRename;
    var r, live := NewRecord(c, s), DoDispatch(c, s, row).live;
    if r.op.station == st {
      LandShows(c, s.live, st, q, r);
    } else {
      assert AtStation(live, st) == AtStation(s.live, st);
      SameRows(c, s.live, live, st, q);
    }
  }

  lemma StepShows(c: Config, s: Core, qs: Stations, e: Event)
    requires Inv(c, s) && AllShow(c, s, qs) && Fit(c, qs) && Sized(c, s) && Offers(c, s, qs, e)
    ensures Enabled(c, s, e) && AllShow(c, Next(c, s, e), StationsNext(c, s, qs, e))
  {
    hide Shows, Inv, Sized, Offers, Enabled, Next, RingNext;
    OffersIs(c, s, qs, e);
    forall st | st in qs ensures Shows(c, Next(c, s, e).live, st, RingNext(c, s, e, st, qs[st])) {
      EventShows(c, s, qs, e, st);
    }
  }

  lemma ResetShows(c: Config, s: Core, qs: Stations)
    requires Reset(c, s) && AllEmpty(c, qs)
    ensures AllShow(c, s, qs)
  {
    hide Wrap, Count, Config.OpOk;
    assert Wrap(0, 1) == 0;
    forall st | st in qs ensures Shows(c, s.live, st, qs[st]) { EmptyShows(c, s.live, st, qs[st]); }
  }

  lemma EmptyShows(c: Config, live: Live, st: nat, q: Ring)
    requires live == map[] && q.head == q.alloc == 0 && |q.table| == c.rows(st) > 0
    requires forall i | 0 <= i < c.rows(st) :: !q.table[i].valid
    ensures Shows(c, live, st, q)
  {
    hide Count;
    RunCounts(q, 0);
    assert Rows(st, q.table) == map[];
  }

  // --- every run -------------------------------------------------------------------------------------

  /** Whatever the engine with pointers reaches, the engine reaches by the same events; and
      in every state the rings show its rows, oldest first. */
  lemma {:induction false} QueuesShow(c: Config, z: Core, s: Core, qs: Stations, events: seq<Event>)
    requires Queued(c, z, s, qs, events)
    ensures Reaches(c, z, s, events) && AllShow(c, s, qs)
    decreases |events|
  {
    hide Inv, Sized, Offers, Enabled, Next, Reset, AllEmpty, AllShow, Fit, StationsNext;
    if events == [] {
      ResetShows(c, s, qs);
    } else {
      var last := events[|events| - 1];
      var before, was :| Queued(c, z, before, was, events[..|events| - 1])
                         && Sized(c, before) && Fit(c, was) && Offers(c, before, was, last)
                         && s == CoreNext(c, before, last) && qs == StationsNext(c, before, was, last);
      QueuesShow(c, z, before, was, events[..|events| - 1]);
      RunKeeps(c, z, before, events[..|events| - 1]);
      StepShows(c, before, was, last);
    }
  }

  /** In every reachable state, a misprediction kills the last of every in-order station's
      queue, as its registers stand: what survives is the part in front, the records older
      than the branch, and head plus survivors is the tail. */
  lemma SquashTakesLast(c: Config, z: Core, s: Core, qs: Stations, events: seq<Event>, p: Place, st: nat)
    requires Queued(c, z, s, qs, events) && Sized(c, s) && Enabled(c, s, MisPredict(p)) && st in qs
    ensures |qs[st].table| > 0
    ensures var q, fix := qs[st], K.FixTag(s.mpft, s.live[p].tag);
            var kept := Front(Contents(q), fix);
            && TakesLast(q, fix) && Fifo(KillRing(q, fix)) && Contents(KillRing(q, fix)) == Contents(q)[..kept]
            && forall j | 0 <= j < Count(q) :: j < kept <==> Contents(q)[j].n < s.live[p].n
  {
    hide Wrap, Inv, Sized, Queued, Reaches, Shows, Count, Contents, Front, TakesLast, BranchTarget, Broadcast, KillRing, WakeRing;
    QueuesShow(c, z, s, qs, events);
    RunKeeps(c, z, s, events);
    var q, fix, wbs := qs[st], K.FixTag(s.mpft, s.live[p].tag), Broadcast(c, s.live[p]);
    Ringed(c, s.live, st, q);
    Queue(c, s.live, st, q);
    SquashShows(c, s, p, st, q);
    WokenAlike(q, wbs, fix);
    KillKeeps(q, fix);
  }

  /** A wake-up changes nothing a squash reads. */
  lemma WokenAlike(q: Ring, wbs: seq<P.WbPort>, fix: Mask)
    requires Fifo(q) && |q.table| > 0 && TakesLast(WakeRing(q, wbs), fix)
    ensures TakesLast(q, fix) && Count(WakeRing(q, wbs)) == Count(q)
    ensures Front(Contents(WakeRing(q, wbs)), fix) == Front(Contents(q), fix)
    ensures forall j | 0 <= j < Count(q) :: Contents(WakeRing(q, wbs))[j].n == Contents(q)[j].n
  {
    hide Wrap, Count, Contents, Front, Woken;
    WakeKeeps(q, wbs);
    var w := Contents(WakeRing(q, wbs));
    assert forall j | 0 <= j < Count(q) :: Squashed(w[j], fix) == Squashed(Contents(q)[j], fix) && w[j].n == Contents(q)[j].n;
  }

  /** In every reachable state, the pointers offer exactly what the engine may do, with the
      allocation pointer choosing the row; and it names a free row whenever there is one. */
  lemma PointersOffer(c: Config, z: Core, s: Core, qs: Stations, events: seq<Event>, e: Event)
    requires Queued(c, z, s, qs, events) && Sized(c, s)
    ensures Fit(c, qs)
    ensures var st := c.isa.prog(s.fetchPc).station;
            && (Offers(c, s, qs, e) <==> Enabled(c, s, e) && (e.Dispatch? && st in qs ==> e.row == qs[st].alloc))
            && (e.Dispatch? && st in qs && Enabled(c, s, e) ==> Offers(c, s, qs, Dispatch(qs[st].alloc)))
  {
    hide Wrap, Sized, Queued, Reaches, Shows, Offers;
    QueuesShow(c, z, s, qs, events);
    OffersIs(c, s, qs, e);
    var st := c.isa.prog(s.fetchPc).station;
    if e.Dispatch? && st in qs {
      AllocIsFree(c, s.live, st, qs[st]);
      OffersIs(c, s, qs, Dispatch(qs[st].alloc));
    }
  }

  /** By what the pointers offer alone, everything in flight retires and every store gets to
      memory: no head ever blocks. */
  lemma {:induction false} QueuesComeToRest(c: Config, z: Core, s: Core, qs: Stations, events: seq<Event>)
    returns (more: seq<Event>, t: Core, ts: Stations)
    requires Queued(c, z, s, qs, events)
    ensures Queued(c, z, t, ts, events + more) && (forall i | 0 <= i < |more| :: Internal(more[i]))
    ensures t.ret == |t.path| && t.written == t.buffered
    decreases Measure(c, s)
  {
    hide Inv, Sized, Enabled, Next, Measure, Reaches, Queued, AllShow, Offers, StationsNext, Fit;
    QueuesShow(c, z, s, qs, events);
    RunKeeps(c, z, s, events);
    MeasureNat(c, s);
    if s.ret == |s.path| && s.written == s.buffered {
      more, t, ts := [], s, qs;
      assert events + more == events;
    } else {
      assert s.ret < |s.path| || s.written < s.buffered by { NotPast(c, s); }
      var e := NeverStuck(c, z, s, events);
      OffersIs(c, s, qs, e);
      Advances(c, s, e);
      QueuedNext(c, z, s, qs, events, e);
      QueuesShow(c, z, Next(c, s, e), StationsNext(c, s, qs, e), events + [e]);
      RunKeeps(c, z, Next(c, s, e), events + [e]);
      MeasureNat(c, Next(c, s, e));
      var rest;
      rest, t, ts := QueuesComeToRest(c, z, Next(c, s, e), StationsNext(c, s, qs, e), events + [e]);
      more := [e] + rest;
      assert events + more == events + [e] + rest;
    }
  }

  lemma QueuedNext(c: Config, z: Core, s: Core, qs: Stations, events: seq<Event>, e: Event)
    requires Queued(c, z, s, qs, events) && Sized(c, s) && Fit(c, qs) && Offers(c, s, qs, e) && Enabled(c, s, e)
    ensures Queued(c, z, Next(c, s, e), StationsNext(c, s, qs, e), events + [e])
  {
    hide Sized, Enabled, Next, Offers, StationsNext, Fit;
    var all := events + [e];
    assert all[..|all| - 1] == events && all[|all| - 1] == e;
  }
}

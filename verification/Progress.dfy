/** The engine never gets stuck: no wakeup is lost, something can always move, and left
    alone it finishes what is in flight. */
module Progress {
  import opened Rings
  import opened Program
  import opened Records
  import opened Engine
  import opened Invariant
  import opened Theorems
  import S = Stores
  import P = Physical
  import R = KeepReport
  import M = KeepMove
  import A = KeepAccess
  import Results
  import Q = KeepSquash

  lemma RecordAt(c: Config, s: Core, p: Place)
    requires Sized(c, s) && CountsOk(c, s) && RecordsOk(c, s) && p in s.live
    ensures RecordIs(c, s, p, s.live[p]) && SlotsOk(c, s, s.live[p])
    ensures s.live[p].op == s.path[s.live[p].n].op && c.OpOk(s.live[p].op)
  {
    hide Wrap, Upto, Config.OpOk, SlotsOk;
    Decoded(c, s.path, s.live[p].n);
  }

  /** A source still waiting names the register of an older instruction that writes that
      very register, has not reported, and has a record somewhere. */
  lemma NoLostWakeup(c: Config, z: Core, s: Core, events: seq<Event>, p: Place, j: nat) returns (q: Place)
    requires Reaches(c, z, s, events)
    requires p in s.live && j < |s.live[p].slots| && s.live[p].slots[j].active && !s.live[p].slots[j].valid
    ensures q in s.live && s.live[q].n < s.live[p].n && s.live[q].pr == s.live[p].slots[j].pr
    ensures j < |s.live[p].op.srcs| && s.live[p].op.srcs[j].Reg? && Writes(c, s.live[q].op, s.live[p].op.srcs[j].ar)
    ensures Sized(c, s) && !s.rob.table[s.live[q].rob].fin
  {
    hide Wrap, Upto, RobOk, TagsOk, ResolvedOk, PrfCounts, PrfValues, RtOk, ArfOk, OrderOk, LinkOk, BufferOk, MemoryOk,
         AccessOk, Config.OpOk, Reaches;
    RunKeeps(c, z, s, events);
    RecordAt(c, s, p);
    var r := s.live[p];
    assert SlotOk(c, s, r.n, r.op.srcs[j], r.slots[j]);
    var ar := r.op.srcs[j].ar;
    var w := Upto(c, s.path, r.n).writer[ar];
    WriterHolds(c, s.path, r.n, ar);
    assert Holds(s, w);
    q :| q in s.live && s.live[q].n == w;
    RecordAt(c, s, q);
  }

  /** p holds the oldest instruction that has not reported. */
  ghost predicate Oldest(s: Core, p: Place)
  {
    p in s.live && forall q | q in s.live :: s.live[p].n <= s.live[q].n
  }

  /** The oldest unreported instruction waits for nothing. */
  lemma OldestIsReady(c: Config, s: Core, p: Place)
    requires Inv(c, s) && Oldest(s, p)
    ensures Ready(s.live[p])
  {
    hide Wrap, Upto, RobOk, TagsOk, ResolvedOk, PrfCounts, PrfValues, RtOk, ArfOk, OrderOk, LinkOk, BufferOk, MemoryOk,
         AccessOk, Config.OpOk;
    RecordAt(c, s, p);
    var r := s.live[p];
    forall j | 0 <= j < |r.slots| && r.slots[j].active ensures r.slots[j].valid {
      assert SlotOk(c, s, r.n, r.op.srcs[j], r.slots[j]);
      assert !r.slots[j].valid ==>
          var w := Upto(c, s.path, r.n).writer[r.op.srcs[j].ar];
          w >= 0 && Holds(s, w);
    }
  }

  // --- something can always move ------------------------------------------------------

  /** An event of the back end: anything but a new instruction coming in. */
  predicate Internal(e: Event) { !e.Dispatch? && !e.EmptyLane? }

  /** A record at its unit's last stage can report. */
  lemma CanReport(c: Config, s: Core, p: Place) returns (e: Event)
    requires Sized(c, s) && AtLastStage(c, s, p)
    ensures Internal(e) && Enabled(c, s, e)
  {
    hide Wrap, Config.OpOk;
    e := if !s.live[p].op.isBranch then Complete(p)
         else if BranchTarget(c, s.live[p]) == s.live[p].npc then Resolve(p) else MisPredict(p);
  }

  /** A record in a unit outside the memory station, or the one furthest along it, can move. */
  lemma {:induction false} UnitMoves(c: Config, s: Core, p: Place) returns (e: Event)
    requires Inv(c, s) && p in s.live && p.Stage? && p.station != c.lsStation
    ensures Internal(e) && Enabled(c, s, e)
    decreases c.lastStage(p.station, p.unit) - p.stage
  {
    hide Wrap, Upto, RobOk, TagsOk, ResolvedOk, PrfCounts, PrfValues, RtOk, ArfOk, OnceOk, OrderOk, LinkOk, BufferOk,
         MemoryOk, AccessOk, Config.OpOk, SlotsOk, TagIs, Fin;
    assert RecordIs(c, s, p, s.live[p]);
    if p.stage == c.lastStage(p.station, p.unit) {
      e := CanReport(c, s, p);
    } else {
      var q := Stage(p.station, p.unit, p.stage + 1);
      if q in s.live { e := UnitMoves(c, s, q); } else { e := Hop(p, q); }
    }
  }

  /** The memory unit moves whenever it holds the oldest instruction: a store in its turn
      finds room, or the buffer's head is free to drain. */
  lemma MemoryMoves(c: Config, s: Core, p: Place) returns (e: Event)
    requires Inv(c, s) && Oldest(s, p) && p.Stage? && p.station == c.lsStation && s.live[p].n == s.ret
    ensures Internal(e) && Enabled(c, s, e)
  {
    hide Wrap, Upto, RobOk, TagsOk, ResolvedOk, PrfCounts, PrfValues, RtOk, ArfOk, OnceOk, LinkOk, BufferOk,
         MemoryOk, AccessOk, Config.OpOk, SlotsOk, TagIs, Fin;
    assert RecordIs(c, s, p, s.live[p]);
    if p.stage == c.lastStage(p.station, p.unit) {
      e := CanReport(c, s, p);
    } else {
      var q := Stage(p.station, p.unit, 1);
      A.Turn(c, s, p);
      if S.IsFull(s.sb, c.sbDepth) {
        A.FullExactly(c, s);
        HeadDrains(c, s);
        e := Drain;
      } else {
        e := Access(p, q);
      }
    }
  }

  /** Retired stores not yet written can be written. */
  lemma HeadDrains(c: Config, s: Core)
    requires Sized(c, s) && CountsOk(c, s) && BufferOk(c, s) && s.written < Upto(c, s.path, s.ret).sts
    ensures S.CanDrain(s.sb, c.sbDepth)
  {
    hide Wrap, Upto, Config.OpOk;
    var j := StoreNumbered(c, s.path, s.ret, s.written);
    Results.OldestBuffered(c, s, j);
  }

  /** While anything is in flight, or retired stores wait for memory, the back end can act. */
  lemma NeverStuck(c: Config, z: Core, s: Core, events: seq<Event>) returns (e: Event)
    requires Reaches(c, z, s, events)
    requires s.ret < |s.path| || s.written < s.buffered
    ensures Sized(c, s) && Internal(e) && Enabled(c, s, e)
  {
    hide Wrap, Upto, TagsOk, ResolvedOk, PrfCounts, PrfValues, RtOk, ArfOk, OrderOk, LinkOk, BufferOk,
         MemoryOk, AccessOk, Config.OpOk, SlotsOk, TagIs, Reaches;
    RunKeeps(c, z, s, events);
    if s.ret == |s.path| {
      HeadDrains(c, s);
      e := Drain;
    } else if Fin(c, s, s.ret) {
      e := Commit;
    } else {
      assert Holds(s, s.ret);
      var p :| p in s.live && s.live[p].n == s.ret;
      forall q | q in s.live ensures s.ret <= s.live[q].n { assert RecordIs(c, s, q, s.live[q]); }
      e := OldestMoves(c, s, p);
    }
  }

  /** Some unit of its station runs the instruction, the only one where it must be that. */
  lemma UnitFor(c: Config, s: Core, p: Place) returns (unit: nat)
    requires Inv(c, s) && p in s.live
    ensures c.runs(p.station, unit, s.live[p].op.uop) && (p.station in c.inOrder ==> unit == 0)
  {
    hide Wrap, Upto, RobOk, TagsOk, ResolvedOk, PrfCounts, PrfValues, RtOk, ArfOk, OnceOk, LinkOk, BufferOk,
         MemoryOk, AccessOk, SlotsOk, TagIs, Fin, OrderOk;
    var op := s.live[p].op;
    assert RecordIs(c, s, p, s.live[p]) && c.OpOk(op);
    if p.station in c.inOrder { unit := 0; } else { unit :| c.runs(op.station, unit, op.uop); }
  }

  lemma OldestMoves(c: Config, s: Core, p: Place) returns (e: Event)
    requires Inv(c, s) && Oldest(s, p) && s.live[p].n == s.ret
    ensures Internal(e) && Enabled(c, s, e)
  {
    hide Wrap, Upto, RobOk, TagsOk, ResolvedOk, PrfCounts, PrfValues, RtOk, ArfOk, OnceOk, LinkOk, BufferOk,
         MemoryOk, AccessOk, Config.OpOk, SlotsOk, TagIs, Fin, RecordsOk;
    if p.Stage? {
      if p.station == c.lsStation { e := MemoryMoves(c, s, p); } else { e := UnitMoves(c, s, p); }
    } else {
      var unit := UnitFor(c, s, p);
      var q := Stage(p.station, unit, 0);
      OldestIsReady(c, s, p);
      if q in s.live {
        assert Along(q) > Along(p);
        e := UnitMoves(c, s, q);
      } else {
        e := Issue(p, q);
      }
    }
  }

  // --- left alone, the engine finishes ------------------------------------------------

  /** How many moves a record has left before it reports. */
  function Left(c: Config, p: Place): nat
  {
    if p.Row? then c.deepest(p.station) + 2
    else if p.stage <= c.lastStage(p.station, p.unit) then c.lastStage(p.station, p.unit) + 1 - p.stage else 0
  }

  ghost function Work(c: Config, places: set<Place>): nat
    decreases |places|
  {
    if places == {} then 0 else
      var p :| p in places;
      Left(c, p) + Work(c, places - {p})
  }

  lemma {:induction false} WorkWithout(c: Config, places: set<Place>, p: Place)
    requires p in places
    ensures Work(c, places) == Left(c, p) + Work(c, places - {p})
    decreases |places|
  {
    var q :| q in places && Work(c, places) == Left(c, q) + Work(c, places - {q});
    if q != p {
      WorkWithout(c, places - {q}, p);
      WorkWithout(c, places - {p}, q);
      assert places - {q} - {p} == places - {p} - {q};
    }
  }

  lemma {:induction false} WorkFewer(c: Config, a: set<Place>, b: set<Place>)
    requires a <= b
    ensures Work(c, a) <= Work(c, b)
    decreases |a|
  {
    if a != {} {
      var p :| p in a;
      WorkWithout(c, a, p);
      WorkWithout(c, b, p);
      WorkFewer(c, a - {p}, b - {p});
    }
  }

  /** What is left to do: retire, execute, write back to memory. */
  ghost function Measure(c: Config, s: Core): int
  {
    (|s.path| - s.ret) + 2 * Work(c, s.live.Keys) + (s.buffered - s.written)
  }

  lemma MeasureNat(c: Config, s: Core)
    requires Inv(c, s)
    ensures Measure(c, s) >= 0
  {
    hide Wrap, Upto, Work;
  }

  lemma Configured(c: Config, s: Core)
    requires Inv(c, s)
    ensures c.Valid()
  {
  }

  lemma MoveWorks(c: Config, s: Core, p: Place, q: Place, live: Live)
    requires Inv(c, s) && p in s.live && q !in s.live && p.station == q.station && Along(q) == Along(p) + 1
    requires q.Stage? && q.stage <= c.lastStage(q.station, q.unit) && (p.Stage? ==> q.unit == p.unit)
    requires c.Valid() && live.Keys == s.live.Keys - {p} + {q}
    ensures Work(c, live.Keys) < Work(c, s.live.Keys)
  {
    hide Wrap, Upto, Work, Inv;
    WorkWithout(c, s.live.Keys, p);
    WorkWithout(c, live.Keys, q);
    assert live.Keys - {q} == s.live.Keys - {p};
  }

  lemma ReportWorks(c: Config, s: Core, p: Place, keys: set<Place>)
    requires AtLastStage(c, s, p) && keys <= s.live.Keys - {p}
    ensures Work(c, keys) < Work(c, s.live.Keys)
  {
    hide Work;
    WorkWithout(c, s.live.Keys, p);
    WorkFewer(c, keys, s.live.Keys - {p});
  }

  lemma SquashShrinks(c: Config, s: Core, p: Place)
    requires Inv(c, s) && AtLastStage(c, s, p) && s.live[p].op.isBranch
    ensures var t := DoMisPredict(c, s, p);
            && t.live.Keys <= s.live.Keys - {p} && |t.path| <= |s.path|
            && t.buffered <= s.buffered && t.ret == s.ret && t.written == s.written
  {
    hide Wrap, Upto, RobOk, TagsOk, PrfCounts, PrfValues, RtOk, ArfOk, OnceOk, OrderOk, BufferOk, MemoryOk,
         AccessOk, LinkOk, RecordsOk, ResolvedOk, PopCount, Config.OpOk, Q.Culprit, Squashed;
    Q.ReportsCulprit(c, s, p);
    R.ReportKeeps(c, s, p);
    Q.SurvivorCount(c, Report(c, s, p), s.live[p]);
  }

  /** Every back-end event brings the machine closer to rest. */
  lemma Advances(c: Config, s: Core, e: Event)
    requires Inv(c, s) && Enabled(c, s, e) && Internal(e)
    ensures Measure(c, Next(c, s, e)) < Measure(c, s)
  {
    hide Wrap, Upto, RobOk, TagsOk, PrfCounts, PrfValues, RtOk, ArfOk, OnceOk, OrderOk, BufferOk, MemoryOk, CountsOk,
         AccessOk, LinkOk, RecordsOk, ResolvedOk, Config.OpOk, Sized, Work, DoMisPredict, Left, BranchTarget, S.IsFull;
    Configured(c, s);
    match e
    case Complete(p) => ReportWorks(c, s, p, Report(c, s, p).live.Keys);
    case Resolve(p) => ReportWorks(c, s, p, DoResolve(c, s, p).live.Keys);
    case MisPredict(p) =>
      SquashShrinks(c, s, p);
      ReportWorks(c, s, p, DoMisPredict(c, s, p).live.Keys);
    case Issue(p, q) => MoveWorks(c, s, p, q, Move(s.live, p, q));
    case Hop(p, q) => MoveWorks(c, s, p, q, Move(s.live, p, q));
    case Access(p, q) => MoveWorks(c, s, p, q, DoAccess(c, s, p, q).live);
    case _ =>
  }

  lemma ReachesNext(c: Config, z: Core, s: Core, events: seq<Event>, e: Event)
    requires Reaches(c, z, s, events) && Sized(c, s) && Enabled(c, s, e)
    ensures Reaches(c, z, Next(c, s, e), events + [e])
  {
    hide Sized, Enabled, Next;
    var all := events + [e];
    assert all[..|all| - 1] == events && all[|all| - 1] == e;
  }

  /** With one instruction in flight, no back-end event takes it away. */
  lemma LengthStays(c: Config, s: Core, e: Event)
    requires Inv(c, s) && Enabled(c, s, e) && Internal(e) && |s.path| <= s.ret + 1
    ensures |Next(c, s, e).path| == |s.path| <= Next(c, s, e).ret + 1
  {
    hide Wrap, Upto, CountsOk, RobOk, TagsOk, PrfCounts, PrfValues, RtOk, ArfOk, OnceOk, OrderOk, BufferOk, MemoryOk,
         AccessOk, LinkOk, RecordsOk, ResolvedOk, PopCount, Config.OpOk, Sized, S.IsFull, BranchTarget;
    if e.MisPredict? { Results.InFlightRecord(c, s, e.p); }
  }

  /** From any state of any run, back-end events alone retire everything in flight and
      write every store to memory, in no more steps than the measure says. */
  lemma {:induction false} ComesToRest(c: Config, z: Core, s: Core, events: seq<Event>) returns (more: seq<Event>, t: Core)
    requires Reaches(c, z, s, events)
    ensures Reaches(c, z, t, events + more) && (forall i | 0 <= i < |more| :: Internal(more[i]))
    ensures t.ret == |t.path| && t.written == t.buffered && |more| <= Measure(c, s)
    ensures |s.path| <= s.ret + 1 ==> |t.path| == |s.path|
    decreases Measure(c, s)
  {
    hide Inv, Sized, Enabled, Next, Measure, Reaches;
    RunKeeps(c, z, s, events);
    MeasureNat(c, s);
    if s.ret == |s.path| && s.written == s.buffered {
      more, t := [], s;
      assert events + more == events;
    } else {
      assert s.ret < |s.path| || s.written < s.buffered by { NotPast(c, s); }
      var e := NeverStuck(c, z, s, events);
      Advances(c, s, e);
      if |s.path| <= s.ret + 1 { LengthStays(c, s, e); }
      ReachesNext(c, z, s, events, e);
      RunKeeps(c, z, Next(c, s, e), events + [e]);
      MeasureNat(c, Next(c, s, e));
      var rest, u := ComesToRest(c, z, Next(c, s, e), events + [e]);
      more, t := [e] + rest, u;
      assert events + more == events + [e] + rest;
    }
  }

  lemma NotPast(c: Config, s: Core)
    requires Inv(c, s)
    ensures s.ret <= |s.path| && s.written <= s.buffered
  {
    hide Wrap, Upto;
  }
}

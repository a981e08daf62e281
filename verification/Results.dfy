/** The engine's promises, in every state any run reaches. */
module Results {
  import opened Rings
  import opened Program
  import opened Records
  import opened Engine
  import opened Invariant
  import opened Theorems
  import B = Reorder
  import N = Rename
  import K = KillMask
  import S = Stores
  import R = KeepReport
  import V = KeepResolve
  import M = KeepMove
  import A = KeepAccess
  import Q = KeepSquash

  // --- sequential refinement --------------------------------------------------------

  /** Up to the oldest branch still open, the path is where the program really goes. */
  lemma {:induction false} OnTrack(c: Config, s: Core, i: nat)
    requires Inv(c, s) && i <= |s.path| && Upto(c, s.path, i).brs <= s.res
    ensures PcAt(s, i) == Upto(c, s.path, i).m.pc
    ensures forall j | 0 <= j < i :: s.path[j].pc == Upto(c, s.path, j).m.pc
    decreases i
  {
    hide Wrap, Upto, RobOk, TagsOk, ResolvedOk, PrfCounts, PrfValues, RtOk, ArfOk, RecordsOk, OnceOk, OrderOk, BufferOk,
         MemoryOk, AccessOk, Sized, Apply, Config.OpOk;
    if i == 0 {
      UptoStart(c, s.path);
    } else {
      UptoStep(c, s.path, i - 1);
      OnTrack(c, s, i - 1);
      assert PcAt(s, i - 1 + 1) == s.link[i - 1];
    }
  }

  /** What has retired is the sequential run, and the register file is its register file. */
  lemma SequentialRefinement(c: Config, z: Core, s: Core, events: seq<Event>)
    requires Reaches(c, z, s, events)
    ensures s.ret <= |s.path|
    ensures forall i | 0 <= i < s.ret ::
              s.path[i] == Inst(c.isa.prog(Sequential(c, i).pc), Sequential(c, i).pc)
    ensures s.arf == Sequential(c, s.ret).regs
    ensures PcAt(s, s.ret) == Sequential(c, s.ret).pc
  {
    hide Wrap, RobOk, TagsOk, ResolvedOk, PrfCounts, PrfValues, RtOk, RecordsOk, OnceOk, OrderOk, BufferOk, MemoryOk,
         AccessOk, LinkOk, Reaches, Upto, Sequential, Config.OpOk, Sized;
    RunKeeps(c, z, s, events);
    OnTrack(c, s, s.ret);
    forall i | 0 <= i <= s.ret ensures Upto(c, s.path, i).m == Sequential(c, i) {
      PathIsSequential(c, s.path, i);
    }
  }

  /** Data memory is the sequential memory at some retired point, and at the latest one
      once every retired store has been written. */
  lemma MemoryRefinement(c: Config, z: Core, s: Core, events: seq<Event>) returns (m: nat)
    requires Reaches(c, z, s, events)
    ensures m <= s.ret && s.mem == Sequential(c, m).mem
    ensures (forall i | 0 <= i < c.sbDepth :: !(s.sb.table[i].busy && s.sb.table[i].complete)) ==> s.mem == Sequential(c, s.ret).mem
  {
    hide Wrap, RobOk, TagsOk, ResolvedOk, PrfCounts, PrfValues, RtOk, RecordsOk, OnceOk, OrderOk, BufferOk,
         AccessOk, LinkOk, Reaches, Upto, Sequential, Config.OpOk;
    RunKeeps(c, z, s, events);
    OnTrack(c, s, s.ret);
    if s.written == Upto(c, s.path, s.ret).sts {
      m := s.ret;
    } else {
      m := StoreNumbered(c, s.path, s.ret, s.written);
      OldestBuffered(c, s, m);
    }
    PathIsSequential(c, s.path, m);
  }

  lemma OldestBuffered(c: Config, s: Core, j: nat)
    requires Sized(c, s) && CountsOk(c, s) && BufferOk(c, s)
    requires j < s.ret && s.path[j].op.isStore && Upto(c, s.path, j).sts == s.written < s.buffered
    ensures s.sb.table[Wrap(s.written, c.sbDepth)].busy && s.sb.table[Wrap(s.written, c.sbDepth)].complete
  {
    hide Wrap, Upto, Config.OpOk;
    assert RowHolds(c, s, j);
  }

  /** Retirement only goes forward: no later event takes back a retired instruction. */
  lemma RetiredForGood(c: Config, z: Core, s: Core, events: seq<Event>, e: Event)
    requires Reaches(c, z, s, events) && Sized(c, s) && Enabled(c, s, e)
    ensures var t := Next(c, s, e);
            s.ret <= t.ret <= s.ret + 1 && t.ret <= |t.path| && s.ret <= |s.path| && t.path[..s.ret] == s.path[..s.ret]
  {
    hide Wrap, Upto, Consistent, ResolvedOk, Sized, Reaches;
    RunKeeps(c, z, s, events);
    StepKeeps(c, s, e);
    assert CountsOk(c, Next(c, s, e)) && CountsOk(c, s) by { Counts(c, s); Counts(c, Next(c, s, e)); }
    if e.MisPredict? { InFlightRecord(c, s, e.p); }
  }

  lemma Counts(c: Config, s: Core)
    requires Inv(c, s)
    ensures Sized(c, s) && CountsOk(c, s)
  {
  }

  lemma InFlightRecord(c: Config, s: Core, p: Place)
    requires Inv(c, s) && p in s.live
    ensures s.ret <= s.live[p].n < |s.path|
  {
    hide Wrap, Upto, Sized, RobOk, TagsOk, ResolvedOk, PrfCounts, PrfValues, RtOk, ArfOk, OnceOk, OrderOk, BufferOk, MemoryOk,
         AccessOk, LinkOk, SlotsOk, TagIs;
    assert RecordIs(c, s, p, s.live[p]);
  }

  // --- the reorder buffer, read in program order -----------------------------------

  ghost function InFlight(c: Config, rob: B.RobState): (rows: seq<B.RobRow>)
    requires rob.Sized(c.depth)
    ensures |rows| == rob.used
  {
    seq(rob.used, j requires 0 <= j < rob.used => rob.table[Wrap(rob.com + j, c.depth)])
  }

  lemma InFlightIs(c: Config, s: Core)
    requires Sized(c, s) && CountsOk(c, s) && RobOk(c, s)
    ensures |InFlight(c, s.rob)| == |s.path| - s.ret
    ensures forall j | 0 <= j < |s.path| - s.ret ::
              InFlight(c, s.rob)[j] == s.rob.table[Wrap(s.ret + j, c.depth)]
              && RowIs(c, InFlight(c, s.rob)[j], s.path[s.ret + j], Upto(c, s.path, s.ret + j).acts)
    ensures forall j | 0 <= j < |s.path| - s.ret ::
              var row, i := InFlight(c, s.rob)[j], s.path[s.ret + j];
              && row.isBranch == i.op.isBranch && row.isStore == i.op.isStore && row.active == i.op.active
              && row.required == i.op.required && row.ar == i.op.ar && row.pc == i.pc
  {
    hide Wrap, Upto, Config.OpOk;
    forall j | 0 <= j < |s.path| - s.ret
      ensures InFlight(c, s.rob)[j] == s.rob.table[Wrap(s.ret + j, c.depth)]
      ensures RowIs(c, InFlight(c, s.rob)[j], s.path[s.ret + j], Upto(c, s.path, s.ret + j).acts)
    {
      WrapAdd(s.ret, j, c.depth);
      assert s.path[s.ret + j] == s.path[s.ret + j];
    }
  }

  // --- selective squash -------------------------------------------------------------

  /** A misprediction removes exactly the instructions behind the branch: their records
      from the stations and units, and their stores from the buffer. */
  lemma SquashIsExact(c: Config, z: Core, s: Core, events: seq<Event>, p: Place)
    requires Reaches(c, z, s, events) && Sized(c, s) && Enabled(c, s, MisPredict(p))
    ensures var t, n := Next(c, s, MisPredict(p)), s.live[p].n;
            && (forall q | q in s.live :: q in t.live <==> s.live[q].n < n)
            && t.path == s.path[..n + 1]
            && PathOk(c, s.path)
            && (forall i | 0 <= i < |s.path| && s.path[i].op.isStore && s.written <= Upto(c, s.path, i).sts < s.buffered ::
                  t.sb.table[Wrap(Upto(c, s.path, i).sts, c.sbDepth)].busy <==> i < n)
  {
    hide Wrap, Upto, Consistent, ResolvedOk, Sized, Reaches, DoMisPredict;
    RunKeeps(c, z, s, events);
    Counts(c, s);
    SquashRecords(c, s, p);
    SquashStores(c, s, p);
  }

  lemma SquashRecords(c: Config, s: Core, p: Place)
    requires Inv(c, s) && Enabled(c, s, MisPredict(p))
    ensures var t, n := DoMisPredict(c, s, p), s.live[p].n;
            (forall q | q in s.live :: q in t.live <==> s.live[q].n < n) && t.path == s.path[..n + 1]
  {
    hide Wrap, Upto, CountsOk, RobOk, TagsOk, PrfCounts, PrfValues, RtOk, ArfOk, OnceOk, OrderOk, BufferOk, MemoryOk,
         AccessOk, LinkOk, RecordsOk, ResolvedOk, PopCount, Config.OpOk, Squashed, Fin, BranchTarget;
    var r, u := s.live[p], Report(c, s, p);
    Q.ReportsCulprit(c, s, p);
    R.ReportKeeps(c, s, p);
    Q.KillsYounger(c, u, r);
  }

  lemma SquashStores(c: Config, s: Core, p: Place)
    requires Inv(c, s) && Enabled(c, s, MisPredict(p))
    ensures var t, n := DoMisPredict(c, s, p), s.live[p].n;
            PathOk(c, s.path) &&
            forall i | 0 <= i < |s.path| && s.path[i].op.isStore && s.written <= Upto(c, s.path, i).sts < s.buffered ::
              t.sb.table[Wrap(Upto(c, s.path, i).sts, c.sbDepth)].busy <==> i < n
  {
    hide Wrap, Upto, RobOk, TagsOk, PrfCounts, PrfValues, RtOk, ArfOk, OnceOk, OrderOk, BufferOk, MemoryOk,
         AccessOk, LinkOk, RecordsOk, ResolvedOk, PopCount, Config.OpOk, Q.Culprit;
    var r, u := s.live[p], Report(c, s, p);
    Q.ReportsCulprit(c, s, p);
    Q.KillsYoungerStores(c, u, r);
    BufferedBusy(c, u);
    BranchIsNoStore(c, u, r);
  }

  lemma BranchIsNoStore(c: Config, s: Core, r: Rec)
    requires Q.Culprit(c, s, r)
    ensures !s.path[r.n].op.isStore
  {
    hide Wrap, Upto, Config.OpOk;
    Decoded(c, s.path, r.n);
  }

  lemma BufferedBusy(c: Config, s: Core)
    requires Sized(c, s) && CountsOk(c, s) && BufferOk(c, s)
    ensures forall i | 0 <= i < |s.path| && s.path[i].op.isStore && s.written <= Upto(c, s.path, i).sts < s.buffered ::
              s.sb.table[Wrap(Upto(c, s.path, i).sts, c.sbDepth)].busy
  {
    hide Wrap, Upto, Config.OpOk;
    forall i | 0 <= i < |s.path| && s.path[i].op.isStore && s.written <= Upto(c, s.path, i).sts < s.buffered
      ensures s.sb.table[Wrap(Upto(c, s.path, i).sts, c.sbDepth)].busy
    {
      assert RowHolds(c, s, i);
    }
  }

  /** The reorder buffer keeps exactly the prefix through the branch, now reported. */
  lemma SquashKeepsPrefix(c: Config, z: Core, s: Core, events: seq<Event>, p: Place)
    requires Reaches(c, z, s, events) && Sized(c, s) && Enabled(c, s, MisPredict(p))
    ensures Sized(c, Next(c, s, MisPredict(p)))
    ensures var rows, kept, k := InFlight(c, s.rob), InFlight(c, Next(c, s, MisPredict(p)).rob), s.live[p].n - s.ret;
            && 0 <= k < |rows| && rows[k].isBranch
            && kept == rows[..k] + [rows[k].(fin := true)]
  {
    hide Wrap, Upto, TagsOk, PrfCounts, PrfValues, RtOk, ArfOk, OnceOk, OrderOk, BufferOk, MemoryOk,
         AccessOk, LinkOk, RecordsOk, ResolvedOk, Reaches, PopCount, Config.OpOk, InFlight, RobOk, RowIs, Sized;
    RunKeeps(c, z, s, events);
    StepKeeps(c, s, MisPredict(p));
    InFlightRecord(c, s, p);
    var t, k := Next(c, s, MisPredict(p)), s.live[p].n - s.ret;
    InFlightIs(c, s);
    InFlightIs(c, t);
    R.ReportKeeps(c, s, p);
    SquashedTable(c, s, p);
    assert s.rob.Sized(c.depth) && t.rob.Sized(c.depth) by { RobSized(c, s); RobSized(c, t); }
    var rows, kept := InFlight(c, s.rob), InFlight(c, t.rob);
    forall j | 0 <= j < k ensures kept[j] == rows[j] {
      if Wrap(s.ret + j, c.depth) == Wrap(s.live[p].n, c.depth) { InFlightApart(c, s, s.ret + j, s.live[p].n); }
    }
    BranchRow(c, s, p);
  }

  lemma RobSized(c: Config, s: Core)
    requires Sized(c, s)
    ensures s.rob.Sized(c.depth)
  {
  }

  lemma BranchRow(c: Config, s: Core, p: Place)
    requires Inv(c, s) && p in s.live && s.live[p].op.isBranch
    ensures s.ret <= s.live[p].n < |s.path| && s.live[p].n - s.ret < |InFlight(c, s.rob)|
    ensures InFlight(c, s.rob)[s.live[p].n - s.ret].isBranch
  {
    hide Wrap, Upto, TagsOk, PrfCounts, PrfValues, RtOk, ArfOk, OnceOk, OrderOk, BufferOk, MemoryOk,
         AccessOk, LinkOk, ResolvedOk, SlotsOk, TagIs, InFlight, RobOk, Fin, Config.OpOk;
    assert RecordIs(c, s, p, s.live[p]);
    InFlightIs(c, s);
    assert RowIs(c, InFlight(c, s.rob)[s.live[p].n - s.ret], s.path[s.ret + (s.live[p].n - s.ret)],
                 Upto(c, s.path, s.ret + (s.live[p].n - s.ret)).acts);
  }

  lemma InFlightApart(c: Config, s: Core, i: nat, j: nat)
    requires Sized(c, s) && CountsOk(c, s) && RobOk(c, s) && s.ret <= i < |s.path| && s.ret <= j < |s.path|
    requires Wrap(i, c.depth) == Wrap(j, c.depth)
    ensures i == j
  {
    hide Wrap, Upto, Config.OpOk;
    Apart(i, j, c.depth);
  }

  lemma SquashedTable(c: Config, s: Core, p: Place)
    requires Inv(c, s) && Enabled(c, s, MisPredict(p))
    ensures var t, n := Next(c, s, MisPredict(p)), s.live[p].n;
            && t.rob.table == s.rob.table[Wrap(n, c.depth) := s.rob.table[Wrap(n, c.depth)].(fin := true)]
            && t.ret == s.ret && |t.path| == n + 1
  {
    hide Wrap, Upto, TagsOk, PrfCounts, PrfValues, RtOk, ArfOk, OnceOk, OrderOk, BufferOk, MemoryOk,
         AccessOk, LinkOk, ResolvedOk, SlotsOk, TagIs, RobOk, Fin, PopCount, Config.OpOk;
    assert RecordIs(c, s, p, s.live[p]);
  }

  // --- the rename table is the reorder buffer's own history -------------------------

  /** The rename map the rows dictate, replayed in program order. */
  ghost function MapOf(c: Config, rows: seq<B.RobRow>): (m: N.RtRow)
    requires forall j | 0 <= j < |rows| :: rows[j].ar < |c.boot.regs|
    ensures |m| == |c.boot.regs|
  {
    if rows == [] then seq(|c.boot.regs|, _ => N.RtEntry(false, 0))
    else
      var m, row := MapOf(c, rows[..|rows| - 1]), rows[|rows| - 1];
      if row.required && row.ar !in c.consts then m[row.ar := N.RtEntry(true, row.pr)] else m
  }

  /** Two maps answer every read alike. */
  predicate Alike(a: N.RtRow, b: N.RtRow)
  {
    |a| == |b| && forall r | 0 <= r < |a| :: a[r].renamed == b[r].renamed && (a[r].renamed ==> a[r].prf == b[r].prf)
  }

  lemma RowsOk(c: Config, s: Core)
    requires Sized(c, s) && CountsOk(c, s) && RobOk(c, s)
    ensures s.rob.Sized(c.depth) && |InFlight(c, s.rob)| == |s.path| - s.ret && c.phy > 0
    ensures forall j | 0 <= j < |s.path| - s.ret ::
              InFlight(c, s.rob)[j].ar < |c.boot.regs|
              && RowIs(c, InFlight(c, s.rob)[j], s.path[s.ret + j], Upto(c, s.path, s.ret + j).acts)
  {
    hide Wrap, Upto, Config.OpOk, InFlight;
    InFlightIs(c, s);
    forall j | 0 <= j < |s.path| - s.ret ensures InFlight(c, s.rob)[j].ar < |c.boot.regs| {
      Decoded(c, s.path, s.ret + j);
    }
  }

  lemma MapsNothing(c: Config, s: Core)
    requires CountsOk(c, s)
    ensures Maps(c, s, seq(|c.boot.regs|, _ => N.RtEntry(false, 0)), s.ret)
  {
    hide Wrap, Upto, Config.OpOk;
  }

  lemma {:induction false} MapOfPrefix(c: Config, s: Core, rows: seq<B.RobRow>)
    requires Sized(c, s) && CountsOk(c, s) && RobOk(c, s) && |rows| <= |s.path| - s.ret
    requires rows == InFlight(c, s.rob)[..|rows|]
    ensures forall j | 0 <= j < |rows| :: rows[j].ar < |c.boot.regs|
    ensures Maps(c, s, MapOf(c, rows), s.ret + |rows|)
    decreases |rows|
  {
    hide Wrap, Upto, Config.OpOk, InFlight, Maps, RowIs, Sized, RobOk;
    RowsOk(c, s);
    if rows == [] {
      MapsNothing(c, s);
    } else {
      var last := |rows| - 1;
      assert rows[..last] == InFlight(c, s.rob)[..last];
      MapOfPrefix(c, s, rows[..last]);
      assert rows[last] == InFlight(c, s.rob)[last];
      MapsStep(c, s, MapOf(c, rows[..last]), rows[last], s.ret + last);
    }
  }

  lemma MapsStep(c: Config, s: Core, m: N.RtRow, row: B.RobRow, n: nat)
    requires Sized(c, s) && CountsOk(c, s) && s.ret <= n < |s.path| && |m| == |c.boot.regs| && Maps(c, s, m, n)
    requires RowIs(c, row, s.path[n], Upto(c, s.path, n).acts) && row.ar < |m|
    ensures Maps(c, s, if row.required && row.ar !in c.consts then m[row.ar := N.RtEntry(true, row.pr)] else m, n + 1)
  {
    hide Wrap, Upto, Config.OpOk, Apply;
    UptoStep(c, s.path, n);
  }

  lemma MapsAlike(c: Config, s: Core, a: N.RtRow, b: N.RtRow, n: nat)
    requires PathOk(c, s.path) && n <= |s.path| && |a| == |b| == |c.boot.regs| && Maps(c, s, a, n) && Maps(c, s, b, n)
    ensures Alike(a, b)
  {
    hide Wrap, Upto, Config.OpOk;
  }

  /** The current map is the one the in-flight rows dictate. */
  lemma RenameIsHistory(c: Config, z: Core, s: Core, events: seq<Event>)
    requires Reaches(c, z, s, events)
    ensures Sized(c, s) && forall j | 0 <= j < s.rob.used :: InFlight(c, s.rob)[j].ar < |c.boot.regs|
    ensures |s.rt.master| == |c.boot.regs|
    ensures var now, dictated := s.rt.master, MapOf(c, InFlight(c, s.rob));
            forall r | 0 <= r < |c.boot.regs| ::
              now[r].renamed == dictated[r].renamed && (now[r].renamed ==> now[r].prf == dictated[r].prf)
  {
    hide Wrap, Upto, TagsOk, PrfCounts, PrfValues, ArfOk, OnceOk, OrderOk, BufferOk, MemoryOk,
         AccessOk, LinkOk, RecordsOk, ResolvedOk, Reaches, MapOf, InFlight, Maps, Config.OpOk;
    RunKeeps(c, z, s, events);
    InFlightIs(c, s);
    var rows := InFlight(c, s.rob);
    assert rows == rows[..|rows|];
    MapOfPrefix(c, s, rows);
    MapsAlike(c, s, s.rt.master, MapOf(c, rows), |s.path|);
  }

  /** For each open branch, restoring its snapshot is rebuilding the map from the rows up
      to and including it. */
  lemma SnapshotIsHistory(c: Config, z: Core, s: Core, events: seq<Event>, p: Place)
    requires Reaches(c, z, s, events) && p in s.live && s.live[p].op.isBranch
    ensures Sized(c, s)
    ensures var rows, k := InFlight(c, s.rob), s.live[p].n - s.ret;
            && 0 <= k < |rows| && rows[k].isBranch && !rows[k].fin
            && (forall j | 0 <= j < |rows| :: rows[j].ar < |c.boot.regs|)
            && var restored, dictated := N.Restore(s.rt, |c.boot.regs|, c.tags, s.live[p].tag).master, MapOf(c, rows[..k + 1]);
               |restored| == |c.boot.regs| && forall r | 0 <= r < |restored| ::
                 restored[r].renamed == dictated[r].renamed && (restored[r].renamed ==> restored[r].prf == dictated[r].prf)
  {
    hide Wrap, Upto, TagsOk, PrfCounts, PrfValues, ArfOk, OnceOk, OrderOk, BufferOk, MemoryOk,
         AccessOk, LinkOk, Reaches, MapOf, InFlight, Maps, Config.OpOk, SlotsOk, K.LowestFrom;
    RunKeeps(c, z, s, events);
    InFlightIs(c, s);
    var rows, n := InFlight(c, s.rob), s.live[p].n;
    assert RecordIs(c, s, p, s.live[p]) && TagIs(c, s, n, s.live[p].isSpec, s.live[p].tag);
    assert rows[n - s.ret] == s.rob.table[Wrap(s.ret + (n - s.ret), c.depth)];
    assert rows == rows[..|rows|];
    MapOfPrefix(c, s, rows);
    MapOfPrefix(c, s, rows[..n - s.ret + 1]);
    var b := Wrap(Upto(c, s.path, n).brs, c.tags);
    K.LowestFromAt(b, 0, c.tags);
    MapsAlike(c, s, s.rt.planes[b], MapOf(c, rows[..n - s.ret + 1]), n + 1);
  }
}

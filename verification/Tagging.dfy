/** Speculation tags in every state any run reaches. */
module Tagging {
  import opened Rings
  import opened Program
  import opened Records
  import opened Engine
  import opened Invariant
  import opened Theorems
  import K = KillMask
  import T = Tags
  import S = Stores
  import V = KeepResolve
  import D = KeepDispatch

  /** The tags open right now, as the fix table itself says. */
  ghost function Open(c: Config, s: Core): Mask
    requires Sized(c, s)
  {
    K.OpenTags(s.mpft, T.LastTag(s.tags, c.tags))
  }

  /** Rows of closed tags may be stale, but only with their own bit. */
  ghost predicate Tidy(c: Config, s: Core)
    requires Sized(c, s)
  {
    forall u | 0 <= u < c.tags && u !in Open(c, s) :: s.mpft[u] <= {u}
  }

  lemma OpenIs(c: Config, s: Core)
    requires Inv(c, s)
    ensures PathOk(c, s.path) && s.res <= Upto(c, s.path, |s.path|).brs < s.res + c.tags
    ensures Open(c, s) == Span(s.res, Upto(c, s.path, |s.path|).brs, c.tags)
  {
    hide Wrap, Upto, RobOk, PrfCounts, PrfValues, RtOk, ArfOk, RecordsOk, OnceOk, OrderOk, LinkOk, BufferOk, MemoryOk,
         AccessOk, ResolvedOk, Config.OpOk, K.OpenTags, T.LastTag;
    D.LastTagIs(c, s);
  }

  /** The row of each open tag is the open tags no younger; its column, the kill mask, is
      among the open tags those no older. */
  lemma KillMaskIsExact(c: Config, z: Core, s: Core, events: seq<Event>, k: nat)
    requires Reaches(c, z, s, events)
    ensures PathOk(c, s.path) && Sized(c, s)
    ensures var brs := Upto(c, s.path, |s.path|).brs; Open(c, s) == Span(s.res, brs, c.tags) && s.tags.free + |Open(c, s)| == c.tags - 1
    ensures var brs := Upto(c, s.path, |s.path|).brs;
            s.res <= k < brs ==>
              && s.mpft[Wrap(k, c.tags)] == Span(s.res, k + 1, c.tags)
              && K.FixTag(s.mpft, {Wrap(k, c.tags)}) * Open(c, s) == Span(k, brs, c.tags)
              && (Tidy(c, s) ==> K.FixTag(s.mpft, {Wrap(k, c.tags)}) == Span(k, brs, c.tags))
  {
    hide Wrap, Upto, RobOk, PrfCounts, PrfValues, RtOk, ArfOk, RecordsOk, OnceOk, OrderOk, LinkOk, BufferOk, MemoryOk,
         AccessOk, ResolvedOk, Config.OpOk, Reaches, Open, K.FixTag, Span;
    RunKeeps(c, z, s, events);
    OpenIs(c, s);
    var brs := Upto(c, s.path, |s.path|).brs;
    SpanSize(s.res, brs, c.tags);
    if s.res <= k < brs { ColumnIs(c, s, k); }
  }

  lemma {:induction false} SpanSize(lo: nat, hi: nat, size: nat)
    requires size > 0 && lo <= hi <= lo + size
    ensures |Span(lo, hi, size)| == hi - lo
    decreases hi - lo
  {
    hide Wrap;
    if lo == hi {
      assert Span(lo, hi, size) == {};
    } else {
      SpanSize(lo, hi - 1, size);
      D.SpanMore(lo, hi - 1, size);
      InSpan(hi - 1, lo, hi - 1, size);
    }
  }

  lemma ColumnBit(rows: seq<Mask>, lo: nat, hi: nat, k: nat, j: nat)
    requires |rows| > 0 && lo <= k < hi && hi < lo + |rows| && lo <= j < hi
    requires rows[Wrap(j, |rows|)] == Span(lo, j + 1, |rows|)
    ensures Wrap(j, |rows|) in K.FixTag(rows, {Wrap(k, |rows|)}) <==> j >= k
  {
    hide Wrap, Span;
    var t := Wrap(k, |rows|);
    InSpan(k, lo, j + 1, |rows|);
    if t in rows[Wrap(j, |rows|)] {
      assert t in rows[Wrap(j, |rows|)] * {t};
    } else {
      assert rows[Wrap(j, |rows|)] * {t} == {};
    }
  }

  /** The column of the k-th count, read off rows that are prefixes of one span. */
  lemma Column(rows: seq<Mask>, lo: nat, hi: nat, k: nat)
    requires |rows| > 0 && lo <= k < hi && hi < lo + |rows|
    requires forall j | lo <= j < hi :: rows[Wrap(j, |rows|)] == Span(lo, j + 1, |rows|)
    ensures K.FixTag(rows, {Wrap(k, |rows|)}) * Span(lo, hi, |rows|) == Span(k, hi, |rows|)
    ensures (forall u | 0 <= u < |rows| && u !in Span(lo, hi, |rows|) :: rows[u] <= {u})
            ==> K.FixTag(rows, {Wrap(k, |rows|)}) <= Span(lo, hi, |rows|)
  {
    hide Wrap, K.FixTag;
    var size, fix := |rows|, K.FixTag(rows, {Wrap(k, |rows|)});
    forall j | lo <= j < hi ensures Wrap(j, size) in fix <==> j >= k { ColumnBit(rows, lo, hi, k, j); }
    forall u | u in fix * Span(lo, hi, size) ensures u in Span(k, hi, size) {
      var j :| lo <= j < hi && Wrap(j, size) == u;
    }
    forall u | u in Span(k, hi, size) ensures u in fix * Span(lo, hi, size) {
      var j :| k <= j < hi && Wrap(j, size) == u;
    }
    StaleColumn(rows, lo, hi, k);
  }

  /** A stale row shows up only in its own column, so not in an open one. */
  lemma StaleColumn(rows: seq<Mask>, lo: nat, hi: nat, k: nat)
    requires |rows| > 0 && lo <= k < hi
    ensures (forall u | 0 <= u < |rows| && u !in Span(lo, hi, |rows|) :: rows[u] <= {u})
            ==> K.FixTag(rows, {Wrap(k, |rows|)}) <= Span(lo, hi, |rows|)
  {
    hide Wrap;
    var t := Wrap(k, |rows|);
    assert t in Span(lo, hi, |rows|);
  }

  lemma ColumnIs(c: Config, s: Core, k: nat)
    requires Inv(c, s) && s.res <= k < Upto(c, s.path, |s.path|).brs
    ensures var brs := Upto(c, s.path, |s.path|).brs;
            && s.mpft[Wrap(k, c.tags)] == Span(s.res, k + 1, c.tags)
            && K.FixTag(s.mpft, {Wrap(k, c.tags)}) * Open(c, s) == Span(k, brs, c.tags)
            && (Tidy(c, s) ==> K.FixTag(s.mpft, {Wrap(k, c.tags)}) == Span(k, brs, c.tags))
  {
    hide Wrap, Upto, RobOk, PrfCounts, PrfValues, RtOk, ArfOk, RecordsOk, OnceOk, OrderOk, LinkOk, BufferOk, MemoryOk,
         AccessOk, ResolvedOk, Config.OpOk, Open, K.FixTag, Span;
    OpenIs(c, s);
    var brs := Upto(c, s.path, |s.path|).brs;
    Column(s.mpft, s.res, brs, k);
    var fix := K.FixTag(s.mpft, {Wrap(k, c.tags)});
    if Tidy(c, s) { assert fix * Open(c, s) == fix; }
  }

  // --- stale rows stay harmless -------------------------------------------------------

  /** A dispatched branch's tag joins the open ones. */
  lemma OpenGrows(c: Config, u: Core, row: nat)
    requires Inv(c, u) && CanDispatch(c, u, row) && Inv(c, DoDispatch(c, u, row))
    ensures var t, op := DoDispatch(c, u, row), c.isa.prog(u.fetchPc);
            Open(c, t) == if op.isBranch then Open(c, u) + T.InForce(u.tags, c.tags, true) else Open(c, u)
  {
    hide Wrap, Upto, Consistent, ResolvedOk, Open, Span, DoDispatch, CanDispatch, Sized;
    SizedPart(c, u);
    OpenIs(c, u);
    OpenIs(c, DoDispatch(c, u, row));
    OneMoreBranch(c, u, row);
    D.SpanMore(u.res, Upto(c, u.path, |u.path|).brs, c.tags);
  }

  lemma OneMoreBranch(c: Config, u: Core, row: nat)
    requires Inv(c, u) && CanDispatch(c, u, row)
    ensures var t, brs := DoDispatch(c, u, row), Upto(c, u.path, |u.path|).brs;
            && PathOk(c, t.path) && t.res == u.res && u.tags.next == {Wrap(brs, c.tags)}
            && Upto(c, t.path, |t.path|).brs == brs + (if c.isa.prog(u.fetchPc).isBranch then 1 else 0)
  {
    hide Wrap, Upto, RobOk, PrfCounts, PrfValues, RtOk, ArfOk, RecordsOk, OnceOk, OrderOk, LinkOk, BufferOk, MemoryOk,
         AccessOk, ResolvedOk, Config.OpOk, Span, Apply;
    var t := DoDispatch(c, u, row);
    D.Before(c, u, t);
    UptoStep(c, t.path, |u.path|);
  }

  lemma TidyDispatch(c: Config, s: Core, row: nat)
    requires Inv(c, s) && Tidy(c, s) && CanDispatch(c, s, row) && Inv(c, DoDispatch(c, s, row))
    ensures Tidy(c, DoDispatch(c, s, row))
  {
    hide Wrap, Upto, CountsOk, RobOk, PrfCounts, PrfValues, RtOk, ArfOk, RecordsOk, OnceOk, OrderOk, LinkOk, BufferOk, MemoryOk,
         AccessOk, ResolvedOk, TagsOk, Config.OpOk, Open, RotateLeft, T.LastTag, K.OpenTags;
    OpenGrows(c, s, row);
  }

  lemma TidyResolve(c: Config, s: Core, p: Place)
    requires Inv(c, s) && Tidy(c, s) && Enabled(c, s, Resolve(p)) && Inv(c, DoResolve(c, s, p))
    ensures Tidy(c, DoResolve(c, s, p))
  {
    hide Wrap, Upto, RobOk, PrfCounts, PrfValues, RtOk, ArfOk, RecordsOk, OnceOk, OrderOk, LinkOk, BufferOk, MemoryOk,
         AccessOk, ResolvedOk, Config.OpOk, Open, Span, BranchTarget, Report, Records.Resolve, SlotsOk;
    var t, n, brs := DoResolve(c, s, p), s.live[p].n, Upto(c, s.path, |s.path|).brs;
    OpenIs(c, s);
    OpenIs(c, t);
    V.OldestOpen(c, s, p) by { Parts(c, s); }
    assert s.live[p].tag == {Wrap(s.res, c.tags)} && n < |s.path| by { BranchTag(c, s, p); }
    CountsSplit(c, s.path, n, |s.path|);
    OldestSpan(s.res, brs, c.tags);
  }

  lemma Parts(c: Config, s: Core)
    requires Inv(c, s)
    ensures Sized(c, s) && CountsOk(c, s) && ResolvedOk(c, s) && RecordsOk(c, s) && OnceOk(c, s) && OrderOk(c, s)
  {
  }

  lemma BranchTag(c: Config, s: Core, p: Place)
    requires Sized(c, s) && CountsOk(c, s) && RecordsOk(c, s) && p in s.live && s.live[p].op.isBranch
    ensures var n := s.live[p].n; n < |s.path| && s.path[n].op.isBranch && s.live[p].tag == {Wrap(Upto(c, s.path, n).brs, c.tags)}
  {
    hide Wrap, Upto, Config.OpOk, SlotsOk;
    assert RecordIs(c, s, p, s.live[p]) && TagIs(c, s, s.live[p].n, s.live[p].isSpec, s.live[p].tag);
  }

  lemma OldestSpan(lo: nat, hi: nat, size: nat)
    requires size > 0 && lo < hi
    ensures Span(lo, hi, size) == Span(lo + 1, hi, size) + {Wrap(lo, size)} && Span(lo, lo + 1, size) == {Wrap(lo, size)}
  {
    hide Wrap;
  }

  lemma TidySquash(c: Config, s: Core, p: Place)
    requires Inv(c, s) && Enabled(c, s, MisPredict(p)) && Inv(c, DoMisPredict(c, s, p))
    ensures Tidy(c, DoMisPredict(c, s, p))
  {
    hide Wrap, Upto, RobOk, PrfCounts, PrfValues, RtOk, ArfOk, RecordsOk, OnceOk, OrderOk, LinkOk, BufferOk, MemoryOk,
         AccessOk, ResolvedOk, Config.OpOk, Open, Span, BranchTarget, Report, Kill, SlotsOk, PopCount;
    BranchTag(c, s, p) by { Parts(c, s); }
  }

  lemma TidyKeeps(c: Config, s: Core, e: Event)
    requires Inv(c, s) && Tidy(c, s) && Enabled(c, s, e)
    ensures Sized(c, Next(c, s, e)) && Tidy(c, Next(c, s, e))
  {
    hide Wrap, Upto, Consistent, ResolvedOk, Sized, Report, DoResolve, DoDispatch, DoMisPredict, Tidy, DoCommit, DoAccess, Inv;
    SizedPart(c, s);
    StepKeeps(c, s, e);
    SizedPart(c, Next(c, s, e));
    match e
    case Dispatch(row) => TidyDispatch(c, s, row);
    case Resolve(p) => TidyResolve(c, s, p);
    case MisPredict(p) => TidySquash(c, s, p);
    case Complete(p) =>
      ReportTables(c, s, p);
      SameTidy(c, s, Report(c, s, p));
    case Commit =>
      CommitTables(c, s);
      SameTidy(c, s, DoCommit(c, s));
    case Access(p, q) =>
      AccessTables(c, s, p, q);
      SameTidy(c, s, DoAccess(c, s, p, q));
    case _ => SameTidy(c, s, Next(c, s, e));
  }

  lemma SizedPart(c: Config, s: Core)
    requires Inv(c, s)
    ensures Sized(c, s)
  {
  }

  lemma SameTidy(c: Config, s: Core, t: Core)
    requires Sized(c, s) && Sized(c, t) && Tidy(c, s) && t.mpft == s.mpft && t.tags == s.tags
    ensures Tidy(c, t)
  {
    hide Sized, K.OpenTags;
  }

  lemma CommitTables(c: Config, s: Core)
    requires Sized(c, s) && CanCommit(c, s)
    ensures DoCommit(c, s).mpft == s.mpft && DoCommit(c, s).tags == s.tags
  {
    hide Wrap;
  }

  lemma AccessTables(c: Config, s: Core, p: Place, q: Place)
    requires Sized(c, s) && p in s.live
    ensures DoAccess(c, s, p, q).mpft == s.mpft && DoAccess(c, s, p, q).tags == s.tags
  {
    hide Wrap, Loaded;
  }

  lemma ReportTables(c: Config, s: Core, p: Place)
    requires Sized(c, s) && p in s.live
    ensures Report(c, s, p).mpft == s.mpft && Report(c, s, p).tags == s.tags
  {
    hide Wrap;
  }

  /** With an empty table at reset, the kill mask is exact on every bit, in every run. */
  lemma {:induction false} TidyAlways(c: Config, z: Core, s: Core, events: seq<Event>)
    requires Reaches(c, z, s, events) && (forall u | 0 <= u < |z.mpft| :: z.mpft[u] == {})
    ensures Sized(c, s) && Tidy(c, s)
    decreases |events|
  {
    hide Inv, Open;
    if events != [] {
      var last := events[|events| - 1];
      var before :| Reaches(c, z, before, events[..|events| - 1])
                    && Sized(c, before) && Enabled(c, before, last) && s == Next(c, before, last);
      TidyAlways(c, z, before, events[..|events| - 1]);
      RunKeeps(c, z, before, events[..|events| - 1]);
      TidyKeeps(c, before, last);
    }
  }

  // --- records in motion --------------------------------------------------------------

  /** Whatever still speculates does so under one open tag. */
  lemma TagHygiene(c: Config, z: Core, s: Core, events: seq<Event>)
    requires Reaches(c, z, s, events)
    ensures Sized(c, s)
    ensures forall p | p in s.live && s.live[p].isSpec :: exists t :: s.live[p].tag == {t} && t in Open(c, s)
    ensures forall i | 0 <= i < c.sbDepth && s.sb.table[i].busy && s.sb.table[i].isSpec ::
              exists t :: s.sb.table[i].tag == {t} && t in Open(c, s)
  {
    hide Wrap, Upto, RobOk, PrfCounts, PrfValues, RtOk, ArfOk, OnceOk, OrderOk, LinkOk, BufferOk, MemoryOk,
         AccessOk, Config.OpOk, Open, SlotsOk, Reaches, TagIs, Fin;
    RunKeeps(c, z, s, events);
    OpenIs(c, s);
    forall p | p in s.live && s.live[p].isSpec ensures exists t :: s.live[p].tag == {t} && t in Open(c, s) {
      assert RecordIs(c, s, p, s.live[p]) && TagIs(c, s, s.live[p].n, s.live[p].isSpec, s.live[p].tag);
      OneOpenTag(c, s, s.live[p].n, s.live[p].tag);
    }
    forall i | 0 <= i < c.sbDepth && s.sb.table[i].busy && s.sb.table[i].isSpec
      ensures exists t :: s.sb.table[i].tag == {t} && t in Open(c, s)
    {
      var n := StoreOf(c, s, i);
      OneOpenTag(c, s, n, s.sb.table[i].tag);
    }
  }

  /** The store a busy row holds. */
  lemma StoreOf(c: Config, s: Core, i: nat) returns (n: nat)
    requires Sized(c, s) && CountsOk(c, s) && BufferOk(c, s) && i < c.sbDepth && s.sb.table[i].busy
    ensures n < |s.path| && s.path[n].op.isStore && TagIs(c, s, n, s.sb.table[i].isSpec, s.sb.table[i].tag)
    ensures !s.path[n].op.isBranch
  {
    hide Wrap, Upto, Config.OpOk;
    var k := Cover(i, s.written, c.sbDepth);
    n := StoreNumbered(c, s.path, |s.path|, k);
    assert RowHolds(c, s, n);
    Decoded(c, s.path, n);
  }

  lemma OneOpenTag(c: Config, s: Core, n: nat, tag: Mask)
    requires Inv(c, s) && n < |s.path| && TagIs(c, s, n, true, tag)
    requires s.path[n].op.isBranch ==> s.ret <= n && !Fin(c, s, n)
    ensures exists t :: tag == {t} && t in Open(c, s)
  {
    hide Wrap, Upto, RobOk, PrfCounts, PrfValues, RtOk, ArfOk, OnceOk, OrderOk, LinkOk, BufferOk, MemoryOk,
         AccessOk, Config.OpOk, Open, SlotsOk, TagsOk, RecordsOk;
    OpenIs(c, s);
    CountsRise(c, s.path, n, |s.path|);
    CountsSplit(c, s.path, n, |s.path|);
    var b := Upto(c, s.path, n).brs;
    var t := Wrap(if s.path[n].op.isBranch then b else b - 1, c.tags);
    assert tag == {t} && t in Open(c, s);
  }
}

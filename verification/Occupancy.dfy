/**
 What every table holds, in every state any run reaches: each ring is one run of rows
 between its own pointers, and nothing is lost or counted twice.
 */
module Occupancy {
  import opened Rings
  import opened Program
  import opened Records
  import opened Engine
  import opened Invariant
  import opened Theorems
  import B = Reorder
  import P = Physical
  import S = Stores
  import T = Tags
  import A = KeepAccess
  import Results
  import Tagging

  // --- the store buffer ---------------------------------------------------------------

  lemma Pointers(c: Config, s: Core)
    requires Inv(c, s)
    ensures Sized(c, s) && CountsOk(c, s) && BufferOk(c, s) && RobOk(c, s) && PrfCounts(c, s) && TagsOk(c, s)
  {
  }

  lemma RingStep(lo: nat, hi: nat, size: nat)
    requires size > 0 && lo <= hi <= lo + size
    ensures var p, n := Wrap(lo, size), hi - lo; Wrap(hi, size) == if p + n < size then p + n else p + n - size
  {
    WrapAdd(lo, hi - lo, size);
  }

  /** A busy row is one of the buffered stores, so its distance from the head says which. */
  lemma RowAge(c: Config, s: Core, i: nat)
    requires Sized(c, s) && CountsOk(c, s) && BufferOk(c, s) && i < c.sbDepth
    ensures 0 <= S.Age(s.sb, c.sbDepth, i) < c.sbDepth
    ensures s.sb.table[i].busy <==> S.Age(s.sb, c.sbDepth, i) < s.buffered - s.written
    ensures s.sb.table[i].busy ==> (s.sb.table[i].complete <==> S.Age(s.sb, c.sbDepth, i) < Upto(c, s.path, s.ret).sts - s.written)
  {
    hide Wrap, Upto, Config.OpOk;
    var k := Cover(i, s.written, c.sbDepth);
    RingStep(s.written, k, c.sbDepth);
    assert S.Age(s.sb, c.sbDepth, i) == k - s.written;
    if k < s.buffered {
      var n := StoreNumbered(c, s.path, |s.path|, k);
      assert RowHolds(c, s, n);
      StoreAge(c, s, n);
    }
  }

  /** A store has retired exactly if its number is below the retired count. */
  lemma StoreAge(c: Config, s: Core, n: nat)
    requires Sized(c, s) && CountsOk(c, s) && n < |s.path| && s.path[n].op.isStore
    ensures n < s.ret <==> Upto(c, s.path, n).sts < Upto(c, s.path, s.ret).sts
  {
    hide Wrap, Upto, Config.OpOk;
    if n < s.ret { CountsSplit(c, s.path, n, s.ret); } else { CountsRise(c, s.path, s.ret, n); }
  }

  /** The busy rows are one run from the head, the retired ones its leading part ending at
      the commit pointer, and full means every row is taken: three pointers, no count. */
  lemma BufferIsOneRun(c: Config, z: Core, s: Core, events: seq<Event>)
    requires Reaches(c, z, s, events)
    ensures PathOk(c, s.path) && s.ret <= |s.path| && s.written <= s.buffered
    ensures S.OneRun(s.sb, c.sbDepth, s.buffered - s.written)
    ensures forall i | 0 <= i < c.sbDepth && s.sb.table[i].busy ::
              s.sb.table[i].complete <==> S.Age(s.sb, c.sbDepth, i) < Upto(c, s.path, s.ret).sts - s.written
    ensures var n := Upto(c, s.path, s.ret).sts - s.written;
            0 <= n <= s.buffered - s.written
            && s.sb.com == if s.sb.ret + n < c.sbDepth then s.sb.ret + n else s.sb.ret + n - c.sbDepth
    ensures S.IsFull(s.sb, c.sbDepth) <==> forall i | 0 <= i < c.sbDepth :: s.sb.table[i].busy
  {
    hide Wrap, Upto, Inv, Reaches, Config.OpOk, S.OneRun, S.Age, S.IsFull;
    RunKeeps(c, z, s, events);
    OneRunHere(c, s);
  }

  lemma OneRunHere(c: Config, s: Core)
    requires Inv(c, s)
    ensures PathOk(c, s.path) && s.ret <= |s.path| && s.written <= s.buffered
    ensures S.OneRun(s.sb, c.sbDepth, s.buffered - s.written)
    ensures forall i | 0 <= i < c.sbDepth && s.sb.table[i].busy ::
              s.sb.table[i].complete <==> S.Age(s.sb, c.sbDepth, i) < Upto(c, s.path, s.ret).sts - s.written
    ensures var n := Upto(c, s.path, s.ret).sts - s.written;
            0 <= n <= s.buffered - s.written
            && s.sb.com == if s.sb.ret + n < c.sbDepth then s.sb.ret + n else s.sb.ret + n - c.sbDepth
    ensures S.IsFull(s.sb, c.sbDepth) <==> forall i | 0 <= i < c.sbDepth :: s.sb.table[i].busy
  {
    hide Wrap, Upto, Inv, Config.OpOk, BufferOk, RobOk, PrfCounts, TagsOk;
    Pointers(c, s);
    RunEnds(c, s);
    forall i | 0 <= i < c.sbDepth
      ensures s.sb.table[i].busy <==> S.Age(s.sb, c.sbDepth, i) < s.buffered - s.written
      ensures s.sb.table[i].busy ==>
                (s.sb.table[i].complete <==> S.Age(s.sb, c.sbDepth, i) < Upto(c, s.path, s.ret).sts - s.written)
    {
      RowAge(c, s, i);
    }
    A.FullExactly(c, s);
    FullRows(s.sb, c.sbDepth, s.buffered - s.written);
  }

  lemma RunEnds(c: Config, s: Core)
    requires Sized(c, s) && CountsOk(c, s) && BufferOk(c, s)
    ensures s.buffered - s.written <= c.sbDepth
    ensures var n := s.buffered - s.written;
            s.sb.alloc == if s.sb.ret + n < c.sbDepth then s.sb.ret + n else s.sb.ret + n - c.sbDepth
    ensures var n := Upto(c, s.path, s.ret).sts - s.written;
            s.sb.com == if s.sb.ret + n < c.sbDepth then s.sb.ret + n else s.sb.ret + n - c.sbDepth
  {
    hide Wrap, Upto, Config.OpOk;
    RingStep(s.written, s.buffered, c.sbDepth);
    RingStep(s.written, Upto(c, s.path, s.ret).sts, c.sbDepth);
  }

  /** Every row is taken exactly when the run is as long as the table. */
  lemma FullRows(sb: S.StState, depth: nat, n: nat)
    requires S.OneRun(sb, depth, n)
    ensures n == depth <==> forall i | 0 <= i < depth :: sb.table[i].busy
  {
    if n < depth {
      var i := if sb.ret + n < depth then sb.ret + n else sb.ret + n - depth;
      assert S.Age(sb, depth, i) == n && !sb.table[i].busy;
    } else {
      assert forall i | 0 <= i < depth :: S.Age(sb, depth, i) < depth;
    }
  }

  /** The comparison tree answers every access of every run as the linear scan does. */
  lemma SearchIsNewest(c: Config, z: Core, s: Core, events: seq<Event>, addr: nat)
    requires Reaches(c, z, s, events)
    ensures s.sb.Sized(c.sbDepth)
    ensures S.SearchNewest(s.sb, c.sbDepth, addr) == S.Newest(s.sb, c.sbDepth, c.sbDepth, addr)
  {
    hide Wrap, Upto, Inv, Reaches, S.SearchNewest, S.Newest;
    RunKeeps(c, z, s, events);
    SearchHere(c, s, addr);
  }

  lemma SearchHere(c: Config, s: Core, addr: nat)
    requires Inv(c, s)
    ensures s.sb.Sized(c.sbDepth)
    ensures S.SearchNewest(s.sb, c.sbDepth, addr) == S.Newest(s.sb, c.sbDepth, c.sbDepth, addr)
  {
    hide Wrap, Upto, Inv, S.SearchNewest, S.Newest;
    OneRunHere(c, s);
    S.SearchRefinesScan(s.sb, c.sbDepth, s.buffered - s.written, addr);
  }

  /** Each write to memory is the next retired store of the program, whole: in program
      order, none left out and none twice. */
  lemma DrainWritesNext(c: Config, z: Core, s: Core, events: seq<Event>) returns (n: nat)
    requires Reaches(c, z, s, events) && Sized(c, s) && Enabled(c, s, Drain)
    ensures PathOk(c, s.path) && n < s.ret <= |s.path| && s.path[n].op.isStore && Upto(c, s.path, n).sts == s.written
    ensures Fits(c, s.path[n].op, Upto(c, s.path, n).m)
    ensures var t, op, m := Next(c, s, Drain), s.path[n].op, Upto(c, s.path, n).m;
            t.written == s.written + 1 && t.mem == s.mem[WordAddr(c, op, Operands(c, op, m)) := Stored(c, op, m)]
  {
    hide Wrap, Upto, Inv, Reaches, Config.OpOk, BufferOk, RobOk, PrfCounts, TagsOk, Stored, Operands;
    RunKeeps(c, z, s, events);
    Pointers(c, s);
    n := A.DrainTurn(c, s);
    Decoded(c, s.path, n);
  }

  // --- the reorder buffer and the physical ring -----------------------------------------

  /** How many of the rows hold a physical register. */
  function Actives(rows: seq<B.RobRow>): (n: nat)
    ensures n <= |rows|
  {
    if rows == [] then 0 else Actives(rows[..|rows| - 1]) + (if rows[|rows| - 1].active then 1 else 0)
  }

  lemma {:induction false} ActivesCount(c: Config, s: Core, j: nat, k: nat)
    requires Sized(c, s) && CountsOk(c, s) && RobOk(c, s) && j <= k <= |s.path| - s.ret
    ensures |Results.InFlight(c, s.rob)| == |s.path| - s.ret
    ensures Actives(Results.InFlight(c, s.rob)[j..k]) == Upto(c, s.path, s.ret + k).acts - Upto(c, s.path, s.ret + j).acts
    decreases k
  {
    hide Wrap, Upto, Config.OpOk, Results.InFlight, RobOk, Sized, Apply;
    Results.RowsOk(c, s);
    var rows := Results.InFlight(c, s.rob);
    if j < k {
      ActivesCount(c, s, j, k - 1);
      assert rows[j..k][..k - j - 1] == rows[j..k - 1];
      assert rows[j..k][k - j - 1] == rows[k - 1];
      UptoStep(c, s.path, s.ret + (k - 1));
      assert s.ret + (k - 1) + 1 == s.ret + k;
    } else {
      assert rows[j..k] == [];
    }
  }

  /** The buffer is full exactly when its count says so: pointers and count agree. */
  lemma CountMatchesPointers(c: Config, z: Core, s: Core, events: seq<Event>)
    requires Reaches(c, z, s, events)
    ensures s.rob.used <= c.depth && s.rob.Sized(c.depth)
    ensures s.rob.alloc == if s.rob.com + s.rob.used < c.depth then s.rob.com + s.rob.used else s.rob.com + s.rob.used - c.depth
  {
    hide Wrap, Upto, Inv, Reaches, Config.OpOk, BufferOk, PrfCounts, TagsOk;
    RunKeeps(c, z, s, events);
    Pointers(c, s);
    RingStep(s.ret, |s.path|, c.depth);
  }

  /** Free registers and in-flight destinations make up the file, and the destinations are
      the consecutive registers that end just behind the pointer. */
  lemma PhysicalRing(c: Config, z: Core, s: Core, events: seq<Event>)
    requires Reaches(c, z, s, events)
    ensures Sized(c, s)
    ensures var rows := Results.InFlight(c, s.rob);
            && s.prf.free + Actives(rows) == c.phy
            && forall j | 0 <= j < |rows| && rows[j].active :: Wrap(rows[j].pr + Actives(rows[j..]), c.phy) == s.prf.next
  {
    hide Wrap, Upto, Inv, Reaches, Config.OpOk, BufferOk, TagsOk, Results.InFlight, Actives, RobOk;
    RunKeeps(c, z, s, events);
    Pointers(c, s);
    var rows := Results.InFlight(c, s.rob);
    Results.RowsOk(c, s);
    ActivesCount(c, s, 0, |rows|);
    assert rows[0..|rows|] == rows;
    forall j | 0 <= j < |rows| && rows[j].active ensures Wrap(rows[j].pr + Actives(rows[j..]), c.phy) == s.prf.next {
      ActivesCount(c, s, j, |rows|);
      assert rows[j..|rows|] == rows[j..];
      WrapAdd(Upto(c, s.path, s.ret + j).acts, Actives(rows[j..]), c.phy);
    }
  }

  /** A squash returns exactly the younger instructions' registers. */
  lemma SquashReturnsRegisters(c: Config, z: Core, s: Core, events: seq<Event>, p: Place)
    requires Reaches(c, z, s, events) && Sized(c, s) && Enabled(c, s, MisPredict(p))
    ensures var rows, k := Results.InFlight(c, s.rob), s.live[p].n - s.ret;
            && 0 <= k < |rows|
            && Next(c, s, MisPredict(p)).prf.free == s.prf.free + Actives(rows[k + 1..])
  {
    hide Wrap, Upto, Inv, Reaches, Config.OpOk, BufferOk, TagsOk, Results.InFlight, Actives, RobOk, BranchTarget, Sized,
         Kill, PopCount, Wake;
    RunKeeps(c, z, s, events);
    Pointers(c, s);
    var rows, k := Results.InFlight(c, s.rob), s.live[p].n - s.ret;
    Results.InFlightRecord(c, s, p);
    Results.RowsOk(c, s);
    BranchRegister(c, s, p);
    ActivesCount(c, s, k + 1, |rows|);
    assert rows[k + 1..|rows|] == rows[k + 1..];
    assert s.ret + (k + 1) == s.live[p].n + 1;
    var lo, hi := Upto(c, s.path, s.live[p].n + 1).acts, Upto(c, s.path, |s.path|).acts;
    Distance(lo, hi, c.phy);
  }

  lemma BranchRegister(c: Config, s: Core, p: Place)
    requires Inv(c, s) && p in s.live && s.live[p].op.isBranch
    ensures s.ret <= s.live[p].n < |s.path| && c.phy > 0
    ensures s.live[p].pr < c.phy && Wrap(s.live[p].pr + 1, c.phy) == Wrap(Upto(c, s.path, s.live[p].n + 1).acts, c.phy)
    ensures Upto(c, s.path, s.live[p].n + 1).acts <= Upto(c, s.path, |s.path|).acts
              < Upto(c, s.path, s.live[p].n + 1).acts + c.phy
  {
    hide Wrap, Upto, Config.OpOk, BufferOk, TagsOk, RtOk, ArfOk, LinkOk, AccessOk, SlotsOk, TagIs, OnceOk, OrderOk,
         PrfValues, MemoryOk, ResolvedOk, Apply;
    var n := s.live[p].n;
    assert RecordIs(c, s, p, s.live[p]);
    Decoded(c, s.path, n);
    UptoStep(c, s.path, n);
    WrapAdd(Upto(c, s.path, n).acts, 1, c.phy);
    CountsRise(c, s.path, n + 1, |s.path|);
    CountsRise(c, s.path, s.ret, n);
  }

  // --- a lane that takes no register --------------------------------------------------------

  /** Every granted lane marks the entry at its pointer not-written, asking or not. With `n`
      entries held from count `oldest` on, that spares every held entry exactly when one is
      free, or the oldest held one is not written yet anyway. */
  lemma IdleLaneHarmless(s: P.PrfState, size: nat, oldest: nat, n: nat)
    requires s.Sized(size) && n <= size && s.next == Wrap(oldest + n, size) && s.free == size - n
    ensures (forall p | p in Span(oldest, oldest + n, size) :: P.Rename(s, size, false).fin[p] == s.fin[p])
            <==> s.free > 0 || !s.fin[s.next]
  {
    hide Wrap;
    if n == size {
      A.WrapLap(oldest, size);
      assert Wrap(oldest, size) in Span(oldest, oldest + n, size);
    } else {
      InSpan(oldest + n, oldest, oldest + n, size);
    }
  }

  /** It does happen, in a file of every size: the ring from reset, every entry allocated,
      then the first written back. All are held, and a lane that wants none loses that one. */
  lemma IdleLaneHarms(s: P.PrfState, size: nat, value: Word)
    requires size >= 2 && s.Sized(size) && s.free == size && s.next == 0
    ensures PopCount(AllAsk(size)) <= s.free
    ensures var full := P.WriteBack(P.RenameAll(s, size, AllAsk(size)), size, 0, value);
            && full.free == 0 && full.next == 0 && full.fin[0] && full.data[0] == value
            && (forall p | 0 <= p < size :: p in Span(0, size, size))
            && !P.Rename(full, size, false).fin[0]
  {
    hide Wrap;
    AllTaken(s, size, size);
    assert Wrap(size, size) == 0 && Wrap(0, size) == 0 by { A.WrapLap(0, size); ZeroWraps(size); }
    forall p | 0 <= p < size ensures p in Span(0, size, size) {
      var k := Cover(p, 0, size);
    }
  }

  function AllAsk(n: nat): (asks: seq<bool>)
    ensures |asks| == n
  {
    seq(n, _ => true)
  }

  lemma ZeroWraps(size: nat)
    requires size > 0
    ensures Wrap(0, size) == 0
  {
  }

  lemma {:induction false} AllTaken(s: P.PrfState, size: nat, n: nat)
    requires s.Sized(size) && s.free == size && s.next == 0 && n <= size
    ensures PopCount(AllAsk(n)) == n && P.RenameAll(s, size, AllAsk(n)).next == Wrap(n, size)
    decreases n
  {
    if n == 0 {
      PopCountEmpty(AllAsk(0));
    } else {
      AllTaken(s, size, n - 1);
      assert AllAsk(n)[..n - 1] == AllAsk(n - 1);
      WrapAdd(n - 1, 1, size);
    }
  }

  /** A file larger than the reorder buffer always has a free entry, so it never happens. */
  lemma NeverFull(c: Config, z: Core, s: Core, events: seq<Event>)
    requires Reaches(c, z, s, events)
    ensures s.prf.free >= c.phy - c.depth > 0
  {
    hide Wrap, Upto, Inv, Reaches, Config.OpOk, BufferOk, TagsOk;
    RunKeeps(c, z, s, events);
    Pointers(c, s);
    CountsRise(c, s.path, s.ret, |s.path|);
  }

  // --- the tag ring ---------------------------------------------------------------------

  /** The next tag is a single bit that is not open, and the open ones are the rotations
      right behind it. */
  lemma TagRing(c: Config, z: Core, s: Core, events: seq<Event>)
    requires Reaches(c, z, s, events)
    ensures PathOk(c, s.path) && Sized(c, s)
    ensures var brs := Upto(c, s.path, |s.path|).brs;
            && s.tags.next == {Wrap(brs, c.tags)} && Wrap(brs, c.tags) !in Tagging.Open(c, s)
            && s.tags.free + |Tagging.Open(c, s)| == c.tags - 1
            && brs == s.res + |Tagging.Open(c, s)|
            && Tagging.Open(c, s) == Span(s.res, brs, c.tags)
  {
    hide Wrap, Upto, Inv, Reaches, Config.OpOk, BufferOk, PrfCounts, RobOk, Tagging.Open, Span, Sized;
    RunKeeps(c, z, s, events);
    Pointers(c, s);
    Tagging.OpenIs(c, s);
    var brs := Upto(c, s.path, |s.path|).brs;
    InSpan(brs, s.res, brs, c.tags);
    Tagging.SpanSize(s.res, brs, c.tags);
  }

  /** Each record carries the tag of the nearest branch at or before it, for as long as that
      branch is open; a branch carries its own. */
  lemma NearestBranch(c: Config, z: Core, s: Core, events: seq<Event>, p: Place)
    requires Reaches(c, z, s, events) && p in s.live
    ensures PathOk(c, s.path) && s.live[p].n < |s.path|
    ensures var b := Upto(c, s.path, s.live[p].n).brs;
            if s.live[p].op.isBranch then s.live[p].tag == {Wrap(b, c.tags)}
            else s.live[p].isSpec == (b > s.res) && s.live[p].tag == if b > s.res then {Wrap(b - 1, c.tags)} else {}
  {
    hide Wrap, Upto, Reaches, Config.OpOk, BufferOk, PrfCounts, RobOk, Sized, SlotsOk, RtOk, ArfOk, OnceOk, OrderOk, LinkOk, MemoryOk,
         AccessOk, PrfValues, TagsOk, ResolvedOk;
    RunKeeps(c, z, s, events);
    assert RecordIs(c, s, p, s.live[p]) && TagIs(c, s, s.live[p].n, s.live[p].isSpec, s.live[p].tag);
  }
}

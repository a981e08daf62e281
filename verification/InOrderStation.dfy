/**
 An in-order reservation station: a ring with two pointers and no count.

 Position is age. The rows that hold something are one run from the head, so the run,
 read from the head on, is a queue: `Contents`. Every register update is proved to be
 that queue's own operation, and counting the rows a squash leaves finds the tail.
 */
module InOrderStation {
  import opened Rings
  import opened Program
  import opened Records
  import opened Station
  import opened Cycle
  import P = Physical

  /** The registers of one station. */
  datatype Ring = Ring(table: seq<Entry>, head: nat, alloc: nat)

  function Bits(table: seq<Entry>): (b: seq<bool>)
    ensures |b| == |table|
  {
    seq(|table|, i requires 0 <= i < |table| => table[i].valid)
  }

  /** The rows a squash leaves. */
  function Survivors(table: seq<Entry>, fix: Mask): (b: seq<bool>)
    ensures |b| == |table|
  {
    seq(|table|, i requires 0 <= i < |table| => table[i].valid && !EntrySquashed(table[i], fix))
  }

  // --- the registers after each update ---------------------------------------------------

  function Land(q: Ring, r: Rec): Ring
    requires q.alloc < |q.table|
  {
    Ring(q.table[q.alloc := Entry(true, r)], q.head, Wrap(q.alloc + 1, |q.table|))
  }

  function LandAll(q: Ring, recs: seq<Rec>): (t: Ring)
    requires q.alloc < |q.table|
    ensures |t.table| == |q.table| && t.alloc < |t.table|
  {
    if recs == [] then q else Land(LandAll(q, recs[..|recs| - 1]), recs[|recs| - 1])
  }

  function TakeHead(q: Ring): Ring
    requires q.head < |q.table|
  {
    Ring(q.table[q.head := q.table[q.head].(valid := false)], Wrap(q.head + 1, |q.table|), q.alloc)
  }

  function WakeRing(q: Ring, wbs: seq<P.WbPort>): Ring { q.(table := WokenRows(q.table, wbs)) }

  function MaskRing(q: Ring, tag: Mask): Ring { q.(table := MaskedRows(q.table, tag)) }

  function KillRing(q: Ring, fix: Mask): Ring
    requires |q.table| > 0
  {
    Ring(KilledRows(q.table, fix), q.head, Wrap(q.head + PopCount(Survivors(q.table, fix)), |q.table|))
  }

  // --- the queue it is -------------------------------------------------------------------

  /** Row j of the ring, from the head on. */
  function At(q: Ring, j: nat): Entry
    requires |q.table| > 0
  {
    q.table[Wrap(q.head + j, |q.table|)]
  }

  /** The valid rows are the `count` rows from the head, and the allocation pointer is just
      behind them. */
  ghost predicate Run(q: Ring, count: nat)
  {
    && count <= |q.table| && q.head < |q.table| && q.alloc == Wrap(q.head + count, |q.table|)
    && forall j | 0 <= j < |q.table| :: At(q, j).valid <==> j < count
  }

  /** How many rows wait: no register holds this. */
  ghost function Count(q: Ring): nat { PopCount(Bits(q.table)) }

  ghost predicate Fifo(q: Ring) { Run(q, Count(q)) }

  /** What waits, head first. */
  ghost function Contents(q: Ring): (recs: seq<Rec>)
    requires |q.table| > 0
    ensures |recs| == Count(q)
  {
    seq(Count(q), j requires 0 <= j < Count(q) => At(q, j).rec)
  }

  lemma AtIs(q: Ring, k: nat)
    requires |q.table| > 0 && q.head <= k
    ensures At(q, k - q.head) == q.table[Wrap(k, |q.table|)]
  {
    hide Wrap;
  }

  /** A run has the length the valid bits count. */
  lemma RunCounts(q: Ring, count: nat)
    requires Run(q, count)
    ensures Count(q) == count && Fifo(q)
  {
    hide Wrap, PopCount;
    forall k | q.head <= k < q.head + |q.table| ensures Bits(q.table)[Wrap(k, |q.table|)] <==> k < q.head + count {
      AtIs(q, k);
    }
    PopCountRun(Bits(q.table), q.head, q.head + count);
  }

  /** Rows less than a lap from the head are different rows. */
  lemma RowsApart(q: Ring, i: nat, j: nat)
    requires q.head < |q.table| && i < |q.table| && j < |q.table| && i != j
    ensures Wrap(q.head + i, |q.table|) != Wrap(q.head + j, |q.table|)
  {
    hide Wrap;
    if Wrap(q.head + i, |q.table|) == Wrap(q.head + j, |q.table|) { Apart(q.head + i, q.head + j, |q.table|); }
  }

  /** Every row is some distance from the head. */
  lemma RowAt(q: Ring, row: nat) returns (j: nat)
    requires q.head < |q.table| && row < |q.table|
    ensures j < |q.table| && Wrap(q.head + j, |q.table|) == row
  {
    hide Wrap;
    var k := Cover(row, q.head, |q.table|);
    j := k - q.head;
  }

  lemma Laps(q: Ring, count: nat)
    requires Run(q, count)
    ensures |q.table| > 0 && Wrap(q.head, |q.table|) == q.head && At(q, 0) == q.table[q.head]
    ensures Wrap(q.head + |q.table|, |q.table|) == q.head && q.alloc < |q.table| && count <= |q.table|
  {
  }

  /** With room, a landing record goes to the back. */
  lemma LandKeeps(q: Ring, r: Rec)
    requires Fifo(q) && Count(q) < |q.table|
    ensures Fifo(Land(q, r)) && Contents(Land(q, r)) == Contents(q) + [r]
  {
    hide Wrap, Count;
    var n, t := Count(q), Land(q, r);
    WrapAdd(q.head + n, 1, |q.table|);
    forall j | 0 <= j < |q.table| ensures At(t, j) == if j == n then Entry(true, r) else At(q, j) {
      if j != n { RowsApart(q, j, n); }
    }
    RunCounts(t, n + 1);
  }

  lemma {:induction false} LandAllKeeps(q: Ring, recs: seq<Rec>)
    requires Fifo(q) && Count(q) + |recs| <= |q.table|
    ensures Fifo(LandAll(q, recs)) && Contents(LandAll(q, recs)) == Contents(q) + recs
  {
    hide Wrap, Run, Land;
    assert q.alloc < |q.table| by { Laps(q, Count(q)); }
    if recs != [] {
      var last := |recs| - 1;
      LandAllKeeps(q, recs[..last]);
      LandKeeps(LandAll(q, recs[..last]), recs[last]);
      assert recs[..last] + [recs[last]] == recs;
    }
  }

  /** The head row is the front, and taking it takes the front. */
  lemma TakeKeeps(q: Ring)
    requires Fifo(q) && q.table[q.head].valid
    ensures Count(q) > 0 && Contents(q)[0] == q.table[q.head].rec
    ensures Fifo(TakeHead(q)) && Contents(TakeHead(q)) == Contents(q)[1..]
  {
    hide Wrap, Count;
    var n, t, size := Count(q), TakeHead(q), |q.table|;
    Laps(q, n);
    WrapAdd(q.head, 1, size);
    forall j | 0 <= j < size ensures At(t, j) == (if j == size - 1 then At(q, 0).(valid := false) else At(q, j + 1)) {
      WrapAdd(q.head + 1, j, size);
      if j < size - 1 { RowsApart(q, 0, j + 1); }
    }
    WrapAdd(q.head + 1, n - 1, size);
    RunCounts(t, n - 1);
  }

  /** An update row by row that keeps the valid bits keeps the run. */
  lemma SameRun(q: Ring, t: Ring)
    requires Fifo(q) && |t.table| == |q.table| && t.head == q.head && t.alloc == q.alloc
    requires forall i | 0 <= i < |q.table| :: t.table[i].valid == q.table[i].valid
    ensures Fifo(t) && Count(t) == Count(q)
  {
    hide Wrap, Count;
    forall j | 0 <= j < |t.table| ensures At(t, j).valid <==> j < Count(q) { assert At(t, j).valid == At(q, j).valid; }
    RunCounts(t, Count(q));
  }

  lemma WakeKeeps(q: Ring, wbs: seq<P.WbPort>)
    requires Fifo(q)
    ensures Fifo(WakeRing(q, wbs)) && Count(WakeRing(q, wbs)) == Count(q)
    ensures forall j | 0 <= j < Count(q) :: Contents(WakeRing(q, wbs))[j] == Contents(q)[j].(slots := Woken(Contents(q)[j].slots, wbs))
  {
    hide Wrap, Count, Woken;
    SameRun(q, WakeRing(q, wbs));
    assert forall j | 0 <= j < |q.table| :: At(WakeRing(q, wbs), j) == WokenRow(At(q, j), wbs);
  }

  lemma MaskKeeps(q: Ring, tag: Mask)
    requires Fifo(q)
    ensures Fifo(MaskRing(q, tag)) && Count(MaskRing(q, tag)) == Count(q)
    ensures forall j | 0 <= j < Count(q) :: Contents(MaskRing(q, tag))[j] == MaskRec(Contents(q)[j], tag)
  {
    hide Wrap, Count, MaskRec;
    SameRun(q, MaskRing(q, tag));
    assert forall j | 0 <= j < |q.table| :: At(MaskRing(q, tag), j) == MaskedRow(At(q, j), tag);
  }

  /** A squash that takes the last of the queue: behind a squashed record all are. */
  ghost predicate TakesLast(q: Ring, fix: Mask)
    requires |q.table| > 0
  {
    forall i, j | 0 <= i < j < Count(q) && Squashed(Contents(q)[i], fix) :: Squashed(Contents(q)[j], fix)
  }

  /** How many records at the front survive. */
  ghost function Front(recs: seq<Rec>, fix: Mask): (n: nat)
    ensures n <= |recs| && (forall i | 0 <= i < n :: !Squashed(recs[i], fix))
    ensures n < |recs| ==> Squashed(recs[n], fix)
  {
    if recs == [] then 0
    else
      var before := Front(recs[..|recs| - 1], fix);
      if before == |recs| - 1 && !Squashed(recs[|recs| - 1], fix) then |recs| else before
  }

  /** Counting the survivors finds the tail exactly when the squash takes the last of the
      queue; the queue is then the part in front. */
  lemma KillKeeps(q: Ring, fix: Mask)
    requires Fifo(q)
    ensures Fifo(KillRing(q, fix)) <==> TakesLast(q, fix)
    ensures TakesLast(q, fix) ==> Contents(KillRing(q, fix)) == Contents(q)[..Front(Contents(q), fix)]
    ensures TakesLast(q, fix) ==> PopCount(Survivors(q.table, fix)) == Front(Contents(q), fix)
  {
    hide Wrap, Count, Front;
    var n, t := Front(Contents(q), fix), KillRing(q, fix);
    KilledBits(q, fix);
    assert forall j | 0 <= j < |q.table| :: At(t, j) == KilledRow(At(q, j), fix);
    assert forall j | 0 <= j < Count(q) :: At(t, j).valid <==> !Squashed(Contents(q)[j], fix);
    if TakesLast(q, fix) {
      KilledRun(q, t, fix, n);
    }
  }

  /** The survivors are the valid rows of the killed table. */
  lemma KilledBits(q: Ring, fix: Mask)
    requires |q.table| > 0
    ensures Survivors(q.table, fix) == Bits(KilledRows(q.table, fix))
  {
    hide Squashed;
  }

  lemma FrontSplits(q: Ring, fix: Mask, j: nat)
    requires Fifo(q) && TakesLast(q, fix) && j < |q.table|
    ensures KilledRow(At(q, j), fix).valid <==> j < Front(Contents(q), fix)
  {
    hide Wrap, Count, Front, Squashed;
    if j < Count(q) { assert Contents(q)[j] == At(q, j).rec; }
  }

  lemma KilledRun(q: Ring, t: Ring, fix: Mask, n: nat)
    requires Fifo(q) && t == KillRing(q, fix) && n == Front(Contents(q), fix) && TakesLast(q, fix)
    ensures Run(t, n) && Count(t) == n && Contents(t) == Contents(q)[..n] && PopCount(Survivors(q.table, fix)) == n
  {
    hide Wrap, Front, Squashed, PopCount;
    KilledBits(q, fix);
    Laps(q, Count(q));
    assert forall j | 0 <= j < |q.table| :: At(t, j) == KilledRow(At(q, j), fix);
    forall j | 0 <= j < |q.table| ensures At(t, j).valid <==> j < n {
      FrontSplits(q, fix, j);
    }
    Counted(t, n);
    RunCounts(t, n);
  }

  /** The valid bits count the run whatever the allocation pointer holds. */
  lemma Counted(q: Ring, n: nat)
    requires q.head < |q.table| && n <= |q.table| && forall j | 0 <= j < |q.table| :: At(q, j).valid <==> j < n
    ensures Count(q) == n
  {
    hide Wrap;
    var t := q.(alloc := Wrap(q.head + n, |q.table|));
    forall j | 0 <= j < |t.table| ensures At(t, j).valid <==> j < n { assert At(t, j) == At(q, j); }
    RunCounts(t, n);
  }

  /** The row `offset` past the pointer is free exactly while the queue leaves room for it. */
  lemma PortFree(q: Ring, offset: nat)
    requires Fifo(q) && offset < |q.table|
    ensures !q.table[Wrap(q.alloc + offset, |q.table|)].valid <==> Count(q) + offset < |q.table|
  {
    hide Wrap, Count;
    var n, size := Count(q), |q.table|;
    WrapAdd(q.head + n, offset, size);
    if n + offset < size {
      assert !At(q, n + offset).valid;
    } else {
      WrapOnce(q.head + n + offset, size);
      assert At(q, n + offset - size).valid;
    }
  }

  lemma WrapOnce(k: nat, size: nat)
    requires 0 < size <= k
    ensures Wrap(k - size, size) == Wrap(k, size)
  {
  }

  lemma {:induction false} LandAllMoves(q: Ring, recs: seq<Rec>)
    requires q.alloc < |q.table|
    ensures LandAll(q, recs).head == q.head && LandAll(q, recs).alloc == Wrap(q.alloc + |recs|, |q.table|)
  {
    hide Wrap;
    if recs == [] {
      WrapSmall(q.alloc, |q.table|);
    } else {
      LandAllMoves(q, recs[..|recs| - 1]);
      WrapAdd(q.alloc + |recs| - 1, 1, |q.table|);
    }
  }

  lemma WrapSmall(k: nat, size: nat)
    requires k < size
    ensures Wrap(k, size) == k
  {
  }

  /** The lanes that name this station, in lane order. */
  function Aimed(lanes: seq<Rec>, mine: seq<bool>): (a: seq<Rec>)
    requires |lanes| == |mine|
    ensures |a| == PopCount(mine)
  {
    if lanes == [] then []
    else
      var last := |lanes| - 1;
      Aimed(lanes[..last], mine[..last]) + (if mine[last] then [lanes[last]] else [])
  }

  /** Records as they are read. */
  function ReadRecs(recs: seq<Rec>): (r: seq<Rec>)
    ensures |r| == |recs|
  {
    seq(|recs|, i requires 0 <= i < |recs| => ReadRec(recs[i]))
  }

  lemma ReadMore(recs: seq<Rec>, r: Rec)
    ensures ReadRecs(recs + [r]) == ReadRecs(recs) + [ReadRec(r)]
  {
    hide ReadRec;
  }

  lemma AimedStep(lanes: seq<Rec>, mine: seq<bool>, i: nat)
    requires |lanes| == |mine| && i < |mine|
    ensures Aimed(lanes[..i + 1], mine[..i + 1]) == Aimed(lanes[..i], mine[..i]) + (if mine[i] then [lanes[i]] else [])
  {
    assert lanes[..i + 1][..i] == lanes[..i] && mine[..i + 1][..i] == mine[..i];
  }

  class RsvIOR {
    /** The storage every station has, and what it does with it. */
    const base: Rsv
    var head_ptr: nat
    var alloc_ptr: nat

    ghost function View(): Ring
      reads this, base.table
    {
      Ring(base.View(), head_ptr, alloc_ptr)
    }

    /** The valid rows are one run from the head to the allocation pointer. */
    ghost predicate Valid()
      reads this, base.table
    {
      base.exec_src.Length == 1 && Fifo(View())
    }

    constructor (station: nat, size: nat, blank: Rec)
      requires size > 0
      ensures Valid() && fresh(base) && fresh(base.table) && fresh(base.exec_src)
      ensures base.station == station && base.table.Length == size && Contents(View()) == [] && head_ptr == 0
    {
      base := new Rsv(station, size, 1, blank);
      head_ptr, alloc_ptr := 0, 0;
      new;
      RunCounts(View(), 0);
    }

    /** Where each port lands, and whether every lane aimed here fits. */
    method FreeSlots(mine: seq<bool>) returns (all_ok: bool, free_ok: seq<bool>, free_idx: seq<nat>)
      requires Valid() && |mine| <= base.table.Length
      ensures |free_ok| == |free_idx| == |mine|
      ensures forall k | 0 <= k < |mine| :: free_idx[k] == Wrap(alloc_ptr + PopCount(mine[..k]), base.table.Length)
      ensures forall k | 0 <= k < |mine| && mine[k] ::
                free_ok[k] <==> Count(View()) + PopCount(mine[..k + 1]) <= base.table.Length
      ensures all_ok <==> Count(View()) + PopCount(mine) <= base.table.Length
    {
      hide Wrap, PopCount;
      PopCountEmpty(mine[..0]);
      var size := base.table.Length;
      ghost var n := Count(View());
      all_ok, free_ok, free_idx := true, [], [];
      for port := 0 to |mine|
        invariant |free_ok| == |free_idx| == port
        invariant forall k | 0 <= k < port :: free_idx[k] == Wrap(alloc_ptr + PopCount(mine[..k]), size)
        invariant forall k | 0 <= k < port && mine[k] :: free_ok[k] <==> n + PopCount(mine[..k + 1]) <= size
        invariant all_ok <==> n + PopCount(mine[..port]) <= size
      {
        var offset := PopCount(mine[..port]);
        var idx := Wrap(alloc_ptr + offset, size);
        CountStep(mine, port);
        PortFree(View(), offset);
        free_ok, free_idx := free_ok + [!base.table[idx].valid], free_idx + [idx];
        all_ok := all_ok && (free_ok[port] || !mine[port]);
      }
      assert mine[..|mine|] == mine;
    }

    /** Take the lanes aimed here, in order; one that finds no room blocks every later one. */
    method OnDispatch(lanes: seq<Rec>, mine: seq<bool>) returns (accepted: nat)
      requires Valid() && |lanes| == |mine| <= base.table.Length
      modifies this, base.table
      ensures Valid() && accepted <= PopCount(mine) && View() == LandAll(old(View()), ReadRecs(Aimed(lanes, mine)[..accepted]))
      ensures accepted == var room := base.table.Length - old(Count(View())); if PopCount(mine) <= room then PopCount(mine) else room
      ensures Contents(View()) == old(Contents(View())) + ReadRecs(Aimed(lanes, mine)[..accepted])
    {
      hide Wrap, PopCount, Aimed, Contents, Count, Run, Land, ReadRec, Rsv.View;
      ghost var q, size := View(), base.table.Length;
      Laps(q, Count(q));
      var all_ok, free_ok, free_idx := FreeSlots(mine);
      var blocked := false;
      accepted := 0;
      PopCountEmpty(mine[..0]);
      for port := 0 to |mine|
        modifies base.table
        invariant accepted <= PopCount(mine[..port])
        invariant base.View() == LandAll(q, ReadRecs(Aimed(lanes[..port], mine[..port])[..accepted])).table
        invariant if blocked then accepted == size - Count(q) < PopCount(mine[..port])
                  else accepted == PopCount(mine[..port]) <= size - Count(q)
      {
        CountStep(mine, port);
        AimedStep(lanes, mine, port);
        var accept := mine[port] && free_ok[port] && !blocked;
        blocked := blocked || (mine[port] && !accept);
        ghost var a, b := Aimed(lanes[..port], mine[..port]), Aimed(lanes[..port + 1], mine[..port + 1]);
        assert if accept then a[..accepted] == a && b[..accepted + 1] == a + [lanes[port]] else a[..accepted] == b[..accepted];
        if accept {
          LandNext(q, ReadRecs(a), ReadRec(lanes[port]));
          base.WriteEntry(free_idx[port], lanes[port]);
          ReadMore(a, lanes[port]);
          accepted := accepted + 1;
        }
      }
      assert lanes[..|mine|] == lanes && mine[..|mine|] == mine;
      alloc_ptr := Wrap(alloc_ptr + accepted, base.table.Length);
      LandAllMoves(q, ReadRecs(Aimed(lanes, mine)[..accepted]));
      LandAllKeeps(q, ReadRecs(Aimed(lanes, mine)[..accepted]));
    }

    /** The head leaves for the unit, once it is there, its sources have landed and the unit
        takes it; else the station stalls. */
    method BuildIssue(unit_takes: bool, suc_tag: Mask) returns (issued: bool)
      requires Valid()
      modifies this, base.table, base.exec_src
      ensures Valid() && issued == (unit_takes && old(Count(View()) > 0 && Ready(Contents(View())[0])))
      ensures View() == if issued then TakeHead(old(View())) else old(View())
      ensures issued ==> ReadRec(base.exec_src[0]) == Unmasked(old(Contents(View())[0]), suc_tag)
                         && Contents(View()) == old(Contents(View()))[1..]
      ensures !issued ==> base.exec_src[0] == old(base.exec_src[0])
    {
      hide Wrap, Contents, Count, PopCount, Ready, Unmasked;
      ghost var q := View();
      Laps(q, Count(q));
      HeadIs(q);
      var ready := base.SlotReady(head_ptr);
      issued := unit_takes && ready;
      if issued {
        TakeKeeps(q);
        base.OnIssue(0, head_ptr, suc_tag);
        head_ptr := Wrap(head_ptr + 1, base.table.Length);
      }
    }

    method OnBypass(bypasses: seq<P.WbPort>)
      requires Valid()
      modifies base.table
      ensures Valid() && View() == WakeRing(old(View()), bypasses)
    {
      WakeKeeps(View(), bypasses);
      base.OnBypass(bypasses);
    }

    method OnSucPred(suc_tag: Mask)
      requires Valid()
      modifies base.table
      ensures Valid() && View() == MaskRing(old(View()), suc_tag)
    {
      MaskKeeps(View(), suc_tag);
      base.OnSucPred(suc_tag);
    }

    /** The killed rows empty and the tail is pulled back to the head plus the survivors. The
        station stays a queue exactly when the squash takes its last entries. */
    method OnMisPred(fix_tag: Mask)
      requires Valid()
      modifies this, base.table
      ensures View() == KillRing(old(View()), fix_tag)
      ensures Valid() <==> old(TakesLast(View(), fix_tag))
      ensures Valid() ==> Contents(View()) == old(Contents(View()))[..Front(old(Contents(View())), fix_tag)]
    {
      hide Wrap, Contents, Count, PopCount, Run, TakesLast;
      KillKeeps(View(), fix_tag);
      assert Survivors(base.table[..], fix_tag) == Survivors(base.View(), fix_tag);
      Laps(View(), Count(View()));
      var survivors := Survivors(base.table[..], fix_tag);
      base.OnMisPred(fix_tag);
      alloc_ptr := Wrap(head_ptr + PopCount(survivors), base.table.Length);
    }
  }

  lemma LandNext(q: Ring, recs: seq<Rec>, r: Rec)
    requires Fifo(q)
    ensures Wrap(q.alloc + |recs|, |q.table|) == LandAll(q, recs).alloc
    ensures LandAll(q, recs + [r]).table == LandAll(q, recs).table[LandAll(q, recs).alloc := Entry(true, r)]
  {
    hide Wrap, Count;
    LandAllMoves(q, recs);
    assert (recs + [r])[..|recs|] == recs;
  }

  /** The head row holds something exactly while anything waits, and that is the front. */
  lemma HeadIs(q: Ring)
    requires Fifo(q)
    ensures q.head < |q.table| && (q.table[q.head].valid <==> Count(q) > 0)
    ensures Count(q) > 0 ==> q.table[q.head].rec == Contents(q)[0]
  {
    hide Wrap, Count;
    Laps(q, Count(q));
  }
}

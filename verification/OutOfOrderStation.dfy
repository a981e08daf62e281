/** An out-of-order reservation station: tournament folds over the table for a free row
    and for the oldest ready one. */
module OutOfOrderStation {
  import opened Rings

  /** `track` is the dispatch cycle's stamp and `isLower` its epoch: set once the stamp
      counter has wrapped since. */
  datatype Entry<T> = Entry(valid: bool, ready: bool, uop: nat, isLower: bool, track: nat, item: T)

  // --- a free row -------------------------------------------------------------------

  datatype Found = Found(ok: bool, idx: nat)

  /** The free bit reduced with its index over rows `lo .. hi`; a tie takes the left. */
  function FindFree(free: seq<bool>, lo: nat, hi: nat): (f: Found)
    requires lo < hi <= |free|
    ensures lo <= f.idx < hi
    ensures f.ok <==> exists i :: lo <= i < hi && free[i]
    ensures f.ok ==> free[f.idx] && forall i | lo <= i < f.idx :: !free[i]
    decreases hi - lo
  {
    if hi == lo + 1 then Found(free[lo], lo)
    else
      var mid := (lo + hi) / 2;
      var lhs, rhs := FindFree(free, lo, mid), FindFree(free, mid, hi);
      Found(lhs.ok || rhs.ok, if lhs.ok then lhs.idx else rhs.idx)
  }

  // --- the oldest ready row ---------------------------------------------------------

  /** An older epoch first; inside one, the smaller stamp. */
  predicate Older<T>(a: Entry<T>, b: Entry<T>)
  {
    (a.isLower && !b.isLower) || (a.isLower == b.isLower && a.track < b.track)
  }

  /** The issuable bit reduced with its index: issuable beats not, older beats younger. */
  function PickOldest<T>(table: seq<Entry<T>>, issuable: seq<bool>, lo: nat, hi: nat): (f: Found)
    requires lo < hi <= |table| == |issuable|
    ensures lo <= f.idx < hi
    ensures f.ok <==> exists i :: lo <= i < hi && issuable[i]
    ensures f.ok ==> issuable[f.idx] && forall i | lo <= i < hi && issuable[i] ::
              && (table[i].isLower ==> table[f.idx].isLower)
              && (table[i].isLower == table[f.idx].isLower ==> table[f.idx].track <= table[i].track)
    decreases hi - lo
  {
    if hi == lo + 1 then Found(issuable[lo], lo)
    else
      var mid := (lo + hi) / 2;
      var lhs, rhs := PickOldest(table, issuable, lo, mid), PickOldest(table, issuable, mid, hi);
      var pickLhs := lhs.ok && (!rhs.ok || Older(table[lhs.idx], table[rhs.idx]));
      Found(lhs.ok || rhs.ok, if pickLhs then lhs.idx else rhs.idx)
  }

  // --- which uops a unit runs -------------------------------------------------------

  /** A unit's uop ids as runs, each `lo .. hi` inclusive. */
  datatype Range = Range(lo: nat, hi: nat)

  predicate Covered(runs: seq<Range>, id: nat)
  {
    exists k :: 0 <= k < |runs| && runs[k].lo <= id <= runs[k].hi
  }

  /** Moving the last run's end up by one covers one more id. */
  lemma Lengthened(runs: seq<Range>)
    requires runs != [] && runs[|runs| - 1].lo <= runs[|runs| - 1].hi
    ensures var last := |runs| - 1; var longer := runs[last := Range(runs[last].lo, runs[last].hi + 1)];
            forall id: nat :: Covered(longer, id) <==> Covered(runs, id) || id == runs[last].hi + 1
  {
    var last := |runs| - 1;
    var longer := runs[last := Range(runs[last].lo, runs[last].hi + 1)];
    forall id: nat ensures Covered(longer, id) <==> Covered(runs, id) || id == runs[last].hi + 1 {
      if k :| 0 <= k < |runs| && runs[k].lo <= id <= runs[k].hi { assert longer[k].lo <= id <= longer[k].hi; }
      if id == runs[last].hi + 1 { assert longer[last].lo <= id <= longer[last].hi; }
      if k :| 0 <= k < |longer| && longer[k].lo <= id <= longer[k].hi {
        assert id == runs[last].hi + 1 || runs[k].lo <= id <= runs[k].hi;
      }
    }
  }

  lemma Appended(runs: seq<Range>, x: nat)
    ensures forall id: nat :: Covered(runs + [Range(x, x)], id) <==> Covered(runs, id) || id == x
  {
    var more := runs + [Range(x, x)];
    forall id: nat ensures Covered(more, id) <==> Covered(runs, id) || id == x {
      if k :| 0 <= k < |runs| && runs[k].lo <= id <= runs[k].hi { assert more[k].lo <= id <= more[k].hi; }
      if id == x { assert more[|runs|].lo <= id <= more[|runs|].hi; }
    }
  }

  /** The ids a unit declares, folded into ascending runs that never touch. */
  method UopIdxRanges(ids: seq<nat>) returns (runs: seq<Range>)
    requires forall i, j | 0 <= i < j < |ids| :: ids[i] < ids[j]
    ensures forall id: nat :: Covered(runs, id) <==> id in ids
    ensures forall k | 0 <= k < |runs| :: runs[k].lo <= runs[k].hi
    ensures forall j, k | 0 <= j < k < |runs| :: runs[j].hi + 1 < runs[k].lo
  {
    runs := [];
    for n := 0 to |ids|
      invariant forall k | 0 <= k < |runs| :: runs[k].lo <= runs[k].hi
      invariant forall j, k | 0 <= j < k < |runs| :: runs[j].hi + 1 < runs[k].lo
      invariant n == 0 <==> runs == []
      invariant n > 0 ==> runs[|runs| - 1].hi == ids[n - 1]
      invariant forall id: nat :: Covered(runs, id) <==> id in ids[..n]
    {
      ghost var before := runs;
      var last := |runs| - 1;
      assert ids[..n + 1] == ids[..n] + [ids[n]];
      if runs != [] && ids[n] == runs[last].hi + 1 {
        runs := runs[last := Range(runs[last].lo, ids[n])];
        Lengthened(before);
      } else {
        runs := runs + [Range(ids[n], ids[n])];
        Appended(before, ids[n]);
      }
    }
    assert ids[..|ids|] == ids;
  }

  /** One run's test on a field holding ids `0 ..= top`: a bound at the edge of the field
      is dropped, and a single id is an equality. */
  predicate InRange(run: Range, id: nat, top: nat)
  {
    if run.lo == run.hi then id == run.lo
    else (run.lo > 0 ==> id >= run.lo) && (run.hi < top ==> id <= run.hi)
  }

  /** The unit's whole test; a unit running everything the station is sent tests nothing. */
  predicate MatchesUnit(runs: seq<Range>, coversStation: bool, id: nat, top: nat)
  {
    coversStation || exists k :: 0 <= k < |runs| && InRange(runs[k], id, top)
  }

  /** The test is membership, for every id decode can route here. */
  lemma MatchIsMembership(ids: seq<nat>, runs: seq<Range>, routed: set<nat>, id: nat, top: nat)
    requires forall i: nat :: Covered(runs, i) <==> i in ids
    requires (forall i | i in ids :: i <= top) && id in routed && id <= top
    ensures MatchesUnit(runs, forall i | i in routed :: i in ids, id, top) <==> id in ids
  {
    if k :| 0 <= k < |runs| && InRange(runs[k], id, top) { assert runs[k].lo <= id <= runs[k].hi; }
    if id in ids {
      var k :| 0 <= k < |runs| && runs[k].lo <= id <= runs[k].hi;
      assert InRange(runs[k], id, top);
    }
  }

  // --- what the stamps say --------------------------------------------------------

  /** The stamp and the epoch bit of every row, from the number of the dispatch cycle that
      filled it: the stamp is that number as the counter held it, and the bit is set once a
      later cycle has spent the last stamp. */
  ghost predicate Aged<T>(table: seq<Entry<T>>, born: seq<nat>, stamps: nat, ptr: nat, cycles: nat, wrapped: int)
    requires |table| == |born|
  {
    && ptr < stamps && -1 <= wrapped && cycles == wrapped + 1 + ptr && Wrap(wrapped + 1, stamps) == 0
    && forall i | 0 <= i < |table| && table[i].valid ::
         born[i] < cycles && table[i].track == Wrap(born[i], stamps) && table[i].isLower == (born[i] < wrapped)
  }

  /** The stamp of a row that has waited through no more than one wrap, counted from the cycle that spent the last stamp before it: the
      row that very cycle filled has the top stamp, and the ones after it count from zero. */
  lemma StampIs<T>(table: seq<Entry<T>>, born: seq<nat>, stamps: nat, ptr: nat, cycles: nat, wrapped: int, i: nat)
    requires |table| == |born| && i < |table| && table[i].valid && Aged(table, born, stamps, ptr, cycles, wrapped)
    requires wrapped - stamps <= born[i]
    ensures var first := if table[i].isLower then wrapped - stamps else wrapped;
            && first <= born[i] < first + stamps
            && table[i].track == if born[i] == first then stamps - 1 else born[i] - first - 1
  {
    hide Wrap;
    var first := if table[i].isLower then wrapped - stamps else wrapped;
    StampFrom(born[i], first + 1, stamps) by {
      if table[i].isLower { OneTurn(wrapped + 1, stamps); }
    }
  }

  lemma OneTurn(k: nat, size: nat)
    requires 0 < size && 0 < k && Wrap(k, size) == 0
    ensures size <= k && Wrap(k - size, size) == 0
  {
  }

  lemma StampFrom(b: nat, zero: nat, stamps: nat)
    requires stamps > 0 && Wrap(zero, stamps) == 0 && zero <= b + 1 && b < zero + stamps
    ensures Wrap(b, stamps) == if b + 1 == zero then stamps - 1 else b - zero
  {
    hide Wrap;
    if b + 1 == zero {
      BackOne(b, stamps);
    } else {
      WrapAdd(zero, b - zero, stamps);
      Small(b - zero, stamps);
    }
  }

  lemma Small(k: nat, size: nat)
    requires k < size
    ensures Wrap(k, size) == k
  {
  }

  lemma {:induction false} BackOne(b: nat, size: nat)
    requires size > 0 && Wrap(b + 1, size) == 0
    ensures Wrap(b, size) == size - 1
  {
    if b >= size { BackOne(b - size, size); }
  }

  /** Of a set of rows no more than a wrap old, one that no other beats on epoch and stamp is the first filled
      exactly when no row of its own epoch that it was chosen over has the top stamp: that row
      was filled in the cycle that spent it, before all the others of the epoch. */
  lemma OldestExactly<T>(table: seq<Entry<T>>, born: seq<nat>, stamps: nat, ptr: nat, cycles: nat, wrapped: int, rows: set<nat>, p: nat)
    requires |table| == |born| && Aged(table, born, stamps, ptr, cycles, wrapped) && p in rows
    requires forall i | i in rows :: i < |table| && table[i].valid && wrapped - stamps <= born[i]
    requires forall i | i in rows ::
               (table[i].isLower ==> table[p].isLower) && (table[i].isLower == table[p].isLower ==> table[p].track <= table[i].track)
    ensures (forall i | i in rows :: born[p] <= born[i])
       <==> (forall i | i in rows && table[i].isLower == table[p].isLower && table[i].track == stamps - 1 :: table[p].track == stamps - 1)
  {
    hide Wrap;
    forall i | i in rows
      ensures var first := if table[i].isLower then wrapped - stamps else wrapped;
              && first <= born[i] < first + stamps
              && table[i].track == if born[i] == first then stamps - 1 else born[i] - first - 1
    {
      StampIs(table, born, stamps, ptr, cycles, wrapped, i);
    }
  }

  // --- the block --------------------------------------------------------------------

  function FreeBits<T>(table: seq<Entry<T>>): (b: seq<bool>)
    ensures |b| == |table| && forall i | 0 <= i < |table| :: b[i] <==> !table[i].valid
  {
    seq(|table|, i requires 0 <= i < |table| => !table[i].valid)
  }

  /** `stamps` is how many values the stamp counter holds: two to the index width. */
  class RsvO3<T> {
    const size: nat
    const stamps: nat
    const table: array<Entry<T>>
    var track_ptr: nat

    /** History: how many dispatch cycles have filled rows here, which of them spent the last
        stamp most recently (-1 for none), and the one that filled each row. */
    ghost var cycles: nat
    ghost var wrapped: int
    ghost var born: seq<nat>

    ghost predicate Valid()
      reads this, table
    {
      0 < size == table.Length == |born| && Aged(table[..], born, stamps, track_ptr, cycles, wrapped)
    }

    constructor (size: nat, stamps: nat, blank: T)
      requires 0 < size <= stamps
      ensures Valid() && this.size == size && this.stamps == stamps && fresh(table) && cycles == track_ptr == 0
      ensures forall i | 0 <= i < size :: !table[i].valid
    {
      this.size, this.stamps, track_ptr := size, stamps, 0;
      table := new Entry<T>[size](_ => Entry(false, false, 0, false, 0, blank));
      cycles, wrapped, born := 0, -1, seq(size, _ => 0);
    }

    /** One free row a port, each port passing over what the lanes before it really take. */
    method FreeSlots(mine: seq<bool>) returns (all_ok: bool, free_ok: seq<bool>, free_idx: seq<nat>)
      requires Valid()
      ensures |free_ok| == |free_idx| == |mine|
      ensures all_ok <==> PopCount(mine) <= PopCount(FreeBits(table[..]))
      ensures all_ok ==> forall k | 0 <= k < |mine| && mine[k] :: free_ok[k]
      ensures forall k | 0 <= k < |mine| && mine[k] && free_ok[k] :: free_idx[k] < size && !table[free_idx[k]].valid
      ensures forall j, k | 0 <= j < k < |mine| && mine[j] && mine[k] && free_ok[j] && free_ok[k] :: free_idx[j] != free_idx[k]
    {
      hide PopCount;
      var free := FreeBits(table[..]);
      ghost var room := PopCount(free);
      all_ok, free_ok, free_idx := true, [], [];
      PopCountEmpty(mine[..0]);
      for port := 0 to |mine|
        invariant |free_ok| == |free_idx| == port && |free| == size
        invariant forall i | 0 <= i < size && free[i] :: !table[i].valid
        invariant all_ok <==> PopCount(mine[..port]) <= room
        invariant all_ok ==> forall k | 0 <= k < port && mine[k] :: free_ok[k]
        invariant if all_ok then PopCount(free) == room - PopCount(mine[..port]) else PopCount(free) == 0
        invariant forall k | 0 <= k < port && mine[k] && free_ok[k] ::
                    free_idx[k] < size && !table[free_idx[k]].valid && !free[free_idx[k]]
        invariant forall j, k | 0 <= j < k < port && mine[j] && mine[k] && free_ok[j] && free_ok[k] :: free_idx[j] != free_idx[k]
      {
        CountStep(mine, port);
        var found := FindFree(free, 0, size);
        AnySet(free);
        if found.ok && mine[port] {
          assert free[found.idx := false][found.idx := true] == free;
          PopCountSet(free[found.idx := false], found.idx);
          free := free[found.idx := false];
        }
        free_ok, free_idx := free_ok + [found.ok], free_idx + [found.idx];
        all_ok := all_ok && (found.ok || !mine[port]);
      }
      assert mine[..|mine|] == mine;
    }

    /** Every unit's pick: of the rows it can run that no unit before it picked, one of an
        older epoch first, and inside an epoch one of the smallest stamp. */
    method BuildIssue(runs: seq<seq<bool>>) returns (picks: seq<Found>)
      requires Valid() && forall u | 0 <= u < |runs| :: |runs[u]| == size
      ensures |picks| == |runs|
      ensures forall u | 0 <= u < |runs| ::
                && (picks[u].ok <==> exists i :: Open(runs, picks, u, i))
                && (picks[u].ok ==> Open(runs, picks, u, picks[u].idx)
                                    && forall i | Open(runs, picks, u, i) ::
                                         && (table[i].isLower ==> table[picks[u].idx].isLower)
                                         && (table[i].isLower == table[picks[u].idx].isLower ==>
                                               table[picks[u].idx].track <= table[i].track))
      ensures forall u, v | 0 <= u < v < |runs| && picks[u].ok && picks[v].ok :: picks[u].idx != picks[v].idx
      ensures forall u | 0 <= u < |runs| && picks[u].ok && (forall i | Open(runs, picks, u, i) :: wrapped - stamps <= born[i]) ::
                (forall i | Open(runs, picks, u, i) :: born[picks[u].idx] <= born[i])
                <==> (forall i | Open(runs, picks, u, i) && table[i].isLower == table[picks[u].idx].isLower && table[i].track == stamps - 1 ::
                        table[picks[u].idx].track == stamps - 1)
    {
      picks := [];
      for unit := 0 to |runs|
        invariant |picks| == unit
        invariant forall u | 0 <= u < unit ::
                    && (picks[u].ok <==> exists i :: Open(runs, picks, u, i))
                    && (picks[u].ok ==> Open(runs, picks, u, picks[u].idx)
                                        && forall i | Open(runs, picks, u, i) ::
                                             && (table[i].isLower ==> table[picks[u].idx].isLower)
                                             && (table[i].isLower == table[picks[u].idx].isLower ==>
                                                   table[picks[u].idx].track <= table[i].track))
      {
        var issuable := seq(size, i requires 0 <= i < size && size == table.Length && unit < |runs| && |runs[unit]| == size reads table =>
          table[i].valid && table[i].ready && runs[unit][i] && Unclaimed(picks, i));
        var pick := PickOldest(table[..], issuable, 0, size);
        ghost var before := picks;
        picks := picks + [pick];
        forall u, i | 0 <= u < unit ensures Open(runs, picks, u, i) == Open(runs, before, u, i) {
          assert picks[..u] == before[..u];
        }
        assert picks[..unit] == before;
        assert forall i :: Open(runs, picks, unit, i) <==> (0 <= i < size && issuable[i]);
      }
      forall u | 0 <= u < |runs| && picks[u].ok && (forall i | Open(runs, picks, u, i) :: wrapped - stamps <= born[i])
        ensures (forall i | Open(runs, picks, u, i) :: born[picks[u].idx] <= born[i])
                <==> (forall i | Open(runs, picks, u, i) && table[i].isLower == table[picks[u].idx].isLower && table[i].track == stamps - 1 ::
                        table[picks[u].idx].track == stamps - 1)
      {
        PicksOldest(runs, picks, u);
      }
    }

    /** Row i is left to unit u: occupied, ready, one u runs, and not picked before it. */
    ghost predicate Open(runs: seq<seq<bool>>, picks: seq<Found>, u: nat, i: int)
      requires u < |runs| && u <= |picks| && size == table.Length && |runs[u]| == size
      reads table
    {
      0 <= i < size && table[i].valid && table[i].ready && runs[u][i] && forall v | 0 <= v < u && picks[v].ok :: picks[v].idx != i
    }

    /** What the picks of `BuildIssue` mean: of rows no more than a wrap old, a unit takes the
        one filled first exactly when it passes over no row of the same epoch that has the top
        stamp. */
    lemma PicksOldest(runs: seq<seq<bool>>, picks: seq<Found>, u: nat)
      requires Valid() && u < |runs| == |picks| && |runs[u]| == size && picks[u].ok && Open(runs, picks, u, picks[u].idx)
      requires forall i | Open(runs, picks, u, i) ::
                 && (table[i].isLower ==> table[picks[u].idx].isLower)
                 && (table[i].isLower == table[picks[u].idx].isLower ==> table[picks[u].idx].track <= table[i].track)
      requires forall i | Open(runs, picks, u, i) :: wrapped - stamps <= born[i]
      ensures (forall i | Open(runs, picks, u, i) :: born[picks[u].idx] <= born[i])
         <==> (forall i | Open(runs, picks, u, i) && table[i].isLower == table[picks[u].idx].isLower && table[i].track == stamps - 1 ::
                 table[picks[u].idx].track == stamps - 1)
    {
      var rows := set i: nat | i < size && Open(runs, picks, u, i);
      OldestExactly(table[..], born, stamps, track_ptr, cycles, wrapped, rows, picks[u].idx);
      assert forall i | Open(runs, picks, u, i) :: i in rows;
    }

    /** An entry leaves for its unit. */
    method OnIssue(row: nat)
      requires Valid() && row < size
      modifies table
      ensures Valid() && table[row] == old(table[row]).(valid := false)
      ensures forall i | 0 <= i < size && i != row :: table[i] == old(table[i])
    {
      hide Wrap;
      table[row] := table[row].(valid := false);
    }

    /** Every entry in the table is now a wrap behind the counter. */
    method RollTrackEpoch()
      requires table.Length == size
      modifies table
      ensures forall j | 0 <= j < size :: table[j] == old(table[j]).(isLower := true)
    {
      for i := 0 to size
        invariant forall j | 0 <= j < size :: table[j] == if j < i then old(table[j]).(isLower := true) else old(table[j])
      {
        table[i] := table[i].(isLower := true);
      }
    }

    /** The accepted lanes land, each in its own row, under the current stamp. */
    method WriteEntries(lanes: seq<Entry<T>>, accepted: seq<bool>, free_idx: seq<nat>)
      requires table.Length == size == |born| && |lanes| == |accepted| == |free_idx|
      requires forall k | 0 <= k < |accepted| && accepted[k] :: free_idx[k] < size
      requires forall j, k | 0 <= j < k < |accepted| && accepted[j] && accepted[k] :: free_idx[j] != free_idx[k]
      modifies table, `born
      ensures |born| == size
      ensures forall k | 0 <= k < |accepted| && accepted[k] ::
                table[free_idx[k]] == lanes[k].(track := track_ptr, isLower := false) && born[free_idx[k]] == cycles
      ensures forall i | 0 <= i < size && (forall k | 0 <= k < |accepted| && accepted[k] :: free_idx[k] != i) ::
                table[i] == old(table[i]) && born[i] == old(born[i])
    {
      for port := 0 to |lanes|
        invariant |born| == size
        invariant forall k | 0 <= k < port && accepted[k] ::
                    table[free_idx[k]] == lanes[k].(track := track_ptr, isLower := false) && born[free_idx[k]] == cycles
        invariant forall i | 0 <= i < size && (forall k | 0 <= k < port && accepted[k] :: free_idx[k] != i) ::
                    table[i] == old(table[i]) && born[i] == old(born[i])
      {
        if accepted[port] {
          table[free_idx[port]] := lanes[port].(track := track_ptr, isLower := false);
          born := born[free_idx[port] := cycles];
        }
      }
    }

    /** Dispatch fills the promised rows with one stamp; when the stamp counter wraps, every
        row already here is one epoch older, and the ones landing now are not. */
    method OnDispatch(lanes: seq<Entry<T>>, mine: seq<bool>) returns (all_ok: bool, free_idx: seq<nat>)
      requires Valid() && |lanes| == |mine|
      modifies this, table
      ensures Valid() && |free_idx| == |mine| && (all_ok <==> PopCount(mine) <= PopCount(FreeBits(old(table[..]))))
      ensures all_ok ==> forall k | 0 <= k < |mine| && mine[k] ::
                free_idx[k] < size && !old(table[free_idx[k]].valid)
                && table[free_idx[k]] == lanes[k].(track := old(track_ptr), isLower := false) && born[free_idx[k]] == old(cycles)
      ensures all_ok ==> forall i | 0 <= i < size && (forall k | 0 <= k < |mine| && mine[k] :: free_idx[k] != i) ::
                table[i] == old(table[i]).(isLower := table[i].isLower) && born[i] == old(born[i])
                && (table[i].isLower == (old(table[i]).isLower || (old(track_ptr) == stamps - 1 && true in mine)))
      ensures all_ok ==> track_ptr == if true in mine then Wrap(old(track_ptr) + 1, stamps) else old(track_ptr)
      ensures all_ok ==> cycles == if true in mine then old(cycles) + 1 else old(cycles)
    {
      hide Wrap, PopCount;
      var free_ok;
      all_ok, free_ok, free_idx := FreeSlots(mine);
      var accepted := seq(|mine|, k requires 0 <= k < |mine| == |free_ok| => mine[k] && free_ok[k]);
      assert all_ok ==> accepted == mine;
      var any := true in accepted;
      var rolls := any && track_ptr == stamps - 1;
      if rolls { RollTrackEpoch(); }
      WriteEntries(lanes, accepted, free_idx);
      if any {
        NextStamp(track_ptr, stamps, wrapped);
        track_ptr := Wrap(track_ptr + 1, stamps);
        if rolls { wrapped := cycles; }
        cycles := cycles + 1;
      }
    }
  }

  /** Two rows, three dispatch cycles, the first row issued between: the row filled in the cycle
      that spent the last stamp loses to one filled after it. */
  method NewestFirst() returns (s: RsvO3<int>, picks: seq<Found>)
    ensures fresh(s) && s.Valid() && |picks| == 1 && picks[0].ok && picks[0].idx < s.size
    ensures exists i :: 0 <= i < s.size && s.table[i].valid && s.table[i].ready && s.born[i] < s.born[picks[0].idx]
  {
    hide Aged, Wrap, RsvO3.Open;
    s := new RsvO3<int>(2, 2, 0);
    assert !s.table[0].valid;
    var first := TakeOne(s);
    var second := TakeOne(s);
    s.OnIssue(first);
    var third := TakeOne(s);
    picks := PickOne(s);
  }

  /** One lane is taken by a station of two rows. */
  method TakeOne(s: RsvO3<int>) returns (row: nat)
    requires s.Valid() && s.size == s.stamps == 2 && (!s.table[0].valid || !s.table[1].valid)
    modifies s, s.table
    ensures s.Valid() && row < 2 && !old(s.table[row].valid) && s.cycles == old(s.cycles) + 1
    ensures s.table[row] == Entry(true, true, 0, false, old(s.track_ptr), 0) && s.born[row] == old(s.cycles)
    ensures s.table[1 - row] == old(s.table[1 - row]).(isLower := s.table[1 - row].isLower) && s.born[1 - row] == old(s.born[1 - row])
    ensures s.table[1 - row].isLower == (old(s.table[1 - row].isLower) || old(s.track_ptr) == 1)
    ensures s.track_ptr == 1 - old(s.track_ptr)
  {
    hide PopCount, Aged;
    OneLane();
    ghost var free := if s.table[0].valid then 1 else 0;
    AnySet(FreeBits(s.table[..]));
    assert FreeBits(s.table[..])[free];
    StampBound(s);
    var ok, rows := s.OnDispatch([Entry(true, true, 0, false, 0, 0)], [true]);
    row := rows[0];
  }

  lemma StampBound(s: RsvO3<int>)
    requires s.Valid()
    ensures s.track_ptr < s.stamps
  {
    hide Wrap;
  }

  /** The unit of a station of two ready rows takes the smaller stamp of one epoch. */
  method PickOne(s: RsvO3<int>) returns (picks: seq<Found>)
    requires s.Valid() && s.size == 2 && forall i | 0 <= i < 2 :: s.table[i].valid && s.table[i].ready && !s.table[i].isLower
    ensures |picks| == 1 && picks[0].ok && picks[0].idx < 2 && forall i | 0 <= i < 2 :: s.table[picks[0].idx].track <= s.table[i].track
  {
    hide Aged;
    picks := s.BuildIssue([[true, true]]);
    assert s.Open([[true, true]], picks, 0, 0) && s.Open([[true, true]], picks, 0, 1);
  }

  lemma OneLane()
    ensures PopCount([true]) == 1 && true in [true] && Wrap(1, 2) == 1 && Wrap(2, 2) == 0
  {
    assert [true][..0] == [];
  }

  /** The counter steps from the last wrap on, and wraps back to it. */
  lemma NextStamp(ptr: nat, stamps: nat, wrapped: int)
    requires ptr < stamps && -1 <= wrapped && Wrap(wrapped + 1, stamps) == 0
    ensures Wrap(wrapped + 1 + ptr, stamps) == ptr
    ensures Wrap(ptr + 1, stamps) == if ptr == stamps - 1 then 0 else ptr + 1
    ensures ptr == stamps - 1 ==> Wrap(wrapped + 1 + ptr + 1, stamps) == 0
  {
    WrapAdd(wrapped + 1, ptr, stamps);
    WrapAdd(wrapped + 1, ptr + 1, stamps);
  }

  predicate Unclaimed(picks: seq<Found>, i: int)
  {
    forall u | 0 <= u < |picks| && picks[u].ok :: picks[u].idx != i
  }

  lemma {:induction false} AnySet(bits: seq<bool>)
    ensures PopCount(bits) > 0 <==> exists i :: 0 <= i < |bits| && bits[i]
  {
    if bits != [] {
      var last := |bits| - 1;
      AnySet(bits[..last]);
      if i :| 0 <= i < |bits| && bits[i] { assert i == last || bits[..last][i]; }
      if i :| 0 <= i < last && bits[..last][i] { assert bits[i]; }
      if bits[last] { assert exists i :: 0 <= i < |bits| && bits[i]; }
    }
  }
}

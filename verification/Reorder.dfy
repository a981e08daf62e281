/** The reorder buffer: every in-flight instruction in program order. */
module Reorder {
  import opened Rings
  import opened Program

  datatype RobRow = RobRow(isBranch: bool, isStore: bool, active: bool, required: bool,
                           ar: nat, pr: nat, pc: int, fin: bool)

  /** `alloc` is where the next instruction lands, `com` the oldest one; the count is
      what tells a full buffer from an empty one. */
  datatype RobState = RobState(table: seq<RobRow>, alloc: nat, com: nat, used: nat)
  {
    predicate Sized(depth: nat)
    {
      depth > 0 && |table| == depth && alloc < depth && com < depth
    }
  }

  function AtReset(depth: nat): RobState
  {
    RobState(seq(depth, _ => RobRow(false, false, false, false, 0, 0, 0, false)), 0, 0, 0)
  }

  function Push(s: RobState, depth: nat, row: RobRow): (r: RobState)
    requires s.Sized(depth)
    ensures r.Sized(depth)
  {
    RobState(s.table[s.alloc := row], Wrap(s.alloc + 1, depth), s.com, s.used + 1)
  }

  function Finish(s: RobState, depth: nat, idx: nat): (r: RobState)
    requires s.Sized(depth) && idx < depth
    ensures r.Sized(depth)
  {
    s.(table := s.table[idx := s.table[idx].(fin := true)])
  }

  function Retire(s: RobState, depth: nat): (r: RobState)
    requires s.Sized(depth) && s.used > 0
    ensures r.Sized(depth)
  {
    s.(com := Wrap(s.com + 1, depth), used := s.used - 1)
  }

  /** Everything younger than entry `idx` leaves. */
  function Truncate(s: RobState, depth: nat, idx: nat): (r: RobState)
    requires s.Sized(depth) && idx < depth
    ensures r.Sized(depth)
  {
    s.(alloc := Wrap(idx + 1, depth), used := Wrap(idx + depth - s.com, depth) + 1)
  }

  // --- one cycle's worth ------------------------------------------------------------

  /** The k-th row behind the commit pointer. */
  function RowAt(s: RobState, depth: nat, k: nat): RobRow
    requires s.Sized(depth)
  {
    s.table[Wrap(s.com + k, depth)]
  }

  /** Lane k of the commit group retires: it has reported, and so may every lane before
      it, none of them a branch or a store. */
  predicate Retires(s: RobState, depth: nat, k: nat)
    requires s.Sized(depth)
  {
    && k < s.used && RowAt(s, depth, k).fin
    && (k > 0 ==> Retires(s, depth, k - 1) && !RowAt(s, depth, k - 1).isBranch && !RowAt(s, depth, k - 1).isStore)
  }

  /** The group is a leading run, and a branch or a store is always its last. */
  lemma {:induction false} LeadingRun(s: RobState, depth: nat, j: nat, k: nat)
    requires s.Sized(depth) && j < k && Retires(s, depth, k)
    ensures Retires(s, depth, j) && !RowAt(s, depth, j).isBranch && !RowAt(s, depth, j).isStore
    decreases k
  {
    if j < k - 1 { LeadingRun(s, depth, j, k - 1); }
  }

  /** Lane k retires exactly when it and all before it are in use and have reported, and none
      before it is a branch or a store; `rows` is the head group as the table holds it. */
  lemma {:induction false} RetiresExactly(s: RobState, depth: nat, rows: seq<RobRow>, k: nat)
    requires s.Sized(depth) && k < |rows| && forall j | 0 <= j <= k :: rows[j] == s.table[Wrap(s.com + j, depth)]
    ensures Retires(s, depth, k)
       <==> k < s.used && (forall j | 0 <= j <= k :: rows[j].fin) && (forall j | 0 <= j < k :: !rows[j].isBranch && !rows[j].isStore)
    decreases k
  {
    hide Wrap;
    assert rows[k] == RowAt(s, depth, k);
    if k > 0 {
      assert rows[k - 1] == RowAt(s, depth, k - 1);
      RetiresExactly(s, depth, rows, k - 1);
    }
  }

  /** The commit chain: a lane may retire if it is in use, has reported, and the lane before
      it may and does not end the group. */
  method ChainCommit(rows: seq<RobRow>, used: nat) returns (commit_ok: seq<bool>)
    ensures |commit_ok| == |rows|
    ensures forall k | 0 <= k < |rows| ::
              commit_ok[k] <==> k < used && (forall j | 0 <= j <= k :: rows[j].fin)
                                && (forall j | 0 <= j < k :: !rows[j].isBranch && !rows[j].isStore)
  {
    commit_ok := [];
    var next_may_retire := true;
    for lane := 0 to |rows|
      invariant |commit_ok| == lane
      invariant forall k | 0 <= k < lane ::
                  commit_ok[k] <==> k < used && (forall j | 0 <= j <= k :: rows[j].fin)
                                    && (forall j | 0 <= j < k :: !rows[j].isBranch && !rows[j].isStore)
      invariant next_may_retire <==> lane <= used && forall j | 0 <= j < lane :: rows[j].fin && !rows[j].isBranch && !rows[j].isStore
    {
      var ok := lane < used && rows[lane].fin && next_may_retire;
      next_may_retire := ok && !rows[lane].isBranch && !rows[lane].isStore;
      commit_ok := commit_ok + [ok];
    }
  }

  function FinishAll(s: RobState, depth: nat, idxs: seq<nat>): (r: RobState)
    requires s.Sized(depth) && forall i | 0 <= i < |idxs| :: idxs[i] < depth
    ensures r.Sized(depth) && r.used == s.used && r.com == s.com && r.alloc == s.alloc
  {
    if idxs == [] then s else Finish(FinishAll(s, depth, idxs[..|idxs| - 1]), depth, idxs[|idxs| - 1])
  }

  function RetireAll(s: RobState, depth: nat, n: nat): (r: RobState)
    requires s.Sized(depth) && n <= s.used
    ensures r.Sized(depth) && r.used == s.used - n && r.table == s.table && r.alloc == s.alloc
  {
    if n == 0 then s else Retire(RetireAll(s, depth, n - 1), depth)
  }

  lemma {:induction false} RetireAllPointer(s: RobState, depth: nat, n: nat)
    requires s.Sized(depth) && n <= s.used
    ensures RetireAll(s, depth, n).com == Wrap(s.com + n, depth)
  {
    if n > 0 {
      RetireAllPointer(s, depth, n - 1);
      WrapAdd(s.com + n - 1, 1, depth);
    }
  }

  datatype RobLane = RobLane(valid: bool, row: RobRow)

  function Valids(lanes: seq<RobLane>): (v: seq<bool>)
    ensures |v| == |lanes|
  {
    seq(|lanes|, i requires 0 <= i < |lanes| => lanes[i].valid)
  }

  /** The lanes of one bundle land in order; an empty lane takes nothing. */
  function PushAll(s: RobState, depth: nat, lanes: seq<RobLane>): (r: RobState)
    requires s.Sized(depth)
    ensures r.Sized(depth)
  {
    if lanes == [] then s
    else
      var before, lane := PushAll(s, depth, lanes[..|lanes| - 1]), lanes[|lanes| - 1];
      if lane.valid then Push(before, depth, lane.row) else before
  }

  /** Where lane k lands: the pointer past the valid lanes before it. */
  lemma {:induction false} PushAllPointer(s: RobState, depth: nat, lanes: seq<RobLane>)
    requires s.Sized(depth)
    ensures var r, n := PushAll(s, depth, lanes), PopCount(Valids(lanes));
            r.alloc == Wrap(s.alloc + n, depth) && r.used == s.used + n && r.com == s.com
  {
    if lanes == [] {
    } else {
      var last := |lanes| - 1;
      PushAllPointer(s, depth, lanes[..last]);
      assert Valids(lanes)[..last] == Valids(lanes[..last]);
      WrapAdd(s.alloc + PopCount(Valids(lanes[..last])), 1, depth);
    }
  }

  /** What a bundle does to the table does not depend on the head. */
  lemma {:induction false} PushAllLater(s: RobState, t: RobState, depth: nat, lanes: seq<RobLane>)
    requires s.Sized(depth) && t.Sized(depth) && s.table == t.table && s.alloc == t.alloc
    ensures var a, b := PushAll(s.(com := t.com), depth, lanes), PushAll(t, depth, lanes);
            b == a.(used := t.used + PopCount(Valids(lanes)))
  {
    if lanes != [] {
      var last := |lanes| - 1;
      PushAllLater(s, t, depth, lanes[..last]);
      PushAllPointer(t, depth, lanes[..last]);
      PushAllPointer(t, depth, lanes);
      assert Valids(lanes)[..last] == Valids(lanes[..last]);
    }
  }

  /** The reorder buffer. */
  class Rob {
    const depth: nat
    const commit_lanes: nat
    const table: array<RobRow>
    var alloc_ptr: nat
    var com_ptr: nat
    var used_entry_cnt: nat

    function View(): RobState
      reads this, table
    {
      RobState(table[..], alloc_ptr, com_ptr, used_entry_cnt)
    }

    ghost predicate Valid()
      reads this, table
    {
      View().Sized(depth) && used_entry_cnt <= depth
    }

    constructor (depth: nat, commit_lanes: nat)
      requires 0 < commit_lanes && 0 < depth
      ensures Valid() && this.depth == depth && this.commit_lanes == commit_lanes && fresh(table)
      ensures View() == AtReset(depth)
    {
      this.depth, this.commit_lanes := depth, commit_lanes;
      table := new RobRow[depth](_ => RobRow(false, false, false, false, 0, 0, 0, false));
      alloc_ptr, com_ptr, used_entry_cnt := 0, 0, 0;
      new;
      assert table[..] == AtReset(depth).table;
    }

    /** One room bit for the whole group, and a run of entries that skips empty lanes. */
    method FreeSlots(valid: seq<bool>) returns (fits: bool, free_idx: seq<nat>)
      requires Valid()
      ensures fits <==> PopCount(valid) <= depth - used_entry_cnt
      ensures |free_idx| == |valid|
      ensures forall k | 0 <= k < |valid| :: free_idx[k] == Wrap(alloc_ptr + PopCount(valid[..k]), depth)
    {
      fits := PopCount(valid) <= depth - used_entry_cnt;
      free_idx := [];
      for port := 0 to |valid|
        invariant |free_idx| == port
        invariant forall k | 0 <= k < port :: free_idx[k] == Wrap(alloc_ptr + PopCount(valid[..k]), depth)
      {
        free_idx := free_idx + [Wrap(alloc_ptr + PopCount(valid[..port]), depth)];
      }
    }

    /** Which lanes of the head group retire this cycle. */
    method CommitLanes() returns (commit_ok: seq<bool>, rows: seq<RobRow>)
      requires Valid()
      ensures |commit_ok| == |rows| == commit_lanes
      ensures forall k | 0 <= k < commit_lanes :: commit_ok[k] == Retires(View(), depth, k) && rows[k] == table[Wrap(com_ptr + k, depth)]
      ensures forall k | 0 <= k < commit_lanes ::
                commit_ok[k] <==> k < used_entry_cnt && (forall j | 0 <= j <= k :: rows[j].fin)
                                  && (forall j | 0 <= j < k :: !rows[j].isBranch && !rows[j].isStore)
    {
      hide Wrap, Retires;
      rows := [];
      for lane := 0 to commit_lanes
        invariant |rows| == lane && forall k | 0 <= k < lane :: rows[k] == table[Wrap(com_ptr + k, depth)]
      {
        rows := rows + [table[Wrap(com_ptr + lane, depth)]];
      }
      commit_ok := ChainCommit(rows, used_entry_cnt);
      forall k | 0 <= k < commit_lanes ensures commit_ok[k] == Retires(View(), depth, k) {
        RetiresExactly(View(), depth, rows, k);
      }
    }

    method OnWriteBack(idx: nat)
      requires Valid() && idx < depth
      modifies table
      ensures Valid() && View() == Finish(old(View()), depth, idx)
    {
      table[idx] := table[idx].(fin := true);
    }

    /** The bundle's rows land; the count is left to the cycle's one write. */
    method OnDispatch(lanes: seq<RobLane>) returns (taken: nat)
      requires Valid()
      modifies `alloc_ptr, table
      ensures Valid() && taken == PopCount(Valids(lanes))
      ensures View() == PushAll(old(View()), depth, lanes).(used := used_entry_cnt)
    {
      taken := 0;
      ghost var r := View();
      for port := 0 to |lanes|
        invariant Valid() && taken == PopCount(Valids(lanes[..port]))
        invariant View() == PushAll(r, depth, lanes[..port]).(used := used_entry_cnt)
      {
        assert lanes[..port + 1][..port] == lanes[..port];
        assert Valids(lanes[..port + 1])[..port] == Valids(lanes[..port]);
        PushAllPointer(r, depth, lanes[..port]);
        if lanes[port].valid {
          table[alloc_ptr] := lanes[port].row;
          alloc_ptr, taken := Wrap(alloc_ptr + 1, depth), taken + 1;
        }
      }
      assert lanes[..|lanes|] == lanes;
    }

    /** The clock edge of an ordinary cycle: reports land, the retiring lanes leave at the
        head, the bundle lands at the tail, and the count moves once by both. */
    method Update(finished: seq<nat>, commits: nat, lanes: seq<RobLane>, landed: bool)
      requires Valid() && (forall i | 0 <= i < |finished| :: finished[i] < depth)
      requires commits <= used_entry_cnt && (landed ==> PopCount(Valids(lanes)) <= depth - used_entry_cnt)
      modifies this, table
      ensures Valid()
      ensures var r := RetireAll(FinishAll(old(View()), depth, finished), depth, commits);
              View() == if landed then PushAll(r, depth, lanes) else r
    {
      ghost var f := FinishAll(View(), depth, finished);
      for i := 0 to |finished|
        invariant Valid() && View() == FinishAll(old(View()), depth, finished[..i])
      {
        assert finished[..i + 1][..i] == finished[..i];
        OnWriteBack(finished[i]);
      }
      assert finished[..|finished|] == finished;
      RetireAllPointer(f, depth, commits);
      com_ptr := Wrap(com_ptr + commits, depth);
      var taken := 0;
      if landed {
        PushAllLater(f, RetireAll(f, depth, commits), depth, lanes);
        taken := OnDispatch(lanes);
      }
      used_entry_cnt := used_entry_cnt + taken - commits;
    }

    method OnMisPred(rob_idx: nat)
      requires Valid() && rob_idx < depth
      modifies this
      ensures Valid() && View() == Truncate(old(View()), depth, rob_idx)
    {
      alloc_ptr := Wrap(rob_idx + 1, depth);
      used_entry_cnt := Wrap(rob_idx + depth - com_ptr, depth) + 1;
    }
  }
}

/** The store buffer: executed stores wait in a ring until they retire, then go to memory. */
module Stores {
  import opened Rings
  import opened Program

  datatype StRow = StRow(busy: bool, complete: bool, isSpec: bool, tag: Mask, addr: nat, data: Word)

  /** `ret..com` are retired and may be written to memory, `com..alloc` are executed only. */
  datatype StState = StState(table: seq<StRow>, alloc: nat, com: nat, ret: nat)
  {
    predicate Sized(depth: nat)
    {
      depth > 0 && |table| == depth && alloc < depth && com < depth && ret < depth
    }
  }

  datatype Lookup = Miss | Hit(data: Word)

  function AtReset(depth: nat): StState
  {
    StState(seq(depth, _ => StRow(false, false, false, {}, 0, 0)), 0, 0, 0)
  }

  predicate IsFull(s: StState, depth: nat)
    requires s.Sized(depth)
  {
    s.alloc == s.ret && s.table[s.alloc].busy
  }

  /** An executed store lands at the tail. */
  function Push(s: StState, depth: nat, isSpec: bool, tag: Mask, addr: nat, data: Word): (r: StState)
    requires s.Sized(depth)
    ensures r.Sized(depth)
  {
    s.(table := s.table[s.alloc := StRow(true, false, isSpec, tag, addr, data)], alloc := Wrap(s.alloc + 1, depth))
  }

  /** The reorder buffer retired the store at `com`. */
  function Commit(s: StState, depth: nat): (r: StState)
    requires s.Sized(depth)
    ensures r.Sized(depth)
  {
    s.(table := s.table[s.com := s.table[s.com].(complete := true)], com := Wrap(s.com + 1, depth))
  }

  predicate CanDrain(s: StState, depth: nat)
    requires s.Sized(depth)
  {
    s.table[s.ret].busy && s.table[s.ret].complete
  }

  /** The head store has gone to memory. */
  function Drain(s: StState, depth: nat): (r: StState)
    requires s.Sized(depth)
    ensures r.Sized(depth)
  {
    s.(table := s.table[s.ret := s.table[s.ret].(busy := false, complete := false)], ret := Wrap(s.ret + 1, depth))
  }

  /** The newest busy store to `addr` among the `len` rows from `ret` on, in age order. */
  function Newest(s: StState, depth: nat, len: nat, addr: nat): Lookup
    requires s.Sized(depth)
  {
    if len == 0 then Miss
    else
      var row := s.table[Wrap(s.ret + len - 1, depth)];
      if row.busy && row.addr == addr then Hit(row.data) else Newest(s, depth, len - 1, addr)
  }

  predicate Squashed(row: StRow, fix: Mask)
  {
    row.busy && row.isSpec && row.tag * fix != {}
  }

  function Survivors(s: StState, fix: Mask): (bits: seq<bool>)
    ensures |bits| == |s.table|
  {
    seq(|s.table|, i requires 0 <= i < |s.table| => s.table[i].busy && !Squashed(s.table[i], fix))
  }

  /** Kill the stores under `fix`; the tail lands past the survivors. */
  function Kill(s: StState, depth: nat, fix: Mask): (r: StState)
    requires s.Sized(depth)
    ensures r.Sized(depth)
  {
    s.(table := seq(|s.table|, i requires 0 <= i < |s.table| =>
                  if Squashed(s.table[i], fix) then s.table[i].(busy := false) else s.table[i]),
       alloc := Wrap(s.ret + PopCount(Survivors(s, fix)), depth))
  }

  function MaskRow(row: StRow, tag: Mask): StRow
  {
    if row.busy && row.isSpec then row.(tag := row.tag - tag, isSpec := row.tag - tag != {}) else row
  }

  /** `tag` resolved right: no store is under it any more. */
  function Resolve(s: StState, depth: nat, tag: Mask): (r: StState)
    requires s.Sized(depth)
    ensures r.Sized(depth)
  {
    s.(table := seq(|s.table|, i requires 0 <= i < |s.table| => MaskRow(s.table[i], tag)))
  }

  // --- the search, as a tree --------------------------------------------------------

  predicate Matches(row: StRow, addr: nat) { row.busy && row.addr == addr }

  /** What one node of the comparison tree carries up: the row it picked, whether that
      row matches, and whether it is on the old side of the wrap. */
  datatype Node = Node(row: nat, hit: bool, preWrap: bool)

  /** A hit beats a miss; of two hits the one past the wrap is newer, and on one side of
      it the higher row is. */
  function PickNewest(lhs: Node, rhs: Node): Node
  {
    var pickLhs := (lhs.hit && !rhs.hit) || (lhs.hit && rhs.hit && !lhs.preWrap && rhs.preWrap);
    if pickLhs then lhs else rhs
  }

  /** The tree over rows `lo .. hi`, halving; over a power of two it pairs neighbours. */
  function Tree(s: StState, addr: nat, lo: nat, hi: nat): (n: Node)
    requires lo < hi <= |s.table|
    ensures lo <= n.row < hi
    decreases hi - lo
  {
    if hi == lo + 1 then Node(lo, Matches(s.table[lo], addr), s.alloc <= lo)
    else
      var mid := (lo + hi) / 2;
      PickNewest(Tree(s, addr, lo, mid), Tree(s, addr, mid, hi))
  }

  /** The winner's row answers, and its own match bit says whether it is a hit. */
  function SearchNewest(s: StState, depth: nat, addr: nat): Lookup
    requires s.Sized(depth)
  {
    var row := s.table[Tree(s, addr, 0, depth).row];
    if Matches(row, addr) then Hit(row.data) else Miss
  }

  /** The busy rows are one run of `n` from `ret`, ending where `alloc` points. */
  predicate OneRun(s: StState, depth: nat, n: nat)
  {
    && s.Sized(depth) && n <= depth
    && s.alloc == (if s.ret + n < depth then s.ret + n else s.ret + n - depth)
    && forall i | 0 <= i < depth :: s.table[i].busy <==> Age(s, depth, i) < n
  }

  /** How far a row is behind `ret` on the ring: the age order. */
  function Age(s: StState, depth: nat, i: nat): int
  {
    if i >= s.ret then i - s.ret else i + depth - s.ret
  }

  /** A subtree's winner is its newest match. */
  lemma {:induction false} TreeNewest(s: StState, depth: nat, n: nat, addr: nat, lo: nat, hi: nat)
    requires OneRun(s, depth, n) && lo < hi <= depth
    ensures var w := Tree(s, addr, lo, hi);
            && w.hit == Matches(s.table[w.row], addr) && w.preWrap == (s.alloc <= w.row)
            && forall i | lo <= i < hi && Matches(s.table[i], addr) :: w.hit && Age(s, depth, i) <= Age(s, depth, w.row)
    decreases hi - lo
  {
    if hi > lo + 1 {
      var mid := (lo + hi) / 2;
      TreeNewest(s, depth, n, addr, lo, mid);
      TreeNewest(s, depth, n, addr, mid, hi);
    }
  }

  /** The linear scan returns the newest match too. */
  lemma {:induction false} ScanNewest(s: StState, depth: nat, len: nat, addr: nat, w: nat)
    requires s.Sized(depth) && len <= depth && w < depth
    requires forall i | 0 <= i < depth && Matches(s.table[i], addr) ::
               Matches(s.table[w], addr) && Age(s, depth, i) <= Age(s, depth, w)
    ensures Matches(s.table[w], addr) && Age(s, depth, w) < len ==> Newest(s, depth, len, addr) == Hit(s.table[w].data)
    ensures !Matches(s.table[w], addr) ==> Newest(s, depth, len, addr) == Miss
    decreases len
  {
    if len > 0 {
      var i := Wrap(s.ret + len - 1, depth);
      if s.ret + len > depth { assert Wrap(s.ret + len - 1 - depth, depth) == s.ret + len - 1 - depth; }
      assert Age(s, depth, i) == len - 1;
      ScanNewest(s, depth, len - 1, addr, w);
    }
  }

  /** The tree refines the scan: for every depth, pointer position and address. */
  lemma SearchRefinesScan(s: StState, depth: nat, n: nat, addr: nat)
    requires OneRun(s, depth, n)
    ensures SearchNewest(s, depth, addr) == Newest(s, depth, depth, addr)
  {
    var w := Tree(s, addr, 0, depth);
    TreeNewest(s, depth, n, addr, 0, depth);
    ScanNewest(s, depth, depth, addr, w.row);
  }

  // --- the block --------------------------------------------------------------------

  /** What one cycle asks of the buffer. */
  datatype PushPort = NoPush | PushOne(isSpec: bool, tag: Mask, addr: nat, data: Word)

  /** The push as the table takes it: masked on the wire it arrives on. */
  function Masked(push: PushPort, resolved: Mask): PushPort
  {
    if push.PushOne? && push.isSpec && resolved != {} && push.tag == resolved
    then push.(isSpec := false, tag := {}) else push
  }

  function PushOn(s: StState, depth: nat, push: PushPort): (r: StState)
    requires s.Sized(depth)
    ensures r.Sized(depth)
  {
    if push.PushOne? then Push(s, depth, push.isSpec, push.tag, push.addr, push.data) else s
  }

  /** What one cycle's events leave behind when they happen one after another. */
  function InOrder(s: StState, depth: nat, push: PushPort, resolved: Mask, commit: bool, drain: bool): (r: StState)
    requires s.Sized(depth)
    ensures r.Sized(depth)
  {
    var a := PushOn(s, depth, push);
    var b := if resolved != {} then Resolve(a, depth, resolved) else a;
    var d := if commit then Commit(b, depth) else b;
    if drain then Drain(d, depth) else d
  }

  /** What the clock edge does: every row reads its register, so the store landing now is
      masked before it lands. */
  function Cycle(s: StState, depth: nat, push: PushPort, resolved: Mask, commit: bool, drain: bool): (r: StState)
    requires s.Sized(depth)
    ensures r.Sized(depth)
  {
    var b := if resolved != {} then Resolve(s, depth, resolved) else s;
    var d := if commit then Commit(b, depth) else b;
    var e := if drain then Drain(d, depth) else d;
    PushOn(e, depth, Masked(push, resolved))
  }

  /** The two agree: no event of a cycle loses another. */
  lemma CycleInOrder(s: StState, depth: nat, push: PushPort, resolved: Mask, commit: bool, drain: bool)
    requires s.Sized(depth)
    requires push.PushOne? ==> !s.table[s.alloc].busy && |push.tag| <= 1 && (push.isSpec ==> push.tag != {})
    requires |resolved| <= 1 && (commit ==> s.table[s.com].busy) && (drain ==> s.table[s.ret].busy)
    ensures Cycle(s, depth, push, resolved, commit, drain) == InOrder(s, depth, push, resolved, commit, drain)
  {
    hide Wrap;
    if push.PushOne? {
      OneHotMask(push.tag, resolved);
      if resolved != {} { PushMasked(s, depth, push, resolved); }
      PushCommit(if resolved != {} then Resolve(s, depth, resolved) else s, depth, Masked(push, resolved), commit, drain);
    }
  }

  lemma PushMasked(s: StState, depth: nat, push: PushPort, resolved: Mask)
    requires s.Sized(depth) && push.PushOne? && resolved != {} && (push.isSpec ==> push.tag != {})
    requires push.tag - resolved == (if push.tag == resolved then {} else push.tag)
    ensures Resolve(PushOn(s, depth, push), depth, resolved) == PushOn(Resolve(s, depth, resolved), depth, Masked(push, resolved))
  {
    hide Wrap;
    assert Resolve(PushOn(s, depth, push), depth, resolved).table
        == PushOn(Resolve(s, depth, resolved), depth, Masked(push, resolved)).table;
  }

  lemma PushCommit(s: StState, depth: nat, push: PushPort, commit: bool, drain: bool)
    requires s.Sized(depth) && push.PushOne? && !s.table[s.alloc].busy
    requires (commit ==> s.table[s.com].busy) && (drain ==> s.table[s.ret].busy)
    ensures var d := if commit then Commit(PushOn(s, depth, push), depth) else PushOn(s, depth, push);
            var b := if commit then Commit(s, depth) else s;
            (if drain then Drain(d, depth) else d) == PushOn(if drain then Drain(b, depth) else b, depth, push)
  {
    hide Wrap;
  }

  class StoreBuf {
    const depth: nat
    const table: array<StRow>
    var alloc_ptr: nat
    var com_ptr: nat
    var ret_ptr: nat

    function View(): StState
      reads this, table
    {
      StState(table[..], alloc_ptr, com_ptr, ret_ptr)
    }

    ghost predicate Valid()
      reads this, table
    {
      View().Sized(depth)
    }

    constructor (depth: nat)
      requires depth > 0
      ensures Valid() && this.depth == depth && fresh(table) && View() == AtReset(depth)
    {
      this.depth := depth;
      table := new StRow[depth](_ => StRow(false, false, false, {}, 0, 0));
      alloc_ptr, com_ptr, ret_ptr := 0, 0, 0;
      new;
      assert table[..] == AtReset(depth).table;
    }

    method OnSucPred(suc_tag: Mask)
      requires Valid()
      modifies table
      ensures Valid() && View() == Resolve(old(View()), depth, suc_tag)
    {
      for i := 0 to depth
        invariant forall j | 0 <= j < depth :: table[j] == if j < i then MaskRow(old(table[j]), suc_tag) else old(table[j])
      {
        table[i] := MaskRow(table[i], suc_tag);
      }
      assert table[..] == Resolve(old(View()), depth, suc_tag).table;
    }

    method OnCommit()
      requires Valid()
      modifies `com_ptr, table
      ensures Valid() && View() == Commit(old(View()), depth)
    {
      table[com_ptr] := table[com_ptr].(complete := true);
      com_ptr := Wrap(com_ptr + 1, depth);
    }

    /** The head's store has been taken by memory. */
    method Retire()
      requires Valid()
      modifies `ret_ptr, table
      ensures Valid() && View() == Drain(old(View()), depth)
    {
      table[ret_ptr] := table[ret_ptr].(busy := false, complete := false);
      ret_ptr := Wrap(ret_ptr + 1, depth);
    }

    method OnNewEntry(isSpec: bool, tag: Mask, addr: nat, data: Word)
      requires Valid()
      modifies `alloc_ptr, table
      ensures Valid() && View() == Push(old(View()), depth, isSpec, tag, addr, data)
    {
      table[alloc_ptr] := StRow(true, false, isSpec, tag, addr, data);
      alloc_ptr := Wrap(alloc_ptr + 1, depth);
    }

    /** The clock edge of an ordinary cycle. */
    method Update(push: PushPort, resolved: Mask, commit: bool, drain: bool)
      requires Valid()
      modifies this, table
      ensures Valid() && View() == Cycle(old(View()), depth, push, resolved, commit, drain)
    {
      if resolved != {} { OnSucPred(resolved); }
      if commit { OnCommit(); }
      if drain { Retire(); }
      if push.PushOne? {
        // the overrider: the pair as the row will take it
        var masked := push.isSpec && resolved != {} && push.tag == resolved;
        OnNewEntry(push.isSpec && !masked, if masked then {} else push.tag, push.addr, push.data);
      }
    }

    /** Kill the speculating stores; the tail is recomputed from the survivors. */
    method OnMisPred(fix_tag: Mask)
      requires Valid()
      modifies this, table
      ensures Valid() && View() == Kill(old(View()), depth, fix_tag)
      ensures forall i | 0 <= i < depth ::
                table[i] == var was := old(table[i]);
                            if was.busy && was.isSpec && was.tag * fix_tag != {} then was.(busy := false) else was
    {
      var survivors := Survivors(View(), fix_tag);
      for i := 0 to depth
        modifies table
        invariant forall j | 0 <= j < depth ::
                    table[j] == if j < i && Squashed(old(table[j]), fix_tag) then old(table[j]).(busy := false) else old(table[j])
      {
        if Squashed(table[i], fix_tag) { table[i] := table[i].(busy := false); }
      }
      alloc_ptr := Wrap(ret_ptr + PopCount(survivors), depth);
      assert table[..] == Kill(old(View()), depth, fix_tag).table;
    }
  }

  /** Of two masks with at most one bit, one either is the other or misses it. */
  lemma OneHotMask(tag: Mask, other: Mask)
    requires |tag| <= 1 && |other| <= 1
    ensures tag - other == (if tag == other then {} else tag)
  {
    if x :| x in tag && x in other {
      assert |tag - {x}| == 0 && |other - {x}| == 0;
      assert tag == {x} && other == {x};
    }
  }
}

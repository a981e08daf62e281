/** One physical register file: its entries, and the ring rename allocates from. */
module Physical {
  import opened Rings
  import opened Program

  /** `fin[p]` says entry p has been written back; `free` entries are unallocated and
      `next` is the one handed out next. */
  datatype PrfState = PrfState(fin: seq<bool>, data: seq<Word>, free: nat, next: nat)
  {
    predicate Sized(size: nat)
    {
      size > 0 && |fin| == size && |data| == size && next < size
    }
  }

  /** A lane renames: the entry at the pointer reads not-written from now on, whether
      or not the lane takes it, and a lane that asks takes it. */
  function Rename(s: PrfState, size: nat, req: bool): (r: PrfState)
    requires s.Sized(size) && (req ==> s.free > 0)
    ensures r.Sized(size)
  {
    var t := s.(fin := s.fin[s.next := false]);
    if req then t.(free := s.free - 1, next := Wrap(s.next + 1, size)) else t
  }

  function WriteBack(s: PrfState, size: nat, pr: nat, value: Word): (r: PrfState)
    requires s.Sized(size) && pr < size
    ensures r.Sized(size)
  {
    s.(fin := s.fin[pr := true], data := s.data[pr := value])
  }

  /** A retiring instruction gives its entry back. */
  function Free(s: PrfState, frees: bool): PrfState
  {
    if frees then s.(free := s.free + 1) else s
  }

  /** Roll allocation back to just past `pr`: the forward distance returns to the pool. */
  function Restart(s: PrfState, size: nat, pr: nat): (r: PrfState)
    requires s.Sized(size) && pr < size
    ensures r.Sized(size)
  {
    var pre := Wrap(pr + 1, size);
    s.(next := pre, free := s.free + Wrap(s.next + size - pre, size))
  }

  datatype WbPort = WbPort(pr: nat, value: Word)

  /** The writebacks of one cycle. */
  function WriteAll(s: PrfState, size: nat, wbs: seq<WbPort>): (r: PrfState)
    requires s.Sized(size) && forall i | 0 <= i < |wbs| :: wbs[i].pr < size
    ensures r.Sized(size) && r.free == s.free && r.next == s.next
  {
    if wbs == [] then s
    else
      var wb := wbs[|wbs| - 1];
      WriteBack(WriteAll(s, size, wbs[..|wbs| - 1]), size, wb.pr, wb.value)
  }

  /** The lanes of one bundle rename in order. */
  function RenameAll(s: PrfState, size: nat, reqs: seq<bool>): (r: PrfState)
    requires s.Sized(size) && PopCount(reqs) <= s.free
    ensures r.Sized(size) && r.free == s.free - PopCount(reqs)
  {
    if reqs == [] then s
    else
      Rename(RenameAll(s, size, reqs[..|reqs| - 1]), size, reqs[|reqs| - 1])
  }

  /** The commit lanes of one cycle give their entries back. */
  function FreeAll(s: PrfState, frees: seq<bool>): PrfState
  {
    s.(free := s.free + PopCount(frees))
  }

  /** One physical register file. `range` is how many values the free count can hold. */
  class Prf {
    const size: nat
    const range: nat
    const fin: array<bool>
    const data: array<Word>
    var free_entry: nat
    var next_index: nat

    function View(): PrfState
      reads this, fin, data
    {
      PrfState(fin[..], data[..], free_entry, next_index)
    }

    ghost predicate Valid()
      reads this, fin, data
    {
      View().Sized(size) && free_entry < range
    }

    constructor (size: nat)
      requires size > 0
      ensures Valid() && this.size == size && range == size + 1 && fresh(fin) && fresh(data)
      ensures free_entry == size && next_index == 0
    {
      this.size, range := size, size + 1;
      fin, data := new bool[size], new Word[size];
      free_entry, next_index := size, 0;
    }

    /** The entry lane `port` is promised: the pointer stepped past the lanes before it. */
    method BookRename(reqs: seq<bool>, port: nat) returns (index: nat)
      requires Valid() && port < |reqs|
      ensures index == Wrap(next_index + PopCount(reqs[..port]), size)
      ensures PopCount(reqs[..port]) <= free_entry ==> index == RenameAll(View(), size, reqs[..port]).next
    {
      index := next_index;
      for lane := 0 to port
        invariant index == Wrap(next_index + PopCount(reqs[..lane]), size)
        invariant PopCount(reqs[..lane]) <= free_entry ==> index == RenameAll(View(), size, reqs[..lane]).next
      {
        assert reqs[..lane + 1][..lane] == reqs[..lane];
        if reqs[lane] {
          WrapAdd(next_index + PopCount(reqs[..lane]), 1, size);
          index := Wrap(index + 1, size);
        }
      }
    }

    /** More was asked for than is free once this cycle's commits have given theirs back. */
    method OverUse(reqs: seq<bool>, frees: seq<bool>) returns (over: bool)
      requires Valid()
      ensures over <==> PopCount(reqs) > free_entry + PopCount(frees)
    {
      var judge: nat := free_entry + PopCount(frees);
      over := false;
      for i := 0 to |reqs|
        invariant over <==> PopCount(reqs[..i]) > free_entry + PopCount(frees)
        invariant !over ==> judge == free_entry + PopCount(frees) - PopCount(reqs[..i])
      {
        assert reqs[..i + 1][..i] == reqs[..i];
        over := over || (judge == 0 && reqs[i]);
        if reqs[i] { judge := if judge == 0 then range - 1 else judge - 1; }
      }
      assert reqs[..|reqs|] == reqs;
    }

    /** What a reader of this cycle sees: the writebacks of the cycle already in, the
        entries the bundle is promised already not-written. */
    method ReadView(wbs: seq<WbPort>, promised: seq<nat>) returns (seen: PrfState)
      requires Valid() && forall i | 0 <= i < |wbs| :: wbs[i].pr < size
      ensures seen.Sized(size)
      ensures var w := WriteAll(View(), size, wbs);
              seen.data == w.data && forall p | 0 <= p < size :: seen.fin[p] == (w.fin[p] && p !in promised)
    {
      seen := View();
      for i := 0 to |wbs|
        invariant seen == WriteAll(View(), size, wbs[..i])
      {
        assert wbs[..i + 1][..i] == wbs[..i];
        seen := seen.(fin := seen.fin[wbs[i].pr := true], data := seen.data[wbs[i].pr := wbs[i].value]);
      }
      assert wbs[..|wbs|] == wbs;
      seen := seen.(fin := seq(size, p requires 0 <= p < size && |seen.fin| == size => seen.fin[p] && p !in promised));
    }

    /** The clock edge: writebacks, returned entries, then what landed of the bundle. */
    method Update(wbs: seq<WbPort>, frees: seq<bool>, reqs: seq<bool>, landed: bool)
      requires Valid() && (forall i | 0 <= i < |wbs| :: wbs[i].pr < size)
      requires free_entry + PopCount(frees) < range
      requires landed ==> PopCount(reqs) <= free_entry + PopCount(frees)
      modifies this, fin, data
      ensures Valid()
      ensures var f := FreeAll(WriteAll(old(View()), size, wbs), frees);
              View() == if landed then RenameAll(f, size, reqs) else f
    {
      ghost var f := FreeAll(WriteAll(View(), size, wbs), frees);
      for i := 0 to |wbs|
        invariant View() == WriteAll(old(View()), size, wbs[..i])
      {
        assert wbs[..i + 1][..i] == wbs[..i];
        fin[wbs[i].pr], data[wbs[i].pr] := true, wbs[i].value;
      }
      assert wbs[..|wbs|] == wbs;
      free_entry := free_entry + PopCount(frees);
      assert View() == f;
      if landed {
        for lane := 0 to |reqs|
          invariant PopCount(reqs[..lane]) <= PopCount(reqs)
          invariant View() == RenameAll(f, size, reqs[..lane])
        {
          assert reqs[..lane + 1][..lane] == reqs[..lane];
          PopCountPrefix(reqs, lane + 1);
          fin[next_index] := false;
          if reqs[lane] { free_entry, next_index := free_entry - 1, Wrap(next_index + 1, size); }
        }
        assert reqs[..|reqs|] == reqs;
      }
    }

    method OnMisPred(last_phy_idx: nat)
      requires Valid() && last_phy_idx < size
      requires free_entry + Wrap(next_index + size - Wrap(last_phy_idx + 1, size), size) < range
      modifies this
      ensures Valid() && View() == Restart(old(View()), size, last_phy_idx)
    {
      var pre := Wrap(last_phy_idx + 1, size);
      free_entry, next_index := free_entry + Wrap(next_index + size - pre, size), pre;
    }
  }
}

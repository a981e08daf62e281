/** The speculation-tag allocator: a count of free tags and a one-hot pointer. */
module Tags {
  import opened Rings

  /** `free` tags are left; `next` is the one-hot tag handed out next. */
  datatype TagState = TagState(free: nat, next: Mask)

  /** Some tag is out: the count is below its reset value. */
  predicate Outstanding(t: TagState, width: nat)
  {
    t.free != width - 1
  }

  /** The tag handed out most recently, or no bit when none is out. */
  function LastTag(t: TagState, width: nat): Mask
    requires width > 0
  {
    if Outstanding(t, width) then RotateRight(t.next, width) else {}
  }

  /** The speculation one lane dispatches under: a branch is under the tag it opens. */
  function InForce(t: TagState, width: nat, isBranch: bool): Mask
    requires width > 0
  {
    if isBranch then t.next else LastTag(t, width)
  }

  /** One lane books: only a branch takes a tag. */
  function Book(t: TagState, width: nat, isBranch: bool): TagState
    requires width > 0 && (isBranch ==> t.free > 0)
  {
    if isBranch then TagState(t.free - 1, RotateLeft(t.next, width)) else t
  }

  /** A prediction resolved right: its tag returns to the pool. */
  function Return(t: TagState): TagState
  {
    t.(free := t.free + 1)
  }

  /** A prediction resolved wrong: every tag is free again, the pointer one past `tag`. */
  function Restart(width: nat, tag: Mask): TagState
    requires width > 0
  {
    TagState(width - 1, RotateLeft(tag, width))
  }

  /** The lanes of one cycle book in order. */
  function BookAll(t: TagState, width: nat, ports: seq<bool>): (r: TagState)
    requires width > 0 && PopCount(ports) <= t.free
    ensures r.free == t.free - PopCount(ports)
  {
    if ports == [] then t
    else
      var last := |ports| - 1;
      Book(BookAll(t, width, ports[..last]), width, ports[last])
  }

  /** Rotations undo each other on a mask of that width. */
  lemma RotateBack(m: Mask, width: nat)
    requires width > 0 && forall p | p in m :: p < width
    ensures RotateRight(RotateLeft(m, width), width) == m
    ensures forall p | p in RotateLeft(m, width) :: p < width
  {
    hide Wrap;
    forall p | p in m ensures Wrap(Wrap(p + 1, width) + width - 1, width) == p {
      WrapAdd(p + 1, width - 1, width);
      WrapLap(p, width);
    }
    forall p | p in m ensures p in RotateRight(RotateLeft(m, width), width) {
      assert Wrap(p + 1, width) in RotateLeft(m, width);
    }
  }

  /** The speculation-tag allocator. `range` is how many values the free count can hold. */
  class TagGen {
    const width: nat
    const range: nat
    var free_tag: nat
    var next_tag: Mask

    function View(): TagState
      reads this
    {
      TagState(free_tag, next_tag)
    }

    ghost predicate Valid()
      reads this
    {
      0 < width <= range && free_tag < width && forall p | p in next_tag :: p < width
    }

    constructor (width: nat, range: nat)
      requires 0 < width <= range
      ensures Valid() && this.width == width && View() == TagState(width - 1, {0})
    {
      this.width, this.range := width, range;
      free_tag, next_tag := width - 1, {0};
    }

    /** The pointer stepped past every booking in `earlier`. */
    method TagAfter(earlier: seq<bool>) returns (tag: Mask)
      requires Valid()
      ensures forall p | p in tag :: p < width
      ensures PopCount(earlier) <= free_tag ==> tag == BookAll(View(), width, earlier).next
    {
      tag := next_tag;
      for i := 0 to |earlier|
        invariant forall p | p in tag :: p < width
        invariant PopCount(earlier[..i]) <= free_tag ==> tag == BookAll(View(), width, earlier[..i]).next
      {
        assert earlier[..i + 1][..i] == earlier[..i];
        if earlier[i] {
          RotateBack(tag, width);
          tag := RotateLeft(tag, width);
        }
      }
      assert earlier[..|earlier|] == earlier;
    }

    /** The tag lane `port` carries, and whether it dispatches under an open speculation:
        what it would be told if the lanes before it had already booked. */
    method BookRename(ports: seq<bool>, port: nat) returns (is_spec: bool, tag: Mask)
      requires Valid() && port < |ports|
      ensures PopCount(ports[..port]) <= free_tag ==>
                var t := BookAll(View(), width, ports[..port]);
                is_spec == Outstanding(t, width) && tag == InForce(t, width, ports[port])
    {
      is_spec := free_tag != width - 1;
      tag := LastTag(View(), width);
      for lane := 0 to port
        invariant PopCount(ports[..lane]) <= free_tag ==>
                    var t := BookAll(View(), width, ports[..lane]);
                    is_spec == Outstanding(t, width) && tag == LastTag(t, width)
      {
        var opened_by := TagAfter(ports[..lane]);
        assert ports[..lane + 1][..lane] == ports[..lane];
        if ports[lane] {
          RotateBack(opened_by, width);
          is_spec, tag := true, opened_by;
        }
      }
      if ports[port] { tag := TagAfter(ports[..port]); }
    }

    /** A tag was asked for that the pool, refilled by this cycle's resolve, does not have. */
    method OverUse(ports: seq<bool>, resolve: bool) returns (over: bool)
      requires Valid()
      ensures over <==> PopCount(ports) > free_tag + (if resolve then 1 else 0)
    {
      var judge: nat := free_tag + (if resolve then 1 else 0);
      over := false;
      for i := 0 to |ports|
        invariant over <==> PopCount(ports[..i]) > free_tag + (if resolve then 1 else 0)
        invariant !over ==> judge == free_tag + (if resolve then 1 else 0) - PopCount(ports[..i])
      {
        assert ports[..i + 1][..i] == ports[..i];
        over := over || (judge == 0 && ports[i]);
        if ports[i] { judge := if judge == 0 then range - 1 else judge - 1; }
      }
      assert ports[..|ports|] == ports;
    }

    /** The cycle's one write: a resolve returns its tag first, then the bookings that
        landed take theirs; asks that did not land take nothing. */
    method Update(ports: seq<bool>, landed: bool, resolve: bool)
      requires Valid() && (resolve ==> free_tag < width - 1)
      requires landed ==> PopCount(ports) <= free_tag + (if resolve then 1 else 0)
      modifies this
      ensures Valid()
      ensures var r := if resolve then Return(old(View())) else old(View());
              View() == if landed then BookAll(r, width, ports) else r
    {
      ghost var before := if resolve then Return(View()) else View();
      if resolve { free_tag := free_tag + 1; }
      for i := 0 to |ports|
        invariant Valid()
        invariant landed ==> PopCount(ports[..i]) <= PopCount(ports)
        invariant View() == if landed && PopCount(ports[..i]) <= before.free then BookAll(before, width, ports[..i]) else before
      {
        assert ports[..i + 1][..i] == ports[..i];
        PopCountPrefix(ports, i + 1);
        if ports[i] && landed {
          RotateBack(next_tag, width);
          free_tag, next_tag := free_tag - 1, RotateLeft(next_tag, width);
        }
      }
      assert ports[..|ports|] == ports;
    }

    method OnMisPred(last_valid_tag: Mask)
      requires Valid() && forall p | p in last_valid_tag :: p < width
      modifies this
      ensures Valid() && View() == Restart(width, last_valid_tag)
    {
      RotateBack(last_valid_tag, width);
      free_tag, next_tag := width - 1, RotateLeft(last_valid_tag, width);
    }
  }
}

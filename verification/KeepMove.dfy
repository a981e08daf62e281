/** Records moving: issue, and hops along a unit's stages. */
module KeepMove {
  import opened Rings
  import opened Program
  import opened Records
  import opened Engine
  import opened Invariant
  import R = KeepReport
  import V = KeepResolve

  /** s with the record at p moved to q, possibly with a new memory word. */
  ghost function Moved(s: Core, p: Place, q: Place, word: Word): Core
    requires p in s.live
  {
    s.(live := (s.live - {p})[q := s.live[p].(word := word)])
  }

  /** A move keeps instructions in one record each, and in-order stations in order. */
  lemma MoveKeepsPlaces(c: Config, s: Core, p: Place, q: Place, word: Word)
    requires Sized(c, s) && CountsOk(c, s) && OnceOk(c, s) && OrderOk(c, s)
    requires p in s.live && q !in s.live && q.station == p.station && q.Stage?
    requires Along(q) == Along(p) + 1
    requires p.station in c.inOrder ==>
               forall o | o in s.live && o.station == p.station && Along(o) == Along(p) :: s.live[p].n <= s.live[o].n
    requires Sized(c, Moved(s, p, q, word))
    ensures var t := Moved(s, p, q, word); OnceOk(c, t) && OrderOk(c, t)
  {
    hide Wrap, Upto, Config.OpOk;
    var t := Moved(s, p, q, word);
    forall i | t.ret <= i < |t.path| && !Fin(c, t, i) ensures Holds(t, i) {
      assert Holds(s, i);
      var o :| o in s.live && s.live[o].n == i;
      var o' := if o == p then q else o;
      assert o' in t.live && t.live[o'].n == i;
    }
  }

  lemma MoveSized(c: Config, s: Core, p: Place, q: Place, word: Word)
    requires Sized(c, s) && p in s.live
    ensures Sized(c, Moved(s, p, q, word))
  {
    hide Wrap, Config.OpOk;
  }

  lemma MoveRecords(c: Config, s: Core, p: Place, q: Place, word: Word)
    requires Sized(c, s) && CountsOk(c, s) && RecordsOk(c, s)
    requires p in s.live && q.Stage? && q.station == p.station && q.stage <= c.lastStage(q.station, q.unit)
    requires (q.station in c.inOrder ==> q.unit == 0) && Ready(s.live[p])
    requires Sized(c, Moved(s, p, q, word)) && CountsOk(c, Moved(s, p, q, word))
    ensures RecordsOk(c, Moved(s, p, q, word))
  {
    hide Wrap, Upto, Config.OpOk, Fin, SlotsOk, TagIs, RecordIs;
    var t := Moved(s, p, q, word);
    forall o | o in t.live
      ensures RecordIs(c, t, o, t.live[o]) && SlotsOk(c, t, t.live[o])
      ensures TagIs(c, t, t.live[o].n, t.live[o].isSpec, t.live[o].tag)
    {
      var o' := if o == q then p else o;
      Relocated(c, s, t, o', o, t.live[o]);
    }
  }

  lemma Relocated(c: Config, s: Core, t: Core, p: Place, q: Place, r: Rec)
    requires Sized(c, s) && CountsOk(c, s) && Sized(c, t) && CountsOk(c, t) && p in s.live
    requires s.rob == t.rob && s.path == t.path && s.ret == t.ret && s.res == t.res
    requires r == s.live[p].(word := r.word)
    requires RecordIs(c, s, p, s.live[p]) && SlotsOk(c, s, s.live[p]) && TagIs(c, s, s.live[p].n, s.live[p].isSpec, s.live[p].tag)
    requires q == p || (q.Stage? && q.station == p.station && q.stage <= c.lastStage(q.station, q.unit)
                        && (q.station in c.inOrder ==> q.unit == 0) && Ready(r))
    ensures RecordIs(c, t, q, r) && SlotsOk(c, t, r) && TagIs(c, t, r.n, r.isSpec, r.tag)
  {
    hide Wrap, Upto, Config.OpOk, TagIs;
    R.TagSame(c, s, t, r.n, r.isSpec, r.tag);
    forall j | 0 <= j < |r.slots| ensures SlotOk(c, t, r.n, r.op.srcs[j], r.slots[j]) {
      assert SlotOk(c, s, r.n, r.op.srcs[j], s.live[p].slots[j]);
    }
  }

  /** What a move that leaves the store buffer alone does not touch. */
  lemma MoveFrame(c: Config, s: Core, p: Place, q: Place, word: Word)
    requires Inv(c, s) && p in s.live && Sized(c, Moved(s, p, q, word))
    ensures var t := Moved(s, p, q, word);
            && CountsOk(c, t) && RobOk(c, t) && TagsOk(c, t) && ResolvedOk(c, t) && PrfCounts(c, t) && PrfValues(c, t)
            && RtOk(c, t) && ArfOk(c, t) && LinkOk(c, t) && BufferOk(c, t) && MemoryOk(c, t)
  {
    hide Wrap, Upto, Config.OpOk, Result, RecordsOk, OnceOk, OrderOk, AccessOk, RtOk, BufferOk;
    var t := Moved(s, p, q, word);
    SameRename(c, s, t);
    SameBuffer(c, s, t);
  }

  lemma SameRename(c: Config, s: Core, t: Core)
    requires Sized(c, s) && CountsOk(c, s) && RtOk(c, s) && Sized(c, t) && CountsOk(c, t)
    requires s.rt == t.rt && s.path == t.path && s.ret == t.ret && s.res == t.res
    ensures RtOk(c, t)
  {
    hide Wrap, Upto, Config.OpOk;
  }

  lemma SameBuffer(c: Config, s: Core, t: Core)
    requires Sized(c, s) && CountsOk(c, s) && BufferOk(c, s) && Sized(c, t) && CountsOk(c, t)
    requires s.sb == t.sb && s.path == t.path && s.ret == t.ret && s.res == t.res
    requires s.written == t.written && s.buffered == t.buffered
    ensures BufferOk(c, t)
  {
    hide Wrap, Upto, Config.OpOk;
    forall i | 0 <= i < |t.path| && t.path[i].op.isStore && t.written <= Upto(c, t.path, i).sts < t.buffered
      ensures RowHolds(c, t, i)
    {
      assert RowHolds(c, s, i);
    }
  }

  lemma MoveAccess(c: Config, s: Core, p: Place, q: Place)
    requires Sized(c, s) && CountsOk(c, s) && RecordsOk(c, s) && AccessOk(c, s) && p in s.live
    requires s.live[p].op.IsMem() ==> Along(q) <= 1 && Along(p) <= 1
    requires var t := Moved(s, p, q, s.live[p].word); Sized(c, t) && CountsOk(c, t) && RecordsOk(c, t)
    ensures AccessOk(c, Moved(s, p, q, s.live[p].word))
  {
    hide Wrap, Upto, Config.OpOk, RecordIs, SlotsOk, TagIs, WordSeen;
    var t := Moved(s, p, q, s.live[p].word);
    forall i | t.ret <= i < |t.path| && t.path[i].op.isStore && Fin(c, t, i)
      ensures Upto(c, t.path, i).sts < t.buffered
    {
      assert Fin(c, s, i);
    }
  }

  lemma IssueKeeps(c: Config, s: Core, p: Place, q: Place)
    requires Inv(c, s) && CanIssue(c, s, p, q)
    ensures Inv(c, s.(live := Move(s.live, p, q)))
  {
    hide Wrap, Upto, Sized, CountsOk, RobOk, TagsOk, ResolvedOk, PrfCounts, PrfValues, RtOk, ArfOk, OnceOk, OrderOk,
         LinkOk, BufferOk, MemoryOk, AccessOk, Config.OpOk, SlotsOk, TagIs, RecordsOk;
    var word := s.live[p].word;
    assert s.(live := Move(s.live, p, q)) == Moved(s, p, q, word);
    MoveSized(c, s, p, q, word);
    MoveFrame(c, s, p, q, word);
    MoveKeepsPlaces(c, s, p, q, word);
    MoveRecords(c, s, p, q, word);
    MoveAccess(c, s, p, q);
  }

  /** In an in-order station there is one place at each depth of the stage chain. */
  lemma StageAlone(c: Config, s: Core, p: Place)
    requires Sized(c, s) && CountsOk(c, s) && RecordsOk(c, s) && p in s.live && p.Stage? && p.station in c.inOrder
    ensures forall o | o in s.live && o.station == p.station && Along(o) == Along(p) :: o == p
  {
    hide Wrap, Upto, Config.OpOk, SlotsOk, TagIs, Fin;
    forall o | o in s.live && o.station == p.station && Along(o) == Along(p) ensures o == p {
      assert RecordIs(c, s, o, s.live[o]) && RecordIs(c, s, p, s.live[p]);
    }
  }

  lemma HopKeeps(c: Config, s: Core, p: Place, q: Place)
    requires Inv(c, s) && CanHop(c, s, p, q) && p.station != c.lsStation
    ensures Inv(c, s.(live := Move(s.live, p, q)))
  {
    hide Wrap, Upto, Sized, CountsOk, RobOk, TagsOk, ResolvedOk, PrfCounts, PrfValues, RtOk, ArfOk, OnceOk, OrderOk,
         LinkOk, BufferOk, MemoryOk, AccessOk, Config.OpOk, SlotsOk, TagIs, Fin;
    var word := s.live[p].word;
    assert s.(live := Move(s.live, p, q)) == Moved(s, p, q, word);
    assert RecordIs(c, s, p, s.live[p]);
    Decoded(c, s.path, s.live[p].n) by { hide RecordsOk; assert PathOk(c, s.path) by { PathHolds(c, s); } }
    if p.station in c.inOrder { StageAlone(c, s, p); }
    MoveSized(c, s, p, q, word);
    MoveFrame(c, s, p, q, word);
    MoveKeepsPlaces(c, s, p, q, word);
    MoveRecords(c, s, p, q, word);
    MoveAccess(c, s, p, q);
  }

  lemma PathHolds(c: Config, s: Core)
    requires CountsOk(c, s)
    ensures PathOk(c, s.path)
  {
  }
}

/** Memory accesses: the buffer search finds the program's newest older store, a store
    lands in its turn, and the head drains to memory in program order. */
module KeepAccess {
  import opened Rings
  import opened Program
  import opened Records
  import opened Engine
  import opened Invariant
  import S = Stores
  import R = KeepReport
  import M = KeepMove

  /** Accesses take their turn: every older store is buffered, no younger one is. */
  lemma Turn(c: Config, s: Core, p: Place)
    requires Sized(c, s) && CountsOk(c, s) && RecordsOk(c, s) && OnceOk(c, s) && OrderOk(c, s) && AccessOk(c, s)
    requires p in s.live && p.Stage? && p.stage == 0 && p.station == c.lsStation
    ensures s.live[p].op.IsMem() && Upto(c, s.path, s.live[p].n).sts == s.buffered
  {
    hide Wrap, Upto, Config.OpOk, SlotsOk, TagIs, WordSeen, OnceOk;
    var n := s.live[p].n;
    assert RecordIs(c, s, p, s.live[p]);
    Decoded(c, s.path, n);
    if Upto(c, s.path, n).sts > s.buffered {
      var i := StoreNumbered(c, s.path, n, s.buffered);
      var q := Unbuffered(c, s, i);
      assert RecordIs(c, s, q, s.live[q]);
      Decoded(c, s.path, i);
    }
  }

  /** A store not yet buffered is still in its station or unit. */
  lemma Unbuffered(c: Config, s: Core, i: nat) returns (q: Place)
    requires Sized(c, s) && CountsOk(c, s) && RecordsOk(c, s) && OnceOk(c, s) && AccessOk(c, s)
    requires i < |s.path| && s.path[i].op.isStore && Upto(c, s.path, i).sts == s.buffered
    ensures q in s.live && s.live[q].n == i
  {
    hide Wrap, Upto, Config.OpOk, RecordsOk, WordSeen, Along;
    if i < s.ret { CountsSplit(c, s.path, i, s.ret); }
    assert Holds(s, i);
    q :| q in s.live && s.live[q].n == i;
  }

  /** Memory as the program leaves it after `k` stores, seen anywhere between the k-th
      store and the next. */
  lemma {:induction false} Overlay(c: Config, s: Core, len: nat, addr: nat, i: nat)
    requires Sized(c, s) && CountsOk(c, s) && BufferOk(c, s) && MemoryOk(c, s)
    requires s.written + len <= s.buffered && addr < |s.mem|
    requires i <= |s.path| && Upto(c, s.path, i).sts == s.written + len
    ensures (match S.Newest(s.sb, c.sbDepth, len, addr) case Hit(d) => d case Miss => s.mem[addr])
         == Upto(c, s.path, i).m.mem[addr]
    decreases len
  {
    hide Wrap, Upto, Config.OpOk, Stored, TagIs;
    if len > 0 {
      var j := StoreNumbered(c, s.path, i, s.written + len - 1);
      UptoStep(c, s.path, j);
      MemoryBetween(c, s.path, j + 1, i);
      Overlay(c, s, len - 1, addr, j);
      assert RowHolds(c, s, j);
      WrapAdd(s.written, len - 1, c.sbDepth);
    }
  }

  /** Rows past the tail are empty, so a search over the whole ring stops at the tail. */
  lemma {:induction false} SearchTail(c: Config, s: Core, len: nat, addr: nat)
    requires Sized(c, s) && CountsOk(c, s) && BufferOk(c, s) && s.buffered - s.written <= len <= c.sbDepth
    ensures S.Newest(s.sb, c.sbDepth, len, addr) == S.Newest(s.sb, c.sbDepth, s.buffered - s.written, addr)
    decreases len
  {
    hide Wrap, Upto, Config.OpOk;
    if len > s.buffered - s.written {
      WrapAdd(s.written, len - 1, c.sbDepth);
      SearchTail(c, s, len - 1, addr);
    }
  }

  /** An access picks up the word the sequential machine sees there. */
  lemma LoadSees(c: Config, s: Core, n: nat, addr: nat)
    requires Sized(c, s) && CountsOk(c, s) && BufferOk(c, s) && MemoryOk(c, s)
    requires n <= |s.path| && Upto(c, s.path, n).sts == s.buffered && addr < |s.mem|
    ensures Loaded(c, s, addr) == Upto(c, s.path, n).m.mem[addr]
  {
    hide Wrap, Upto, Config.OpOk, S.Newest, RowHolds;
    SearchTail(c, s, c.sbDepth, addr);
    Overlay(c, s, s.buffered - s.written, addr, n);
  }

  /** Full means every row is taken. */
  lemma FullExactly(c: Config, s: Core)
    requires Sized(c, s) && CountsOk(c, s) && BufferOk(c, s)
    ensures S.IsFull(s.sb, c.sbDepth) <==> s.buffered == s.written + c.sbDepth
  {
    hide Wrap, Upto, Config.OpOk;
    var full := s.buffered == s.written + c.sbDepth;
    if full {
      WrapLap(s.written, c.sbDepth);
      var j := StoreNumbered(c, s.path, |s.path|, s.written);
      assert RowHolds(c, s, j);
    } else if s.sb.alloc == s.sb.ret {
      Apart(s.buffered, s.written, c.sbDepth);
      assert !s.sb.table[Wrap(s.buffered, c.sbDepth)].busy;
    }
  }

  lemma WrapLap(k: nat, size: nat)
    requires size > 0
    ensures Wrap(k + size, size) == Wrap(k, size)
  {
  }

  /** What a memory access at the first stage computes. */
  lemma AccessWord(c: Config, s: Core, p: Place)
    requires Sized(c, s) && CountsOk(c, s) && RecordsOk(c, s) && OnceOk(c, s) && OrderOk(c, s) && AccessOk(c, s)
    requires BufferOk(c, s) && MemoryOk(c, s)
    requires p in s.live && p.Stage? && p.stage == 0 && p.station == c.lsStation
    ensures var r := s.live[p]; var m := Upto(c, s.path, r.n).m;
            && r.n < |s.path| && Fits(c, r.op, m) && r.op == s.path[r.n].op && r.op.IsMem()
            && Values(r.slots) == Operands(c, r.op, m)
            && Loaded(c, s, WordAddr(c, r.op, Values(r.slots))) == WordSeen(c, r.op, m)
  {
    hide Wrap, Upto, Config.OpOk, SlotsOk, TagIs, BufferOk, MemoryOk, Loaded, OnceOk, OrderOk, AccessOk;
    var r := s.live[p];
    assert RecordIs(c, s, p, r);
    Turn(c, s, p);
    R.OperandsLanded(c, s, r);
    LoadSees(c, s, r.n, WordAddr(c, r.op, Values(r.slots)));
  }

  /** A store is appended to the stores already buffered. */
  lemma PushBuffer(c: Config, s: Core, p: Place, t: Core)
    requires Sized(c, s) && CountsOk(c, s) && BufferOk(c, s) && Sized(c, t) && CountsOk(c, t)
    requires p in s.live && !S.IsFull(s.sb, c.sbDepth)
    requires var r := s.live[p]; var m := Upto(c, s.path, r.n);
             && s.ret <= r.n < |s.path| && r.op == s.path[r.n].op && r.op.isStore && m.sts == s.buffered && Fits(c, r.op, m.m)
             && TagIs(c, s, r.n, r.isSpec, r.tag)
             && t.sb == S.Push(s.sb, c.sbDepth, r.isSpec, r.tag, WordAddr(c, r.op, Operands(c, r.op, m.m)), Stored(c, r.op, m.m))
    requires t.path == s.path && t.ret == s.ret && t.res == s.res && t.written == s.written && t.buffered == s.buffered + 1
    ensures BufferOk(c, t)
  {
    hide Wrap, Upto, Config.OpOk, Stored, Operands;
    var r := s.live[p];
    FullExactly(c, s);
    WrapAdd(s.buffered, 1, c.sbDepth);
    forall k | t.buffered <= k < t.written + c.sbDepth ensures !t.sb.table[Wrap(k, c.sbDepth)].busy {
      if Wrap(k, c.sbDepth) == Wrap(s.buffered, c.sbDepth) { Apart(k, s.buffered, c.sbDepth); }
    }
    forall i | 0 <= i < |t.path| && t.path[i].op.isStore && t.written <= Upto(c, t.path, i).sts < t.buffered
      ensures RowHolds(c, t, i)
    {
      if Upto(c, s.path, i).sts == s.buffered {
        if i < r.n { CountsSplit(c, s.path, i, r.n); } else if r.n < i { CountsSplit(c, s.path, r.n, i); }
      } else {
        assert RowHolds(c, s, i);
      }
    }
  }

  lemma AccessSized(c: Config, s: Core, p: Place, q: Place)
    requires Sized(c, s) && p in s.live
    ensures Sized(c, DoAccess(c, s, p, q))
  {
    hide Wrap, Config.OpOk, Loaded;
  }

  /** Any other access waiting its turn in the station is younger. */
  lemma LaterAccess(c: Config, s: Core, p: Place, o: Place)
    requires Sized(c, s) && CountsOk(c, s) && RecordsOk(c, s) && OrderOk(c, s)
    requires p in s.live && p.Stage? && p.stage == 0 && p.station == c.lsStation && s.live[p].op.IsMem()
    requires o in s.live && o != p && s.live[o].op.IsMem() && Along(o) <= 1
    ensures s.live[p].op.isStore ==> Upto(c, s.path, s.live[p].n).sts < Upto(c, s.path, s.live[o].n).sts
  {
    hide Wrap, Upto, Config.OpOk, SlotsOk, TagIs, Fin;
    M.StageAlone(c, s, p);
    assert RecordIs(c, s, o, s.live[o]) && RecordIs(c, s, p, s.live[p]);
    Decoded(c, s.path, s.live[o].n);
    CountsSplit(c, s.path, s.live[p].n, s.live[o].n);
  }

  /** Where the accesses stand once this one has moved on. */
  lemma AccessTurns(c: Config, s: Core, p: Place, q: Place, t: Core)
    requires Sized(c, s) && CountsOk(c, s) && RecordsOk(c, s) && OnceOk(c, s) && OrderOk(c, s) && AccessOk(c, s)
    requires CanHop(c, s, p, q) && p.station == c.lsStation && Upto(c, s.path, s.live[p].n).sts == s.buffered
    requires s.live[p].op.IsMem() && p.stage == 0
    requires Sized(c, t) && CountsOk(c, t) && RecordsOk(c, t) && t.path == s.path && t.ret == s.ret && t.rob == s.rob
    requires t.live == (s.live - {p})[q := s.live[p].(word := WordSeen(c, s.live[p].op, Upto(c, s.path, s.live[p].n).m))]
    requires t.buffered == s.buffered + (if s.live[p].op.isStore then 1 else 0)
    ensures AccessOk(c, t)
  {
    hide Wrap, Upto, Config.OpOk, SlotsOk, TagIs, WordSeen, RecordsOk, OnceOk, OrderOk;
    var n := s.live[p].n;
    forall o | o in t.live && t.live[o].op.IsMem() && Along(o) <= 1
      ensures Upto(c, t.path, t.live[o].n).sts >= t.buffered
    {
      LaterAccess(c, s, p, o);
    }
    forall i | t.ret <= i < |t.path| && t.path[i].op.isStore && Fin(c, t, i) ensures Upto(c, t.path, i).sts < t.buffered {
      assert Fin(c, s, i);
    }
  }

  lemma AccessKeeps(c: Config, s: Core, p: Place, q: Place)
    requires Inv(c, s) && CanAccess(c, s, p, q)
    ensures Inv(c, DoAccess(c, s, p, q))
  {
    hide Wrap, Upto, Sized, RobOk, TagsOk, ResolvedOk, PrfCounts, PrfValues, RtOk, ArfOk, OnceOk, OrderOk,
         LinkOk, BufferOk, MemoryOk, AccessOk, Config.OpOk, SlotsOk, TagIs, Fin, WordSeen, S.IsFull, Loaded, RecordsOk;
    var r, t := s.live[p], DoAccess(c, s, p, q);
    AccessAt(c, s, p, q);
    AccessWord(c, s, p);
    Turn(c, s, p);
    AccessSized(c, s, p, q);
    var word := WordSeen(c, r.op, Upto(c, s.path, r.n).m);
    var u := M.Moved(s, p, q, word);
    M.MoveSized(c, s, p, q, word);
    M.MoveFrame(c, s, p, q, word);
    M.StageAlone(c, s, p);
    M.MoveKeepsPlaces(c, s, p, q, word);
    M.MoveRecords(c, s, p, q, word);
    assert t == if r.op.isStore then u.(sb := t.sb, buffered := s.buffered + 1) else u;
    AccessCounts(c, s, u, t, r.n);
    PushFrame(c, u, t);
    if r.op.isStore { PushBuffer(c, s, p, t); }
    AccessTurns(c, s, p, q, t);
  }

  lemma AccessAt(c: Config, s: Core, p: Place, q: Place)
    requires Sized(c, s) && CountsOk(c, s) && RecordsOk(c, s) && CanAccess(c, s, p, q)
    ensures p.stage == 0 && q.stage == 1 == c.lastStage(q.station, q.unit) && q.unit == 0 && q.station in c.inOrder
    ensures var r := s.live[p]; s.ret <= r.n < |s.path| && r.op == s.path[r.n].op && Ready(r) && TagIs(c, s, r.n, r.isSpec, r.tag)
    ensures !(s.live[p].op.isStore && s.live[p].op.isLoad)
  {
    hide Wrap, Upto, Config.OpOk, SlotsOk, TagIs, S.IsFull;
    assert RecordIs(c, s, p, s.live[p]);
    Decoded(c, s.path, s.live[p].n);
  }

  lemma AccessCounts(c: Config, s: Core, u: Core, t: Core, n: nat)
    requires CountsOk(c, s) && CountsOk(c, u) && n < |s.path| && Upto(c, s.path, n).sts == s.buffered
    requires u.path == s.path && u.buffered == s.buffered
    requires t == u || (s.path[n].op.isStore && t == u.(sb := t.sb, buffered := s.buffered + 1))
    ensures CountsOk(c, t)
  {
    hide Wrap, Upto, Config.OpOk;
    CountsSplit(c, s.path, n, |s.path|);
  }

  lemma PushFrame(c: Config, s: Core, t: Core)
    requires Sized(c, s) && CountsOk(c, s) && Sized(c, t) && CountsOk(c, t) && t == s.(sb := t.sb, buffered := t.buffered)
    requires RobOk(c, s) && TagsOk(c, s) && ResolvedOk(c, s) && PrfCounts(c, s) && PrfValues(c, s) && RtOk(c, s) && ArfOk(c, s)
    requires RecordsOk(c, s) && OnceOk(c, s) && OrderOk(c, s) && LinkOk(c, s) && MemoryOk(c, s)
    ensures RobOk(c, t) && TagsOk(c, t) && ResolvedOk(c, t) && PrfCounts(c, t) && PrfValues(c, t) && RtOk(c, t) && ArfOk(c, t)
    ensures RecordsOk(c, t) && OnceOk(c, t) && OrderOk(c, t) && LinkOk(c, t) && MemoryOk(c, t)
  {
    hide Wrap, Upto, Config.OpOk, Result, RtOk, RecordsOk, OnceOk, OrderOk;
    M.SameRename(c, s, t);
    SameRecords(c, s, t);
    SameOnce(c, s, t);
  }

  lemma SameRecords(c: Config, s: Core, t: Core)
    requires Sized(c, s) && CountsOk(c, s) && RecordsOk(c, s) && Sized(c, t) && CountsOk(c, t)
    requires s.rob == t.rob && s.path == t.path && s.ret == t.ret && s.res == t.res && s.live == t.live
    ensures RecordsOk(c, t)
  {
    hide Wrap, Upto, Config.OpOk, RecordIs, SlotsOk, TagIs;
    forall o | o in t.live
      ensures RecordIs(c, t, o, t.live[o]) && SlotsOk(c, t, t.live[o])
      ensures TagIs(c, t, t.live[o].n, t.live[o].isSpec, t.live[o].tag)
    {
      M.Relocated(c, s, t, o, o, t.live[o]);
    }
  }

  lemma SameOnce(c: Config, s: Core, t: Core)
    requires Sized(c, s) && CountsOk(c, s) && OnceOk(c, s) && OrderOk(c, s) && Sized(c, t) && CountsOk(c, t)
    requires s.rob == t.rob && s.path == t.path && s.ret == t.ret && s.live == t.live
    ensures OnceOk(c, t) && OrderOk(c, t)
  {
    hide Wrap, Upto, Config.OpOk;
    forall i | t.ret <= i < |t.path| && !Fin(c, t, i) ensures Holds(t, i) { assert Holds(s, i); }
  }

  // --- draining to memory ----------------------------------------------------------

  ghost function Drained(c: Config, s: Core): Core
    requires Sized(c, s)
  {
    var head := s.sb.table[s.sb.ret];
    s.(mem := s.mem[head.addr := head.data], sb := S.Drain(s.sb, c.sbDepth), written := s.written + 1)
  }

  /** The head of the buffer is the next store in program order, and it has retired. */
  lemma DrainTurn(c: Config, s: Core) returns (j: nat)
    requires Sized(c, s) && CountsOk(c, s) && BufferOk(c, s) && S.CanDrain(s.sb, c.sbDepth)
    ensures j < s.ret && s.path[j].op.isStore && Upto(c, s.path, j).sts == s.written
    ensures s.written < s.buffered && RowHolds(c, s, j)
  {
    hide Wrap, Upto, Config.OpOk;
    assert s.written < s.buffered;
    j := StoreNumbered(c, s.path, |s.path|, s.written);
    assert RowHolds(c, s, j);
  }

  lemma DrainSized(c: Config, s: Core)
    requires Sized(c, s)
    ensures Sized(c, Drained(c, s))
  {
    hide Wrap, Config.OpOk;
  }

  lemma DrainBuffer(c: Config, s: Core)
    requires Sized(c, s) && CountsOk(c, s) && BufferOk(c, s) && S.CanDrain(s.sb, c.sbDepth) && Sized(c, Drained(c, s))
    ensures CountsOk(c, Drained(c, s)) && BufferOk(c, Drained(c, s))
  {
    hide Wrap, Upto, Config.OpOk, Stored, Operands;
    var t := Drained(c, s);
    var j := DrainTurn(c, s);
    CountsSplit(c, s.path, j, s.ret);
    WrapAdd(s.written, 1, c.sbDepth);
    WrapLap(s.written, c.sbDepth);
    forall k | t.buffered <= k < t.written + c.sbDepth ensures !t.sb.table[Wrap(k, c.sbDepth)].busy {
      assert k < s.written + c.sbDepth ==> !s.sb.table[Wrap(k, c.sbDepth)].busy;
    }
    forall i | 0 <= i < |t.path| && t.path[i].op.isStore && t.written <= Upto(c, t.path, i).sts < t.buffered
      ensures RowHolds(c, t, i)
    {
      assert RowHolds(c, s, i);
      if Wrap(Upto(c, s.path, i).sts, c.sbDepth) == Wrap(s.written, c.sbDepth) {
        Apart(Upto(c, s.path, i).sts, s.written, c.sbDepth);
      }
    }
  }

  lemma DrainMemory(c: Config, s: Core)
    requires Sized(c, s) && CountsOk(c, s) && BufferOk(c, s) && MemoryOk(c, s) && S.CanDrain(s.sb, c.sbDepth)
    requires CountsOk(c, Drained(c, s))
    ensures MemoryOk(c, Drained(c, s))
  {
    hide Wrap, Upto, Config.OpOk, Stored, Operands, BufferOk;
    var t := Drained(c, s);
    var j := DrainTurn(c, s) by { assert BufferOk(c, s); }
    assert s.sb.ret == Wrap(s.written, c.sbDepth) by { HeadAt(c, s); }
    UptoStep(c, s.path, j);
    forall i | 0 <= i <= |t.path| && Upto(c, t.path, i).sts == t.written ensures t.mem == Upto(c, t.path, i).m.mem {
      if i <= j { CountsRise(c, s.path, i, j); }
      MemoryBetween(c, s.path, j + 1, i);
    }
  }

  lemma HeadAt(c: Config, s: Core)
    requires Sized(c, s) && CountsOk(c, s) && BufferOk(c, s)
    ensures s.sb.ret == Wrap(s.written, c.sbDepth)
  {
    hide Wrap, Upto, Config.OpOk;
  }

  lemma DrainKeeps(c: Config, s: Core)
    requires Inv(c, s) && S.CanDrain(s.sb, c.sbDepth)
    ensures Inv(c, Drained(c, s))
  {
    hide Wrap, Upto, Sized, CountsOk, RobOk, TagsOk, ResolvedOk, PrfCounts, PrfValues, RtOk, ArfOk, OnceOk, OrderOk,
         LinkOk, BufferOk, MemoryOk, AccessOk, Config.OpOk, RecordsOk, S.CanDrain;
    var t := Drained(c, s);
    DrainSized(c, s);
    DrainBuffer(c, s);
    DrainMemory(c, s);
    DrainFrame(c, s, t);
  }

  lemma DrainFrame(c: Config, s: Core, t: Core)
    requires Inv(c, s) && Sized(c, t) && CountsOk(c, t) && t == s.(mem := t.mem, sb := t.sb, written := t.written)
    ensures RobOk(c, t) && TagsOk(c, t) && ResolvedOk(c, t) && PrfCounts(c, t) && PrfValues(c, t) && RtOk(c, t) && ArfOk(c, t)
    ensures RecordsOk(c, t) && OnceOk(c, t) && OrderOk(c, t) && LinkOk(c, t) && AccessOk(c, t)
  {
    hide Wrap, Upto, Config.OpOk, Result, RtOk, RecordsOk, OnceOk, OrderOk, BufferOk, MemoryOk, AccessOk;
    M.SameRename(c, s, t);
    SameRecords(c, s, t);
    SameOnce(c, s, t);
    SameAccess(c, s, t);
  }

  lemma SameAccess(c: Config, s: Core, t: Core)
    requires Sized(c, s) && CountsOk(c, s) && RecordsOk(c, s) && AccessOk(c, s) && Sized(c, t) && CountsOk(c, t) && RecordsOk(c, t)
    requires s.rob == t.rob && s.path == t.path && s.ret == t.ret && s.live == t.live && s.buffered == t.buffered
    ensures AccessOk(c, t)
  {
    hide Wrap, Upto, Config.OpOk, RecordIs, SlotsOk, TagIs, WordSeen;
  }
}

/** The retirements of one cycle, and the store that goes to memory beside them, are events
    after its moves. */
module CycleRetire {
  import opened Rings
  import opened Program
  import opened Records
  import opened Engine
  import opened Invariant
  import opened Theorems
  import opened Cycle
  import A = Architectural
  import B = Reorder
  import N = Rename
  import P = Physical
  import S = Stores
  import E = CycleEvents

  // --- the lanes of the group, as the buffer stood ------------------------------------------

  lemma {:induction false} FinishedRow(s: B.RobState, depth: nat, idxs: seq<nat>, i: nat)
    requires s.Sized(depth) && (forall j | 0 <= j < |idxs| :: idxs[j] < depth) && i < depth
    ensures var t := B.FinishAll(s, depth, idxs).table[i]; t == s.table[i].(fin := t.fin) && (s.table[i].fin ==> t.fin)
    decreases |idxs|
  {
    if idxs != [] { FinishedRow(s, depth, idxs[..|idxs| - 1], i); }
  }

  /** The row the k-th retirement takes is lane k as it stood, already reported. */
  lemma LaneNow(c: Config, s: Core, acts: seq<Act>, k: nat)
    requires Sized(c, s) && Sources(s, acts) && MayRetire(c, s, k + 1)
    ensures k <= s.rob.used
    ensures var v := Retired(c, s, acts, k);
            && v.rob.used > 0 && v.rob.com < |v.rob.table| && v.rob.table[v.rob.com] == Lane(c, s, k) && Lane(c, s, k).fin
            && v.rob.com == Wrap(s.rob.com + k, c.depth)
  {
    hide Wrap, Loaded, Config.OpOk, LiveAfter, Reported, Written, Resolved, Pushed, S.Cycle, A.WriteAll, N.RetireAll;
    PortsFit(c, s, acts);
    var f := B.FinishAll(s.rob, c.depth, Reported(s, acts));
    B.RetireAllPointer(f, c.depth, k);
    FinishedRow(s.rob, c.depth, Reported(s, acts), Wrap(s.rob.com + k, c.depth));
  }

  lemma FewerRetire(c: Config, s: Core, k: nat)
    requires Sized(c, s) && MayRetire(c, s, k + 1)
    ensures MayRetire(c, s, k) && !RetiresStore(c, s, k) && B.Retires(s.rob, c.depth, k)
  {
    hide Wrap;
  }

  // --- what retires is the same value in both readings --------------------------------------

  /** Lane k is the k-th instruction in flight. */
  lemma LaneIs(c: Config, s: Core, k: nat)
    requires Sized(c, s) && CountsOk(c, s) && RobOk(c, s) && k < s.rob.used
    ensures s.ret + k < |s.path| && RowIs(c, Lane(c, s, k), s.path[s.ret + k], Upto(c, s.path, s.ret + k).acts)
    ensures Lane(c, s, k).fin == Fin(c, s, s.ret + k)
  {
    hide Wrap, Upto, Config.OpOk;
    WrapAdd(s.ret, k, c.depth);
    assert RowIs(c, s.rob.table[Wrap(s.ret + k, c.depth)], s.path[s.ret + k], Upto(c, s.path, s.ret + k).acts);
  }

  lemma RetiredValue(c: Config, s: Core, v: Core, k: nat)
    requires Inv(c, s) && Inv(c, v) && v.path == s.path && v.ret == s.ret + k && k < s.rob.used && v.rob.used > 0
    requires Lane(c, s, k).fin && Lane(c, s, k).active && Lane(c, s, k).required && v.rob.table[v.rob.com] == Lane(c, s, k)
    ensures v.prf.data[Lane(c, s, k).pr] == s.prf.data[Lane(c, s, k).pr]
  {
    hide Wrap, Upto, Config.OpOk, TagsOk, RtOk, ArfOk, RecordsOk, OnceOk, OrderOk, LinkOk, BufferOk, MemoryOk, AccessOk,
         ResolvedOk, PrfCounts, Result;
    LaneIs(c, s, k);
    assert s.path[s.ret + k].op.active && s.path[s.ret + k].op.required && Fin(c, s, s.ret + k);
    assert Fin(c, v, v.ret);
  }

  // --- the store a retirement marks -----------------------------------------------------------

  lemma {:induction false} NoStoreBefore(c: Config, s: Core, k: nat)
    requires Sized(c, s) && CountsOk(c, s) && RobOk(c, s) && k < s.rob.used && B.Retires(s.rob, c.depth, k)
    ensures s.ret + k < |s.path| && Upto(c, s.path, s.ret + k).sts == Upto(c, s.path, s.ret).sts
    decreases k
  {
    hide Wrap, Upto, Config.OpOk, Apply;
    LaneIs(c, s, k);
    if k > 0 {
      B.LeadingRun(s.rob, c.depth, k - 1, k);
      NoStoreBefore(c, s, k - 1);
      LaneIs(c, s, k - 1);
      UptoStep(c, s.path, s.ret + (k - 1));
      assert s.ret + (k - 1) + 1 == s.ret + k;
    }
  }

  /** The row the retiring store is in is the one at the commit pointer. */
  lemma ComBusy(c: Config, s: Core, k: nat)
    requires Inv(c, s) && k < s.rob.used && B.Retires(s.rob, c.depth, k) && Lane(c, s, k).isStore
    ensures s.sb.table[s.sb.com].busy
  {
    hide Wrap, Upto, Config.OpOk, TagsOk, RtOk, ArfOk, RecordsOk, OnceOk, OrderOk, LinkOk, MemoryOk, PrfValues,
         ResolvedOk, PrfCounts, TagIs;
    NoStoreBefore(c, s, k);
    LaneIs(c, s, k);
    var i := s.ret + k;
    assert s.path[i].op.isStore && Fin(c, s, i);
    assert Upto(c, s.path, i).sts < s.buffered;
    assert RowHolds(c, s, i);
  }

  /** A commit after the push and the resolve is the cycle with a commit. */
  lemma CommitBeside(s: S.StState, depth: nat, push: S.PushPort, tag: Mask)
    requires s.Sized(depth) && |tag| <= 1 && s.table[s.com].busy
    requires push.PushOne? ==> !s.table[s.alloc].busy && |push.tag| <= 1 && (push.isSpec ==> push.tag != {})
    ensures S.Commit(S.Cycle(s, depth, push, tag, false, false), depth) == S.Cycle(s, depth, push, tag, true, false)
  {
    hide Wrap, S.Resolve, S.Cycle;
    S.CycleInOrder(s, depth, push, tag, false, false);
    S.CycleInOrder(s, depth, push, tag, true, false);
  }

  lemma DrainBeside(s: S.StState, depth: nat, push: S.PushPort, tag: Mask, commit: bool)
    requires s.Sized(depth) && |tag| <= 1 && (commit ==> s.table[s.com].busy) && S.CanDrain(s, depth)
    requires push.PushOne? ==> !s.table[s.alloc].busy && |push.tag| <= 1 && (push.isSpec ==> push.tag != {})
    ensures var r := S.Cycle(s, depth, push, tag, commit, false);
            && S.Drain(r, depth) == S.Cycle(s, depth, push, tag, commit, true)
            && S.CanDrain(r, depth) && r.table[r.ret].addr == s.table[s.ret].addr && r.table[r.ret].data == s.table[s.ret].data
  {
    hide Wrap;
    S.CycleInOrder(s, depth, push, tag, commit, false);
    S.CycleInOrder(s, depth, push, tag, commit, true);
  }

  // --- one retirement -----------------------------------------------------------------------------

  /** What the cycle's own ports promise about the buffer. */
  ghost predicate Beside(c: Config, s: Core, acts: seq<Act>)
    requires Sized(c, s) && Sources(s, acts)
  {
    var push := Pushed(c, s, acts);
    && |Resolved(s, acts)| <= 1
    && (push.PushOne? ==> !s.sb.table[s.sb.alloc].busy && |push.tag| <= 1 && (push.isSpec ==> push.tag != {}))
  }

  lemma PortsBeside(c: Config, s: Core, acts: seq<Act>)
    requires Inv(c, s) && Plan(c, s, acts)
    ensures Sources(s, acts) && Beside(c, s, acts)
  {
    hide Wrap, Upto, Inv, ActOk, Pushed, Resolved, Sized;
    E.Counted(c, s);
    forall i | 0 <= i < |acts| ensures acts[i].p in s.live && ActOk(c, s, acts[i]) {}
    E.PushFits(c, s, acts);
    ResolvedOnce(c, s, acts);
  }

  lemma ResolvedOnce(c: Config, s: Core, acts: seq<Act>)
    requires Inv(c, s) && Sources(s, acts)
    ensures |Resolved(s, acts)| <= 1
  {
    hide Wrap, Upto, RecordsOk, CountsOk, Resolved;
    E.ResolvedBit(c, s, acts);
  }

  lemma OneMoreLane(c: Config, s: Core, u: P.PrfState, k: nat)
    requires Sized(c, s)
    ensures P.FreeAll(u, Frees(c, s, k + 1)) == P.Free(P.FreeAll(u, Frees(c, s, k)), Lane(c, s, k).active)
  {
    hide Wrap, Lane;
    var before := Frees(c, s, k);
    assert (before + [Lane(c, s, k).active])[..k] == before;
  }

  lemma OneMoreWrite(c: Config, s: Core, k: nat)
    requires Sized(c, s)
    ensures var row, w := Lane(c, s, k), A.WriteAll(s.arf, c.consts, ArfPorts(c, s, k));
            && row.ar < |s.arf| && row.pr < c.phy
            && A.WriteAll(s.arf, c.consts, ArfPorts(c, s, k + 1))
               == if row.active && row.required then A.Write(w, c.consts, A.ArfPort(row.ar, s.prf.data[row.pr])) else w
    ensures var row, r := Lane(c, s, k), N.RetireAll(s.rt, |c.boot.regs|, c.tags, RtPorts(c, s, k));
            && N.RetireAll(s.rt, |c.boot.regs|, c.tags, RtPorts(c, s, k + 1))
               == if row.active && row.required then N.Retire(r, |c.boot.regs|, c.tags, row.ar, row.pr) else r
  {
    hide Wrap, N.Retire, A.Write;
    var row := Lane(c, s, k);
    var a, r := ArfPorts(c, s, k), RtPorts(c, s, k);
    assert (a + [A.ArfPort(row.ar, s.prf.data[row.pr])])[..|a|] == a;
    assert (r + [N.CommitPort(row.ar, row.pr)])[..|r|] == r;
  }

  lemma RetireStep(c: Config, s: Core, acts: seq<Act>, k: nat)
    requires Inv(c, s) && Sources(s, acts) && Beside(c, s, acts) && MayRetire(c, s, k + 1)
    requires k <= s.rob.used && Inv(c, Retired(c, s, acts, k))
    ensures var v := Retired(c, s, acts, k);
            CanCommit(c, v) && DoCommit(c, v) == Retired(c, s, acts, k + 1)
  {
    hide Wrap, Upto, Config.OpOk, TagsOk, RtOk, ArfOk, RecordsOk, OnceOk, OrderOk, LinkOk, MemoryOk, PrfValues, BufferOk, AccessOk,
         ResolvedOk, PrfCounts, RobOk, CountsOk, Sized, S.Cycle, S.Commit, N.RetireAll, A.WriteAll, LiveAfter, Lane, B.RetireAll, B.FinishAll,
         B.Retires, P.FreeAll, N.Retire, Pushed, Resolved, Frees, ArfPorts, RtPorts, P.WriteAll, Written, Reported;
    var v := Retired(c, s, acts, k);
    LaneNow(c, s, acts, k);
    FewerRetire(c, s, k);
    OneMoreLane(c, s, Moves(c, s, acts).prf, k);
    OneMoreWrite(c, s, k);
    StoreStep(c, s, acts, k);
    OneMoreHead(c, s, acts, k);
    RobSized(c, s);
    if Lane(c, s, k).active && Lane(c, s, k).required { RetiredValue(c, s, v, k); }
  }

  lemma RobSized(c: Config, s: Core)
    requires Sized(c, s)
    ensures s.rob.Sized(c.depth)
  {
  }

  lemma OneMoreHead(c: Config, s: Core, acts: seq<Act>, k: nat)
    requires Sized(c, s) && Sources(s, acts) && k < s.rob.used
    ensures Moves(c, s, acts).rob.Sized(c.depth) && Moves(c, s, acts).rob.used == s.rob.used
    ensures B.RetireAll(Moves(c, s, acts).rob, c.depth, k + 1) == B.Retire(B.RetireAll(Moves(c, s, acts).rob, c.depth, k), c.depth)
  {
    hide Wrap, LiveAfter, Pushed, Resolved, Written, S.Cycle, P.WriteAll;
    PortsFit(c, s, acts);
  }

  lemma StoreStep(c: Config, s: Core, acts: seq<Act>, k: nat)
    requires Inv(c, s) && Sources(s, acts) && Beside(c, s, acts) && MayRetire(c, s, k + 1)
    ensures k <= s.rob.used && s.sb.Sized(c.sbDepth)
    ensures var v := Retired(c, s, acts, k);
            (if Lane(c, s, k).isStore then S.Commit(v.sb, c.sbDepth) else v.sb) == Retired(c, s, acts, k + 1).sb
  {
    hide Wrap, Upto, Config.OpOk, TagsOk, RtOk, ArfOk, RecordsOk, OnceOk, OrderOk, LinkOk, MemoryOk, PrfValues, BufferOk, AccessOk,
         ResolvedOk, PrfCounts, RobOk, CountsOk, S.Cycle, S.Commit, N.RetireAll, A.WriteAll, LiveAfter, Lane, B.RetireAll, B.FinishAll,
         B.Retires, P.FreeAll, Pushed, Resolved, Frees, ArfPorts, RtPorts, P.WriteAll;
    FewerRetire(c, s, k);
    if Lane(c, s, k).isStore {
      ComBusy(c, s, k);
      CommitBeside(s.sb, c.sbDepth, Pushed(c, s, acts), Resolved(s, acts));
    }
  }

  lemma NoneRetired(c: Config, s: Core, acts: seq<Act>)
    requires Sized(c, s) && Sources(s, acts)
    ensures Retired(c, s, acts, 0) == Moves(c, s, acts)
  {
    hide Wrap, LiveAfter, Pushed, Resolved, Written, S.Cycle, P.WriteAll;
  }

  function Commits(k: nat): (events: seq<Event>)
    ensures |events| == k
  {
    seq(k, _ => Commit)
  }

  lemma {:induction false} RetirementsAreEvents(c: Config, s: Core, acts: seq<Act>, k: nat, events: seq<Event>)
    requires Inv(c, s) && Sources(s, acts) && Beside(c, s, acts) && MayRetire(c, s, k)
    requires Inv(c, Moves(c, s, acts)) && E.Run(c, s, Moves(c, s, acts), events)
    ensures k <= s.rob.used
    ensures E.Run(c, s, Retired(c, s, acts, k), events + Commits(k)) && Inv(c, Retired(c, s, acts, k))
    decreases k
  {
    hide Inv, Sized, Next, Moves, E.Run, Beside, Retired, CanCommit, DoCommit;
    E.Counted(c, s);
    if k == 0 {
      NoneRetired(c, s, acts);
      assert events + Commits(0) == events;
    } else {
      FewerRetire(c, s, k - 1);
      RetirementsAreEvents(c, s, acts, k - 1, events);
      RetireStep(c, s, acts, k - 1);
      var v := Retired(c, s, acts, k - 1);
      E.Counted(c, v);
      CommitIs(c, v);
      StepKeeps(c, v, Commit);
      E.RunMore(c, s, v, events + Commits(k - 1), Commit);
      assert events + Commits(k - 1) + [Commit] == events + Commits(k);
    }
  }

  lemma CommitIs(c: Config, v: Core)
    requires Sized(c, v) && CanCommit(c, v)
    ensures Enabled(c, v, Commit) && Next(c, v, Commit) == DoCommit(c, v)
  {
  }

  /** And the head store, if memory takes it. */
  lemma DrainIsEvent(c: Config, s: Core, acts: seq<Act>, k: nat)
    requires Inv(c, s) && Sources(s, acts) && Beside(c, s, acts) && MayRetire(c, s, k) && k <= s.rob.used
    requires S.CanDrain(s.sb, c.sbDepth) && Sized(c, Retired(c, s, acts, k))
    ensures Enabled(c, Retired(c, s, acts, k), Drain)
    ensures Next(c, Retired(c, s, acts, k), Drain) == Drained(c, s, acts, k, true)
  {
    hide Wrap, Upto, Config.OpOk, TagsOk, RtOk, ArfOk, RecordsOk, OnceOk, OrderOk, LinkOk, MemoryOk, PrfValues, BufferOk, AccessOk,
         ResolvedOk, PrfCounts, RobOk, CountsOk, S.Cycle, S.Drain, N.RetireAll, A.WriteAll, LiveAfter, Lane, B.RetireAll, B.FinishAll,
         B.Retires, P.FreeAll, Pushed, Resolved, Frees, ArfPorts, RtPorts, P.WriteAll, S.CanDrain;
    if RetiresStore(c, s, k) { ComBusy(c, s, k - 1); }
    DrainBeside(s.sb, c.sbDepth, Pushed(c, s, acts), Resolved(s, acts), RetiresStore(c, s, k));
  }
}

/** The moves of one cycle, taken in order as events, leave exactly what the cycle leaves. */
module CycleEvents {
  import opened Rings
  import opened Program
  import opened Records
  import opened Engine
  import opened Invariant
  import opened Theorems
  import opened Cycle
  import opened CycleMoves
  import B = Reorder
  import K = KillMask
  import P = Physical
  import S = Stores
  import T = Tags
  import F = KeepAccess

  // --- one branch and one access a cycle ---------------------------------------------------

  /** A branch reports, and a memory operation is looked up, in one place only. */
  lemma OnePlace(c: Config, s: Core, a: Act)
    requires Sized(c, s) && CountsOk(c, s) && RecordsOk(c, s) && a.p in s.live && ActOk(c, s, a)
    ensures NewResolve(s, a) ==> a.p == Stage(c.brStation, 0, 0)
    ensures IsAccess(c, a) ==> a.p == Stage(c.lsStation, 0, 0)
  {
    hide Wrap, Upto, Config.OpOk, SlotsOk, TagIs, Loaded, BranchTarget, Ready;
    assert RecordIs(c, s, a.p, s.live[a.p]);
    Decoded(c, s.path, s.live[a.p].n);
  }

  lemma {:induction false} NoneYet(c: Config, s: Core, past: seq<Act>)
    requires Sized(c, s) && Sources(s, past)
    ensures (forall i | 0 <= i < |past| :: !NewResolve(s, past[i])) ==> Resolved(s, past) == {}
    ensures (forall i | 0 <= i < |past| :: !NewPush(c, s, past[i])) ==> Pushed(c, s, past) == S.NoPush
    decreases |past|
  {
    hide Wrap, Sized, Loaded, WordAddr;
    if past != [] { NoneYet(c, s, past[..|past| - 1]); }
  }

  lemma FirstOfItsKind(c: Config, s: Core, acts: seq<Act>, n: nat)
    requires Inv(c, s) && Plan(c, s, acts) && n < |acts|
    ensures Sources(s, acts[..n])
    ensures NewResolve(s, acts[n]) ==> Resolved(s, acts[..n]) == {}
    ensures IsAccess(c, acts[n]) ==> Pushed(c, s, acts[..n]) == S.NoPush
  {
    hide Wrap, Upto, Config.OpOk, Sized, CountsOk, RecordsOk, Loaded, BranchTarget, Ready, AtLastStage, CanIssue, CanHop, ActOk,
         NewResolve, NewPush, IsAccess, Resolved, Pushed;
    hide RobOk, TagsOk, PrfCounts, PrfValues, RtOk, ArfOk, OnceOk, OrderOk, LinkOk, BufferOk, MemoryOk, AccessOk, ResolvedOk;
    var past := acts[..n];
    assert forall i | 0 <= i < n :: past[i] == acts[i];
    NoneYet(c, s, past);
    OnePlace(c, s, acts[n]);
    forall i | 0 <= i < n
      ensures NewResolve(s, acts[n]) ==> !NewResolve(s, past[i])
      ensures IsAccess(c, acts[n]) ==> !NewPush(c, s, past[i])
    {
      assert acts[i].p in s.live && ActOk(c, s, acts[i]) && acts[i].p != acts[n].p;
      OnePlace(c, s, acts[i]);
      PushIsAccess(c, s, acts[i]);
    }
  }

  lemma PushIsAccess(c: Config, s: Core, a: Act)
    requires a.p in s.live
    ensures NewPush(c, s, a) ==> IsAccess(c, a)
  {
  }

  /** A record's tag is one bit or none, and one while it speculates; a branch's is one. */
  lemma OneBit(c: Config, s: Core, p: Place)
    requires Sized(c, s) && CountsOk(c, s) && RecordsOk(c, s) && p in s.live
    ensures var r := s.live[p]; |r.tag| <= 1 && (r.isSpec ==> r.tag != {}) && (r.op.isBranch ==> r.tag != {})
  {
    hide Wrap, Upto, Config.OpOk, SlotsOk;
    var r := s.live[p];
    assert RecordIs(c, s, p, r) && TagIs(c, s, r.n, r.isSpec, r.tag);
  }

  lemma {:induction false} ResolvedBit(c: Config, s: Core, past: seq<Act>)
    requires Sized(c, s) && CountsOk(c, s) && RecordsOk(c, s) && Sources(s, past)
    ensures |Resolved(s, past)| <= 1
    decreases |past|
  {
    hide Wrap, Upto, Sized, CountsOk, RecordsOk;
    if past != [] {
      ResolvedBit(c, s, past[..|past| - 1]);
      OneBit(c, s, past[|past| - 1].p);
    }
  }

  // --- the store buffer -----------------------------------------------------------------------

  lemma TailFree(c: Config, s: Core)
    requires Sized(c, s) && CountsOk(c, s) && BufferOk(c, s) && !S.IsFull(s.sb, c.sbDepth)
    ensures !s.sb.table[s.sb.alloc].busy
  {
    hide Wrap, Upto, Config.OpOk;
    F.FullExactly(c, s);
  }

  lemma {:induction false} MaskedNewest(s: S.StState, depth: nat, len: nat, addr: nat, tag: Mask)
    requires s.Sized(depth)
    ensures S.Newest(S.Resolve(s, depth, tag), depth, len, addr) == S.Newest(s, depth, len, addr)
    decreases len
  {
    hide Wrap;
    if len > 0 { MaskedNewest(s, depth, len - 1, addr, tag); }
  }

  ghost function MaskedBuffer(c: Config, s: Core, tag: Mask): S.StState
    requires Sized(c, s)
  {
    if tag != {} then S.Resolve(s.sb, c.sbDepth, tag) else s.sb
  }

  lemma MaskedLookup(c: Config, s: Core, u: Core, addr: nat, tag: Mask)
    requires Sized(c, s) && Sized(c, u) && u.sb == MaskedBuffer(c, s, tag) && u.mem == s.mem && addr < |s.mem|
    ensures Loaded(c, u, addr) == Loaded(c, s, addr)
    ensures S.IsFull(u.sb, c.sbDepth) == S.IsFull(s.sb, c.sbDepth)
  {
    hide Wrap, S.Newest;
    MaskedNewest(s.sb, c.sbDepth, c.sbDepth, addr, tag);
  }

  /** A push beside a resolve, either way round. */
  lemma PushBeside(s: S.StState, depth: nat, r: Rec, tag: Mask, addr: nat, data: Word)
    requires s.Sized(depth) && |r.tag| <= 1 && |tag| <= 1 && (r.isSpec ==> r.tag != {})
    ensures var u := Unmasked(r, tag);
            S.Push(if tag != {} then S.Resolve(s, depth, tag) else s, depth, u.isSpec, u.tag, addr, data)
            == S.Cycle(s, depth, S.PushOne(r.isSpec, r.tag, addr, data), tag, false, false)
  {
    hide Wrap, S.Resolve;
    S.OneHotMask(r.tag, tag);
  }

  lemma ResolveBeside(s: S.StState, depth: nat, push: S.PushPort, tag: Mask)
    requires s.Sized(depth) && |tag| == 1
    requires push.PushOne? ==> !s.table[s.alloc].busy && |push.tag| <= 1 && (push.isSpec ==> push.tag != {})
    ensures S.Resolve(S.Cycle(s, depth, push, {}, false, false), depth, tag) == S.Cycle(s, depth, push, tag, false, false)
  {
    hide Wrap, S.Resolve;
    S.CycleInOrder(s, depth, push, tag, false, false);
  }

  /** Whatever is pushed went through an access that found room. */
  lemma {:induction false} PushFits(c: Config, s: Core, acts: seq<Act>)
    requires Inv(c, s) && Sources(s, acts) && forall i | 0 <= i < |acts| :: ActOk(c, s, acts[i])
    ensures var push := Pushed(c, s, acts);
            push.PushOne? ==> !s.sb.table[s.sb.alloc].busy && |push.tag| <= 1 && (push.isSpec ==> push.tag != {})
                              && push.addr < |c.boot.mem|
    decreases |acts|
  {
    hide Wrap, Upto, Config.OpOk, Sized, CountsOk, RecordsOk, Loaded, BranchTarget, Ready, AtLastStage, CanIssue, S.IsFull, WordAddr;
    hide RobOk, TagsOk, PrfCounts, PrfValues, RtOk, ArfOk, OnceOk, OrderOk, LinkOk, BufferOk, MemoryOk, AccessOk, ResolvedOk;
    if acts != [] {
      var last := acts[|acts| - 1];
      PushFits(c, s, acts[..|acts| - 1]);
      OneBit(c, s, last.p);
      if NewPush(c, s, last) {
        NoLoad(c, s, last.p);
        assert ActOk(c, s, last);
        TailFree(c, s);
      }
    }
  }

  lemma NoLoad(c: Config, s: Core, p: Place)
    requires Sized(c, s) && CountsOk(c, s) && RecordsOk(c, s) && p in s.live
    ensures !(s.live[p].op.isStore && s.live[p].op.isLoad) && !(s.live[p].op.isBranch && s.live[p].op.IsMem())
  {
    hide Wrap, Upto, Config.OpOk, SlotsOk, TagIs;
    assert RecordIs(c, s, p, s.live[p]);
    Decoded(c, s.path, s.live[p].n);
  }

  // --- each kind of move ----------------------------------------------------------------------

  /** The move after `past`: it starts from an unmoved record, and from nothing else's place. */
  ghost predicate NextMove(c: Config, s: Core, past: seq<Act>, a: Act)
    requires Sized(c, s)
  {
    && Sources(s, past) && Starts(s, past, a) && ActOk(c, s, a)
    && Sized(c, Moves(c, s, past))
  }

  lemma IssueMove(c: Config, s: Core, past: seq<Act>, a: Act)
    requires Sized(c, s) && NextMove(c, s, past, a) && a.Go? && a.p.Row?
    ensures Sources(s, past + [a])
    ensures var u := Moves(c, s, past);
            CanIssue(c, u, a.p, a.q) && u.(live := Move(u.live, a.p, a.q)) == Moves(c, s, past + [a])
  {
    hide Wrap, Sized, Loaded, Targets, Woken, Written, Resolved, Leaves, Into, Config.OpOk, BranchTarget, Pushed;
    assert Ready(s.live[a.p]);
    MoverIs(c, s, past, a);
    OneMore(c, s, past, a);
    GoPlaces(c, s, past, a);
    var u := Moves(c, s, past);
    forall o | o in u.live && o.Row? ensures o in s.live && u.live[o].n == s.live[o].n {
      assert o !in Targets(past);
    }
  }

  lemma HopMove(c: Config, s: Core, past: seq<Act>, a: Act)
    requires Sized(c, s) && NextMove(c, s, past, a) && a.Go? && !a.p.Row? && a.p.station != c.lsStation
    ensures Sources(s, past + [a])
    ensures var u := Moves(c, s, past);
            CanHop(c, u, a.p, a.q) && u.(live := Move(u.live, a.p, a.q)) == Moves(c, s, past + [a])
  {
    hide Wrap, Sized, Loaded, Targets, Woken, Written, Resolved, Leaves, Into, Config.OpOk, BranchTarget, Pushed, MaskRec,
         Unmasked, LiveAfter;
    MoverIs(c, s, past, a);
    OneMore(c, s, past, a);
    GoPlaces(c, s, past, a);
  }

  lemma CompleteMove(c: Config, s: Core, past: seq<Act>, a: Act)
    requires Sized(c, s) && NextMove(c, s, past, a) && a.Done? && !s.live[a.p].op.isBranch
    ensures Sources(s, past + [a])
    ensures var u := Moves(c, s, past);
            AtLastStage(c, u, a.p) && u.live[a.p].op == s.live[a.p].op && Report(c, u, a.p) == Moves(c, s, past + [a])
  {
    hide Wrap, Sized, Loaded, Targets, Woken, Resolved, Leaves, Into, Config.OpOk, BranchTarget, Pushed, MaskRec,
         LiveAfter, Unmasked, S.Cycle, Wake;
    MoverIs(c, s, past, a);
    OneMore(c, s, past, a);
    DonePlaces(c, s, past, a);
    UnmaskedSame(s.live[a.p], Resolved(s, past));
    PortsFit(c, s, past + [a]);
    OneMoreReport(c, s, past, a);
  }

  /** The report ports, one report longer. */
  lemma OneMoreReport(c: Config, s: Core, past: seq<Act>, a: Act)
    requires Sized(c, s) && Sources(s, past) && a.p in s.live && a.Done?
    ensures Sources(s, past + [a]) && s.live[a.p].rob < c.depth && s.live[a.p].pr < c.phy
    ensures (forall i | 0 <= i < |Reported(s, past)| :: Reported(s, past)[i] < c.depth)
         && (forall i | 0 <= i < |Reported(s, past + [a])| :: Reported(s, past + [a])[i] < c.depth)
         && (forall i | 0 <= i < |Written(c, s, past)| :: Written(c, s, past)[i].pr < c.phy)
         && (forall i | 0 <= i < |Written(c, s, past + [a])| :: Written(c, s, past + [a])[i].pr < c.phy)
    ensures B.FinishAll(s.rob, c.depth, Reported(s, past + [a]))
         == B.Finish(B.FinishAll(s.rob, c.depth, Reported(s, past)), c.depth, s.live[a.p].rob)
    ensures P.WriteAll(s.prf, c.phy, Written(c, s, past + [a]))
         == var w := P.WriteAll(s.prf, c.phy, Written(c, s, past));
            if s.live[a.p].op.required then P.WriteBack(w, c.phy, s.live[a.p].pr, Value(c, s.live[a.p])) else w
  {
    hide Wrap, Loaded, Config.OpOk, Value;
    PortsFit(c, s, past);
    PortsFit(c, s, past + [a]);
    OneMore(c, s, past, a);
    var idxs, wbs := Reported(s, past), Written(c, s, past);
    assert (idxs + [s.live[a.p].rob])[..|idxs|] == idxs;
    assert (wbs + [P.WbPort(s.live[a.p].pr, Value(c, s.live[a.p]))])[..|wbs|] == wbs;
  }

  lemma ResolveMove(c: Config, s: Core, past: seq<Act>, a: Act)
    requires Sized(c, s) && NextMove(c, s, past, a) && a.Done? && s.live[a.p].op.isBranch
    requires Resolved(s, past) == {} && |s.live[a.p].tag| == 1
    requires var push := Pushed(c, s, past);
             push.PushOne? ==> !s.sb.table[s.sb.alloc].busy && |push.tag| <= 1 && (push.isSpec ==> push.tag != {})
    ensures Sources(s, past + [a])
    ensures var u := Moves(c, s, past);
            Enabled(c, u, Resolve(a.p)) && DoResolve(c, u, a.p) == Moves(c, s, past + [a])
  {
    hide Wrap, Loaded, Targets, Woken, Resolved, Leaves, Into, Config.OpOk, BranchTarget, Pushed, MaskRec,
         LiveAfter, S.Cycle, S.Resolve, K.Resolve, Wake, Sized, Records.Resolve, B.FinishAll, B.Finish, P.WriteAll, P.WriteBack,
         Value, Reported, Written;
    MoverIs(c, s, past, a);
    OneMore(c, s, past, a);
    ResolvePlaces(c, s, past, a);
    PortsFit(c, s, past + [a]);
    OneMoreReport(c, s, past, a);
    ResolveBeside(s.sb, c.sbDepth, Pushed(c, s, past), s.live[a.p].tag) by { BufferSized(c, s); }
  }

  lemma BufferSized(c: Config, s: Core)
    requires Sized(c, s)
    ensures s.sb.Sized(c.sbDepth)
  {
  }

  lemma AccessMove(c: Config, s: Core, past: seq<Act>, a: Act)
    requires Sized(c, s) && NextMove(c, s, past, a) && IsAccess(c, a) && Pushed(c, s, past) == S.NoPush
    requires var r := s.live[a.p]; |r.tag| <= 1 && (r.isSpec ==> r.tag != {})
    requires |Resolved(s, past)| <= 1
    ensures Sources(s, past + [a])
    ensures var u := Moves(c, s, past);
            CanAccess(c, u, a.p, a.q) && DoAccess(c, u, a.p, a.q) == Moves(c, s, past + [a])
  {
    hide Wrap, Loaded, Targets, Woken, Resolved, Leaves, Into, Config.OpOk, BranchTarget, Pushed, MaskRec, Unmasked,
         LiveAfter, S.Cycle, S.Resolve, Sized, S.IsFull, S.Push, WordAddr;
    MoverIs(c, s, past, a);
    OneMore(c, s, past, a);
    GoPlaces(c, s, past, a);
    var u, tag, r := Moves(c, s, past), Resolved(s, past), s.live[a.p];
    UnmaskedSame(r, tag);
    NoPushCycle(c, s, tag);
    AddrFits(c, s, r);
    MaskedLookup(c, s, u, AccessAddr(c, r), tag);
    CarriedMasked(r, tag, Loaded(c, s, AccessAddr(c, r)));
    PushBeside(s.sb, c.sbDepth, r, tag, AccessAddr(c, r),
               c.isa.merge(r.op, Values(r.slots), Loaded(c, s, AccessAddr(c, r)))) by { BufferSized(c, s); }
  }

  lemma AddrFits(c: Config, s: Core, r: Rec)
    requires Sized(c, s)
    ensures AccessAddr(c, r) < |s.mem| && |c.boot.mem| > 0 && s.sb.Sized(c.sbDepth)
  {
  }

  lemma NoPushCycle(c: Config, s: Core, tag: Mask)
    requires Sized(c, s)
    ensures s.sb.Sized(c.sbDepth) && S.Cycle(s.sb, c.sbDepth, S.NoPush, tag, false, false) == MaskedBuffer(c, s, tag)
  {
  }

  lemma CarriedMasked(r: Rec, tag: Mask, word: Word)
    ensures Unmasked(r.(word := word), tag) == Unmasked(r, tag).(word := word)
  {
  }

  // --- all of them ------------------------------------------------------------------------------

  lemma MoveStep(c: Config, s: Core, acts: seq<Act>, n: nat)
    requires Inv(c, s) && Plan(c, s, acts) && n < |acts| && Sources(s, acts[..n]) && Inv(c, Moves(c, s, acts[..n]))
    ensures Sources(s, acts[..n + 1])
    ensures var u := Moves(c, s, acts[..n]);
            acts[n].p in u.live && Enabled(c, u, EventOf(c, u, acts[n]))
            && Next(c, u, EventOf(c, u, acts[n])) == Moves(c, s, acts[..n + 1])
  {
    hide Wrap, Upto, Config.OpOk, Sized, CountsOk, RecordsOk, Loaded, BranchTarget, Ready, AtLastStage, CanIssue, CanHop, Moves,
         Resolved, Pushed, LiveAfter, DoResolve, DoAccess, Report, CanAccess, Starts, Move;
    hide RobOk, TagsOk, PrfCounts, PrfValues, RtOk, ArfOk, OnceOk, OrderOk, LinkOk, BufferOk, MemoryOk, AccessOk, ResolvedOk;
    var past, a, u := acts[..n], acts[n], Moves(c, s, acts[..n]);
    assert acts[..n + 1] == past + [a];
    MoveStarts(c, s, acts, n);
    FirstOfItsKind(c, s, acts, n);
    Started(s, past, a);
    assert ActOk(c, s, a);
    OneBit(c, s, a.p);
    ResolvedBit(c, s, past);
    NoLoad(c, s, a.p);
    if a.Done? {
      if s.live[a.p].op.isBranch {
        PastFits(c, s, acts, n);
        ResolveMove(c, s, past, a);
      } else {
        CompleteMove(c, s, past, a);
      }
    } else if a.p.Row? {
      IssueMove(c, s, past, a);
      IssueStarts(c, u, a.p, a.q);
    } else if a.p.station == c.lsStation {
      AccessMove(c, s, past, a);
      AccessStarts(c, u, a.p, a.q);
    } else {
      HopMove(c, s, past, a);
      HopStarts(c, u, a.p, a.q);
    }
    MoverOp(c, s, past, a);
  }

  lemma PastFits(c: Config, s: Core, acts: seq<Act>, n: nat)
    requires Inv(c, s) && Plan(c, s, acts) && n < |acts| && Sources(s, acts[..n])
    ensures var push := Pushed(c, s, acts[..n]);
            push.PushOne? ==> !s.sb.table[s.sb.alloc].busy && |push.tag| <= 1 && (push.isSpec ==> push.tag != {})
  {
    hide Wrap, Upto, Inv, ActOk, Pushed;
    Counted(c, s);
    forall i | 0 <= i < n ensures acts[i].p in s.live && ActOk(c, s, acts[..n][i]) { assert acts[..n][i] == acts[i]; }
    PushFits(c, s, acts[..n]);
  }

  lemma Started(s: Core, past: seq<Act>, a: Act)
    requires Starts(s, past, a)
    ensures a.p in s.live
  {
  }

  lemma IssueStarts(c: Config, u: Core, p: Place, q: Place)
    requires CanIssue(c, u, p, q)
    ensures p in u.live
  {
  }

  lemma HopStarts(c: Config, u: Core, p: Place, q: Place)
    requires CanHop(c, u, p, q)
    ensures p in u.live
  {
  }

  lemma AccessStarts(c: Config, u: Core, p: Place, q: Place)
    requires Sized(c, u) && CanAccess(c, u, p, q)
    ensures p in u.live
  {
  }

  lemma MoverOp(c: Config, s: Core, past: seq<Act>, a: Act)
    requires Sized(c, s) && Sources(s, past) && Starts(s, past, a) && ActOk(c, s, a)
    ensures a.p in Moves(c, s, past).live && Moves(c, s, past).live[a.p].op == s.live[a.p].op
  {
    hide Wrap, Sized, Loaded, Resolved, LiveAfter, Starts, BranchTarget, MaskRec;
    Started(s, past, a);
    MoverIs(c, s, past, a);
    UnmaskedSame(s.live[a.p], Resolved(s, past));
  }

  /** The events of a list of moves. */
  function EventsOf(c: Config, s: Core, acts: seq<Act>): (events: seq<Event>)
    requires Sources(s, acts)
    ensures |events| == |acts|
  {
    seq(|acts|, i requires 0 <= i < |acts| => EventOf(c, s, acts[i]))
  }

  /** Events in a row from one state to another. */
  ghost predicate Run(c: Config, s: Core, t: Core, events: seq<Event>)
    decreases |events|
  {
    if events == [] then s == t
    else exists before ::
      && Run(c, s, before, events[..|events| - 1])
      && Sized(c, before) && Enabled(c, before, events[|events| - 1])
      && t == Next(c, before, events[|events| - 1])
  }

  lemma RunMore(c: Config, s: Core, t: Core, events: seq<Event>, e: Event)
    requires Run(c, s, t, events) && Sized(c, t) && Enabled(c, t, e)
    ensures Run(c, s, Next(c, t, e), events + [e])
  {
    hide Sized, Enabled, Next;
    var all := events + [e];
    assert all[..|all| - 1] == events && all[|all| - 1] == e;
  }

  lemma NoMoves(c: Config, s: Core)
    requires Sized(c, s)
    ensures Moves(c, s, []) == s
  {
    hide Wrap;
    assert LiveAfter(c, s, []) == s.live;
  }

  lemma {:induction false} MovesAreEvents(c: Config, s: Core, acts: seq<Act>, n: nat)
    requires Inv(c, s) && Plan(c, s, acts) && n <= |acts|
    ensures Sources(s, acts[..n])
    ensures Run(c, s, Moves(c, s, acts[..n]), EventsOf(c, s, acts[..n])) && Inv(c, Moves(c, s, acts[..n]))
    decreases n
  {
    hide Inv, Sized, Enabled, Next, Moves, Plan, Run, LiveAfter, ActOk;
    Counted(c, s);
    if n == 0 {
      assert acts[..0] == [];
      NoMoves(c, s);
      assert EventsOf(c, s, acts[..0]) == [];
      RunNone(c, s);
    } else {
      MovesAreEvents(c, s, acts, n - 1);
      var u, a := Moves(c, s, acts[..n - 1]), acts[n - 1];
      Counted(c, u);
      MoveStep(c, s, acts, n - 1);
      StepKeeps(c, u, EventOf(c, u, a));
      RunMore(c, s, u, EventsOf(c, s, acts[..n - 1]), EventOf(c, u, a));
      MoverAct(c, s, acts, n - 1);
      assert EventsOf(c, s, acts[..n]) == EventsOf(c, s, acts[..n - 1]) + [EventOf(c, u, a)];
    }
  }

  lemma Counted(c: Config, s: Core)
    requires Inv(c, s)
    ensures Sized(c, s)
  {
  }

  lemma RunNone(c: Config, s: Core)
    ensures Run(c, s, s, [])
  {
  }

  lemma MoverAct(c: Config, s: Core, acts: seq<Act>, n: nat)
    requires Sized(c, s) && Plan(c, s, acts) && n < |acts| && Sources(s, acts[..n])
    ensures acts[n].p in s.live && acts[n].p in Moves(c, s, acts[..n]).live
    ensures EventOf(c, Moves(c, s, acts[..n]), acts[n]) == EventOf(c, s, acts[n])
  {
    hide Wrap, Sized, LiveAfter, ActOk, Starts;
    MoveStarts(c, s, acts, n);
    MoverOp(c, s, acts[..n], acts[n]);
  }
}

/**
 What every run of the engine does.

 A run starts from reset and takes any sequence of enabled events. Nothing is assumed of
 the order in which instructions issue, execute, report, retire or drain beyond what the
 events themselves demand.
 */
module Theorems {
  import opened Rings
  import opened Program
  import opened Records
  import opened Engine
  import opened Invariant
  import K = KillMask
  import N = Rename
  import S = Stores
  import C = KeepCommit
  import R = KeepReport
  import V = KeepResolve
  import M = KeepMove
  import A = KeepAccess
  import D = KeepDispatch
  import Q = KeepSquash
  import T = Tags

  /** Reset: every block empty, the register file and memory as the program finds them.
      Contents no valid bit vouches for are arbitrary, the fix table's among them. */
  ghost predicate Reset(c: Config, s: Core)
  {
    && Sized(c, s)
    && s.rob.alloc == s.rob.com == s.rob.used == 0
    && s.tags.free == c.tags - 1 && s.tags.next == {0}
    && s.prf.free == c.phy && s.prf.next == 0
    && (forall r | 0 <= r < |s.rt.master| :: !s.rt.master[r].renamed)
    && s.arf == c.boot.regs && s.mem == c.boot.mem && s.fetchPc == c.boot.pc
    && s.live == map[]
    && s.sb.alloc == s.sb.com == s.sb.ret == 0 && (forall i | 0 <= i < c.sbDepth :: !s.sb.table[i].busy)
    && s.path == [] && s.link == [] && s.ret == s.res == s.buffered == s.written == 0
  }

  /** Empty tables of the right widths are a reset state. */
  lemma Booted(c: Config, s: Core)
    requires c.Valid()
    requires s.rob.Sized(c.depth) && s.prf.Sized(c.phy) && s.rt.Sized(|c.boot.regs|, c.tags) && s.sb.Sized(c.sbDepth)
    requires |s.mpft| == c.tags
    requires s.rob.alloc == s.rob.com == s.rob.used == 0 && forall i | 0 <= i < c.depth :: s.rob.table[i].ar == s.rob.table[i].pr == 0
    requires s.tags == T.TagState(c.tags - 1, {0}) && s.prf.free == c.phy && s.prf.next == 0
    requires forall r | 0 <= r < |s.rt.master| :: s.rt.master[r] == N.RtEntry(false, 0)
    requires forall t, r | 0 <= t < c.tags && 0 <= r < |c.boot.regs| :: s.rt.planes[t][r].prf == 0
    requires s.arf == c.boot.regs && s.mem == c.boot.mem && s.fetchPc == c.boot.pc && s.live == map[]
    requires s.sb.alloc == s.sb.com == s.sb.ret == 0 && forall i | 0 <= i < c.sbDepth :: !s.sb.table[i].busy && s.sb.table[i].addr == 0
    requires s.path == [] && s.link == [] && s.ret == s.res == s.buffered == s.written == 0
    ensures Reset(c, s)
  {
    assert c.OpOk(c.isa.prog(0));
  }

  lemma ResetInv(c: Config, s: Core)
    requires Reset(c, s)
    ensures Inv(c, s)
  {
    hide Config.OpOk;
    assert Wrap(0, c.depth) == 0 && Wrap(0, c.phy) == 0 && Wrap(0, c.tags) == 0 && Wrap(0, c.sbDepth) == 0;
  }

  /** s is reached from the reset state z by the events, in order. */
  ghost predicate Reaches(c: Config, z: Core, s: Core, events: seq<Event>)
    decreases |events|
  {
    if events == [] then Reset(c, z) && s == z
    else exists before ::
      && Reaches(c, z, before, events[..|events| - 1])
      && Sized(c, before) && Enabled(c, before, events[|events| - 1])
      && s == Next(c, before, events[|events| - 1])
  }

  lemma StepKeeps(c: Config, s: Core, e: Event)
    requires Inv(c, s) && Enabled(c, s, e)
    ensures Inv(c, Next(c, s, e))
  {
    hide Consistent, ResolvedOk, Sized;
    match e
    case Commit => C.CommitKeeps(c, s);
    case Complete(p) => R.CompleteKeeps(c, s, p);
    case Resolve(p) => V.ResolveKeeps(c, s, p);
    case MisPredict(p) => Q.MisPredictKeeps(c, s, p);
    case Issue(p, q) => M.IssueKeeps(c, s, p, q);
    case Hop(p, q) => M.HopKeeps(c, s, p, q);
    case Access(p, q) => A.AccessKeeps(c, s, p, q);
    case Dispatch(row) => D.DispatchKeeps(c, s, row);
    case EmptyLane => D.EmptyLaneKeeps(c, s);
    case Drain => A.DrainKeeps(c, s);
  }

  lemma {:induction false} RunKeeps(c: Config, z: Core, s: Core, events: seq<Event>)
    requires Reaches(c, z, s, events)
    ensures Inv(c, s)
    decreases |events|
  {
    hide Inv;
    if events == [] {
      ResetInv(c, s);
    } else {
      var last := events[|events| - 1];
      var before :| Reaches(c, z, before, events[..|events| - 1])
                    && Sized(c, before) && Enabled(c, before, last) && s == Next(c, before, last);
      RunKeeps(c, z, before, events[..|events| - 1]);
      StepKeeps(c, before, last);
    }
  }
}

/** Every program can be run to any length, and the machine then holds exactly what the
    sequential one does. */
module Runs {
  import opened Rings
  import opened Program
  import opened Records
  import opened Engine
  import opened Invariant
  import opened Theorems
  import opened Progress
  import B = Reorder
  import N = Rename
  import P = Physical
  import S = Stores
  import T = Tags
  import O = Occupancy
  import Results

  /** A reset state for every configuration. */
  ghost function Blank(c: Config): Core
    requires c.Valid()
  {
    Core(B.AtReset(c.depth), T.TagState(c.tags - 1, {0}), seq(c.tags, _ => {}),
         P.PrfState(seq(c.phy, _ => false), seq(c.phy, _ => 0), c.phy, 0),
         N.AtReset(|c.boot.regs|, c.tags), c.boot.regs, map[], S.AtReset(c.sbDepth), c.boot.mem, c.boot.pc,
         [], [], 0, 0, 0, 0)
  }

  lemma BlankIsReset(c: Config)
    requires c.Valid()
    ensures Reset(c, Blank(c))
  {
    hide Sized, Reset;
    Booted(c, Blank(c));
  }

  /** Nothing in flight, nothing waiting for memory. */
  predicate AtRest(s: Core) { s.ret == |s.path| && s.written == s.buffered }

  lemma RestIsEmpty(c: Config, s: Core)
    requires Inv(c, s) && AtRest(s)
    ensures Sized(c, s) && s.live == map[] && CanDispatch(c, s, 0)
  {
    hide Wrap, Upto, RecordsOk, PrfValues, RtOk, ArfOk, OnceOk, OrderOk, LinkOk, BufferOk, MemoryOk, AccessOk, ResolvedOk, Config.OpOk;
    forall p | p in s.live ensures s.ret <= s.live[p].n < |s.path| { Results.InFlightRecord(c, s, p); }
    assert s.live.Keys == {};
  }

  /** From rest, one more instruction can be dispatched and brought to rest. */
  lemma OneMoreRetires(c: Config, z: Core, s: Core, events: seq<Event>) returns (more: seq<Event>, t: Core)
    requires Reaches(c, z, s, events) && AtRest(s)
    ensures Reaches(c, z, t, events + more) && AtRest(t) && t.ret == s.ret + 1
  {
    hide Inv, Sized, CanDispatch, Reaches, Measure, DoDispatch;
    RunKeeps(c, z, s, events);
    RestIsEmpty(c, s);
    ReachesNext(c, z, s, events, Dispatch(0));
    assert |Next(c, s, Dispatch(0)).path| == s.ret + 1 && Next(c, s, Dispatch(0)).ret == s.ret by { Dispatched(c, s); }
    var rest, u := ComesToRest(c, z, Next(c, s, Dispatch(0)), events + [Dispatch(0)]);
    more, t := [Dispatch(0)] + rest, u;
    assert events + more == events + [Dispatch(0)] + rest;
  }

  lemma Dispatched(c: Config, s: Core)
    requires Sized(c, s) && CanDispatch(c, s, 0)
    ensures |DoDispatch(c, s, 0).path| == |s.path| + 1 && DoDispatch(c, s, 0).ret == s.ret
  {
    hide Wrap;
  }

  /** For every program and every length, some run retires exactly that many instructions
      and comes to rest. */
  lemma {:induction false} RetiresAny(c: Config, n: nat) returns (events: seq<Event>, s: Core)
    requires c.Valid()
    ensures Reaches(c, Blank(c), s, events) && AtRest(s) && s.ret == n
  {
    hide Reset, Blank;
    if n == 0 {
      events, s := [], Blank(c);
      BlankIsReset(c);
      assert AtRest(s) && s.ret == 0 by { BlankRests(c); }
    } else {
      var before, u := RetiresAny(c, n - 1);
      var more;
      more, s := OneMoreRetires(c, Blank(c), u, before);
      events := before + more;
    }
  }

  lemma BlankRests(c: Config)
    requires c.Valid()
    ensures AtRest(Blank(c)) && Blank(c).ret == 0
  {
  }

  /** At rest, every register and every word of memory is the sequential machine's. */
  lemma RestIsSequential(c: Config, z: Core, s: Core, events: seq<Event>)
    requires Reaches(c, z, s, events) && AtRest(s)
    ensures c.Valid() && s.arf == Sequential(c, s.ret).regs && s.mem == Sequential(c, s.ret).mem
  {
    hide Reaches, Sequential, Wrap, Upto, Inv;
    RunKeeps(c, z, s, events);
    RestIsEmpty(c, s);
    Results.SequentialRefinement(c, z, s, events);
    O.BufferIsOneRun(c, z, s, events);
    var m := Results.MemoryRefinement(c, z, s, events);
  }

  /** There are configurations to run: here the sizes of the shipped RV32IM core, over a
      program of one instruction repeated. */
  lemma SomeConfig() returns (c: Config)
    ensures c.Valid() && c.depth == 32 && c.phy == 64 && c.tags == 5 && c.sbDepth == 32 && c.lanes == c.commitLanes == 2
    ensures |c.boot.regs| == 32 && |c.boot.mem| == 1024 && c.consts == map[0 := 0]
  {
    var op := Op(0, false, false, false, 0, [Reg(1), Imm(1)], true, true, 1);
    var isa := Isa((pc: int) => op, (o: Op, pc: int, v: seq<Word>, w: Word) => w + 1, (o: Op, pc: int, v: seq<Word>) => pc,
                   (o: Op, v: seq<Word>) => 0, (o: Op, v: seq<Word>, w: Word) => w);
    c := Config(isa, 4, map[0 := 0], Arch(0, seq(32, _ => 0), seq(1024, _ => 0)), 32, 64, 5, 32, 2, 2, 2, 1, {1, 2, 3},
                (st: nat) => if st == 0 then 16 else 8,
                (st: nat, u: nat, id: nat) => u == 0 || (st == 0 && u == 1),
                (st: nat, u: nat) => if st == 1 then 1 else 0, (st: nat) => if st == 1 then 1 else 0);
    assert c.runs(0, 0, 0);
  }
}

/**
 The front end: a banked instruction memory that answers some of its readers each cycle,
 and the fetch stage that neither skips nor repeats a word because of it.
 */
module Fetch {
  import opened Rings

  type Instr = int

  // --- the banked memory --------------------------------------------------------------------

  /** What a read port is bound to: its bank is part of the address. */
  datatype Port = Port(bank: nat, index: nat)

  /** The contents: one sequence of rows a bank. */
  type Banks = seq<seq<Instr>>

  ghost predicate Shaped(banks: Banks, rows: nat)
  {
    |banks| > 0 && rows > 0 && forall b | 0 <= b < |banks| :: |banks[b]| == rows
  }

  predicate PortsFit(ports: seq<Port>, bankCnt: nat, rows: nat)
  {
    forall p | 0 <= p < |ports| :: ports[p].bank < bankCnt && ports[p].index < rows
  }

  /** Nobody before p named p's bank. */
  predicate FirstOnBank(ports: seq<Port>, p: nat)
    requires p < |ports|
  {
    forall o | 0 <= o < p :: ports[o].bank != ports[p].bank
  }

  /** A bank's read port takes the index of the lowest-numbered reader that named it: the
      chain is built from the last port back, so the first one is the outermost mux. */
  method DriveReadIndex(ports: seq<Port>, bank: nat) returns (chosen: nat)
    requires ports != []
    ensures chosen in set p | 0 <= p < |ports| :: ports[p].index
    ensures forall p | 0 <= p < |ports| && ports[p].bank == bank && FirstOnBank(ports, p) :: chosen == ports[p].index
  {
    chosen := ports[|ports| - 1].index;
    var i := |ports| - 1;
    while i > 0
      invariant 0 <= i < |ports| && exists p :: 0 <= p < |ports| && chosen == ports[p].index
      invariant forall p | i <= p < |ports| && ports[p].bank == bank && (forall o | i <= o < p :: ports[o].bank != bank) ::
                  chosen == ports[p].index
    {
      i := i - 1;
      if ports[i].bank == bank { chosen := ports[i].index; }
    }
  }

  /** The port reads back the bank it named. */
  method PickBank(data: seq<Instr>, bank: nat) returns (picked: Instr)
    requires bank < |data|
    ensures picked == data[bank]
  {
    picked := data[0];
    for b := 1 to |data|
      invariant picked == if bank < b then data[bank] else data[0]
    {
      if bank == b { picked := data[b]; }
    }
  }

  /** One cycle of reads: a port with `valid` set has the word at its own bank and index,
      and it is set for exactly the first port on each bank. */
  method ReadAll(banks: Banks, rows: nat, ports: seq<Port>) returns (data: seq<Instr>, valid: seq<bool>)
    requires Shaped(banks, rows) && PortsFit(ports, |banks|, rows)
    ensures |data| == |valid| == |ports|
    ensures forall p | 0 <= p < |ports| :: valid[p] == FirstOnBank(ports, p)
    ensures forall p | 0 <= p < |ports| && valid[p] :: data[p] == banks[ports[p].bank][ports[p].index]
  {
    data, valid := [], [];
    if ports == [] { return; }
    var bankData: seq<Instr> := [];
    for b := 0 to |banks|
      invariant |bankData| == b
      invariant forall c, p | 0 <= c < b && 0 <= p < |ports| && ports[p].bank == c && FirstOnBank(ports, p) ::
                  bankData[c] == banks[c][ports[p].index]
    {
      var chosen := DriveReadIndex(ports, b);
      bankData := bankData + [banks[b][chosen]];
    }
    for p := 0 to |ports|
      invariant |data| == |valid| == p
      invariant forall q | 0 <= q < p :: valid[q] == FirstOnBank(ports, q)
      invariant forall q | 0 <= q < p && valid[q] :: data[q] == banks[ports[q].bank][ports[q].index]
    {
      var picked := PickBank(bankData, ports[p].bank);
      var blocked := false;
      for o := 0 to p
        invariant blocked <==> exists x :: 0 <= x < o && ports[x].bank == ports[p].bank
      {
        blocked := blocked || ports[o].bank == ports[p].bank;
      }
      data, valid := data + [picked], valid + [!blocked];
    }
  }

  // --- how a byte address names a row ----------------------------------------------------------

  /** The regions stack up from the low end: bytes of a word, then the bank, then the row. */
  function PortFor(addr: nat, ilen: nat, bankCnt: nat, rows: nat): (p: Port)
    requires ilen > 0 && bankCnt > 0 && rows > 0
    ensures p.bank < bankCnt && p.index < rows
  {
    Port(Wrap(addr / ilen, bankCnt), Wrap(addr / ilen / bankCnt, rows))
  }

  /** Inside the memory the regions are the word's own number, cut in two: no two words share
      a row of a bank, and none is left without one. */
  lemma PortIsWord(addr: nat, ilen: nat, bankCnt: nat, rows: nat)
    requires ilen > 0 && bankCnt > 0 && rows > 0 && addr / ilen < bankCnt * rows
    ensures PortFor(addr, ilen, bankCnt, rows).index * bankCnt + PortFor(addr, ilen, bankCnt, rows).bank == addr / ilen
  {
    hide Wrap;
    var word := addr / ilen;
    var laps := WrapIsRemainder(word, bankCnt);
    QuotientIs(word, bankCnt, laps, Wrap(word, bankCnt));
    if laps >= rows { MoreLaps(laps, rows, bankCnt); }
    assert Wrap(laps, rows) == laps by { WrapsNot(laps, rows); }
  }

  lemma MoreLaps(laps: nat, rows: nat, size: nat)
    requires laps >= rows
    ensures laps * size >= size * rows
  {
  }

  lemma WrapsNot(k: nat, size: nat)
    requires k < size
    ensures Wrap(k, size) == k
  {
  }

  lemma WrapsOnce(k: nat, d: nat, size: nat)
    requires k < size && d <= size
    ensures Wrap(k + d, size) == if k + d < size then k + d else k + d - size
  {
  }

  ghost function WordAt(banks: Banks, rows: nat, ilen: nat, addr: nat): Instr
    requires Shaped(banks, rows) && ilen > 0
  {
    var p := PortFor(addr, ilen, |banks|, rows);
    banks[p.bank][p.index]
  }

  // --- keeping only a leading run ----------------------------------------------------------------

  /** A lane is kept only if it and every lower lane answered. */
  method KeepLeadingRun(answered: seq<bool>) returns (run: seq<bool>)
    ensures |run| == |answered|
    ensures forall i | 0 <= i < |run| :: run[i] <==> forall j | 0 <= j <= i :: answered[j]
  {
    run := [];
    var soFar := true;
    for i := 0 to |answered|
      invariant |run| == i && (soFar <==> forall j | 0 <= j < i :: answered[j])
      invariant forall k | 0 <= k < i :: run[k] <==> forall j | 0 <= j <= k :: answered[j]
    {
      soFar := soFar && answered[i];
      run := run + [soFar];
    }
  }

  /** A leading run counts to where it ends. */
  lemma {:induction false} RunCount(run: seq<bool>)
    requires forall i, j | 0 <= i < j < |run| && run[j] :: run[i]
    ensures forall i | 0 <= i < |run| :: run[i] <==> i < PopCount(run)
  {
    if run != [] {
      var last := |run| - 1;
      RunCount(run[..last]);
      if run[last] && last > 0 { assert run[..last][last - 1]; }
    }
  }

  /** How many lanes are kept: up to the first that did not answer. */
  method CountKept(answered: seq<bool>) returns (step: nat)
    ensures step <= |answered| && (forall k | 0 <= k < step :: answered[k]) && (step < |answered| ==> !answered[step])
  {
    hide PopCount;
    var taken := KeepLeadingRun(answered);
    RunCount(taken);
    step := PopCount(taken);
    forall k | 0 <= k < step ensures answered[k] { assert taken[k]; }
    if step < |answered| {
      assert !taken[step];
      assert forall j | 0 <= j < step :: taken[j] && answered[j];
    }
  }

  // --- the stage -----------------------------------------------------------------------------------

  datatype Row = Row(pc: nat, instr: Instr, valid: bool)

  /** `span` is how many addresses the pc register holds. */
  class FetchStage {
    const ilen: nat
    const span: nat
    const banks: Banks
    const rows: nat
    const lanes: nat
    var pc: nat
    var fetch: seq<Row>

    /** Where fetching last started, and the words captured since. */
    ghost var start: nat
    ghost var captured: seq<Row>

    /** The address k words past `base`. */
    function Ahead(base: nat, k: nat): (a: nat)
      requires span > 0
      ensures a < span
    {
      Wrap(base + ilen * k, span)
    }

    ghost predicate Valid()
      reads this
    {
      && Shaped(banks, rows) && 0 < ilen <= span && lanes > 0 && start < span && |fetch| == lanes
      && pc == Ahead(start, |captured|)
      && forall i | 0 <= i < |captured| ::
           captured[i].pc == Ahead(start, i) && captured[i].instr == WordAt(banks, rows, ilen, captured[i].pc)
    }

    constructor (ilen: nat, span: nat, banks: Banks, rows: nat, lanes: nat, reset_pc: nat)
      requires Shaped(banks, rows) && 0 < ilen <= span && lanes > 0 && reset_pc < span
      ensures Valid() && pc == start == reset_pc && captured == []
      ensures this.ilen == ilen && this.span == span && this.banks == banks && this.rows == rows && this.lanes == lanes
    {
      this.ilen, this.span, this.banks, this.rows, this.lanes := ilen, span, banks, rows, lanes;
      pc, start, captured := reset_pc, reset_pc, [];
      fetch := seq(lanes, _ => Row(0, 0, false));
      new;
      assert Wrap(reset_pc, span) == reset_pc;
    }

    /** A squash empties the stage and sends it to the corrected pc. */
    method OnMisPred(new_pc: nat)
      requires Valid() && new_pc < span
      modifies this
      ensures Valid() && pc == start == new_pc && captured == [] && forall k | 0 <= k < lanes :: !fetch[k].valid
    {
      pc, start, captured := new_pc, new_pc, [];
      fetch := seq(lanes, _ => Row(0, 0, false));
      assert Wrap(new_pc, span) == new_pc;
    }

    /** One word on is one instruction length on, round the end of the address space. */
    lemma AheadStep(base: nat, k: nat)
      requires base < span && 0 < ilen <= span
      ensures Ahead(base, 0) == base
      ensures var a := Ahead(base, k); Ahead(base, k + 1) == if a + ilen < span then a + ilen else a + ilen - span
    {
      hide Wrap;
      WrapAdd(base + ilen * k, ilen, span);
      Distribute(ilen, k, 1);
      WrapsNot(base, span);
      WrapsOnce(Ahead(base, k), ilen, span);
    }

    /** The next word's address, round the end of the address space. */
    function After(a: nat): int { if a + ilen < span then a + ilen else a + ilen - span }

    /** Rows from `base` on, one word after another. */
    lemma Follow(base: nat, rows: seq<Row>)
      requires base < span && 0 < ilen <= span && forall k | 0 <= k < |rows| :: rows[k].pc == Ahead(base, k)
      ensures forall k | 0 < k < |rows| :: rows[k].pc == After(rows[k - 1].pc)
      ensures if rows == [] then Ahead(base, 0) == base
              else rows[0].pc == base && Ahead(base, |rows|) == After(rows[|rows| - 1].pc)
    {
      hide Ahead;
      AheadStep(base, 0);
      forall k | 0 < k <= |rows| ensures Ahead(base, k) == After(rows[k - 1].pc) { AheadStep(base, k - 1); }
    }

    /** The words captured since the last redirect start where it went and follow one another,
        and the pc is where the next one is. */
    lemma Consecutive()
      requires Valid()
      ensures if captured == [] then pc == start else captured[0].pc == start && pc == After(captured[|captured| - 1].pc)
      ensures forall i | 0 < i < |captured| :: captured[i].pc == After(captured[i - 1].pc)
      ensures forall a: nat :: After(a) == if a + ilen < span then a + ilen else a + ilen - span
    {
      hide Ahead, WordAt;
      Follow(start, captured);
    }

    /** Each lane names the word it wants: the first the one at the pc, each next one the next. */
    method BindAddresses() returns (ports: seq<Port>, pcs: seq<nat>)
      requires Valid()
      ensures |ports| == |pcs| == lanes && PortsFit(ports, |banks|, rows)
      ensures forall k | 0 <= k < lanes :: pcs[k] == Ahead(pc, k) && ports[k] == PortFor(pcs[k], ilen, |banks|, rows)
      ensures pcs[0] == pc
      ensures forall k | 0 < k < lanes :: pcs[k] == if pcs[k - 1] + ilen < span then pcs[k - 1] + ilen else pcs[k - 1] + ilen - span
    {
      hide Ahead;
      assert pc < span;
      AheadStep(pc, 0);
      ports, pcs := [], [];
      for lane := 0 to lanes
        invariant |ports| == |pcs| == lane && PortsFit(ports, |banks|, rows)
        invariant forall k | 0 <= k < lane :: pcs[k] == Ahead(pc, k) && ports[k] == PortFor(pcs[k], ilen, |banks|, rows)
      {
        var addr := Ahead(pc, lane);
        pcs, ports := pcs + [addr], ports + [PortFor(addr, ilen, |banks|, rows)];
      }
      forall k | 0 < k < lanes ensures pcs[k] == if pcs[k - 1] + ilen < span then pcs[k - 1] + ilen else pcs[k - 1] + ilen - span {
        AheadStep(pc, k - 1);
      }
    }

    /** Past k more words than have been captured. */
    lemma PcAhead(k: nat)
      requires Valid()
      ensures Ahead(pc, k) == Ahead(start, |captured| + k)
    {
      hide Wrap;
      WrapAdd(start + ilen * |captured|, ilen * k, span);
      Distribute(ilen, |captured|, k);
    }

    /** The kept lanes are captured, and the pc moves past them. */
    method Capture(pcs: seq<nat>, data: seq<Instr>, step: nat)
      requires Valid() && |pcs| == |data| == lanes && step <= lanes
      requires forall k | 0 <= k < lanes :: pcs[k] == Ahead(pc, k)
      requires forall k | 0 <= k < step :: data[k] == WordAt(banks, rows, ilen, pcs[k])
      modifies this
      ensures Valid() && start == old(start)
      ensures |captured| == |old(captured)| + step && captured[..|old(captured)|] == old(captured)
      ensures forall k | 0 <= k < lanes :: fetch[k].valid == (k < step) && fetch[k].pc == pcs[k]
      ensures forall k | 0 <= k < step :: captured[|old(captured)| + k] == fetch[k]
      ensures pc == Ahead(old(pc), step)
    {
      hide WordAt, Ahead;
      forall k | 0 <= k <= step ensures Ahead(pc, k) == Ahead(start, |captured| + k) { PcAhead(k); }
      fetch := seq(lanes, k requires 0 <= k < lanes == |pcs| == |data| => Row(pcs[k], data[k], k < step));
      pc := Ahead(pc, step);
      ghost var n := |captured|;
      captured := captured + fetch[..step];
      forall i | n <= i < n + step
        ensures captured[i].pc == Ahead(start, i) && captured[i].instr == WordAt(banks, rows, ilen, captured[i].pc)
      {
        assert captured[i] == fetch[i - n] && n + (i - n) == i;
      }
    }

    /** A granted cycle, whichever ports answered: the leading run of answers is captured, from
        the pc on and word after word, and the pc moves past exactly that run. A port that
        answers has its own word. */
    method Transfer(data: seq<Instr>, answered: seq<bool>) returns (step: nat)
      requires Valid() && |data| == |answered| == lanes
      requires forall k | 0 <= k < lanes && answered[k] :: data[k] == WordAt(banks, rows, ilen, Ahead(pc, k))
      modifies this
      ensures Valid() && start == old(start) && step <= lanes
      ensures |captured| == |old(captured)| + step && captured[..|old(captured)|] == old(captured)
      ensures forall k | 0 <= k < lanes :: fetch[k].valid == (k < step)
      ensures (forall k | 0 <= k < step :: answered[k]) && (step < lanes ==> !answered[step])
      ensures forall k | 0 <= k < step :: captured[|old(captured)| + k] == fetch[k]
      ensures if step == 0 then pc == old(pc) else fetch[0].pc == old(pc) && pc == After(fetch[step - 1].pc)
      ensures forall k | 0 < k < step :: fetch[k].pc == After(fetch[k - 1].pc)
    {
      hide Ahead, WordAt, After;
      step := CountKept(answered);
      var pcs := seq(lanes, k requires 0 <= k < lanes && Valid() reads this => Ahead(pc, k));
      ghost var was := pc;
      Capture(pcs, data, step);
      ghost var run := fetch[..step];
      Follow(was, run);
      forall k | 0 < k < step ensures fetch[k].pc == After(fetch[k - 1].pc) { assert run[k] == fetch[k] && run[k - 1] == fetch[k - 1]; }
    }

    /** A cycle against the banked memory: at least the first lane is always answered. */
    method FetchCycle() returns (step: nat)
      requires Valid()
      modifies this
      ensures Valid() && start == old(start) && 1 <= step <= lanes
      ensures |captured| == |old(captured)| + step && captured[..|old(captured)|] == old(captured)
      ensures forall k | 0 <= k < lanes :: fetch[k].valid == (k < step)
      ensures forall k | 0 <= k < step :: captured[|old(captured)| + k] == fetch[k]
      ensures fetch[0].pc == old(pc) && pc == After(fetch[step - 1].pc)
      ensures forall k | 0 < k < step :: fetch[k].pc == After(fetch[k - 1].pc)
    {
      hide PopCount, Ahead, PortFor, After;
      var ports, pcs := BindAddresses();
      var data, answered := ReadAll(banks, rows, ports);
      assert FirstOnBank(ports, 0);
      step := Transfer(data, answered);
      assert answered[0] && 0 < step;
    }
  }

  lemma Distribute(x: int, y: int, z: int)
    ensures x * y + x * z == x * (y + z)
  {
  }

  // --- a bank for every lane ----------------------------------------------------------------------------

  lemma WordStep(pc: nat, lane: nat, ilen: nat)
    requires ilen > 0
    ensures (pc + ilen * lane) / ilen == pc / ilen + lane
  {
    var q, r := pc / ilen, pc % ilen;
    QuotientIs(pc + ilen * lane, ilen, q + lane, r) by { Distribute(ilen, q, lane); }
  }

  lemma QuotientIs(a: int, p: nat, q: int, r: nat)
    requires p > 0 && a == p * q + r && r < p
    ensures a / p == q
  {
    var d := a / p - q;
    assert p * d == r - a % p by { assert p * d == p * (a / p) - p * q; }
    assert d >= 1 ==> p * d >= p;
    assert d <= -1 ==> p * d <= p * -1;
  }

  lemma {:induction false} WholeLaps(k: nat, size: nat, laps: nat)
    requires size > 0
    ensures Wrap(k + size * laps, size) == Wrap(k, size)
    decreases laps
  {
    if laps > 0 {
      WholeLaps(k, size, laps - 1);
      assert k + size * laps == k + size * (laps - 1) + size;
    }
  }

  /** The address space is a whole number of turns round the banks. */
  ghost predicate Turns(span: nat, ilen: nat, bankCnt: nat, laps: nat)
  {
    span > 0 && ilen > 0 && bankCnt > 0 && span == ilen * (bankCnt * laps)
  }

  lemma {:induction false} WrapKeepsBank(addr: nat, ilen: nat, bankCnt: nat, laps: nat, span: nat)
    requires Turns(span, ilen, bankCnt, laps)
    ensures Wrap(Wrap(addr, span) / ilen, bankCnt) == Wrap(addr / ilen, bankCnt)
    decreases addr
  {
    if addr >= span {
      WrapKeepsBank(addr - span, ilen, bankCnt, laps, span);
      OneSpan(addr, ilen, bankCnt, laps, span);
    }
  }

  lemma OneSpan(addr: nat, ilen: nat, bankCnt: nat, laps: nat, span: nat)
    requires Turns(span, ilen, bankCnt, laps) && addr >= span
    ensures Wrap((addr - span) / ilen, bankCnt) == Wrap(addr / ilen, bankCnt)
  {
    hide Wrap;
    WordStep(addr - span, bankCnt * laps, ilen);
    WholeLaps((addr - span) / ilen, bankCnt, laps);
  }

  /** Consecutive words are on consecutive banks, across the end of the address space too. */
  lemma LaneBank(addr: nat, word: nat, pc: nat, lane: nat, ilen: nat, bankCnt: nat, rows: nat, laps: nat, span: nat)
    requires Turns(span, ilen, bankCnt, laps) && rows > 0 && addr == pc + ilen * lane && word == pc / ilen
    ensures PortFor(Wrap(addr, span), ilen, bankCnt, rows).bank == Wrap(word + lane, bankCnt)
  {
    hide Wrap;
    WordStep(pc, lane, ilen);
    WrapKeepsBank(addr, ilen, bankCnt, laps, span);
  }

  /** With at least one bank a lane, every lane is answered in every cycle. */
  lemma EveryLaneAnswered(pc: nat, ilen: nat, bankCnt: nat, rows: nat, laps: nat, span: nat, ports: seq<Port>)
    requires Turns(span, ilen, bankCnt, laps) && rows > 0 && |ports| <= bankCnt
    requires forall k | 0 <= k < |ports| :: ports[k] == PortFor(Wrap(pc + ilen * k, span), ilen, bankCnt, rows)
    ensures forall k | 0 <= k < |ports| :: FirstOnBank(ports, k)
  {
    var word := pc / ilen;
    hide Wrap, PortFor, Turns;
    forall o, k | 0 <= o < k < |ports| ensures ports[o].bank != ports[k].bank {
      LaneBank(pc + ilen * o, word, pc, o, ilen, bankCnt, rows, laps, span);
      LaneBank(pc + ilen * k, word, pc, k, ilen, bankCnt, rows, laps, span);
      if ports[o].bank == ports[k].bank { Apart(word + o, word + k, bankCnt); }
    }
  }
}

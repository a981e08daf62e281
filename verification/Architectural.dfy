/** The committed register file of one class. */
module Architectural {
  import opened Rings
  import opened Program

  datatype ArfPort = ArfPort(ar: nat, value: Word)

  /** A retiring write; a hardwired register discards it. */
  function Write(regs: seq<Word>, consts: map<nat, Word>, port: ArfPort): (r: seq<Word>)
    requires port.ar < |regs|
    ensures |r| == |regs|
  {
    if port.ar in consts then regs else regs[port.ar := port.value]
  }

  /** What a reader of the view sees: a hardwired register answers its own constant. */
  function Read(regs: seq<Word>, consts: map<nat, Word>, ar: nat): Word
    requires ar < |regs|
  {
    if ar in consts then consts[ar] else regs[ar]
  }

  /** The writes of one cycle, the later lane winning. */
  function WriteAll(regs: seq<Word>, consts: map<nat, Word>, ports: seq<ArfPort>): (r: seq<Word>)
    requires forall i | 0 <= i < |ports| :: ports[i].ar < |regs|
    ensures |r| == |regs|
  {
    if ports == [] then regs
    else Write(WriteAll(regs, consts, ports[..|ports| - 1]), consts, ports[|ports| - 1])
  }

  class Arf {
    const consts: map<nat, Word>
    const storage: array<Word>

    constructor (regs: seq<Word>, consts: map<nat, Word>)
      ensures fresh(storage) && storage[..] == regs && this.consts == consts
    {
      this.consts := consts;
      storage := new Word[|regs|](i requires 0 <= i < |regs| => regs[i]);
    }

    /** The read view: storage, with this cycle's commits already in. */
    method ReadLane(ports: seq<ArfPort>) returns (read_lane: seq<Word>)
      requires forall i | 0 <= i < |ports| :: ports[i].ar < storage.Length
      ensures read_lane == WriteAll(storage[..], consts, ports)
    {
      read_lane := storage[..];
      for i := 0 to |ports|
        invariant read_lane == WriteAll(storage[..], consts, ports[..i])
      {
        assert ports[..i + 1][..i] == ports[..i];
        if ports[i].ar !in consts { read_lane := read_lane[ports[i].ar := ports[i].value]; }
      }
      assert ports[..|ports|] == ports;
    }

    method Update(ports: seq<ArfPort>)
      requires forall i | 0 <= i < |ports| :: ports[i].ar < storage.Length
      modifies storage
      ensures storage[..] == WriteAll(old(storage[..]), consts, ports)
    {
      for i := 0 to |ports|
        invariant storage[..] == WriteAll(old(storage[..]), consts, ports[..i])
      {
        assert ports[..i + 1][..i] == ports[..i];
        if ports[i].ar !in consts { storage[ports[i].ar] := ports[i].value; }
      }
      assert ports[..|ports|] == ports;
    }
  }
}

/** The record of one waiting or executing instruction, and where it is. */
module Records {
  import opened Rings
  import opened Program

  /** A row of a reservation station, or a stage of one of its execution units. */
  datatype Place = Row(station: nat, row: nat) | Stage(station: nat, unit: nat, stage: nat)

  /** One operand: `valid` once it holds its value, else it waits for `pr`. */
  datatype Slot = Slot(active: bool, valid: bool, pr: nat, data: Word)

  /** `rob` and `pr` are the reorder-buffer entry and physical register it was given,
      `tag` the speculation it is under, `word` the memory word a memory operation
      picked up. `n` is its number on the dispatched path: a history field that no
      step reads. */
  datatype Rec = Rec(op: Op, pc: int, npc: int, rob: nat, pr: nat, isSpec: bool, tag: Mask,
                     slots: seq<Slot>, word: Word, n: nat)

  /** The rows of a place that hold something are the keys. */
  type Live = map<Place, Rec>

  /** Every source it waits for has landed; a slot it does not fill waits for nothing. */
  predicate Ready(r: Rec)
  {
    forall i | 0 <= i < |r.slots| :: r.slots[i].active ==> r.slots[i].valid
  }

  /** The operand values a unit's body reads: an empty slot contributes nothing. */
  function Values(slots: seq<Slot>): (v: seq<Word>)
    ensures |v| == |slots|
  {
    seq(|slots|, i requires 0 <= i < |slots| => if slots[i].active then slots[i].data else 0)
  }

  predicate SlotHit(s: Slot, pr: nat) { s.active && !s.valid && s.pr == pr }

  function WakeSlots(slots: seq<Slot>, pr: nat, value: Word): (w: seq<Slot>)
    ensures |w| == |slots|
  {
    seq(|slots|, i requires 0 <= i < |slots| =>
      if SlotHit(slots[i], pr) then slots[i].(valid := true, data := value) else slots[i])
  }

  /** A writeback broadcast reaches every station row, and no stage. */
  function Wake(live: Live, pr: nat, value: Word): Live
  {
    map p | p in live :: if p.Row? then live[p].(slots := WakeSlots(live[p].slots, pr, value)) else live[p]
  }

  function MaskRec(r: Rec, tag: Mask): Rec
  {
    if r.isSpec then r.(tag := r.tag - tag, isSpec := r.tag - tag != {}) else r
  }

  /** `tag` resolved right: no record is under it any more. */
  function Resolve(live: Live, tag: Mask): Live
  {
    map p | p in live :: MaskRec(live[p], tag)
  }

  predicate Squashed(r: Rec, fix: Mask)
  {
    r.isSpec && r.tag * fix != {}
  }

  /** Every record under a killed tag goes away. */
  function Kill(live: Live, fix: Mask): Live
  {
    map p | p in live && !Squashed(live[p], fix) :: live[p]
  }
}

/** What every reservation station does to its own rows, whatever its issue policy: wake,
    mask, kill, and hand a record to a unit. */
module Station {
  import opened Rings
  import opened Program
  import opened Records
  import opened Cycle
  import P = Physical

  /** A table row; what it holds counts only while `valid`. */
  datatype Entry = Entry(valid: bool, rec: Rec)

  /** The places of one station's table, as the engine sees them. */
  function Rows(station: nat, table: seq<Entry>): Live
  {
    map i: nat | i < |table| && table[i].valid :: Row(station, i) := table[i].rec
  }

  /** The broadcasts of one cycle, in port order. */
  function WakeAll(live: Live, wbs: seq<P.WbPort>): Live
  {
    if wbs == [] then live
    else
      var last := wbs[|wbs| - 1];
      Wake(WakeAll(live, wbs[..|wbs| - 1]), last.pr, last.value)
  }

  // --- row by row -----------------------------------------------------------------------

  function WokenRow(e: Entry, wbs: seq<P.WbPort>): Entry
  {
    if e.valid then e.(rec := e.rec.(slots := Woken(e.rec.slots, wbs))) else e
  }

  function WokenRows(table: seq<Entry>, wbs: seq<P.WbPort>): (t: seq<Entry>)
    ensures |t| == |table|
  {
    seq(|table|, i requires 0 <= i < |table| => WokenRow(table[i], wbs))
  }

  function MaskedRow(e: Entry, tag: Mask): Entry
  {
    if e.valid then e.(rec := MaskRec(e.rec, tag)) else e
  }

  function MaskedRows(table: seq<Entry>, tag: Mask): (t: seq<Entry>)
    ensures |t| == |table|
  {
    seq(|table|, i requires 0 <= i < |table| => MaskedRow(table[i], tag))
  }

  /** Occupied, speculating, and under a killed tag. */
  predicate EntrySquashed(e: Entry, fix: Mask) { e.valid && Squashed(e.rec, fix) }

  function KilledRow(e: Entry, fix: Mask): Entry
  {
    if EntrySquashed(e, fix) then e.(valid := false) else e
  }

  function KilledRows(table: seq<Entry>, fix: Mask): (t: seq<Entry>)
    ensures |t| == |table|
  {
    seq(|table|, i requires 0 <= i < |table| => KilledRow(table[i], fix))
  }

  // --- the bits as they are read -------------------------------------------------------------

  /** Of a slot the instruction does not fill no bit is read, whatever it holds. */
  function ReadSlot(s: Slot): Slot
  {
    if s.active then s else Slot(false, false, 0, 0)
  }

  function ReadSlots(slots: seq<Slot>): (r: seq<Slot>)
    ensures |r| == |slots|
  {
    seq(|slots|, i requires 0 <= i < |slots| => ReadSlot(slots[i]))
  }

  function ReadRec(r: Rec): Rec { r.(slots := ReadSlots(r.slots)) }

  function ReadRow(e: Entry): Entry { e.(rec := ReadRec(e.rec)) }

  function ReadRows(table: seq<Entry>): (t: seq<Entry>)
    ensures |t| == |table|
  {
    seq(|table|, i requires 0 <= i < |table| => ReadRow(table[i]))
  }

  /** A row's own test for a broadcast does not ask whether the slot is filled. */
  predicate Matches(s: Slot, pr: nat) { !s.valid && s.pr == pr }

  function CaptureOne(slots: seq<Slot>, wb: P.WbPort): (w: seq<Slot>)
    ensures |w| == |slots|
  {
    seq(|slots|, i requires 0 <= i < |slots| =>
      if Matches(slots[i], wb.pr) then slots[i].(valid := true, data := wb.value) else slots[i])
  }

  function Capture(slots: seq<Slot>, wbs: seq<P.WbPort>): (w: seq<Slot>)
    ensures |w| == |slots|
  {
    if wbs == [] then slots else CaptureOne(Capture(slots, wbs[..|wbs| - 1]), wbs[|wbs| - 1])
  }

  /** What the bits do, read back, is the wake-up. */
  lemma {:induction false} CaptureIsWake(slots: seq<Slot>, wbs: seq<P.WbPort>)
    ensures ReadSlots(Capture(slots, wbs)) == Woken(ReadSlots(slots), wbs)
    decreases |wbs|
  {
    if wbs != [] { CaptureIsWake(slots, wbs[..|wbs| - 1]); }
  }

  /** Whether a record is ready, and whether a squash takes it, is told from what is read. */
  lemma ReadAlike(e: Entry, fix: Mask, tag: Mask)
    ensures Ready(ReadRec(e.rec)) == Ready(e.rec)
    ensures ReadRow(KilledRow(e, fix)) == KilledRow(ReadRow(e), fix) && EntrySquashed(ReadRow(e), fix) == EntrySquashed(e, fix)
    ensures ReadRow(MaskedRow(e, tag)) == MaskedRow(ReadRow(e), tag)
    ensures ReadRec(Unmasked(e.rec, tag)) == Unmasked(ReadRec(e.rec), tag)
  {
    assert forall i | 0 <= i < |e.rec.slots| :: ReadRec(e.rec).slots[i].active == e.rec.slots[i].active;
    assert forall i | 0 <= i < |e.rec.slots| && e.rec.slots[i].active :: ReadRec(e.rec).slots[i].valid == e.rec.slots[i].valid;
  }

  /** Row by row is what the engine does to the places the rows are. */
  lemma {:induction false} WakeAllIs(station: nat, table: seq<Entry>, wbs: seq<P.WbPort>)
    ensures WakeAll(Rows(station, table), wbs) == Rows(station, WokenRows(table, wbs))
    decreases |wbs|
  {
    hide WakeSlots;
    if wbs == [] {
      assert WokenRows(table, wbs) == table;
    } else {
      var before := wbs[..|wbs| - 1];
      WakeAllIs(station, table, before);
      WakeOne(station, table, before, wbs[|wbs| - 1]);
      assert before + [wbs[|wbs| - 1]] == wbs;
    }
  }

  lemma WakeOne(station: nat, table: seq<Entry>, wbs: seq<P.WbPort>, last: P.WbPort)
    ensures Wake(Rows(station, WokenRows(table, wbs)), last.pr, last.value) == Rows(station, WokenRows(table, wbs + [last]))
  {
    hide WakeSlots;
    assert (wbs + [last])[..|wbs|] == wbs;
  }

  lemma MaskedIs(station: nat, table: seq<Entry>, tag: Mask)
    ensures Records.Resolve(Rows(station, table), tag) == Rows(station, MaskedRows(table, tag))
  {
    hide MaskRec;
  }

  lemma KilledIs(station: nat, table: seq<Entry>, fix: Mask)
    ensures Kill(Rows(station, table), fix) == Rows(station, KilledRows(table, fix))
  {
    hide Squashed;
  }

  class Rsv {
    const station: nat
    const table: array<Entry>
    const exec_src: array<Rec>

    /** The rows as they are read. */
    ghost function View(): (t: seq<Entry>)
      reads table
      ensures |t| == table.Length
    {
      ReadRows(table[..])
    }

    constructor (station: nat, size: nat, units: nat, blank: Rec)
      ensures this.station == station && fresh(table) && fresh(exec_src) && table.Length == size && exec_src.Length == units
      ensures forall i | 0 <= i < size :: !View()[i].valid
      ensures Rows(station, View()) == map[]
    {
      this.station := station;
      table := new Entry[size](_ => Entry(false, blank));
      exec_src := new Rec[units](_ => blank);
    }

    /** The row is occupied, and every source its entry waits for has landed. */
    method SlotReady(row: nat) returns (ready: bool)
      requires row < table.Length
      ensures ready <==> View()[row].valid && Ready(View()[row].rec)
    {
      ready := table[row].valid;
      var slots := table[row].rec.slots;
      for i := 0 to |slots|
        invariant ready <==> table[row].valid && forall j | 0 <= j < i :: slots[j].active ==> slots[j].valid
      {
        ready := ready && (!slots[i].active || slots[i].valid);
      }
      ReadAlike(table[row], {}, {});
    }

    /** A dispatch fills one row. */
    method WriteEntry(row: nat, rec: Rec)
      requires row < table.Length
      modifies table
      ensures View() == old(View())[row := Entry(true, ReadRec(rec))]
    {
      hide ReadRec;
      table[row] := Entry(true, rec);
    }

    /** One entry leaves for one unit: the record lands with whatever tag resolves in the
        same cycle already off it, and its row frees. */
    method OnIssue(unit: nat, row: nat, suc_tag: Mask)
      requires row < table.Length && unit < exec_src.Length && table[row].valid
      modifies table, exec_src
      ensures View() == old(View())[row := old(View()[row]).(valid := false)]
      ensures Rows(station, View()) == Rows(station, old(View())) - {Row(station, row)}
      ensures ReadRec(exec_src[unit]) == Unmasked(old(View()[row].rec), suc_tag)
      ensures forall u | 0 <= u < exec_src.Length && u != unit :: exec_src[u] == old(exec_src[u])
    {
      hide ReadRec;
      ReadAlike(table[row], {}, suc_tag);
      exec_src[unit] := Unmasked(table[row].rec, suc_tag);
      table[row] := table[row].(valid := false);
    }

    /** One entry's sources, broadcast by broadcast. */
    method WakeEntry(slots: seq<Slot>, bypasses: seq<P.WbPort>) returns (woken: seq<Slot>)
      ensures woken == Capture(slots, bypasses)
      ensures ReadSlots(woken) == Woken(ReadSlots(slots), bypasses)
    {
      woken := slots;
      for b := 0 to |bypasses|
        invariant woken == Capture(slots, bypasses[..b])
      {
        assert bypasses[..b + 1][..b] == bypasses[..b];
        woken := CaptureOne(woken, bypasses[b]);
      }
      assert bypasses[..|bypasses|] == bypasses;
      CaptureIsWake(slots, bypasses);
    }

    /** Every waiting source that names a broadcast register takes its value. */
    method OnBypass(bypasses: seq<P.WbPort>)
      modifies table
      ensures View() == WokenRows(old(View()), bypasses)
      ensures Rows(station, View()) == WakeAll(Rows(station, old(View())), bypasses)
    {
      hide Woken, WakeAll, Rows, ReadSlots, Capture;
      for i := 0 to table.Length
        invariant forall j | 0 <= j < table.Length ::
                    if j < i then ReadRow(table[j]) == WokenRow(ReadRow(old(table[j])), bypasses) else table[j] == old(table[j])
      {
        if table[i].valid {
          var slots := WakeEntry(table[i].rec.slots, bypasses);
          table[i] := table[i].(rec := table[i].rec.(slots := slots));
        }
      }
      assert View() == WokenRows(old(View()), bypasses);
      WakeAllIs(station, old(View()), bypasses);
    }

    /** A prediction resolved right: its tag stops covering any entry. */
    method OnSucPred(suc_tag: Mask)
      modifies table
      ensures View() == MaskedRows(old(View()), suc_tag)
      ensures Rows(station, View()) == Records.Resolve(Rows(station, old(View())), suc_tag)
    {
      hide Rows, ReadRow;
      for i := 0 to table.Length
        invariant forall j | 0 <= j < table.Length :: table[j] == if j < i then MaskedRow(old(table[j]), suc_tag) else old(table[j])
      {
        if table[i].valid { table[i] := table[i].(rec := MaskRec(table[i].rec, suc_tag)); }
      }
      forall j | 0 <= j < table.Length ensures View()[j] == MaskedRow(old(View()[j]), suc_tag) { ReadAlike(old(table[j]), {}, suc_tag); }
      assert View() == MaskedRows(old(View()), suc_tag);
      MaskedIs(station, old(View()), suc_tag);
    }

    /** A prediction was wrong: every entry under a killed tag goes away. */
    method OnMisPred(fix_tag: Mask)
      modifies table
      ensures View() == KilledRows(old(View()), fix_tag)
      ensures Rows(station, View()) == Kill(Rows(station, old(View())), fix_tag)
    {
      hide Rows, ReadRow;
      for i := 0 to table.Length
        invariant forall j | 0 <= j < table.Length :: table[j] == if j < i then KilledRow(old(table[j]), fix_tag) else old(table[j])
      {
        if EntrySquashed(table[i], fix_tag) { table[i] := table[i].(valid := false); }
      }
      forall j | 0 <= j < table.Length ensures View()[j] == KilledRow(old(View()[j]), fix_tag) { ReadAlike(old(table[j]), fix_tag, {}); }
      assert View() == KilledRows(old(View()), fix_tag);
      KilledIs(station, old(View()), fix_tag);
    }
  }
}

/** The rename table: the current map, and one snapshot a speculation tag. */
module Rename {
  import opened Rings
  import opened KillMask

  /** `renamed`: the newest value of the register is in physical register `prf`. */
  datatype RtEntry = RtEntry(renamed: bool, prf: nat)

  type RtRow = seq<RtEntry>

  datatype RtState = RtState(master: RtRow, planes: seq<RtRow>)
  {
    predicate Sized(regs: nat, tags: nat)
    {
      |master| == regs && |planes| == tags && tags > 0
      && forall t | 0 <= t < |planes| :: |planes[t]| == regs
    }
  }

  function AtReset(regs: nat, tags: nat): RtState
  {
    RtState(seq(regs, _ => RtEntry(false, 0)), seq(tags, _ => seq(regs, _ => RtEntry(false, 0))))
  }

  /** Drop the mapping of `ar` if it still names `pr`. */
  function Drop(row: RtRow, ar: nat, pr: nat): (r: RtRow)
    requires ar < |row|
    ensures |r| == |row|
  {
    if row[ar].renamed && row[ar].prf == pr then row[ar := row[ar].(renamed := false)] else row
  }

  /** A write became architectural: the current map and every snapshot stop naming it. */
  function Retire(s: RtState, regs: nat, tags: nat, ar: nat, pr: nat): (r: RtState)
    requires s.Sized(regs, tags) && ar < regs
    ensures r.Sized(regs, tags)
  {
    RtState(Drop(s.master, ar, pr),
            seq(|s.planes|, t requires 0 <= t < |s.planes| => Drop(s.planes[t], ar, pr)))
  }

  /** One lane renames; a branch leaves the map it sees behind it in its tag's snapshot. */
  function Overlay(s: RtState, regs: nat, tags: nat, req: bool, ar: nat, pr: nat, isBranch: bool, tag: Mask): (r: RtState)
    requires s.Sized(regs, tags) && ar < regs
    ensures r.Sized(regs, tags)
  {
    var row := if req then s.master[ar := RtEntry(true, pr)] else s.master;
    RtState(row,
            if isBranch then seq(|s.planes|, t requires 0 <= t < |s.planes| => if t in tag then row else s.planes[t])
            else s.planes)
  }

  /** A squash restores the branch's snapshot. */
  function Restore(s: RtState, regs: nat, tags: nat, tag: Mask): (r: RtState)
    requires s.Sized(regs, tags)
    ensures r.Sized(regs, tags)
  {
    s.(master := s.planes[OneHot(tag, |s.planes|)])
  }

  datatype CommitPort = CommitPort(ar: nat, pr: nat)

  /** `req`: the lane's write is mapped; `tag` is the one it opens if it is a branch. */
  datatype RenamePort = RenamePort(req: bool, ar: nat, pr: nat, isBranch: bool, tag: Mask)

  /** The writes of one cycle become architectural, in lane order. */
  function RetireAll(s: RtState, regs: nat, tags: nat, ports: seq<CommitPort>): (r: RtState)
    requires s.Sized(regs, tags) && forall i | 0 <= i < |ports| :: ports[i].ar < regs
    ensures r.Sized(regs, tags)
  {
    if ports == [] then s
    else
      var port := ports[|ports| - 1];
      Retire(RetireAll(s, regs, tags, ports[..|ports| - 1]), regs, tags, port.ar, port.pr)
  }

  /** The lanes of one bundle rename, in lane order. */
  function OverlayAll(s: RtState, regs: nat, tags: nat, ports: seq<RenamePort>): (r: RtState)
    requires s.Sized(regs, tags) && forall i | 0 <= i < |ports| :: ports[i].ar < regs
    ensures r.Sized(regs, tags)
  {
    if ports == [] then s
    else
      var port := ports[|ports| - 1];
      Overlay(OverlayAll(s, regs, tags, ports[..|ports| - 1]), regs, tags, port.req, port.ar, port.pr, port.isBranch, port.tag)
  }

  /** Some port retires exactly this entry's mapping. */
  predicate Dropped(e: RtEntry, ar: nat, ports: seq<CommitPort>)
  {
    e.renamed && exists i :: 0 <= i < |ports| && ports[i].ar == ar && ports[i].pr == e.prf
  }

  /** Retiring in order drops what each port, looking only at the row as it stood, drops. */
  lemma {:induction false} RetireAllAt(s: RtState, regs: nat, tags: nat, ports: seq<CommitPort>, ar: nat, t: nat)
    requires s.Sized(regs, tags) && (forall i | 0 <= i < |ports| :: ports[i].ar < regs) && ar < regs && t < tags
    ensures var r := RetireAll(s, regs, tags, ports);
            && r.master[ar] == s.master[ar].(renamed := s.master[ar].renamed && !Dropped(s.master[ar], ar, ports))
            && r.planes[t][ar] == s.planes[t][ar].(renamed := s.planes[t][ar].renamed && !Dropped(s.planes[t][ar], ar, ports))
    decreases |ports|
  {
    if ports != [] {
      var last := |ports| - 1;
      RetireAllAt(s, regs, tags, ports[..last], ar, t);
      DroppedMore(s.master[ar], ar, ports);
      DroppedMore(s.planes[t][ar], ar, ports);
    }
  }

  lemma DroppedMore(e: RtEntry, ar: nat, ports: seq<CommitPort>)
    requires ports != []
    ensures var last := |ports| - 1;
            Dropped(e, ar, ports) == (Dropped(e, ar, ports[..last]) || (e.renamed && ports[last].ar == ar && ports[last].pr == e.prf))
  {
  }

  /** The rename table of one register class. */
  class Rt {
    const regs: nat
    const tags: nat
    var master_rt: RtRow
    var spec_rt: seq<RtRow>

    ghost function View(): RtState
      reads this
    {
      RtState(master_rt, spec_rt)
    }

    ghost predicate Valid()
      reads this
    {
      View().Sized(regs, tags)
    }

    constructor (regs: nat, tags: nat)
      requires tags > 0
      ensures Valid() && this.regs == regs && this.tags == tags && View() == AtReset(regs, tags)
    {
      this.regs, this.tags := regs, tags;
      master_rt, spec_rt := AtReset(regs, tags).master, AtReset(regs, tags).planes;
    }

    /** The commit row: the current map less what this cycle retires. Every guard reads
        the register, so no lane sees another lane's drop. */
    method CommitRow(ports: seq<CommitPort>) returns (temp_commit: RtRow)
      requires Valid() && forall i | 0 <= i < |ports| :: ports[i].ar < regs
      ensures temp_commit == RetireAll(View(), regs, tags, ports).master
    {
      temp_commit := master_rt;
      for i := 0 to |ports|
        invariant |temp_commit| == regs
        invariant forall r | 0 <= r < regs ::
                    temp_commit[r] == master_rt[r].(renamed := master_rt[r].renamed && !Dropped(master_rt[r], r, ports[..i]))
      {
        forall r | 0 <= r < regs
          ensures Dropped(master_rt[r], r, ports[..i + 1])
               == (Dropped(master_rt[r], r, ports[..i])
                   || (master_rt[r].renamed && ports[i].ar == r && ports[i].pr == master_rt[r].prf))
        {
          assert ports[..i + 1][..i] == ports[..i];
          DroppedMore(master_rt[r], r, ports[..i + 1]);
        }
        var entry := master_rt[ports[i].ar];
        if entry.renamed && entry.prf == ports[i].pr {
          temp_commit := temp_commit[ports[i].ar := temp_commit[ports[i].ar].(renamed := false)];
        }
      }
      assert ports[..|ports|] == ports;
      forall r | 0 <= r < regs ensures temp_commit[r] == RetireAll(View(), regs, tags, ports).master[r] {
        RetireAllAt(View(), regs, tags, ports, r, 0);
      }
    }

    /** The snapshots, each less what this cycle retires. */
    method RepairPlanes(ports: seq<CommitPort>) returns (planes: seq<RtRow>)
      requires Valid() && forall i | 0 <= i < |ports| :: ports[i].ar < regs
      ensures planes == RetireAll(View(), regs, tags, ports).planes
    {
      planes := seq(tags, t requires 0 <= t < tags && Valid() reads this =>
        seq(regs, r requires 0 <= r < regs && Valid() reads this =>
          spec_rt[t][r].(renamed := spec_rt[t][r].renamed && !Dropped(spec_rt[t][r], r, ports))));
      forall t | 0 <= t < tags ensures planes[t] == RetireAll(View(), regs, tags, ports).planes[t] {
        forall r | 0 <= r < regs ensures planes[t][r] == RetireAll(View(), regs, tags, ports).planes[t][r] {
          RetireAllAt(View(), regs, tags, ports, r, t);
        }
      }
    }

    /** The cycle's wires: the commits, then each rename port overlays the row the port before
        it left; a branch port copies its own row into its tag's snapshot, over whatever the
        commits repaired there. `rows[k]` is what port k reads. */
    method Flow(commits: seq<CommitPort>, ports: seq<RenamePort>) returns (rows: seq<RtRow>, temp: RtRow, planes: seq<RtRow>)
      requires Valid() && (forall i | 0 <= i < |commits| :: commits[i].ar < regs) && forall i | 0 <= i < |ports| :: ports[i].ar < regs
      ensures var r := RetireAll(View(), regs, tags, commits);
              && RtState(temp, planes) == OverlayAll(r, regs, tags, ports)
              && |rows| == |ports|
              && forall k | 0 <= k < |ports| :: rows[k] == OverlayAll(r, regs, tags, ports[..k]).master
    {
      ghost var r := RetireAll(View(), regs, tags, commits);
      temp := CommitRow(commits);
      planes := RepairPlanes(commits);
      rows := [];
      for k := 0 to |ports|
        invariant |rows| == k && RtState(temp, planes) == OverlayAll(r, regs, tags, ports[..k])
        invariant forall j | 0 <= j < k :: rows[j] == OverlayAll(r, regs, tags, ports[..j]).master
      {
        assert ports[..k + 1][..k] == ports[..k];
        rows := rows + [temp];
        if ports[k].req { temp := temp[ports[k].ar := RtEntry(true, ports[k].pr)]; }
        if ports[k].isBranch {
          planes := seq(|planes|, t requires 0 <= t < |planes| => if t in ports[k].tag then temp else planes[t]);
        }
      }
      assert ports[..|ports|] == ports;
    }

    /** The clock edge of an ordinary cycle: the registers take what the wires carry. */
    method OnNormalFlow(commits: seq<CommitPort>, ports: seq<RenamePort>) returns (rows: seq<RtRow>)
      requires Valid() && (forall i | 0 <= i < |commits| :: commits[i].ar < regs) && forall i | 0 <= i < |ports| :: ports[i].ar < regs
      modifies this
      ensures Valid()
      ensures var r := RetireAll(old(View()), regs, tags, commits);
              && View() == OverlayAll(r, regs, tags, ports)
              && |rows| == |ports|
              && forall k | 0 <= k < |ports| :: rows[k] == OverlayAll(r, regs, tags, ports[..k]).master
    {
      rows, master_rt, spec_rt := Flow(commits, ports);
    }

    method OnMisPred(tag: Mask)
      requires Valid()
      modifies this
      ensures Valid() && View() == Restore(old(View()), regs, tags, tag)
    {
      master_rt := spec_rt[OneHot(tag, |spec_rt|)];
    }
  }
}

/** The moves of one cycle are events in a row: each, worked out from the registers the
    cycle began with, is what the event does to what the events before it left. */
module CycleMoves {
  import opened Rings
  import opened Program
  import opened Records
  import opened Engine
  import opened Invariant
  import opened Cycle
  import B = Reorder
  import K = KillMask
  import P = Physical
  import S = Stores
  import T = Tags
  import F = KeepAccess
  import V = KeepResolve

  /** The event a move is. */
  function EventOf(c: Config, s: Core, a: Act): Event
    requires a.p in s.live
  {
    match a
    case Done(p) => if s.live[p].op.isBranch then Resolve(p) else Complete(p)
    case Go(p, q) => if p.Row? then Issue(p, q) else if p.station == c.lsStation then Access(p, q) else Hop(p, q)
  }

  // --- one more move on every port ---------------------------------------------------------

  predicate NewPush(c: Config, s: Core, a: Act)
    requires a.p in s.live
  {
    IsAccess(c, a) && s.live[a.p].op.isStore
  }

  predicate NewResolve(s: Core, a: Act)
    requires a.p in s.live
  {
    a.Done? && s.live[a.p].op.isBranch
  }

  ghost function PushBy(c: Config, s: Core, r: Rec): S.PushPort
    requires Sized(c, s)
  {
    S.PushOne(r.isSpec, r.tag, AccessAddr(c, r), c.isa.merge(r.op, Values(r.slots), Loaded(c, s, AccessAddr(c, r))))
  }

  lemma OneMore(c: Config, s: Core, past: seq<Act>, a: Act)
    requires Sized(c, s) && Sources(s, past) && a.p in s.live
    ensures var all := past + [a];
            && Sources(s, all)
            && Reported(s, all) == (if a.Done? then Reported(s, past) + [s.live[a.p].rob] else Reported(s, past))
            && Written(c, s, all) == (if a.Done? && s.live[a.p].op.required
                                      then Written(c, s, past) + [P.WbPort(s.live[a.p].pr, Value(c, s.live[a.p]))]
                                      else Written(c, s, past))
            && Resolved(s, all) == (if NewResolve(s, a) then s.live[a.p].tag else Resolved(s, past))
            && Pushed(c, s, all) == (if NewPush(c, s, a) then PushBy(c, s, s.live[a.p]) else Pushed(c, s, past))
  {
    hide Wrap, Sized, Loaded, WordAddr, Value;
    var all := past + [a];
    assert all[..|all| - 1] == past;
  }

  lemma OneMorePlace(past: seq<Act>, a: Act)
    ensures Targets(past + [a]) == Targets(past) + (if a.Go? then {a.q} else {})
    ensures forall p :: Leaves(past + [a], p) <==> Leaves(past, p) || p == a.p
  {
    var all := past + [a];
    forall q | q in Targets(past) + (if a.Go? then {a.q} else {}) ensures q in Targets(all) {
      if q in Targets(past) {
        var i :| 0 <= i < |past| && past[i].Go? && past[i].q == q;
        assert all[i] == past[i];
      } else {
        assert all[|past|] == a;
      }
    }
    forall p ensures Leaves(all, p) <==> Leaves(past, p) || p == a.p {
      if Leaves(past, p) {
        var i :| 0 <= i < |past| && past[i].p == p;
        assert all[i].p == p;
      }
      assert all[|past|].p == a.p;
    }
  }

  lemma OneMoreInto(past: seq<Act>, a: Act, q: Place)
    requires q in Targets(past + [a])
    ensures (a.Go? && a.q == q) || q in Targets(past)
    ensures Into(past + [a], q) == if a.Go? && a.q == q then a else Into(past, q)
  {
    OneMorePlace(past, a);
    var all := past + [a];
    assert all[..|all| - 1] == past;
  }

  /** A move starts where nothing has yet left or arrived, and ends in an empty place. */
  ghost predicate Starts(s: Core, past: seq<Act>, a: Act)
  {
    && a.p in s.live && a.p !in Targets(past) && !Leaves(past, a.p)
    && (a.Go? ==> a.q !in Targets(past) && a.q != a.p && a.q.Stage? && (a.q in s.live ==> Leaves(past, a.q)))
    && forall q | q in Targets(past) :: q.Stage?
  }

  lemma MoveStarts(c: Config, s: Core, acts: seq<Act>, n: nat)
    requires Sized(c, s) && Plan(c, s, acts) && n < |acts|
    ensures Starts(s, acts[..n], acts[n])
  {
    hide Wrap, Sized, Loaded, Ready, BranchTarget, AtLastStage, S.IsFull;
    var past, a := acts[..n], acts[n];
    assert ActOk(c, s, a);
    forall q | q in Targets(past) ensures q.Stage? && q != a.p && (a.Go? ==> q != a.q) {
      var i :| 0 <= i < |past| && past[i].Go? && past[i].q == q;
      assert past[i] == acts[i] && ActOk(c, s, acts[i]);
    }
    if a.Go? && a.q in s.live {
      var j :| 0 <= j < n && acts[j].p == a.q;
      assert past[j].p == a.q;
    }
  }

  // --- what a moving record is ------------------------------------------------------------

  lemma {:induction false} WokenReady(slots: seq<Slot>, wbs: seq<P.WbPort>)
    requires forall i | 0 <= i < |slots| :: slots[i].active ==> slots[i].valid
    ensures Woken(slots, wbs) == slots
    decreases |wbs|
  {
    if wbs != [] {
      WokenReady(slots, wbs[..|wbs| - 1]);
    }
  }

  /** It is the record the cycle began with, less the tag resolved so far. */
  lemma MoverIs(c: Config, s: Core, past: seq<Act>, a: Act)
    requires Sized(c, s) && Sources(s, past) && Starts(s, past, a) && (a.p.Row? ==> Ready(s.live[a.p]))
    ensures a.p in LiveAfter(c, s, past) && LiveAfter(c, s, past)[a.p] == Unmasked(s.live[a.p], Resolved(s, past))
    ensures a.Go? ==> a.q !in LiveAfter(c, s, past)
  {
    hide Wrap, Sized, Loaded, Targets, Woken, Written, Resolved, Unmasked, Leaves;
    if a.p.Row? { WokenReady(s.live[a.p].slots, Written(c, s, past)); }
  }

  lemma UnmaskedSame(r: Rec, tag: Mask)
    ensures Unmasked(r, tag) == r.(isSpec := Unmasked(r, tag).isSpec, tag := Unmasked(r, tag).tag)
  {
  }

  // --- the map of places, one move on -----------------------------------------------------

  lemma GoPlaces(c: Config, s: Core, past: seq<Act>, a: Act)
    requires Sized(c, s) && Sources(s, past) && Starts(s, past, a) && a.Go?
    ensures Sources(s, past + [a])
    ensures LiveAfter(c, s, past + [a]) == (LiveAfter(c, s, past) - {a.p})[a.q := Unmasked(Carried(c, s, a), Resolved(s, past))]
  {
    hide Wrap, Sized, Loaded, Targets, Woken, Written, Resolved, Unmasked, Leaves, Carried, Into;
    OneMore(c, s, past, a);
    OneMorePlace(past, a);
    var m := LiveAfter(c, s, past + [a]);
    forall o | o in m ensures m[o] == if o == a.q then Unmasked(Carried(c, s, a), Resolved(s, past)) else Occupant(c, s, past, o) {
      if o in Targets(past + [a]) { OneMoreInto(past, a, o); }
    }
  }

  lemma DonePlaces(c: Config, s: Core, past: seq<Act>, a: Act)
    requires Sized(c, s) && Sources(s, past) && Starts(s, past, a) && a.Done? && !s.live[a.p].op.isBranch
    ensures Sources(s, past + [a])
    ensures var rest, r := LiveAfter(c, s, past) - {a.p}, s.live[a.p];
            LiveAfter(c, s, past + [a]) == if r.op.required then Wake(rest, r.pr, Value(c, r)) else rest
  {
    hide Wrap, Sized, Loaded, Targets, Written, Resolved, Leaves, Carried, Into, WakeSlots, Value;
    OneMore(c, s, past, a);
    OneMorePlace(past, a);
    var all, r := past + [a], s.live[a.p];
    var m, rest := LiveAfter(c, s, all), LiveAfter(c, s, past) - {a.p};
    assert m.Keys == rest.Keys;
    forall o | o in m ensures o in rest && m[o] == if r.op.required then Wake(rest, r.pr, Value(c, r))[o] else rest[o] {
      DoneHolds(c, s, past, a, o);
    }
  }

  lemma DoneHolds(c: Config, s: Core, past: seq<Act>, a: Act, o: Place)
    requires Sized(c, s) && Sources(s, past) && Starts(s, past, a) && a.Done? && !s.live[a.p].op.isBranch
    requires o in Targets(past) || o in s.live
    ensures Sources(s, past + [a]) && (o in Targets(past + [a]) || o in s.live)
    ensures var was, r := Occupant(c, s, past, o), s.live[a.p];
            Occupant(c, s, past + [a], o)
            == if r.op.required && o.Row? then was.(slots := WakeSlots(was.slots, r.pr, Value(c, r))) else was
  {
    hide Wrap, Sized, Loaded, Targets, Written, Resolved, Leaves, Carried, Into, WakeSlots, Value;
    OneMore(c, s, past, a);
    OneMorePlace(past, a);
    if o in Targets(past) {
      OneMoreInto(past, a, o);
    } else if a.p in s.live && s.live[a.p].op.required {
      var wbs := Written(c, s, past);
      assert (wbs + [P.WbPort(s.live[a.p].pr, Value(c, s.live[a.p]))])[..|wbs|] == wbs;
    }
  }

  lemma ResolvePlaces(c: Config, s: Core, past: seq<Act>, a: Act)
    requires Sized(c, s) && Sources(s, past) && Starts(s, past, a) && a.Done? && s.live[a.p].op.isBranch
    requires Resolved(s, past) == {} && s.live[a.p].tag != {}
    ensures Sources(s, past + [a])
    ensures var rest, r := LiveAfter(c, s, past) - {a.p}, s.live[a.p];
            LiveAfter(c, s, past + [a])
            == Records.Resolve(if r.op.required then Wake(rest, r.pr, Value(c, r)) else rest, r.tag)
  {
    hide Wrap, Sized, Loaded, Targets, Written, Leaves, Carried, Into, WakeSlots, Value, MaskRec;
    OneMore(c, s, past, a);
    OneMorePlace(past, a);
    var all, r := past + [a], s.live[a.p];
    var m, rest := LiveAfter(c, s, all), LiveAfter(c, s, past) - {a.p};
    var woken := if r.op.required then Wake(rest, r.pr, Value(c, r)) else rest;
    assert m.Keys == rest.Keys == woken.Keys;
    forall o | o in m ensures o in woken && m[o] == MaskRec(woken[o], r.tag) {
      ResolveHolds(c, s, past, a, o);
    }
  }

  lemma ResolveHolds(c: Config, s: Core, past: seq<Act>, a: Act, o: Place)
    requires Sized(c, s) && Sources(s, past) && Starts(s, past, a) && a.Done? && s.live[a.p].op.isBranch
    requires Resolved(s, past) == {} && s.live[a.p].tag != {}
    requires o in Targets(past) || o in s.live
    ensures Sources(s, past + [a]) && (o in Targets(past + [a]) || o in s.live)
    ensures var was, r := Occupant(c, s, past, o), s.live[a.p];
            Occupant(c, s, past + [a], o)
            == MaskRec(if r.op.required && o.Row? then was.(slots := WakeSlots(was.slots, r.pr, Value(c, r))) else was, r.tag)
  {
    hide Wrap, Sized, Loaded, Targets, Written, Leaves, Carried, Into, WakeSlots, Value, MaskRec;
    OneMore(c, s, past, a);
    OneMorePlace(past, a);
    if o in Targets(past) {
      OneMoreInto(past, a, o);
    } else if s.live[a.p].op.required {
      var wbs := Written(c, s, past);
      assert (wbs + [P.WbPort(s.live[a.p].pr, Value(c, s.live[a.p]))])[..|wbs|] == wbs;
    }
  }
}

/** The misprediction fix table: one row a tag, saying which tags it sits under. */
module KillMask {
  import opened Rings

  /** Where a one-hot index lands in a pick-left reduction over `n` rows: the lowest
      row whose bit is set, else the last row. */
  function OneHot(tag: Mask, n: nat): (i: nat)
    requires n > 0
    ensures i < n
  {
    LowestFrom(tag, 0, n)
  }

  function LowestFrom(tag: Mask, from: nat, n: nat): (i: nat)
    requires from < n
    ensures from <= i < n
    decreases n - from
  {
    if from in tag || from == n - 1 then from else LowestFrom(tag, from + 1, n)
  }

  lemma {:induction false} LowestFromAt(t: nat, from: nat, n: nat)
    requires from <= t < n
    ensures LowestFrom({t}, from, n) == t
    decreases n - from
  {
    if from < t { LowestFromAt(t, from + 1, n); }
  }

  /** The column a tag names: the tags whose row has that bit. It is the mask a squash kills with. */
  function FixTag(rows: seq<Mask>, tag: Mask): Mask
  {
    set u | 0 <= u < |rows| && rows[u] * tag != {} :: u
  }

  /** The open tags, read off the row of the newest one. */
  function OpenTags(rows: seq<Mask>, last: Mask): Mask
    requires |rows| > 0
  {
    if last == {} then {} else rows[OneHot(last, |rows|)]
  }

  /** One branch books `tag` while `open` is the running set of the lanes before it. */
  function Book(rows: seq<Mask>, open: Mask, tag: Mask): (r: seq<Mask>)
    ensures |r| == |rows|
  {
    seq(|rows|, u requires 0 <= u < |rows| => if u in tag then open + tag else rows[u])
  }

  /** `tag` covers nothing any more. */
  function Resolve(rows: seq<Mask>, tag: Mask): (r: seq<Mask>)
    ensures |r| == |rows|
  {
    seq(|rows|, u requires 0 <= u < |rows| => rows[u] - tag)
  }

  /** A squash at `tag`: every other row is emptied. */
  function Restart(rows: seq<Mask>, tag: Mask): (r: seq<Mask>)
    ensures |r| == |rows|
  {
    seq(|rows|, u requires 0 <= u < |rows| => if u in tag then tag else {})
  }

  datatype Booking = Booking(isBranch: bool, tag: Mask)

  /** The lanes of one cycle book in order, each under the ones before it. */
  function BookRun(rows: seq<Mask>, open: Mask, ports: seq<Booking>): (r: (seq<Mask>, Mask))
    ensures |r.0| == |rows|
  {
    if ports == [] then (rows, open)
    else
      var (before, sofar) := BookRun(rows, open, ports[..|ports| - 1]);
      var port := ports[|ports| - 1];
      if port.isBranch then (Book(before, sofar, port.tag), sofar + port.tag) else (before, sofar)
  }

  /** The misprediction fix table. */
  class Mpft {
    const storage: array<Mask>

    constructor (width: nat)
      requires width > 0
      ensures fresh(storage) && storage.Length == width && forall u | 0 <= u < width :: storage[u] == {}
    {
      storage := new Mask[width](_ => {});
    }

    /** The kill mask: row by row, the bit of the column the tag names. */
    method GetFixTag(tag: Mask) returns (fix_tag: Mask)
      requires forall t | t in tag :: t < storage.Length
      ensures fix_tag == FixTag(storage[..], tag)
    {
      fix_tag := {};
      for row := 0 to storage.Length
        invariant fix_tag == set u | 0 <= u < row && storage[u] * tag != {} :: u
      {
        var row_bit := false;
        for col := 0 to storage.Length
          invariant row_bit <==> exists t :: 0 <= t < col && t in tag && t in storage[row]
        {
          row_bit := row_bit || (col in tag && col in storage[row]);
        }
        assert forall t | t in storage[row] * tag :: 0 <= t < storage.Length && t in tag && t in storage[row];
        if row_bit {
          ghost var t :| 0 <= t < storage.Length && t in tag && t in storage[row];
          assert t in storage[row] * tag;
        }
        if row_bit { fix_tag := fix_tag + {row}; }
      }
    }

    /** One row a booking lane: the tags open before the cycle, and this cycle's own so far. */
    method OnRename(ports: seq<Booking>, last_tag: Mask)
      requires storage.Length > 0
      modifies storage
      ensures storage[..] == BookRun(old(storage[..]), OpenTags(old(storage[..]), last_tag), ports).0
    {
      var open := OpenTags(storage[..], last_tag);
      ghost var rows, seed := storage[..], open;
      for port := 0 to |ports|
        invariant (storage[..], open) == BookRun(rows, seed, ports[..port])
      {
        assert ports[..port + 1][..port] == ports[..port];
        if ports[port].isBranch {
          ghost var before, sofar := storage[..], open;
          open := open + ports[port].tag;
          for u := 0 to storage.Length
            invariant forall v | 0 <= v < storage.Length ::
                        storage[v] == if v < u && v in ports[port].tag then open else before[v]
          {
            if u in ports[port].tag { storage[u] := open; }
          }
          assert storage[..] == Book(before, sofar, ports[port].tag);
        }
      }
      assert ports[..|ports|] == ports;
    }

    method OnSucPred(tag: Mask)
      modifies storage
      ensures storage[..] == Resolve(old(storage[..]), tag)
    {
      for u := 0 to storage.Length
        invariant forall v | 0 <= v < storage.Length ::
                    storage[v] == if v < u then old(storage[v]) - tag else old(storage[v])
      {
        storage[u] := storage[u] - tag;
      }
    }

    method OnMisPred(tag: Mask)
      modifies storage
      ensures storage[..] == Restart(old(storage[..]), tag)
    {
      for u := 0 to storage.Length
        invariant forall v | 0 <= v < u :: storage[v] == if v in tag then tag else {}
      {
        storage[u] := if u in tag then tag else {};
      }
    }
  }
}

/** Port reservations, probed in cyclic order. */
module Ports {
  import opened Common

  datatype Range = Range(start: int, end: int) {
    function Span(): int {
      end - start + 1
    }

    predicate Contains(p: int) {
      start <= p <= end
    }

    /** The port probed after `p`. */
    function Following(p: int): int {
      if p >= end then start else p + 1
    }

    /** How many probes it takes to come from one port to another. */
    function Distance(from: int, to: int): int {
      if to >= from then to - from else to - from + Span()
    }
  }

  /** The first of `n` probes from `cursor` that finds a port neither reserved nor busy. */
  function Probe(range: Range, cursor: int, n: nat, reserved: set<int>, free: int -> bool): Option<int>
    decreases n
  {
    if n == 0 then None
    else if cursor !in reserved && free(cursor) then Some(cursor)
    else Probe(range, range.Following(cursor), n - 1, reserved, free)
  }

  predicate Available(p: int, reserved: set<int>, free: int -> bool) {
    p !in reserved && free(p)
  }

  /** `n` probes find the nearest available port within `n` steps, and fail only if there is none. */
  lemma {:induction false} ProbeNearest(range: Range, cursor: int, n: nat, reserved: set<int>, free: int -> bool)
    requires range.Contains(cursor) && n <= range.Span()
    ensures
      match Probe(range, cursor, n, reserved, free)
      case None => forall q :: range.Contains(q) && range.Distance(cursor, q) < n ==> !Available(q, reserved, free)
      case Some(p) =>
        && range.Contains(p) && range.Distance(cursor, p) < n && Available(p, reserved, free)
        && forall q :: range.Contains(q) && range.Distance(cursor, q) < range.Distance(cursor, p) ==>
             !Available(q, reserved, free)
    decreases n
  {
    if n > 0 && !Available(cursor, reserved, free) {
      var next := range.Following(cursor);
      ProbeNearest(range, next, n - 1, reserved, free);
      forall q | range.Contains(q) && q != cursor
        ensures range.Distance(cursor, q) == range.Distance(next, q) + 1
      {
      }
      assert range.Distance(next, cursor) == range.Span() - 1;
    }
  }

  /** Allocation fails exactly when every port of the range is reserved or busy. */
  lemma AllocationComplete(range: Range, cursor: int, reserved: set<int>, free: int -> bool)
    requires range.Contains(cursor)
    ensures Probe(range, cursor, range.Span(), reserved, free).None? <==>
              forall q :: range.Contains(q) ==> !Available(q, reserved, free)
  {
    ProbeNearest(range, cursor, range.Span(), reserved, free);
    assert forall q :: range.Contains(q) ==> range.Distance(cursor, q) < range.Span();
  }

  class PortAllocator {
    const range: Range
    var reserved: set<int>
    var cursor: int

    constructor (range: Range)
      requires range.start <= range.end
      ensures Valid() && this.range == range && reserved == {} && cursor == range.start
    {
      this.range, reserved, cursor := range, {}, range.start;
    }

    predicate Valid()
      reads this
    {
      range.Contains(cursor)
    }

    /** Reserve the nearest available port at or after the cursor. */
    method Allocate(free: int -> bool) returns (port: Option<int>)
      requires Valid()
      modifies this
      ensures Valid()
      ensures port == Probe(range, old(cursor), range.Span(), old(reserved), free)
      ensures reserved == if port.Some? then old(reserved) + {port.value} else old(reserved)
      ensures port.Some? ==> port.value !in old(reserved) && range.Contains(port.value) && cursor == range.Following(port.value)
    {
      for i := 0 to range.Span()
        invariant Valid() && reserved == old(reserved)
        invariant Probe(range, old(cursor), range.Span(), reserved, free) == Probe(range, cursor, range.Span() - i, reserved, free)
      {
        var candidate := cursor;
        cursor := range.Following(cursor);
        if candidate in reserved {
          continue;
        }
        if free(candidate) {
          reserved := reserved + {candidate};
          return Some(candidate);
        }
      }
      return None;
    }

    /** Reserve several ports; if one is missing, those already taken stay reserved. */
    method AllocateMany(count: nat, free: int -> bool) returns (ports: seq<int>, ok: bool)
      requires Valid()
      modifies this
      ensures Valid() && Distinct(ports)
      ensures reserved == old(reserved) + SetOf(ports) && SetOf(ports) !! old(reserved)
      ensures ok ==> |ports| == count
      ensures !ok ==> |ports| < count && forall q :: range.Contains(q) ==> !Available(q, reserved, free)
    {
      ports := [];
      for i := 0 to count
        invariant Valid() && Distinct(ports) && |ports| == i
        invariant reserved == old(reserved) + SetOf(ports) && SetOf(ports) !! old(reserved)
      {
        AllocationComplete(range, cursor, reserved, free);
        ghost var before, taken := reserved, ports;
        var port := Allocate(free);
        if port.None? {
          return ports, false;
        }
        ports := ports + [port.value];
        assert SetOf(ports) == SetOf(taken) + {port.value};
        assert port.value !in SetOf(taken);
      }
      return ports, true;
    }

    method Release(port: int)
      requires Valid()
      modifies this`reserved
      ensures Valid() && reserved == old(reserved) - {port}
    {
      reserved := reserved - {port};
    }

    method ReleaseAll()
      requires Valid()
      modifies this`reserved
      ensures Valid() && reserved == {}
    {
      reserved := {};
    }
  }
}

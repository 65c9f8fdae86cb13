/** The random allocator of service ports. A port once issued is never reused. */
module Ports {
  import opened Outcomes

  const MIN_PORT := 10000
  const MAX_PORT := 65525
  const SPAN := MAX_PORT - MIN_PORT + 1

  /** One turn of the loop: the random offset and whether the port can be bound. */
  datatype Draw = Draw(offset: nat, available: bool)

  predicate InRange(port: int) {
    MIN_PORT <= port <= MAX_PORT
  }

  predicate Below(p: int, n: nat) {
    MIN_PORT <= p < MIN_PORT + n
  }

  function Range(n: nat): set<int> {
    set p | MIN_PORT <= p < MIN_PORT + n && Below(p, n)
  }

  lemma {:induction false} RangeSize(n: nat)
    ensures |Range(n)| == n
  {
    if n == 0 {
      assert Range(0) == {};
    } else {
      RangeSize(n - 1);
      assert Range(n) == Range(n - 1) + {MIN_PORT + n - 1};
    }
  }

  /** Pigeonhole: the guard in front of the loop is exact. */
  lemma GuardIsExact(used: set<int>)
    requires forall p :: p in used ==> InRange(p)
    ensures |used| >= SPAN <==> forall p :: InRange(p) ==> p in used
    ensures |used| <= SPAN
  {
    RangeSize(SPAN);
    SubsetSize(used, Range(SPAN));
    assert forall p :: p in Range(SPAN) <==> InRange(p);
    if forall p :: InRange(p) ==> p in used {
      assert used == Range(SPAN);
    }
  }

  /** The draw can end the loop when `used` has been issued. */
  predicate Accepts(used: set<int>, d: Draw) {
    MIN_PORT + d.offset !in used && d.available
  }

  class PortAllocator {
    var used: set<int>
    ghost var issued: seq<int>   // every port handed out, in order

    ghost predicate Valid()
      reads this
    {
      && (forall p :: p in used <==> p in issued)
      && (forall p :: p in used ==> InRange(p))
      && (forall i, j :: 0 <= i < j < |issued| ==> issued[i] != issued[j])
      && |used| == |issued|
    }

    constructor ()
      ensures Valid() && issued == []
    {
      used, issued := {}, [];
    }

    /** The first `|draws|` turns of one call; None while it is still looking.
        The answer is -1 exactly when every port has been issued, and otherwise
        the first drawn port that is neither issued nor taken on the host. */
    method GenerateUniquePort(draws: seq<Draw>) returns (port: Option<int>)
      requires Valid() && forall k :: 0 <= k < |draws| ==> draws[k].offset < SPAN
      modifies this
      ensures Valid()
      ensures port == Some(-1) <==> forall p :: InRange(p) ==> p in old(issued)
      ensures port == Some(-1) <==> |old(issued)| == 55526
      ensures port.Some? && port.value != -1 ==>
                && 10000 <= port.value <= 65525 && port.value !in old(issued)
                && issued == old(issued) + [port.value] && used == old(used) + {port.value}
                && exists k :: 0 <= k < |draws| && port.value == MIN_PORT + draws[k].offset
                     && Accepts(old(used), draws[k]) && draws[k].available
                     && forall j :: 0 <= j < k ==> 10000 + draws[j].offset in old(issued) || !draws[j].available
      ensures port.None? ==> forall j :: 0 <= j < |draws| ==> 10000 + draws[j].offset in old(issued) || !draws[j].available
      ensures port.None? || port.value == -1 ==> issued == old(issued) && used == old(used)
    {
      GuardIsExact(used);
      if |used| >= SPAN {
        return Some(-1);
      }
      for k := 0 to |draws|
        invariant used == old(used) && issued == old(issued)
        invariant forall j :: 0 <= j < k ==> !Accepts(used, draws[j])
      {
        var candidate := draws[k].offset + MIN_PORT;
        if candidate in used {
          continue;
        }
        if !draws[k].available {
          continue;
        }
        used := used + {candidate};
        issued := issued + [candidate];
        return Some(candidate);
      }
      return None;
    }
  }
}

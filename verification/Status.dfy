/** The aggregated `/status` reply. */
module Status {
  import opened Registry

  /** How region names are upper-cased for comparison; any function will do. */
  type Casing = string -> string

  datatype StatusReply = StatusReply(status: bool, regions: seq<string>, clientCount: nat, ready: bool, degraded: nat)

  function Uppers(up: Casing, regions: seq<string>): set<string> {
    set k | 0 <= k < |regions| :: up(regions[k])
  }

  /** Of the first `n` entries, `firsts` picks one per region, whatever case it
      is spelled in: the earliest one. */
  ghost predicate OnePerRegion(up: Casing, all: seq<string>, n: nat, firsts: seq<nat>, regions: seq<string>)
    requires n <= |all|
  {
    && |firsts| == |regions|
    && (forall k :: 0 <= k < |firsts| ==> Earliest(up, all, n, firsts[k], regions[k]))
    && (forall j, k :: 0 <= j < k < |firsts| ==> firsts[j] < firsts[k])
    && (forall i :: 0 <= i < n && all[i] != "" ==> up(all[i]) in Uppers(up, regions))
  }

  ghost predicate Earliest(up: Casing, all: seq<string>, n: nat, first: nat, region: string)
    requires n <= |all|
  {
    && first < n && all[first] == region != ""
    && forall i :: 0 <= i < first && all[i] != "" ==> up(all[i]) != up(region)
  }

  lemma NewRegion(up: Casing, all: seq<string>, n: nat, firsts: seq<nat>, regions: seq<string>)
    requires n < |all| && OnePerRegion(up, all, n, firsts, regions)
    requires all[n] != "" && up(all[n]) !in Uppers(up, regions)
    ensures OnePerRegion(up, all, n + 1, firsts + [n], regions + [all[n]])
    ensures Uppers(up, regions + [all[n]]) == Uppers(up, regions) + {up(all[n])}
  {
    UppersAppend(up, regions, all[n]);
    forall k | 0 <= k < |firsts| ensures Earliest(up, all, n + 1, firsts[k], regions[k]) {
      assert Earliest(up, all, n, firsts[k], regions[k]);
    }
    assert Earliest(up, all, n + 1, n, all[n]);
  }

  lemma UppersAppend(up: Casing, regions: seq<string>, r: string)
    ensures Uppers(up, regions + [r]) == Uppers(up, regions) + {up(r)}
  {
    var rs := regions + [r];
    forall u | u in Uppers(up, regions) + {up(r)} ensures u in Uppers(up, rs) {
      if u == up(r) {
        assert rs[|regions|] == r;
      } else {
        var k :| 0 <= k < |regions| && up(regions[k]) == u;
        assert rs[k] == regions[k];
      }
    }
  }

  lemma RegionsDiffer(up: Casing, all: seq<string>, n: nat, firsts: seq<nat>, regions: seq<string>)
    requires n <= |all| && OnePerRegion(up, all, n, firsts, regions)
    ensures forall j, k :: 0 <= j < k < |regions| ==> up(regions[j]) != up(regions[k])
  {
    forall j, k | 0 <= j < k < |regions| ensures up(regions[j]) != up(regions[k]) {
      assert Earliest(up, all, n, firsts[j], regions[j]) && Earliest(up, all, n, firsts[k], regions[k]);
    }
  }

  method DistinctRegions(up: Casing, all: seq<string>) returns (regions: seq<string>, ghost firsts: seq<nat>)
    ensures OnePerRegion(up, all, |all|, firsts, regions)
    ensures forall j, k :: 0 <= j < k < |regions| ==> up(regions[j]) != up(regions[k])
  {
    var seen: set<string> := {};
    regions, firsts := [], [];
    for i := 0 to |all|
      invariant OnePerRegion(up, all, i, firsts, regions) && seen == Uppers(up, regions)
    {
      if all[i] != "" && up(all[i]) !in seen {
        NewRegion(up, all, i, firsts, regions);
        seen := seen + {up(all[i])};
        regions := regions + [all[i]];
        firsts := firsts + [i];
      } else {
        forall k | 0 <= k < |firsts| ensures Earliest(up, all, i + 1, firsts[k], regions[k]) {
          assert Earliest(up, all, i, firsts[k], regions[k]);
        }
      }
    }
    RegionsDiffer(up, all, |all|, firsts, regions);
  }

  function RegionsOf(s: seq<WrapperInstance>): seq<string>
    reads s
  {
    seq(|s|, i requires 0 <= i < |s| reads s => s[i].region)
  }

  method CollectRegions(registry: InstanceRegistry) returns (all: seq<string>)
    requires registry.Valid()
    ensures all == RegionsOf(registry.Contents())
  {
    all := [];
    var instances := registry.SnapshotInstances();
    for i := 0 to instances.Length
      invariant instances[..] == registry.Contents() && |all| == i
      invariant forall k :: 0 <= k < i ==> all[k] == registry.Contents()[k].region
    {
      assert instances[..][i] == registry.Contents()[i];
      all := all + [instances[i].region];
    }
  }

  /** Everything in the reply describes the registry at the time of the call:
      each region once in its first spelling, and the accounts shut out are the
      registered ones the breaker would keep from being selected. */
  method HandleStatus(up: Casing, registry: InstanceRegistry, asks: seq<Ask>, ready: bool)
    returns (reply: StatusReply, ghost firsts: seq<nat>)
    requires registry.Valid() && |asks| == |registry.Contents()|
    requires Feasible(registry.circuits.history, registry.Contents(), asks)
    modifies registry.circuits
    ensures registry.Valid() && registry.Contents() == old(registry.Contents())
    ensures reply.status <==> registry.Contents() != []
    ensures reply.clientCount == |registry.Contents()| && reply.ready == ready
    ensures OnePerRegion(up, old(RegionsOf(registry.Contents())), |registry.Contents()|, firsts, reply.regions)
    ensures reply.degraded + |Filtered(old(registry.circuits.history), registry.Contents(), asks)| == reply.clientCount
  {
    var all := CollectRegions(registry);
    var regions;
    regions, firsts := DistinctRegions(up, all);
    var degraded := registry.DegradedCount(asks);
    reply := StatusReply(|all| != 0, regions, |all|, ready, degraded);
  }
}

/** Giving instances their service ports when they are created or started. */
module PortAssignment {
  import opened Outcomes
  import opened Registry
  import opened Ports

  /** No two instances that got a port from the allocator share one, except that
      an exhausted allocator has answered -1. */
  ghost predicate Apart(ports: PortAllocator, holders: set<WrapperInstance>)
    reads ports, holders
  {
    && (forall x :: x in holders ==> Held(ports, x))
    && (forall x, y :: x in holders && y in holders && x != y && x.port == y.port ==> x.port == -1)
  }

  ghost predicate Held(ports: PortAllocator, x: WrapperInstance)
    reads ports, x
  {
    if x.port == -1 then |ports.issued| == SPAN else x.port in ports.issued
  }

  ghost predicate AllDifferent(holders: set<WrapperInstance>)
    reads holders
  {
    forall x, y :: x in holders && y in holders && x != y ==> x.port != y.port
  }

  /** Until every port has been issued the ports they got are all different. */
  lemma ApartBeforeExhaustion(ports: PortAllocator, holders: set<WrapperInstance>)
    requires Apart(ports, holders) && |ports.issued| < SPAN
    ensures AllDifferent(holders)
    ensures forall x :: x in holders ==> x.port in ports.issued
  {
    forall x | x in holders ensures x.port in ports.issued && x.port != -1 {
      assert Held(ports, x);
    }
  }

  /** The port is issued, or -1 for an exhausted allocator, and no holder has it. */
  ghost predicate Takeable(ports: PortAllocator, holders: set<WrapperInstance>, port: int)
    reads ports, holders
  {
    && (if port == -1 then |ports.issued| == SPAN else port in ports.issued)
    && (forall x :: x in holders && x.port == port ==> port == -1)
  }

  lemma OneMoreHolder(ports: PortAllocator, others: set<WrapperInstance>, x: WrapperInstance)
    requires Apart(ports, others) && Takeable(ports, others, x.port)
    ensures Apart(ports, others + {x})
  {
    assert Held(ports, x);
  }

  lemma FewerHolders(ports: PortAllocator, holders: set<WrapperInstance>, x: WrapperInstance, port: int)
    requires Apart(ports, holders) && Takeable(ports, holders, port)
    ensures Apart(ports, holders - {x}) && Takeable(ports, holders - {x}, port)
  {
  }

  /** One port for one instance: a new instance, or a new port for a known one. */
  method NextPort(ports: PortAllocator, draws: seq<Draw>, ghost holders: set<WrapperInstance>) returns (port: Option<int>)
    requires ports.Valid() && Apart(ports, holders)
    requires forall k :: 0 <= k < |draws| ==> draws[k].offset < SPAN
    modifies ports
    ensures ports.Valid() && Apart(ports, holders)
    ensures port.Some? ==> Takeable(ports, holders, port.value) && port.value !in old(ports.issued)
    ensures port == Some(-1) <==> |old(ports.issued)| == SPAN
    ensures port.None? ==> ports.issued == old(ports.issued)
  {
    GuardIsExact(ports.used);
    port := ports.GenerateUniquePort(draws);
    forall x | x in holders ensures Held(ports, x) {
      assert old(Held(ports, x));
    }
  }

  method Register(registry: InstanceRegistry, ports: PortAllocator, id: string, port: int, ghost holders: set<WrapperInstance>)
    returns (instance: WrapperInstance)
    requires registry.Valid() && !Has(registry.Contents(), id)
    requires Apart(ports, holders) && Takeable(ports, holders, port)
    modifies registry, registry.data, registry.circuits
    ensures registry.Valid() && registry.Contents() == old(registry.Contents()) + [instance]
    ensures fresh(instance) && instance.id == id && instance.port == port
    ensures Apart(ports, holders + {instance})
  {
    instance := new WrapperInstance(id, "", port);
    OneMoreHolder(ports, holders, instance);
    registry.InsertInstance(instance);
  }

  method Reassign(ports: PortAllocator, instance: WrapperInstance, port: int, ghost holders: set<WrapperInstance>)
    requires Apart(ports, holders) && Takeable(ports, holders, port)
    modifies instance`port
    ensures instance.port == port && Apart(ports, holders + {instance})
  {
    FewerHolders(ports, holders, instance, port);
    instance.port := port;
    OneMoreHolder(ports, holders - {instance}, instance);
    assert holders + {instance} == (holders - {instance}) + {instance};
  }

  /** The beginning of `WrapperStart`: the account's instance, new or known, gets
      a port of its own. While the allocator is still drawing nothing happens. */
  method PrepareStart(registry: InstanceRegistry, ports: PortAllocator, id: string, draws: seq<Draw>,
                      ghost holders: set<WrapperInstance>)
    returns (instance: WrapperInstance?, ghost now: set<WrapperInstance>)
    requires registry.Valid() && ports.Valid() && Apart(ports, holders)
    requires forall k :: 0 <= k < |draws| ==> draws[k].offset < SPAN
    modifies registry, registry.data, registry.circuits, ports, registry.Contents()`port
    ensures registry.Valid() && ports.Valid() && Apart(ports, now)
    ensures |ports.issued| < SPAN ==> AllDifferent(now)
    ensures instance == null ==> now == holders && registry.Contents() == old(registry.Contents())
    ensures instance != null ==> now == holders + {instance} && instance.id == id
    ensures instance != null ==>
              if Has(old(registry.Contents()), id)
              then registry.Contents() == old(registry.Contents()) && instance in registry.Contents()
              else registry.Contents() == old(registry.Contents()) + [instance] && fresh(instance)
    ensures instance != null ==> (instance.port == -1 <==> |old(ports.issued)| == SPAN) && instance.port !in old(ports.issued)
  {
    now := holders;
    instance := registry.GetInstance(id);
    var port := NextPort(ports, draws, holders);
    if port.None? {
      instance := null;
      if |ports.issued| < SPAN {
        ApartBeforeExhaustion(ports, now);
      }
      return;
    }
    if instance == null {
      instance := Register(registry, ports, id, port.value, holders);
    } else {
      Reassign(ports, instance, port.value, holders);
    }
    now := holders + {instance};
    if |ports.issued| < SPAN {
      ApartBeforeExhaustion(ports, now);
    }
  }

  /** A login's instance: a known one keeps its port. */
  method GetInstanceOrNew(registry: InstanceRegistry, ports: PortAllocator, id: string, draws: seq<Draw>,
                          ghost holders: set<WrapperInstance>)
    returns (instance: WrapperInstance?, ghost now: set<WrapperInstance>)
    requires registry.Valid() && ports.Valid() && Apart(ports, holders)
    requires forall k :: 0 <= k < |draws| ==> draws[k].offset < SPAN
    modifies registry, registry.data, registry.circuits, ports
    ensures registry.Valid() && ports.Valid() && Apart(ports, now)
    ensures |ports.issued| < SPAN ==> AllDifferent(now)
    ensures Has(old(registry.Contents()), id) ==>
              instance != null && instance in registry.Contents() && instance.id == id
              && registry.Contents() == old(registry.Contents()) && now == holders
    ensures !Has(old(registry.Contents()), id) ==>
              if instance == null then registry.Contents() == old(registry.Contents()) && now == holders
              else fresh(instance) && instance.id == id && instance.port !in old(ports.issued) && now == holders + {instance}
                   && registry.Contents() == old(registry.Contents()) + [instance]
  {
    now := holders;
    if |ports.issued| < SPAN {
      ApartBeforeExhaustion(ports, now);
    }
    instance := registry.GetInstance(id);
    if instance != null {
      return;
    }
    var port := NextPort(ports, draws, holders);
    if |ports.issued| < SPAN {
      ApartBeforeExhaustion(ports, now);
    }
    if port.None? {
      return;
    }
    instance := Register(registry, ports, id, port.value, holders);
    now := holders + {instance};
    if |ports.issued| < SPAN {
      ApartBeforeExhaustion(ports, now);
    }
  }
}

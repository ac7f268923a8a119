/** The registry controller: counting agents, the (phase, health) gauge, and pruning. */
module Registry {
  import opened Types
  import opened Lifecycle
  import opened Store
  import opened History
  import opened MapSums
  import opened Controller
  import Protocol

  // ----- counting

  datatype Cell = Cell(phase: Phase, health: Health)

  type Gauge = map<Cell, nat>

  /** The gauge cell of a status: empty values are shown as Pending and Unknown. */
  function CellOf(st: Status): Cell {
    Cell(if st.phase == NoPhase then Pending else st.phase, if st.health == NoHealth then Unknown else st.health)
  }

  function Inc(gauge: Gauge, cell: Cell): Gauge {
    gauge[cell := (if cell in gauge then gauge[cell] else 0) + 1]
  }

  function GaugeOf(agents: seq<Agent>): Gauge {
    if agents == [] then map[] else Inc(GaugeOf(agents[..|agents| - 1]), CellOf(agents[|agents| - 1].status))
  }

  function CountIn(agents: seq<Agent>, cell: Cell): nat {
    if agents == [] then 0
    else CountIn(agents[..|agents| - 1], cell) + (if CellOf(agents[|agents| - 1].status) == cell then 1 else 0)
  }

  function Whole(n: nat): int {
    n
  }

  /** Nobody is counted twice and nobody is left out. */
  lemma {:induction false} GaugeTotal(agents: seq<Agent>)
    ensures Sum(GaugeOf(agents), Whole) == |agents|
  {
    if agents != [] {
      var was := GaugeOf(agents[..|agents| - 1]);
      var cell := CellOf(agents[|agents| - 1].status);
      GaugeTotal(agents[..|agents| - 1]);
      hide Sum;
      SumUpdate(was, Whole, cell, (if cell in was then was[cell] else 0) + 1);
      SumRemove(was, Whole, cell);
    }
  }

  /** Every cell shows how many agents are in it, and a cell exists only if somebody is. */
  lemma {:induction false} GaugeCounts(agents: seq<Agent>)
    ensures forall cell :: CountIn(agents, cell) == if cell in GaugeOf(agents) then GaugeOf(agents)[cell] else 0
    ensures forall cell :: cell in GaugeOf(agents) ==> GaugeOf(agents)[cell] > 0 && exists i :: 0 <= i < |agents| && CellOf(agents[i].status) == cell
  {
    if agents != [] {
      var rest := agents[..|agents| - 1];
      var cell := CellOf(agents[|agents| - 1].status);
      GaugeCounts(rest);
      forall other | other in GaugeOf(agents) ensures exists i :: 0 <= i < |agents| && CellOf(agents[i].status) == other {
        if other == cell {
          assert CellOf(agents[|agents| - 1].status) == other;
        } else {
          var i :| 0 <= i < |rest| && CellOf(rest[i].status) == other;
          assert CellOf(agents[i].status) == other;
        }
      }
    }
  }

  /** The positions of the listed agents with a property. */
  ghost function Where(agents: seq<Agent>, p: Agent -> bool): set<nat> {
    set i: nat | i < |agents| && p(agents[i])
  }

  lemma WhereStep(agents: seq<Agent>, p: Agent -> bool)
    requires agents != []
    ensures |Where(agents, p)| == |Where(agents[..|agents| - 1], p)| + (if p(agents[|agents| - 1]) then 1 else 0)
  {
    var n := |agents| - 1;
    var before := Where(agents[..n], p);
    assert Where(agents, p) == if p(agents[n]) then before + {n} else before;
  }

  /** The status shows as this phase and health: an empty phase shows as Pending and an empty health as Unknown. */
  ghost predicate Shows(st: Status, phase: Phase, health: Health) {
    && (st.phase == phase || (st.phase == NoPhase && phase == Pending))
    && (st.health == health || (st.health == NoHealth && health == Unknown))
  }

  /** Every cell of the gauge holds the number of listed agents that show as its phase and health. */
  lemma {:induction false} GaugeIs(agents: seq<Agent>, phase: Phase, health: Health)
    requires phase != NoPhase && health != NoHealth
    ensures var gauge := GaugeOf(agents);
            (if Cell(phase, health) in gauge then gauge[Cell(phase, health)] else 0) ==
              |set i | 0 <= i < |agents| && Shows(agents[i].status, phase, health)|
  {
    var shows := (a: Agent) => Shows(a.status, phase, health);
    if agents != [] {
      GaugeIs(agents[..|agents| - 1], phase, health);
      WhereStep(agents, shows);
      WhereShows(agents[..|agents| - 1], phase, health, shows);
    }
    WhereShows(agents, phase, health, shows);
    hide Where, Shows;
  }

  lemma WhereShows(agents: seq<Agent>, phase: Phase, health: Health, shows: Agent -> bool)
    requires forall a: Agent :: shows(a) == Shows(a.status, phase, health)
    ensures |set i | 0 <= i < |agents| && Shows(agents[i].status, phase, health)| == |Where(agents, shows)|
  {
    hide Shows;
    assert (set i | 0 <= i < |agents| && Shows(agents[i].status, phase, health)) == Where(agents, shows);
  }

  lemma KeysStep(c: Cluster, order: seq<Key>, p: Agent -> bool)
    requires order != [] && (forall k :: k in order ==> k in c.agents) && order[|order| - 1] !in order[..|order| - 1]
    ensures |set k | k in order && p(c.agents[k].agent)| ==
            |set k | k in order[..|order| - 1] && p(c.agents[k].agent)| + (if p(c.agents[order[|order| - 1]].agent) then 1 else 0)
  {
    var last := order[|order| - 1];
    var before := set k | k in order[..|order| - 1] && p(c.agents[k].agent);
    assert forall k :: k in order <==> k in order[..|order| - 1] || k == last;
    assert (set k | k in order && p(c.agents[k].agent)) == if p(c.agents[last].agent) then before + {last} else before;
  }

  /** The number of agents with a property does not depend on the order in which they are listed. */
  lemma {:induction false} WhereCountsAgents(c: Cluster, order: seq<Key>, p: Agent -> bool)
    requires forall k :: k in order ==> k in c.agents
    requires forall i, j :: 0 <= i < j < |order| ==> order[i] != order[j]
    ensures |Where(Listing(c, order), p)| == |set k | k in order && p(c.agents[k].agent)|
  {
    if order == [] {
      assert Listing(c, order) == [] && Where([], p) == {};
      assert (set k | k in order && p(c.agents[k].agent)) == {};
    } else {
      hide Where;
      var rest := order[..|order| - 1];
      WhereCountsAgents(c, rest, p);
      WhereStep(Listing(c, order), p);
      assert Listing(c, order)[..|order| - 1] == Listing(c, rest);
      KeysStep(c, order, p);
    }
  }

  predicate CountsAsHealthy(a: Agent) {
    a.spec.enabled && a.status.health == Healthy
  }

  function HealthyCount(agents: seq<Agent>): nat {
    if agents == [] then 0
    else HealthyCount(agents[..|agents| - 1]) + (if CountsAsHealthy(agents[|agents| - 1]) then 1 else 0)
  }

  /** The healthy count is the number of listed agents that are enabled and Healthy. */
  lemma HealthyCountIs(agents: seq<Agent>)
    ensures HealthyCount(agents) == |set i | 0 <= i < |agents| && agents[i].spec.enabled && agents[i].status.health == Healthy|
  {
    var healthy := (a: Agent) => a.spec.enabled && a.status.health == Healthy;
    HealthyCountWhere(agents, healthy);
    assert (set i | 0 <= i < |agents| && agents[i].spec.enabled && agents[i].status.health == Healthy) == Where(agents, healthy);
  }

  lemma {:induction false} HealthyCountWhere(agents: seq<Agent>, healthy: Agent -> bool)
    requires forall a: Agent :: healthy(a) == (a.spec.enabled && a.status.health == Healthy)
    ensures HealthyCount(agents) == |Where(agents, healthy)|
  {
    if agents != [] {
      HealthyCountWhere(agents[..|agents| - 1], healthy);
      WhereStep(agents, healthy);
    }
  }

  /** The agents that would survive a prune at time now. */
  function Survivors(agents: seq<Agent>, now: nat): seq<Agent> {
    if agents == [] then []
    else Survivors(agents[..|agents| - 1], now) + (if Stale(agents[|agents| - 1].status, now) then [] else [agents[|agents| - 1]])
  }

  lemma {:induction false} SurvivorsAre(agents: seq<Agent>, now: nat)
    ensures forall a :: a in Survivors(agents, now) <==> a in agents && !Stale(a.status, now)
  {
    if agents != [] {
      SurvivorsAre(agents[..|agents| - 1], now);
      assert forall a :: a in agents <==> a in agents[..|agents| - 1] || a == agents[|agents| - 1];
    }
  }

  lemma StaleIsUnhealthy(st: Status, now: nat)
    requires WellFormed(st) && Stale(st, now)
    ensures st.health == Unhealthy
  {
  }

  /** Pruning only hits unhealthy agents, so the healthy count taken before it is still right after it. */
  lemma {:induction false} PruningKeepsHealthyCount(agents: seq<Agent>, now: nat)
    requires forall i :: 0 <= i < |agents| ==> WellFormed(agents[i].status)
    ensures HealthyCount(Survivors(agents, now)) == HealthyCount(agents)
  {
    hide WellFormed, Stale;
    if agents != [] {
      var rest := agents[..|agents| - 1];
      var last := agents[|agents| - 1];
      PruningKeepsHealthyCount(rest, now);
      if !Stale(last.status, now) {
        var kept := Survivors(agents, now);
        assert kept[..|kept| - 1] == Survivors(rest, now) && kept[|kept| - 1] == last;
      } else {
        StaleIsUnhealthy(last.status, now);
        assert Survivors(agents, now) == Survivors(rest, now);
      }
    }
  }

  ghost predicate LegalCell(cell: Cell) {
    cell in {Cell(Pending, Unknown), Cell(Ready, Healthy), Cell(Error, Unhealthy), Cell(Unreachable, Unhealthy)}
  }

  function Listing(c: Cluster, order: seq<Key>): seq<Agent>
    requires forall k :: k in order ==> k in c.agents
  {
    seq(|order|, i requires 0 <= i < |order| => c.agents[order[i]].agent)
  }

  /**
   One registry pass in any reachable state conserves counts: the gauge cells add up to the number of
   agents, only the four legal cells are non-zero, and the healthy count equals that of the agents
   the pass does not prune.
   */
  lemma PassConservesCounts(actions: seq<Protocol.Action>, order: seq<Key>, now: nat)
    requires Lists(order, Protocol.Run(actions).cluster)
    ensures var c := Protocol.Run(actions).cluster;
            var agents := Listing(c, order);
            && Sum(GaugeOf(agents), Whole) == |order|
            && (forall cell :: cell in GaugeOf(agents) ==> LegalCell(cell))
            && HealthyCount(Survivors(agents, now)) == HealthyCount(agents)
  {
    hide Protocol.Run, Replay, Decide;
    var s := Protocol.Run(actions);
    var agents := Listing(s.cluster, order);
    Protocol.RunsAreSerial(actions);
    forall i | 0 <= i < |agents| ensures WellFormed(agents[i].status) {
      assert Protocol.StoredOk(s, order[i]);
      EveryStatusWellFormed(s.logs[agents[i].uid]);
    }
    GaugeTotal(agents);
    GaugeCounts(agents);
    PruningKeepsHealthyCount(agents, now);
  }

  /** Counting a listing by one property counts the agents with another that means the same for them. */
  lemma ListingCounts(c: Cluster, order: seq<Key>, q: Agent -> bool, keys: set<Key>)
    requires Lists(order, c)
    requires forall k :: k in keys <==> k in c.agents && q(c.agents[k].agent)
    ensures |Where(Listing(c, order), q)| == |keys|
  {
    WhereCountsAgents(c, order, q);
    assert (set k | k in order && q(c.agents[k].agent)) == keys;
  }

  lemma CellCounts(c: Cluster, order: seq<Key>, phase: Phase, health: Health, keys: set<Key>)
    requires Lists(order, c) && phase != NoPhase && health != NoHealth
    requires forall k :: k in keys <==> k in c.agents && Shows(c.agents[k].agent.status, phase, health)
    ensures var gauge := GaugeOf(Listing(c, order));
            (if Cell(phase, health) in gauge then gauge[Cell(phase, health)] else 0) == |keys|
  {
    hide Shows, GaugeOf, Where, Listing;
    var shows := (a: Agent) => Shows(a.status, phase, health);
    GaugeIs(Listing(c, order), phase, health);
    WhereShows(Listing(c, order), phase, health, shows);
    ListingCounts(c, order, shows, keys);
  }

  lemma ReachableAreWellFormed(actions: seq<Protocol.Action>)
    ensures forall k :: k in Protocol.Run(actions).cluster.agents ==> WellFormed(Protocol.Run(actions).cluster.agents[k].agent.status)
  {
    hide Protocol.Run, Replay, WellFormed;
    var s := Protocol.Run(actions);
    Protocol.RunsAreSerial(actions);
    forall k | k in s.cluster.agents ensures WellFormed(s.cluster.agents[k].agent.status) {
      assert Protocol.StoredOk(s, k);
      EveryStatusWellFormed(s.logs[s.cluster.agents[k].agent.uid]);
    }
  }

  /** A well-formed status shows in the cell of its phase. */
  lemma PhaseShows(st: Status)
    requires WellFormed(st)
    ensures Shows(st, Ready, Healthy) <==> st.phase == Ready
    ensures Shows(st, Error, Unhealthy) <==> st.phase == Error
    ensures Shows(st, Unreachable, Unhealthy) <==> st.phase == Unreachable
    ensures Shows(st, Pending, Unknown) <==> st.phase == Pending || st.phase == NoPhase
  {
  }

  /** The four legal cells count the Ready agents, those in Error, the Unreachable ones, and those Pending or never reconciled. */
  ghost predicate CountsPhases(gauge: Gauge, c: Cluster) {
    && (if Cell(Ready, Healthy) in gauge then gauge[Cell(Ready, Healthy)] else 0)
       == |set k | k in c.agents && c.agents[k].agent.status.phase == Ready|
    && (if Cell(Error, Unhealthy) in gauge then gauge[Cell(Error, Unhealthy)] else 0)
       == |set k | k in c.agents && c.agents[k].agent.status.phase == Error|
    && (if Cell(Unreachable, Unhealthy) in gauge then gauge[Cell(Unreachable, Unhealthy)] else 0)
       == |set k | k in c.agents && c.agents[k].agent.status.phase == Unreachable|
    && (if Cell(Pending, Unknown) in gauge then gauge[Cell(Pending, Unknown)] else 0)
       == |set k | k in c.agents && c.agents[k].agent.status.phase in {Pending, NoPhase}|
  }

  lemma ListingCountsPhases(c: Cluster, order: seq<Key>)
    requires Lists(order, c) && forall k :: k in c.agents ==> WellFormed(c.agents[k].agent.status)
    ensures CountsPhases(GaugeOf(Listing(c, order)), c)
  {
    hide GaugeOf, Listing, WellFormed, Shows;
    forall k | k in c.agents
      ensures && (Shows(c.agents[k].agent.status, Ready, Healthy) <==> c.agents[k].agent.status.phase == Ready)
              && (Shows(c.agents[k].agent.status, Error, Unhealthy) <==> c.agents[k].agent.status.phase == Error)
              && (Shows(c.agents[k].agent.status, Unreachable, Unhealthy) <==> c.agents[k].agent.status.phase == Unreachable)
              && (Shows(c.agents[k].agent.status, Pending, Unknown) <==> c.agents[k].agent.status.phase in {Pending, NoPhase})
    {
      PhaseShows(c.agents[k].agent.status);
    }
    CellCounts(c, order, Ready, Healthy, set k | k in c.agents && c.agents[k].agent.status.phase == Ready);
    CellCounts(c, order, Error, Unhealthy, set k | k in c.agents && c.agents[k].agent.status.phase == Error);
    CellCounts(c, order, Unreachable, Unhealthy, set k | k in c.agents && c.agents[k].agent.status.phase == Unreachable);
    CellCounts(c, order, Pending, Unknown, set k | k in c.agents && c.agents[k].agent.status.phase in {Pending, NoPhase});
  }

  lemma ListingCountsHealthy(c: Cluster, order: seq<Key>)
    requires Lists(order, c)
    ensures HealthyCount(Listing(c, order)) == |set k | k in c.agents && c.agents[k].agent.spec.enabled
                                                      && c.agents[k].agent.status.health == Healthy|
  {
    hide HealthyCount, Where, Listing;
    var healthy := (a: Agent) => a.spec.enabled && a.status.health == Healthy;
    HealthyCountWhere(Listing(c, order), healthy);
    ListingCounts(c, order, healthy, set k | k in c.agents && c.agents[k].agent.spec.enabled && c.agents[k].agent.status.health == Healthy);
  }

  /**
   What a pass shows in any reachable state, whatever order it lists in: every agent in the cell of
   its phase, and the number of agents that are enabled and Healthy.
   */
  lemma PassCountsThePhases(actions: seq<Protocol.Action>, order: seq<Key>)
    requires Lists(order, Protocol.Run(actions).cluster)
    ensures var c := Protocol.Run(actions).cluster;
            && CountsPhases(GaugeOf(Listing(c, order)), c)
            && HealthyCount(Listing(c, order)) == |set k | k in c.agents && c.agents[k].agent.spec.enabled
                                                         && c.agents[k].agent.status.health == Healthy|
  {
    hide Protocol.Run, CountsPhases, GaugeOf, HealthyCount, WellFormed;
    ReachableAreWellFormed(actions);
    ListingCountsPhases(Protocol.Run(actions).cluster, order);
    ListingCountsHealthy(Protocol.Run(actions).cluster, order);
  }

  // ----- pruning

  /** Deleting, in listed order, every agent that was stale when listed and whose delete is not refused. */
  function PruneListed(c: Cluster, listed: Cluster, order: seq<Key>, now: nat, refused: set<Key>): Cluster
    requires forall k :: k in order ==> k in listed.agents
  {
    if order == [] then c
    else
      var k := order[|order| - 1];
      var c' := PruneListed(c, listed, order[..|order| - 1], now, refused);
      if Stale(listed.agents[k].agent.status, now) && k !in refused then Delete(c', k) else c'
  }

  /** Exactly the stale agents are deleted, or marked if they carry the finalizer; the rest are untouched. */
  lemma {:induction false} PrunesExactlyTheStale(c: Cluster, order: seq<Key>, now: nat, refused: set<Key>)
    requires forall k :: k in order ==> k in c.agents
    requires forall i, j :: 0 <= i < j < |order| ==> order[i] != order[j]
    ensures var c' := PruneListed(c, c, order, now, refused);
            forall k :: k in c.agents ==>
              var hit := k in order && Stale(c.agents[k].agent.status, now) && k !in refused;
              && (!hit ==> k in c'.agents && c'.agents[k] == c.agents[k])
              && (hit && !c.agents[k].agent.finalizer ==> k !in c'.agents)
              && (hit && c.agents[k].agent.finalizer ==> k in c'.agents && c'.agents[k].agent == c.agents[k].agent.(deleting := true))
    ensures PruneListed(c, c, order, now, refused).agents.Keys <= c.agents.Keys
  {
    if order != [] {
      var rest := order[..|order| - 1];
      var last := order[|order| - 1];
      assert forall k :: k in order <==> k in rest || k == last;
      assert last !in rest;
      PrunesExactlyTheStale(c, rest, now, refused);
    }
  }

  /** The last success is more than a week old, only failures followed, and the last reconcile failed at the threshold. */
  ghost predicate Deserves(log: Log, now: nat) {
    LongFailing(Checks(log), now) && exists i :: EndsInThreshold(log, i)
  }

  /**
   A registry pass in any reachable state removes, or marks for deletion, exactly the agents whose
   committed life deserves it, except those whose delete call is refused; it touches nobody else.
   */
  lemma PassPrunesExactlyTheDeserving(actions: seq<Protocol.Action>, order: seq<Key>, now: nat, refused: set<Key>)
    requires Lists(order, Protocol.Run(actions).cluster)
    ensures var s := Protocol.Run(actions);
            var c' := PruneListed(s.cluster, s.cluster, order, now, refused);
            forall k :: k in s.cluster.agents ==>
              var pruned := Deserves(Protocol.LogOf(s, s.cluster.agents[k].agent.uid), now) && k !in refused;
              && (pruned && k in c'.agents ==> c'.agents[k].agent.deleting)
              && (pruned && !s.cluster.agents[k].agent.finalizer ==> k !in c'.agents)
              && (!pruned ==> k in c'.agents && c'.agents[k] == s.cluster.agents[k])
  {
    hide Protocol.Run, Replay, Decide, PruneListed, Delete, Stale, LongFailing, EndsInThreshold;
    var s := Protocol.Run(actions);
    Protocol.RunsAreSerial(actions);
    PrunesExactlyTheStale(s.cluster, order, now, refused);
    forall k | k in s.cluster.agents
      ensures Stale(s.cluster.agents[k].agent.status, now) <==> Deserves(Protocol.LogOf(s, s.cluster.agents[k].agent.uid), now)
    {
      assert Protocol.StoredOk(s, k);
      StaleIffLongFailing(s.logs[s.cluster.agents[k].agent.uid], now);
    }
  }

  /** The agents an AgentPruned event is emitted for: the stale ones, in listed order, refused or not. */
  function StaleKeys(listed: Cluster, order: seq<Key>, now: nat): seq<Key>
    requires forall k :: k in order ==> k in listed.agents
  {
    if order == [] then []
    else
      var k := order[|order| - 1];
      StaleKeys(listed, order[..|order| - 1], now) + (if Stale(listed.agents[k].agent.status, now) then [k] else [])
  }

  lemma {:induction false} StaleKeysAreStale(listed: Cluster, order: seq<Key>, now: nat)
    requires forall k :: k in order ==> k in listed.agents
    ensures forall k :: k in StaleKeys(listed, order, now) <==> k in order && Stale(listed.agents[k].agent.status, now)
    ensures (forall i, j :: 0 <= i < j < |order| ==> order[i] != order[j]) ==>
              forall i, j :: 0 <= i < j < |StaleKeys(listed, order, now)| ==> StaleKeys(listed, order, now)[i] != StaleKeys(listed, order, now)[j]
  {
    if order != [] {
      var rest := order[..|order| - 1];
      StaleKeysAreStale(listed, rest, now);
      assert forall k :: k in order <==> k in rest || k == order[|order| - 1];
    }
  }

  // ----- the reconciler

  class RegistryReconciler {
    const client: ApiClient
    var gauge: Gauge
    var agentCount: int32
    var healthyAgents: int32
    var prunedEvents: seq<Key>

    constructor (client: ApiClient)
      ensures this.client == client
    {
      this.client, gauge, agentCount, healthyAgents, prunedEvents := client, map[], 0, 0, [];
    }

    method CountAgents(agents: seq<Agent>) returns (healthy: int32)
      modifies this`gauge
      ensures gauge == GaugeOf(agents) && healthy == Count32(HealthyCount(agents))
      ensures forall p, h :: p != NoPhase && h != NoHealth ==>
                (if Cell(p, h) in gauge then gauge[Cell(p, h)] else 0) == |set i | 0 <= i < |agents| && Shows(agents[i].status, p, h)|
      ensures healthy == Count32(|set i | 0 <= i < |agents| && agents[i].spec.enabled && agents[i].status.health == Healthy|)
    {
      gauge := map[];
      healthy := 0;
      for i := 0 to |agents|
        invariant gauge == GaugeOf(agents[..i]) && healthy == Count32(HealthyCount(agents[..i]))
      {
        assert agents[..i + 1][..i] == agents[..i];
        var agent := agents[i];
        if agent.spec.enabled && agent.status.health == Healthy {
          healthy := Next32(healthy);
        }
        var phase := agent.status.phase;
        if phase == NoPhase {
          phase := Pending;
        }
        var health := agent.status.health;
        if health == NoHealth {
          health := Unknown;
        }
        gauge := Inc(gauge, Cell(phase, health));
      }
      assert agents[..|agents|] == agents;
      forall p, h | p != NoPhase && h != NoHealth
        ensures (if Cell(p, h) in gauge then gauge[Cell(p, h)] else 0) == |set i | 0 <= i < |agents| && Shows(agents[i].status, p, h)|
      {
        GaugeIs(agents, p, h);
      }
      HealthyCountIs(agents);
    }

    /** The pruning loop over what was listed; refused holds the agents whose delete call fails. */
    method PruneStale(items: seq<Agent>, order: seq<Key>, now: nat, refused: set<Key>)
      requires Lists(order, client.cluster) && items == Listing(client.cluster, order)
      modifies this`prunedEvents, client`cluster
      ensures client.cluster == PruneListed(old(client.cluster), old(client.cluster), order, now, refused)
      ensures prunedEvents == old(prunedEvents) + StaleKeys(old(client.cluster), order, now)
    {
      hide Delete;
      ghost var was := client.cluster;
      for i := 0 to |order|
        invariant client.cluster == PruneListed(was, was, order[..i], now, refused)
        invariant prunedEvents == old(prunedEvents) + StaleKeys(was, order[..i], now)
      {
        assert order[..i + 1][..i] == order[..i];
        var agent := items[i];
        if agent.status.phase == Unreachable {
          if agent.status.lastHeartbeat.Some? {
            if agent.status.lastHeartbeat.value < now - WEEK {
              prunedEvents := prunedEvents + [order[i]];
              if order[i] !in refused {
                client.cluster := Delete(client.cluster, order[i]);
              }
            }
          }
        }
      }
      assert order[..|order|] == order;
    }

    /** A pass over the agents: all counts are taken from the listing, before anybody is pruned. */
    method Reconcile(order: seq<Key>, now: nat, refused: set<Key>)
      requires Lists(order, client.cluster)
      modifies this, client`cluster
      ensures var was := old(client.cluster);
              && client.cluster == PruneListed(was, was, order, now, refused)
              && gauge == GaugeOf(Listing(was, order))
              && prunedEvents == old(prunedEvents) + StaleKeys(was, order, now)
              && agentCount == Count32(|order|) && healthyAgents == Count32(HealthyCount(Listing(was, order)))
    {
      hide PruneListed, GaugeOf, StaleKeys, Count32, HealthyCount;
      var items := Listing(client.cluster, order);
      var total := Count32(|items|);
      var healthy := CountAgents(items);
      PruneStale(items, order, now, refused);
      agentCount := total;
      healthyAgents := healthy;
    }
  }
}

/** Reconciling many agents: the order does not matter, and the result is one pointwise update. */
module Sweep {
  import opened Types
  import opened Lifecycle
  import opened Store
  import opened Controller
  import opened Conditions

  function AgentsOf(c: Cluster): map<Key, Agent> {
    map k | k in c.agents :: c.agents[k].agent
  }

  predicate Faultless(call: Call) {
    !call.getFails && !call.updateFails && !call.listFails && !call.statusFails
  }

  /** Every key is a different live agent with a faultless call that lists the whole store. */
  ghost predicate Sweepable(c: Cluster, keys: seq<Key>, calls: map<Key, Call>) {
    && (forall i :: 0 <= i < |keys| ==> LiveCall(c, keys[i], calls))
    && (forall i, j :: 0 <= i < j < |keys| ==> keys[i] != keys[j])
  }

  ghost predicate LiveCall(c: Cluster, k: Key, calls: map<Key, Call>) {
    && k in c.agents && !c.agents[k].agent.deleting && k in calls
    && Faultless(calls[k]) && calls[k].attempts != [] && Lists(calls[k].order, c)
  }

  /** Reconciling the keys one after the other. */
  ghost function ReconcileAll(c: Cluster, keys: seq<Key>, calls: map<Key, Call>): Cluster {
    if keys == [] then c
    else
      var c' := ReconcileAll(c, keys[..|keys| - 1], calls);
      var k := keys[|keys| - 1];
      if k in calls && Lists(calls[k].order, c') && calls[k].attempts != [] then ReconcileEffect(c', k, calls[k]).cluster else c'
  }

  /** What one agent becomes, read off the store before anybody was reconciled. */
  ghost function After(c: Cluster, k: Key, call: Call): Agent
    requires k in c.agents && Lists(call.order, c) && call.attempts != []
  {
    var a := c.agents[k].agent;
    var o := Decide(a.spec, a.generation, a.status, ConflictRead(c, k, a.spec.url, call), EnvOf(call));
    a.(finalizer := true, status := if o.written then o.status else a.status)
  }

  ghost function Pointwise(c: Cluster, keys: seq<Key>, calls: map<Key, Call>): map<Key, Agent>
    requires Sweepable(c, keys, calls)
  {
    map k | k in c.agents :: if k in keys then assert LiveCall(c, k, calls); After(c, k, calls[k]) else c.agents[k].agent
  }

  /** Conflicts depend on the URLs alone. */
  lemma {:induction false} ConflictSameUrls(c: Cluster, c': Cluster, order: seq<Key>, self: Key, url: string)
    requires forall k :: k in order ==> k in c.agents && k in c'.agents && Url(c', k) == Url(c, k)
    ensures Conflict(c', order, self, url) == Conflict(c, order, self, url)
  {
    if order != [] {
      ConflictSameUrls(c, c', order[1..], self, url);
    }
  }

  lemma PutOne(c: Cluster, k: Key, a: Agent)
    ensures AgentsOf(Put(c, k, a)) == AgentsOf(c)[k := a]
  {
  }

  /** The part of a reconcile after the finalizer, as read off any store with the same URLs. */
  lemma LiveOne(c: Cluster, c1: Cluster, k: Key, call: Call)
    requires k in c.agents && Faultless(call) && call.attempts != [] && Lists(call.order, c) && Lists(call.order, c1)
    requires c1.agents.Keys == c.agents.Keys && c1.agents[k].agent == c.agents[k].agent.(finalizer := true)
    requires forall j :: j in c.agents ==> Url(c1, j) == Url(c, j)
    ensures AgentsOf(LiveEffect(c1, k, call).cluster) == AgentsOf(c1)[k := After(c, k, call)]
  {
    hide Decide, Conflict, EnvOf, Put, AgentsOf;
    var a := c.agents[k].agent;
    ConflictSameUrls(c, c1, call.order, k, a.spec.url);
    PutOne(c1, k, After(c, k, call));
    assert AgentsOf(c1)[k := c1.agents[k].agent] == AgentsOf(c1) by { AgentsOfAt(c1); }
  }

  /** One faultless reconcile changes its own agent only, as read off any store with the same URLs. */
  lemma ReconcileOne(c: Cluster, c': Cluster, k: Key, call: Call)
    requires k in c.agents && !c.agents[k].agent.deleting && Faultless(call) && call.attempts != [] && Lists(call.order, c)
    requires c'.agents.Keys == c.agents.Keys && c'.agents[k].agent == c.agents[k].agent
    requires forall j :: j in c.agents ==> Url(c', j) == Url(c, j)
    ensures Lists(call.order, c')
    ensures AgentsOf(ReconcileEffect(c', k, call).cluster) == AgentsOf(c')[k := After(c, k, call)]
  {
    hide LiveEffect, After, AgentsOf;
    var a := c.agents[k].agent;
    assert Lists(call.order, c');
    if a.finalizer {
      LiveOne(c, c', k, call);
    } else {
      var c1 := Put(c', k, a.(finalizer := true));
      assert c1.agents.Keys == c.agents.Keys && Lists(call.order, c1);
      PutOne(c', k, a.(finalizer := true));
      hide Put;
      LiveOne(c, c1, k, call);
    }
  }

  lemma AgentsOfAt(c: Cluster)
    ensures AgentsOf(c).Keys == c.agents.Keys
    ensures forall k :: k in c.agents ==> AgentsOf(c)[k] == c.agents[k].agent
  {
  }

  /** A partly swept store has the old URLs, and the old value of everyone not yet swept. */
  lemma PartlySwept(c: Cluster, c': Cluster, keys: seq<Key>, calls: map<Key, Call>)
    requires Sweepable(c, keys, calls) && AgentsOf(c') == Pointwise(c, keys, calls)
    ensures c'.agents.Keys == c.agents.Keys
    ensures forall j :: j in c.agents ==> Url(c', j) == Url(c, j)
    ensures forall j :: j in c.agents && j !in keys ==> c'.agents[j].agent == c.agents[j].agent
  {
    hide After, ReconcileEffect;
    AgentsOfAt(c');
    assert Pointwise(c, keys, calls).Keys == c.agents.Keys;
    forall j | j in c.agents ensures Url(c', j) == Url(c, j) {
      assert c'.agents[j].agent == Pointwise(c, keys, calls)[j];
      if j in keys {
        assert LiveCall(c, j, calls);
        AfterKeepsSpec(c, j, calls[j]);
      }
    }
  }

  /** Sweeping one more key extends the pointwise update by that key. */
  lemma PointwiseExtends(c: Cluster, keys: seq<Key>, calls: map<Key, Call>)
    requires Sweepable(c, keys, calls) && keys != []
    ensures var k := keys[|keys| - 1];
            var rest := keys[..|keys| - 1];
            && LiveCall(c, k, calls) && Sweepable(c, rest, calls) && k !in rest
            && Pointwise(c, keys, calls) == Pointwise(c, rest, calls)[k := After(c, k, calls[k])]
  {
    hide After;
    var k := keys[|keys| - 1];
    var rest := keys[..|keys| - 1];
    assert LiveCall(c, keys[|keys| - 1], calls);
    assert forall i :: 0 <= i < |rest| ==> rest[i] == keys[i];
    assert forall j :: j in keys <==> j in rest || j == k;
  }

  /**
   Reconciling distinct agents once each, in the given order, equals one simultaneous pointwise
   update computed from the store before the first of them.
   */
  lemma {:induction false} SweepIsPointwise(c: Cluster, keys: seq<Key>, calls: map<Key, Call>)
    requires Sweepable(c, keys, calls)
    ensures AgentsOf(ReconcileAll(c, keys, calls)) == Pointwise(c, keys, calls)
  {
    hide After, ReconcileEffect, Pointwise, Sweepable, AgentsOf;
    if keys == [] {
      SweepNobody(c, calls);
    } else {
      var rest := keys[..|keys| - 1];
      var k := keys[|keys| - 1];
      PointwiseExtends(c, keys, calls);
      SweepIsPointwise(c, rest, calls);
      var c' := ReconcileAll(c, rest, calls);
      PartlySwept(c, c', rest, calls);
      ReconcileOne(c, c', k, calls[k]);
    }
  }

  lemma SweepNobody(c: Cluster, calls: map<Key, Call>)
    ensures AgentsOf(c) == Pointwise(c, [], calls)
  {
  }

  lemma AfterKeepsSpec(c: Cluster, k: Key, call: Call)
    requires k in c.agents && Lists(call.order, c) && call.attempts != []
    ensures After(c, k, call).spec == c.agents[k].agent.spec && !After(c, k, call).deleting == !c.agents[k].agent.deleting
  {
  }

  /** The order of reconciliation is irrelevant; in particular any two reconciles of different agents commute. */
  lemma SweepOrderIrrelevant(c: Cluster, keys: seq<Key>, others: seq<Key>, calls: map<Key, Call>)
    requires Sweepable(c, keys, calls) && Sweepable(c, others, calls)
    requires forall k :: k in keys <==> k in others
    ensures AgentsOf(ReconcileAll(c, keys, calls)) == AgentsOf(ReconcileAll(c, others, calls))
  {
    hide After, ReconcileEffect;
    SweepIsPointwise(c, keys, calls);
    SweepIsPointwise(c, others, calls);
  }

  /**
   After the sweep exactly the agents whose URL is shared, enabled or not, show the conflict: phase
   Error, health Unhealthy, and a message naming another agent that has the URL.
   */
  lemma SharedUrlsAreFlagged(c: Cluster, keys: seq<Key>, calls: map<Key, Call>, k: Key)
    requires Sweepable(c, keys, calls) && k in keys && WellFormed(c.agents[k].agent.status)
    ensures k in AgentsOf(ReconcileAll(c, keys, calls))
    ensures var after := AgentsOf(ReconcileAll(c, keys, calls))[k].status;
            && (Taken(c, k, Url(c, k)) <==> after.message.UrlConflict?)
            && (Taken(c, k, Url(c, k)) ==>
                  && after.phase == Error && after.health == Unhealthy && after.message.url == Url(c, k)
                  && after.message.holder in c.agents && after.message.holder != k && Url(c, after.message.holder) == Url(c, k))
  {
    hide Decide, Conflict, ReconcileEffect;
    assert LiveCall(c, k, calls);
    SweepIsPointwise(c, keys, calls);
    var a := c.agents[k].agent;
    var call := calls[k];
    ConflictIffTaken(c, call.order, k, a.spec.url);
    ConflictHit(c, call.order, k, a.spec.url);
    OnlyConflictsSaySo(a.spec, a.generation, a.status, ConflictRead(c, k, a.spec.url, call), EnvOf(call));
  }

  lemma OnlyConflictsSaySo(spec: Spec, generation: int, st: Status, conflict: Option<Key>, env: Env)
    requires WellFormed(st)
    ensures var o := Decide(spec, generation, st, conflict, env);
            var after := if o.written then o.status else st;
            && (after.message.UrlConflict? <==> conflict.Some?)
            && (conflict.Some? ==> after.phase == Error && after.health == Unhealthy && after.message == UrlConflict(spec.url, conflict.value))
  {
    hide DecideEnabled, UniqueKinds;
    DecideSays(spec, generation, st, conflict, env);
    ExitOrder(spec, generation, st, conflict, env);
  }
}

/** The API server's store of agents: version-checked writes, finalizers, listing. */
module Store {
  import opened Types

  datatype Agent = Agent(uid: nat, generation: int, spec: Spec, status: Status, finalizer: bool, deleting: bool)

  datatype Stored = Stored(version: nat, agent: Agent)

  /** Versions and uids are handed out in increasing order and never reused. */
  datatype Cluster = Cluster(agents: map<Key, Stored>, nextVersion: nat, nextUid: nat)

  const EMPTY_CLUSTER := Cluster(map[], 0, 0)

  predicate Current(c: Cluster, key: Key, version: nat) {
    key in c.agents && c.agents[key].version == version
  }

  function Put(c: Cluster, key: Key, agent: Agent): Cluster {
    c.(agents := c.agents[key := Stored(c.nextVersion, agent)], nextVersion := c.nextVersion + 1)
  }

  function PutStatus(c: Cluster, key: Key, status: Status): Cluster
    requires key in c.agents
  {
    Put(c, key, c.agents[key].agent.(status := status))
  }

  function Remove(c: Cluster, key: Key): Cluster {
    c.(agents := c.agents - {key})
  }

  /** A create; whatever status it carries is dropped. */
  function Create(c: Cluster, key: Key, spec: Spec): Cluster {
    if key in c.agents then c
    else Put(c, key, Agent(c.nextUid, 1, spec, EMPTY_STATUS, false, false)).(nextUid := c.nextUid + 1)
  }

  /** A delete removes an agent without finalizer and only marks one that has it. */
  function Delete(c: Cluster, key: Key): Cluster {
    if key !in c.agents then c
    else if !c.agents[key].agent.finalizer then Remove(c, key)
    else if c.agents[key].agent.deleting then c
    else Put(c, key, c.agents[key].agent.(deleting := true))
  }

  function UpdateSpec(c: Cluster, key: Key, spec: Spec): Cluster {
    if key !in c.agents then c
    else var a := c.agents[key].agent; Put(c, key, a.(spec := spec, generation := a.generation + 1))
  }

  /** A listing shows every agent exactly once, in an order of the server's choosing. */
  ghost predicate Lists(order: seq<Key>, c: Cluster) {
    && (forall k :: k in order <==> k in c.agents)
    && forall i, j :: 0 <= i < j < |order| ==> order[i] != order[j]
  }

  function Url(c: Cluster, key: Key): string
    requires key in c.agents
  {
    c.agents[key].agent.spec.url
  }

  /** Some other agent has this URL. */
  ghost predicate Taken(c: Cluster, self: Key, url: string) {
    exists k :: k in c.agents && k != self && Url(c, k) == url
  }

  /** Any agent has this URL. */
  ghost predicate UrlInUse(c: Cluster, url: string) {
    exists k :: k in c.agents && Url(c, k) == url
  }

  /** The first listed other agent with this URL. */
  function Conflict(c: Cluster, order: seq<Key>, self: Key, url: string): Option<Key>
    requires forall k :: k in order ==> k in c.agents
  {
    if order == [] then None
    else if order[0] != self && Url(c, order[0]) == url then Some(order[0])
    else Conflict(c, order[1..], self, url)
  }

  lemma {:induction false} ConflictHit(c: Cluster, order: seq<Key>, self: Key, url: string)
    requires forall k :: k in order ==> k in c.agents
    ensures var r := Conflict(c, order, self, url);
            && (r.Some? ==> exists i :: 0 <= i < |order| && r.value == order[i] && r.value != self && Url(c, r.value) == url
                                        && forall j :: 0 <= j < i ==> order[j] == self || Url(c, order[j]) != url)
            && (r.None? ==> forall k :: k in order && k != self ==> Url(c, k) != url)
  {
    if order != [] {
      ConflictHit(c, order[1..], self, url);
      assert forall i :: 0 < i < |order| ==> order[i] == order[1..][i - 1];
      var r := Conflict(c, order, self, url);
      if r.Some? && !(order[0] != self && Url(c, order[0]) == url) {
        var i :| 0 <= i < |order[1..]| && r.value == order[1..][i] && r.value != self && Url(c, r.value) == url
                 && forall j :: 0 <= j < i ==> order[1..][j] == self || Url(c, order[1..][j]) != url;
        assert r.value == order[i + 1];
      }
      assert forall k :: k in order <==> k == order[0] || k in order[1..];
    }
  }

  /** Whichever order the server lists in, a conflict is found exactly when the URL is taken. */
  lemma ConflictIffTaken(c: Cluster, order: seq<Key>, self: Key, url: string)
    requires Lists(order, c)
    ensures Conflict(c, order, self, url).Some? <==> Taken(c, self, url)
  {
    ConflictHit(c, order, self, url);
    var r := Conflict(c, order, self, url);
    if r.Some? {
      assert r.value in c.agents && r.value != self && Url(c, r.value) == url;
    }
  }
}

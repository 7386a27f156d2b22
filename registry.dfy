/** The live-script registry: GlaiScriptManager's map from id to
    ScriptContainer, and the container's one-shot release that runs a
    script's cleanups and takes it out of the registry. */
module Registry {
  import opened Kotlin

  /** A running script, as far as the registry sees it: its base id. */
  datatype Script = Script(baseId: string)

  /** A cleanup registered with addResource: its close() either returns or
      throws. `id` tells registrations apart. */
  datatype Resource = Resource(id: nat, throws: bool)

  /** How many cleanups one pass of `resources.forEach { it.close() }` inside
      a single try runs: all of them, or up to and including the first that
      throws. */
  function CloseCount(rs: seq<Resource>): (k: nat)
    ensures k <= |rs|
    ensures forall i :: 0 <= i < k - 1 ==> !rs[i].throws
    ensures k < |rs| ==> k >= 1 && rs[k - 1].throws
    ensures (forall i :: 0 <= i < |rs| ==> !rs[i].throws) ==> k == |rs|
  {
    if rs == [] then 0
    else if rs[0].throws then 1
    else 1 + CloseCount(rs[1..])
  }

  /** When the first throwing cleanup is the i-th, the pass runs i + 1. */
  lemma CloseCountAt(rs: seq<Resource>, i: nat)
    requires i < |rs| && rs[i].throws
    requires forall j :: 0 <= j < i ==> !rs[j].throws
    ensures CloseCount(rs) == i + 1
  {
  }

  /** The cleanups release() runs, in the order they were added. */
  function ClosedOnRelease(rs: seq<Resource>): (closed: seq<Resource>)
    ensures |closed| <= |rs| && closed == rs[..|closed|]
  {
    rs[..CloseCount(rs)]
  }

  /** A throwing cleanup stops the pass: no cleanup after it runs. */
  lemma {:induction false} ThrowSkipsRest(rs: seq<Resource>, i: nat)
    requires i < |rs| && rs[i].throws
    ensures |ClosedOnRelease(rs)| <= i + 1
    ensures forall j :: i < j < |rs| ==> rs[j] !in ClosedOnRelease(rs) || rs[j] in rs[..i + 1]
    decreases i
  {
    if i > 0 && !rs[0].throws {
      ThrowSkipsRest(rs[1..], i - 1);
      assert rs[1..][..i] == rs[1..i + 1];
    }
    assert ClosedOnRelease(rs) == rs[..CloseCount(rs)];
    forall j | i < j < |rs| && rs[j] in ClosedOnRelease(rs)
      ensures rs[j] in rs[..i + 1]
    {
      var k :| 0 <= k < |ClosedOnRelease(rs)| && ClosedOnRelease(rs)[k] == rs[j];
      assert rs[..i + 1][k] == rs[j];
    }
  }

  /** Without a throwing cleanup, every cleanup runs. */
  lemma NoThrowClosesAll(rs: seq<Resource>)
    requires forall i :: 0 <= i < |rs| ==> !rs[i].throws
    ensures ClosedOnRelease(rs) == rs
  {
  }

  /** GlaiScriptManager: the active containers by id. */
  class ScriptManager {
    var containers: map<string, ScriptContainer>

    constructor ()
      ensures containers == map[] && Consistent()
    {
      containers := map[];
    }

    /** Every entry is an enabled container of this manager, filed under its
        own base id: the state registration by base id keeps. */
    ghost predicate Consistent()
      reads this, containers.Values
    {
      forall id :: id in containers ==>
        && containers[id].baseId == id
        && containers[id].isEnabled
        && containers[id].manager == this
        && containers[id].Valid()
    }

    /** registerScriptContainer(id, script): a new container is stored under
        id, replacing any entry there without releasing it. */
    method Register(id: string, script: Script) returns (c: ScriptContainer)
      modifies this
      ensures fresh(c)
      ensures c.script == script && c.baseId == script.baseId && c.manager == this
      ensures c.isEnabled && c.resources == [] && c.closed == [] && c.Valid()
      ensures containers == old(containers)[id := c]
      ensures old(Consistent()) && id == script.baseId ==> Consistent()
    {
      c := new ScriptContainer(script, this);
      containers := containers[id := c];
    }

    /** unregisterScriptContainer(c): the key c.baseId is removed, whatever
        container it holds. */
    method Unregister(c: ScriptContainer)
      modifies this
      ensures containers == old(containers) - {c.baseId}
    {
      containers := containers - {c.baseId};
    }

    /** getScriptContainer(id): the container stored under id, or null. */
    function Get(id: string): (r: Option<ScriptContainer>)
      reads this
      ensures r.Some? <==> id in containers
      ensures r.Some? ==> r.value == containers[id]
    {
      if id in containers then Some(containers[id]) else None
    }

    /** getScriptContainers(): a list with one entry per key, holding every
        stored container. */
    method GetAll() returns (s: seq<ScriptContainer>)
      ensures |s| == |containers.Keys|
      ensures forall c :: c in s <==> c in containers.Values
      ensures Injective() ==> NoDuplicates(s)
    {
      s := [];
      ghost var ids: seq<string> := [];
      var left := containers.Keys;
      while left != {}
        invariant left <= containers.Keys
        invariant |s| == |ids| && |s| + |left| == |containers.Keys|
        invariant forall k :: 0 <= k < |ids| ==> ids[k] in containers && ids[k] !in left && s[k] == containers[ids[k]]
        invariant forall id :: id in containers.Keys - left ==> id in ids
        invariant NoDuplicates(ids)
        decreases |left|
      {
        var id :| id in left;
        s := s + [containers[id]];
        ids := ids + [id];
        left := left - {id};
      }
      forall c | c in containers.Values
        ensures c in s
      {
        var id :| id in containers && containers[id] == c;
        assert id in containers.Keys - left;
        var k :| 0 <= k < |ids| && ids[k] == id;
        assert s[k] == c;
      }
    }

    /** No container is stored under two ids. */
    ghost predicate Injective()
      reads this
    {
      forall a, b :: a in containers && b in containers && a != b ==> containers[a] != containers[b]
    }

    /** In a registry filed by base ids every key is the base id of an
        enabled container. */
    lemma ConsistentKeysEnabled()
      requires Consistent()
      ensures containers.Keys <= EnabledIds(containers.Values)
    {
      forall id | id in containers
        ensures id in EnabledIds(containers.Values)
      {
        assert containers[id] in containers.Values;
      }
    }

    /** Filing every container under its own base id stores each under one id only. */
    lemma ConsistentInjective()
      requires Consistent()
      ensures Injective()
    {
    }
  }

  /** ScriptContainer: a script's cleanups and whether it is still enabled.
      `closed` logs the cleanups that have been run. */
  class ScriptContainer {
    const script: Script
    const baseId: string
    const manager: ScriptManager
    var resources: seq<Resource>
    var closed: seq<Resource>
    var isEnabled: bool

    /** While enabled nothing has been closed; afterwards what was closed is
        a prefix of the cleanups, so none was run twice. */
    ghost predicate Valid()
      reads this
    {
      && |closed| <= |resources|
      && closed == resources[..|closed|]
      && (isEnabled ==> closed == [])
    }

    constructor (script: Script, manager: ScriptManager)
      ensures this.script == script && baseId == script.baseId && this.manager == manager
      ensures isEnabled && resources == [] && closed == [] && Valid()
    {
      this.script := script;
      baseId := script.baseId;
      this.manager := manager;
      resources := [];
      closed := [];
      isEnabled := true;
    }

    /** addResource: one cleanup appended at the end, enabled or not. */
    method AddResource(r: Resource)
      requires Valid()
      modifies this
      ensures Valid()
      ensures resources == old(resources) + [r]
      ensures closed == old(closed) && isEnabled == old(isEnabled)
    {
      resources := resources + [r];
      assert (resources)[..|closed|] == old(resources)[..|closed|];
    }

    /** release(): once only. It disables the container, runs the cleanups in
        order until one throws, and unregisters the base id. On a disabled
        container it does nothing. */
    method Release()
      requires Valid()
      modifies this, manager
      ensures Valid() && !isEnabled
      ensures resources == old(resources)
      ensures old(isEnabled) ==> closed == ClosedOnRelease(resources)
      ensures old(isEnabled) ==> manager.containers == old(manager.containers) - {baseId}
      ensures !old(isEnabled) ==> closed == old(closed) && manager.containers == old(manager.containers)
    {
      if isEnabled {
        isEnabled := false;
        CloseResources();
        manager.Unregister(this);
      }
    }

    /** `resources.forEach { it.close() }` inside one try: the cleanups run
        in order, and the first that throws ends the pass. */
    method CloseResources()
      requires closed == []
      modifies this
      ensures closed == ClosedOnRelease(resources)
      ensures resources == old(resources) && isEnabled == old(isEnabled)
    {
      var rs := resources;
      var i := 0;
      while i < |rs|
        invariant 0 <= i <= |rs|
        invariant closed == rs[..i]
        invariant forall j :: 0 <= j < i ==> !rs[j].throws
        invariant resources == rs && isEnabled == old(isEnabled)
        decreases |rs| - i
      {
        closed := closed + [rs[i]];
        assert closed == rs[..i + 1];
        if rs[i].throws {
          CloseCountAt(rs, i);
          return;
        }
        i := i + 1;
      }
    }
  }

  /** GlaiKit.onDisable: every container in a snapshot of the registry is
      released. Each enabled one is disabled, runs its cleanups and takes its
      base id out of the registry; one already disabled is left as it is.
      An entry filed under an id other than its container's base id
      survives. */
  method ReleaseAll(m: ScriptManager)
    requires forall c :: c in m.containers.Values ==> c.Valid() && c.manager == m
    modifies m, m.containers.Values
    ensures forall c :: c in old(m.containers.Values) ==>
      && !c.isEnabled && c.Valid() && c.resources == old(c.resources)
      && c.closed == (if old(c.isEnabled) then ClosedOnRelease(c.resources) else old(c.closed))
    ensures m.containers.Keys == old(m.containers.Keys) - old(EnabledIds(m.containers.Values))
    ensures forall id :: id in m.containers ==> m.containers[id] == old(m.containers[id])
    ensures old(m.Consistent()) ==> m.containers == map[]
  {
    ghost var consistent := m.Consistent();
    if consistent {
      m.ConsistentKeysEnabled();
    }
    ReleaseSnapshot(m);
    if consistent {
      assert m.containers.Keys == {};
    }
  }

  /** The body of onDisable: a snapshot is taken and each of its
      containers released in turn. */
  method ReleaseSnapshot(m: ScriptManager)
    requires forall c :: c in m.containers.Values ==> c.Valid() && c.manager == m
    modifies m, m.containers.Values
    ensures forall c :: c in old(m.containers.Values) ==>
      && !c.isEnabled && c.Valid() && c.resources == old(c.resources)
      && c.closed == (if old(c.isEnabled) then ClosedOnRelease(c.resources) else old(c.closed))
    ensures m.containers.Keys == old(m.containers.Keys) - old(EnabledIds(m.containers.Values))
    ensures forall id :: id in m.containers ==> m.containers[id] == old(m.containers[id])
  {
    var snapshot := m.GetAll();
    ghost var start := StartOf(m);
    ReleaseEach(m, snapshot, start);
  }

  /** The state onDisable starts from. */
  ghost function StartOf(m: ScriptManager): (start: Start)
    requires forall c :: c in m.containers.Values ==> c.Valid() && c.manager == m
    reads m, m.containers.Values
    ensures start.containers == m.containers && start.values == m.containers.Values
    ensures start.closed.Keys == start.resources.Keys == start.values
    ensures forall c :: c in start.values ==> start.closed[c] == c.closed && start.resources[c] == c.resources
    ensures forall c :: c in start.values ==> (c in start.enabled <==> c.isEnabled)
    ensures LiveIds(start.values, start.enabled) == EnabledIds(m.containers.Values)
    ensures Intact(m, start) && ReleasedUpTo({}, start) && RegistryUpTo(m, {}, start)
  {
    Start(m.containers, m.containers.Values,
          map c | c in m.containers.Values :: c.closed,
          map c | c in m.containers.Values :: c.resources,
          set c | c in m.containers.Values && c.isEnabled)
  }

  /** `forEach { it.release() }` over the snapshot. */
  method ReleaseEach(m: ScriptManager, snapshot: seq<ScriptContainer>, ghost start: Start)
    requires forall c :: c in snapshot <==> c in start.values
    requires Intact(m, start) && ReleasedUpTo({}, start) && RegistryUpTo(m, {}, start)
    modifies m, start.values
    ensures forall c :: c in start.values ==>
      && !c.isEnabled && c.Valid() && c.resources == start.resources[c]
      && c.closed == (if c in start.enabled then ClosedOnRelease(c.resources) else start.closed[c])
    ensures m.containers.Keys == start.containers.Keys - LiveIds(start.values, start.enabled)
    ensures forall id :: id in m.containers ==> m.containers[id] == start.containers[id]
  {
    ghost var done: set<ScriptContainer> := {};
    var i := 0;
    while i < |snapshot|
      invariant 0 <= i <= |snapshot|
      invariant done == Elements(snapshot[..i])
      invariant Intact(m, start) && ReleasedUpTo(done, start) && RegistryUpTo(m, done, start)
      decreases |snapshot| - i
    {
      assert snapshot[..i + 1] == snapshot[..i] + [snapshot[i]];
      ReleaseNext(m, snapshot[i], done, start);
      done := done + {snapshot[i]};
      i := i + 1;
    }
    assert snapshot[..i] == snapshot;
    assert done == start.values;
    assert Intact(m, start) && ReleasedUpTo(start.values, start);
  }

  /** The elements of a sequence, as a set. */
  ghost function Elements<T>(s: seq<T>): set<T>
  {
    set x | x in s
  }

  /** The registry and its containers as onDisable found them. */
  datatype Start = Start(containers: map<string, ScriptContainer>, values: set<ScriptContainer>,
                         closed: map<ScriptContainer, seq<Resource>>,
                         resources: map<ScriptContainer, seq<Resource>>, enabled: set<ScriptContainer>)

  /** Every container of the start is still valid, of this manager, with
      the cleanups it had. */
  ghost predicate Intact(m: ScriptManager, start: Start)
    reads start.values
  {
    && start.closed.Keys == start.resources.Keys == start.values
    && forall c :: c in start.values ==>
         c.Valid() && c.manager == m && c.resources == start.resources[c]
  }

  /** The containers released so far are disabled, having run their cleanups
      if they were enabled at the start; the rest are as they were. */
  ghost predicate ReleasedUpTo(done: set<ScriptContainer>, start: Start)
    reads start.values
  {
    forall c :: c in start.values && c in start.closed ==>
      if c in done then
        !c.isEnabled && c.closed == (if c in start.enabled then ClosedOnRelease(c.resources) else start.closed[c])
      else
        c.isEnabled == (c in start.enabled) && c.closed == start.closed[c]
  }

  /** The registry has lost exactly the base ids of the released containers
      that were enabled at the start, and keeps the rest of its entries. */
  ghost predicate RegistryUpTo(m: ScriptManager, done: set<ScriptContainer>, start: Start)
    reads m
  {
    && m.containers.Keys == start.containers.Keys - LiveIds(done, start.enabled)
    && (forall id :: id in m.containers ==> id in start.containers && m.containers[id] == start.containers[id])
  }

  /** The base ids of the containers of cs that are in live. */
  ghost function LiveIds(cs: set<ScriptContainer>, live: set<ScriptContainer>): set<string>
  {
    set c | c in cs && c in live :: c.baseId
  }

  /** The base ids of the enabled containers among cs. */
  ghost function EnabledIds(cs: set<ScriptContainer>): set<string>
    reads cs
  {
    set c | c in cs && c.isEnabled :: c.baseId
  }

  /** One step of onDisable: container c of the snapshot is released. It is
      enabled exactly when it was enabled at the start and has not been
      released yet. */
  method ReleaseNext(m: ScriptManager, c: ScriptContainer, ghost done: set<ScriptContainer>, ghost start: Start)
    requires c in start.values
    requires Intact(m, start) && ReleasedUpTo(done, start) && RegistryUpTo(m, done, start)
    modifies m, c
    ensures Intact(m, start)
    ensures ReleasedUpTo(done + {c}, start)
    ensures RegistryUpTo(m, done + {c}, start)
  {
    LiveIdsAdd(done, c, start.enabled);
    if c in done && c in start.enabled {
      assert c.baseId in LiveIds(done, start.enabled);
    }
    assert c.isEnabled <==> c !in done && c in start.enabled;
    c.Release();
    forall x | x in start.values && x in start.closed
      ensures if x in done + {c} then
          !x.isEnabled && x.closed == (if x in start.enabled then ClosedOnRelease(x.resources) else start.closed[x])
        else
          x.isEnabled == (x in start.enabled) && x.closed == start.closed[x]
    {
      if x != c {
        assert x in done + {c} <==> x in done;
      }
    }
  }

  /** Releasing one more container adds its base id when it was enabled. */
  lemma LiveIdsAdd(done: set<ScriptContainer>, c: ScriptContainer, live: set<ScriptContainer>)
    ensures LiveIds(done + {c}, live) == LiveIds(done, live) + (if c in live then {c.baseId} else {})
  {
    if c in live {
      assert c in done + {c};
    }
  }

  /** The base ids of a list of containers. */
  function Ids(cs: seq<ScriptContainer>): set<string>
  {
    if cs == [] then {} else {cs[0].baseId} + Ids(cs[1..])
  }

  /** An id is listed exactly when some container carries it. */
  lemma {:induction false} IdsMember(cs: seq<ScriptContainer>, x: string)
    ensures x in Ids(cs) <==> exists j :: 0 <= j < |cs| && cs[j].baseId == x
  {
    if cs != [] {
      IdsMember(cs[1..], x);
      if exists j :: 0 <= j < |cs| && cs[j].baseId == x {
        var j :| 0 <= j < |cs| && cs[j].baseId == x;
        if j > 0 { assert cs[1..][j - 1] == cs[j]; }
      }
      if exists j :: 0 <= j < |cs[1..]| && cs[1..][j].baseId == x {
        var j :| 0 <= j < |cs[1..]| && cs[1..][j].baseId == x;
        assert cs[j + 1] == cs[1..][j];
      }
    }
  }

  /** A snapshot of a consistent registry holds each container once, with
      distinct base ids that are exactly the registry's keys. */
  lemma SnapshotIds(m: ScriptManager, snapshot: seq<ScriptContainer>)
    requires m.Consistent() && NoDuplicates(snapshot)
    requires forall c :: c in snapshot <==> c in m.containers.Values
    ensures m.containers.Keys == Ids(snapshot)
    ensures forall j :: 0 <= j < |snapshot| ==>
      snapshot[j].isEnabled && snapshot[j].Valid() && snapshot[j].manager == m
    ensures forall j1, j2 :: 0 <= j1 < j2 < |snapshot| ==> snapshot[j1].baseId != snapshot[j2].baseId
  {
    forall j | 0 <= j < |snapshot|
      ensures snapshot[j].baseId in m.containers && m.containers[snapshot[j].baseId] == snapshot[j]
    {
      assert snapshot[j] in m.containers.Values;
      var id :| id in m.containers && m.containers[id] == snapshot[j];
    }
    forall id | id in m.containers
      ensures id in Ids(snapshot)
    {
      assert m.containers[id] in snapshot;
      var j :| 0 <= j < |snapshot| && snapshot[j] == m.containers[id];
      IdsMember(snapshot, id);
    }
    forall id | id in Ids(snapshot)
      ensures id in m.containers
    {
      IdsMember(snapshot, id);
    }
  }
}

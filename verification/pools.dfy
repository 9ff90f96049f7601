/** The scheduler's reconciliation of directors and thread pools against
    the configured SubmitPools (`__checkSubmitPools`, `__createDirector`,
    `__configureDirector`, `__addPool`), run at the start of every cycle.
 */
module SubmitPools {
  import opened Base
  import opened Assoc
  import opened Registry

  /** One director: its endpoint registry, its thread pool's name and
      whether it may submit in this cycle. */
  datatype DirectorState = DirectorState(endpoints: Endpoints, pool: string, isEnabled: bool)

  type Directors = seq<(string, DirectorState)>

  /** The scheduler agent's directors and thread-pool names. */
  datatype Agent = Agent(directors: Directors, pools: seq<string>)

  predicate Enabled(ds: Directors, name: string) {
    var d := Get(ds, name);
    d.Some? && d.value.isEnabled
  }

  /** `__configureDirector()` without a pool: every director is disabled. */
  function DisableAll(ds: Directors): (r: Directors)
    ensures Keys(r) == Keys(ds)
    ensures DistinctKeys(ds) ==> DistinctKeys(r)
    ensures forall k :: k in Keys(ds) ==> Get(r, k) == Some(Get(ds, k).value.(isEnabled := false))
    ensures forall k :: !Enabled(r, k)
  {
    if |ds| == 0 then []
    else
      KeysCons(ds);
      var rest := DisableAll(ds[1..]);
      var r := [(ds[0].0, ds[0].1.(isEnabled := false))] + rest;
      assert r[1..] == rest;
      KeysCons(r);
      r
  }

  /** `__addPool(name)`: None for an empty name or one already present. */
  function AddPool(pools: seq<string>, name: string): (r: Option<seq<string>>)
    ensures r.None? <==> name == "" || name in pools
    ensures r.Some? ==> r.value == pools + [name]
  {
    if name == "" || name in pools then None else Some(pools + [name])
  }

  /** `__createDirector(submitPool)`: its pool is the `<pool>/Pool` option,
      'Default' when unset; when that pool cannot be added the director is
      not created. */
  function CreateDirector(a: Agent, submitPool: string, poolOption: string -> Option<string>): (r: Agent)
    ensures var pool := PoolOf(submitPool, poolOption);
      (pool == "" && pool !in a.pools ==> r == a)
      && (pool != "" || pool in a.pools ==>
            r.directors == Put(a.directors, submitPool, DirectorState([], pool, false))
            && r.pools == (if pool in a.pools then a.pools else a.pools + [pool]))
  {
    var pool := PoolOf(submitPool, poolOption);
    var pools := if pool in a.pools then Some(a.pools) else AddPool(a.pools, pool);
    match pools
    case None => a
    case Some(ps) => Agent(Put(a.directors, submitPool, DirectorState([], pool, false)), ps)
  }

  function PoolOf(submitPool: string, poolOption: string -> Option<string>): string {
    match poolOption(submitPool + "/Pool")
    case Some(p) => p
    case None => "Default"
  }

  /** `__configureDirector(submitPool)`: aborts the agent when the director
      does not exist; otherwise reloads its registry and enables it.
      `configure` is the director's `configure(section, submitPool)`. */
  function ConfigureDirector(a: Agent, submitPool: string, configure: string -> Py<Endpoints>)
    : (r: Py<Agent>)
    ensures submitPool !in Keys(a.directors) ==> r == Raised(SystemExit)
    ensures submitPool in Keys(a.directors) && configure(submitPool).Raised? ==>
      r == Raised(configure(submitPool).exception)
    ensures r.Returned? ==> r.value.pools == a.pools
    ensures r.Returned? ==>
      r.value.directors == Put(a.directors, submitPool,
           DirectorState(configure(submitPool).value, Get(a.directors, submitPool).value.pool, true))
    ensures r.Raised? ==> r.exception == SystemExit || configure(submitPool) == Raised(r.exception)
  {
    if submitPool !in Keys(a.directors) then Raised(SystemExit)
    else
      var endpoints :- configure(submitPool);
      var d := Get(a.directors, submitPool).value;
      Returned(a.(directors := Put(a.directors, submitPool, d.(endpoints := endpoints, isEnabled := true))))
  }

  /** What the agent keeps between cycles: one entry per director, and
      every director's pool exists. */
  predicate WellFormed(a: Agent) {
    DistinctKeys(a.directors)
    && forall k :: k in Keys(a.directors) ==> Get(a.directors, k).value.pool in a.pools
  }

  /** One turn of the loop: creating the director if needed keeps the agent
      well formed and enables nothing; configuring it then enables it with
      its registry. No other director is touched either way. */
  lemma ConfigureStep(a: Agent, sp: string, poolOption: string -> Option<string>,
                      configure: string -> Py<Endpoints>)
    requires WellFormed(a)
    ensures var created := if sp in Keys(a.directors) then a else CreateDirector(a, sp, poolOption);
      WellFormed(created)
      && (forall k :: Enabled(created.directors, k) ==> Enabled(a.directors, k) || k == sp)
      && (forall p :: p in a.pools ==> p in created.pools)
      && (forall k :: k != sp && k in Keys(a.directors) ==> Get(created.directors, k) == Get(a.directors, k))
    ensures var created := if sp in Keys(a.directors) then a else CreateDirector(a, sp, poolOption);
      var c := ConfigureDirector(created, sp, configure);
      c.Returned? ==>
        WellFormed(c.value)
        && Enabled(c.value.directors, sp)
        && Returned(Get(c.value.directors, sp).value.endpoints) == configure(sp)
        && (forall k :: Enabled(c.value.directors, k) ==> Enabled(a.directors, k) || k == sp)
        && (forall p :: p in a.pools ==> p in c.value.pools)
        && (forall k :: k != sp && k in Keys(a.directors) ==> Get(c.value.directors, k) == Get(a.directors, k))
  {
  }

  /** The first turn followed by the rest of the loop; `ok` says the rest
      ran to its end. */
  lemma ConfigureRest(a: Agent, configured: Agent, r: Agent, ok: bool, submitPools: seq<string>,
                      configure: string -> Py<Endpoints>)
    requires |submitPools| > 0
    requires Enabled(configured.directors, submitPools[0])
    requires Returned(Get(configured.directors, submitPools[0]).value.endpoints) == configure(submitPools[0])
    requires forall k :: Enabled(configured.directors, k) ==> Enabled(a.directors, k) || k == submitPools[0]
    requires forall p :: p in a.pools ==> p in configured.pools
    requires forall k :: k != submitPools[0] && k in Keys(a.directors) ==>
      Get(configured.directors, k) == Get(a.directors, k)
    requires ok ==> forall k :: k in submitPools[1..] ==>
      Enabled(r.directors, k) && Returned(Get(r.directors, k).value.endpoints) == configure(k)
    requires forall k :: Enabled(r.directors, k) ==> Enabled(configured.directors, k) || k in submitPools[1..]
    requires forall p :: p in configured.pools ==> p in r.pools
    requires forall k :: k !in submitPools[1..] && k in Keys(configured.directors) ==>
      Get(r.directors, k) == Get(configured.directors, k)
    ensures ok ==> forall k :: k in submitPools ==>
      Enabled(r.directors, k) && Returned(Get(r.directors, k).value.endpoints) == configure(k)
    ensures forall k :: Enabled(r.directors, k) ==> Enabled(a.directors, k) || k in submitPools
    ensures forall p :: p in a.pools ==> p in r.pools
    ensures forall k :: k !in submitPools && k in Keys(a.directors) ==>
      Get(r.directors, k) == Get(a.directors, k)
  {
    assert forall k :: k in submitPools <==> k == submitPools[0] || k in submitPools[1..];
    forall k | k !in submitPools && k in Keys(a.directors)
      ensures Get(r.directors, k) == Get(a.directors, k)
    {
      assert Get(configured.directors, k).Some?;
    }
  }

  /** The loop over the configured SubmitPools. It changes the agent in
      place, so a raise leaves the directors created and configured before
      it; the raise is the abort of a missing director or a director's own
      configuration error. */
  function ConfigurePools(a: Agent, submitPools: seq<string>, poolOption: string -> Option<string>,
                          configure: string -> Py<Endpoints>): (r: (Agent, Py<()>))
    requires WellFormed(a)
    ensures WellFormed(r.0)
    ensures r.1.Returned? ==> forall k :: k in submitPools ==>
      Enabled(r.0.directors, k) && Returned(Get(r.0.directors, k).value.endpoints) == configure(k)
    ensures forall k :: Enabled(r.0.directors, k) ==> Enabled(a.directors, k) || k in submitPools
    ensures forall p :: p in a.pools ==> p in r.0.pools
    ensures forall k :: k !in submitPools && k in Keys(a.directors) ==>
      Get(r.0.directors, k) == Get(a.directors, k)
    ensures r.1.Raised? ==>
      r.1.exception == SystemExit || exists k :: k in submitPools && configure(k) == Raised(r.1.exception)
    decreases |submitPools|
  {
    if |submitPools| == 0 then (a, Returned(()))
    else
      var sp := submitPools[0];
      var created := if sp in Keys(a.directors) then a else CreateDirector(a, sp, poolOption);
      ConfigureStep(a, sp, poolOption, configure);
      match ConfigureDirector(created, sp, configure)
      case Raised(e) =>
        assert sp in submitPools;
        (created, Raised(e))
      case Returned(configured) =>
        var r := ConfigurePools(configured, submitPools[1..], poolOption, configure);
        ConfigureRest(a, configured, r.0, r.1.Returned?, submitPools, configure);
        assert forall k :: k in submitPools[1..] ==> k in submitPools;
        r
  }

  /** Deleting the directors that were not enabled in this cycle. */
  function DropDisabled(ds: Directors): (r: Directors)
    requires DistinctKeys(ds)
    ensures DistinctKeys(r)
    ensures forall k :: Get(r, k) == if Enabled(ds, k) then Get(ds, k) else None
    ensures forall k :: k in Keys(r) <==> Enabled(ds, k)
  {
    if |ds| == 0 then []
    else
      KeysCons(ds);
      var rest := DropDisabled(ds[1..]);
      assert ds[0].0 !in Keys(ds[1..]) by {
        forall i | 0 <= i < |ds[1..]| ensures ds[1..][i].0 != ds[0].0 {
          assert ds[1..][i] == ds[i + 1];
        }
      }
      if ds[0].1.isEnabled then
        var r := [ds[0]] + rest;
        assert r[1..] == rest;
        KeysCons(r);
        r
      else rest
  }

  /** The pools the remaining directors use. */
  function UsedPools(ds: Directors): set<string> {
    set i | 0 <= i < |ds| :: ds[i].1.pool
  }

  predicate Unused(p: string, used: set<string>) {
    p != "Default" && p !in used
  }

  /** The last loop, `for pool in self.pools: ... self.pools.pop(pool)`,
      returning the pools left and how the loop ended. As written it
      removes an entry from the dictionary it is iterating over: the first
      unused pool is popped, and the next step of the iteration raises
      RuntimeError. As intended every unused pool is dropped. */
  function DropPools(pools: seq<string>, used: set<string>, mode: Mode): (r: (seq<string>, Py<()>))
    ensures mode == Intended ==> r.1.Returned?
    ensures mode == AsWritten ==>
      (r.1.Raised? <==> exists p :: p in pools && Unused(p, used))
    ensures r.1.Raised? ==> r.1.exception == RuntimeError
    ensures r.1.Returned? ==> forall p :: p in r.0 <==> p in pools && !Unused(p, used)
    ensures mode == AsWritten && r.1.Returned? ==> r.0 == pools
    // the pop that precedes the raise: only the first unused pool is gone
    ensures r.1.Raised? ==>
      exists i :: (0 <= i < |pools| && Unused(pools[i], used)
        && (forall j :: 0 <= j < i ==> !Unused(pools[j], used)) && r.0 == pools[..i] + pools[i + 1..])
    ensures IsSubsequence(r.0, pools)
    // a pool in use, and Default, always stays
    ensures forall p :: p in pools && !Unused(p, used) ==> p in r.0
    decreases |pools|
  {
    if |pools| == 0 then ([], Returned(()))
    else
      assert forall p :: p in pools <==> p == pools[0] || p in pools[1..];
      if Unused(pools[0], used) then
        if mode == AsWritten then
          assert pools[..0] + pools[1..] == pools[1..];
          SubsequenceOfTail(pools);
          (pools[1..], Raised(RuntimeError))
        else
          DropPools(pools[1..], used, mode)
      else
        var rest := DropPools(pools[1..], used, mode);
        var kept := [pools[0]] + rest.0;
        assert kept[1..] == rest.0;
        if rest.1.Raised? then
          KeepHeadBeforePop(pools, rest.0, used);
          (kept, rest.1)
        else
          (kept, rest.1)
  }

  /** A kept head in front of a pool list with one pop stays in front of it. */
  lemma KeepHeadBeforePop(pools: seq<string>, tail: seq<string>, used: set<string>)
    requires |pools| > 0 && !Unused(pools[0], used)
    requires exists i :: (0 <= i < |pools[1..]| && Unused(pools[1..][i], used)
      && (forall j :: 0 <= j < i ==> !Unused(pools[1..][j], used))
      && tail == pools[1..][..i] + pools[1..][i + 1..])
    ensures exists i :: (0 <= i < |pools| && Unused(pools[i], used)
      && (forall j :: 0 <= j < i ==> !Unused(pools[j], used)) && [pools[0]] + tail == pools[..i] + pools[i + 1..])
  {
    var i :| 0 <= i < |pools[1..]| && Unused(pools[1..][i], used)
      && (forall j :: 0 <= j < i ==> !Unused(pools[1..][j], used))
      && tail == pools[1..][..i] + pools[1..][i + 1..];
    assert pools[i + 1] == pools[1..][i];
    assert forall j :: 0 < j < i + 1 ==> pools[j] == pools[1..][j - 1];
    assert [pools[0]] + tail == pools[..i + 1] + pools[i + 2..];
  }

  /** The directors are exactly the configured submit pools, each enabled
      with its fresh registry and its thread pool present. */
  ghost predicate Reconciled(a: Agent, submitPools: seq<string>, configure: string -> Py<Endpoints>) {
    (forall k :: k in Keys(a.directors) <==> k in submitPools)
    && forall k :: k in submitPools ==>
         Enabled(a.directors, k) && Returned(Get(a.directors, k).value.endpoints) == configure(k)
         && Get(a.directors, k).value.pool in a.pools
  }

  /** `__checkSubmitPools`: the agent afterwards and how the method ended.
      Every step changes the agent in place, so a raise keeps what was done
      before it. */
  function CheckSubmitPools(a: Agent, submitPools: seq<string>, poolOption: string -> Option<string>,
                            configure: string -> Py<Endpoints>, mode: Mode): (r: (Agent, Py<()>))
    requires WellFormed(a)
    ensures WellFormed(r.0)
    ensures "Default" in a.pools ==> "Default" in r.0.pools
    // a raise while configuring leaves the directors created and configured so far
    ensures var c := ConfigurePools(a.(directors := DisableAll(a.directors)), submitPools, poolOption, configure);
      c.1.Raised? ==> r == c
    // once every submit pool is configured the directors are reconciled, whatever the pool sweep does
    ensures var c := ConfigurePools(a.(directors := DisableAll(a.directors)), submitPools, poolOption, configure);
      c.1.Returned? ==>
        (Reconciled(r.0, submitPools, configure)
         && (forall p :: p in r.0.pools ==> p in c.0.pools)
         && (mode == Intended ==> r.1.Returned?)
         && (mode == AsWritten ==> (r.1.Raised? <==> exists p :: p in c.0.pools && Unused(p, UsedPools(r.0.directors)))))
    ensures r.1.Returned? ==> Reconciled(r.0, submitPools, configure)
    ensures r.1.Returned? ==> forall p :: p in r.0.pools ==> !Unused(p, UsedPools(r.0.directors))
  {
    var disabled := a.(directors := DisableAll(a.directors));
    var (configured, outcome) := ConfigurePools(disabled, submitPools, poolOption, configure);
    if outcome.Raised? then (configured, outcome)
    else
      var kept := DropDisabled(configured.directors);
      var (pools, swept) := DropPools(configured.pools, UsedPools(kept), mode);
      SweepReconciles(configured, submitPools, configure, mode);
      (Agent(kept, pools), swept)
  }

  /** After every submit pool is configured on an all-disabled agent,
      dropping the disabled directors and the unused pools leaves the
      agent reconciled, with every director's pool still present. */
  lemma SweepReconciles(configured: Agent, submitPools: seq<string>, configure: string -> Py<Endpoints>, mode: Mode)
    requires WellFormed(configured)
    requires forall k :: Enabled(configured.directors, k) ==> k in submitPools
    requires forall k :: k in submitPools ==>
      Enabled(configured.directors, k) && Returned(Get(configured.directors, k).value.endpoints) == configure(k)
    ensures var kept := DropDisabled(configured.directors);
      var pools := DropPools(configured.pools, UsedPools(kept), mode).0;
      WellFormed(Agent(kept, pools)) && Reconciled(Agent(kept, pools), submitPools, configure)
      && (forall p :: p in pools ==> p in configured.pools)
  {
    var kept := DropDisabled(configured.directors);
    var pools := DropPools(configured.pools, UsedPools(kept), mode).0;
    SubsequenceMembers(pools, configured.pools);
    forall k | k in Keys(kept) ensures Get(kept, k).value.pool in pools {
      var i :| 0 <= i < |kept| && kept[i].0 == k;
      GetIndex(kept, i);
      assert Get(configured.directors, k).Some?;
    }
  }

  /** Pools `["Default", "P"]` with no director: the first cycle pops P and
      raises, the next one finds nothing to drop and returns. */
  lemma UnusedPoolRaisesOnce(poolOption: string -> Option<string>, configure: string -> Py<Endpoints>)
    ensures var first := CheckSubmitPools(Agent([], ["Default", "P"]), [], poolOption, configure, AsWritten);
      first == (Agent([], ["Default"]), Raised(RuntimeError))
      && CheckSubmitPools(first.0, [], poolOption, configure, AsWritten) == (Agent([], ["Default"]), Returned(()))
  {
    assert UsedPools([]) == {};
    assert Unused("P", {});
    assert DropPools(["P"], {}, AsWritten) == ([], Raised(RuntimeError));
    assert ["Default", "P"][1..] == ["P"];
    assert !Unused("Default", {});
    assert DropPools(["Default", "P"], {}, AsWritten) == (["Default"] + [], Raised(RuntimeError));
    assert DropPools(["Default"], {}, AsWritten) == (["Default"], Returned(()));
  }

  /** An empty Pool option for a new submit pool stops the agent: the pool
      cannot be added, the director is not created, and configuring it
      aborts. */
  lemma EmptyPoolAborts(a: Agent, sp: string, rest: seq<string>, poolOption: string -> Option<string>,
                        configure: string -> Py<Endpoints>, mode: Mode)
    requires WellFormed(a)
    requires sp !in Keys(a.directors) && poolOption(sp + "/Pool") == Some("") && "" !in a.pools
    ensures CheckSubmitPools(a, [sp] + rest, poolOption, configure, mode).1 == Raised(SystemExit)
  {
    assert ([sp] + rest)[0] == sp;
  }
}

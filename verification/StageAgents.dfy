/** Which agents a stage dispatches: the registry's switch first, then the effective definition's. */
module StageAgents {
  import opened Wrappers
  import opened Agents
  import opened DeliveryGraph
  import opened ConfigMerge
  import AgentTable
  import DeliveryState

  /** The YAML definitions by agent id. */
  type Registry = map<string, Json>

  /** For each agent, its entry in the reading of the configurations at its turn. */
  type Configs = map<string, Override>

  ghost predicate Loaded(registry: Registry) {
    forall id :: id in registry ==> registry[id].Obj? && Validate(registry[id]) == Valid
  }

  /** `definition.get("enabled", True)`. */
  predicate SwitchedOn(d: Json)
    requires d.Obj?
  {
    "enabled" in d.fields ==> Truthy(d.fields["enabled"])
  }

  /** Whether an agent of the stage takes part, told from the two switches. */
  predicate Runs(registry: Registry, configs: Configs, id: string)
    requires id in registry ==> registry[id].Obj?
  {
    id in registry && SwitchedOn(registry[id]) && (id in configs ==> configs[id].enabled)
  }

  function OverrideFor(configs: Configs, id: string): Option<Override> {
    if id in configs then Some(configs[id]) else None
  }

  /** The merge raises for an agent that the registry has switched on. */
  predicate Breaks(registry: Registry, configs: Configs, id: string)
    requires id in registry ==> registry[id].Obj?
  {
    && id in registry && SwitchedOn(registry[id])
    && MergeDefinition(Some(registry[id]), OverrideFor(configs, id)) == Raised
  }

  /** The listed ids that the registry has switched on, in their order. */
  function Selected(registry: Registry, ids: seq<string>): seq<string>
    requires forall id :: id in registry ==> registry[id].Obj?
  {
    if ids == [] then []
    else
      var before := Selected(registry, ids[..|ids| - 1]);
      var id := ids[|ids| - 1];
      if id in registry && SwitchedOn(registry[id]) then before + [id] else before
  }

  /** The listed ids that take part, in their order. */
  function Running(registry: Registry, configs: Configs, ids: seq<string>): seq<string>
    requires forall id :: id in registry ==> registry[id].Obj?
  {
    if ids == [] then []
    else
      var before := Running(registry, configs, ids[..|ids| - 1]);
      var id := ids[|ids| - 1];
      if Runs(registry, configs, id) then before + [id] else before
  }

  lemma {:induction false} SelectedMembers(registry: Registry, ids: seq<string>, id: string)
    requires Loaded(registry)
    ensures id in Selected(registry, ids) <==> id in ids && id in registry && SwitchedOn(registry[id])
  {
    if ids != [] {
      SelectedMembers(registry, ids[..|ids| - 1], id);
      assert ids == ids[..|ids| - 1] + [ids[|ids| - 1]];
    }
  }

  lemma {:induction false} RunningMembers(registry: Registry, configs: Configs, ids: seq<string>, id: string)
    requires Loaded(registry)
    ensures id in Running(registry, configs, ids) <==> id in ids && Runs(registry, configs, id)
  {
    if ids != [] {
      RunningMembers(registry, configs, ids[..|ids| - 1], id);
      assert ids == ids[..|ids| - 1] + [ids[|ids| - 1]];
    }
  }

  lemma {:induction false} RunningAmongSelected(registry: Registry, configs: Configs, ids: seq<string>)
    requires Loaded(registry)
    ensures Running(registry, configs, Selected(registry, ids)) == Running(registry, configs, ids)
  {
    if ids != [] {
      var init := ids[..|ids| - 1];
      RunningAmongSelected(registry, configs, init);
      var selected := Selected(registry, ids);
      if selected != Selected(registry, init) {
        assert selected[..|selected| - 1] == Selected(registry, init);
      }
    }
  }

  /** `CapabilityRouter.agents_for_stage`, for the ids that the stage lists. */
  method AgentsForStage(registry: Registry, ids: seq<string>) returns (selected: seq<string>)
    requires Loaded(registry)
    ensures selected == Selected(registry, ids)
    ensures forall id :: id in selected <==> id in ids && id in registry && SwitchedOn(registry[id])
  {
    selected := [];
    for i := 0 to |ids|
      invariant selected == Selected(registry, ids[..i])
    {
      assert ids[..i + 1][..i] == ids[..i];
      if ids[i] in registry && SwitchedOn(registry[ids[i]]) {
        selected := selected + [ids[i]];
      }
    }
    assert ids[..|ids|] == ids;
    forall id ensures id in selected <==> id in ids && id in registry && SwitchedOn(registry[id]) {
      SelectedMembers(registry, ids, id);
    }
  }

  /** The effective definition of an agent. */
  function Effective(registry: Registry, configs: Configs, id: string): Result
    requires id in registry && registry[id].Obj?
  {
    MergeDefinition(Some(registry[id]), OverrideFor(configs, id))
  }

  /**
   Unless its merge raises, an agent of the registry has a definition, on exactly if the column, or else the
   registry, says so.
   */
  lemma TheColumnDecides(registry: Registry, configs: Configs, id: string)
    requires Loaded(registry) && id in registry
    ensures var r := Effective(registry, configs, id);
            r.Definition? ==>
              && r.definition.Some? && r.definition.value.Obj?
              && (SwitchedOn(r.definition.value) <==>
                  if id in configs then configs[id].enabled else SwitchedOn(registry[id]))
  {
    if id in configs {
      EnabledIsTheColumns(Some(registry[id]), configs[id]);
    }
  }

  /** These are the effective definitions of these agents. */
  ghost predicate AreEffective(registry: Registry, configs: Configs, ids: seq<string>, ds: seq<Json>) {
    && |ds| == |ids|
    && forall i :: 0 <= i < |ids| ==>
                     && ids[i] in registry && registry[ids[i]].Obj?
                     && Effective(registry, configs, ids[i]) == Definition(Some(ds[i]))
  }

  // ---- the agents of a stage, told from the two switches and the stored configurations ----

  /** The i-th listed agent is in the registry, which has it on, and its column, if it has one, says so too. */
  predicate TakesPart(registry: Registry, configs: Configs, ids: seq<string>, i: nat)
    requires Loaded(registry)
  {
    && i < |ids| && ids[i] in registry
    && ("enabled" in registry[ids[i]].fields ==>
          registry[ids[i]].fields["enabled"] !in {Null, Bool(false), Num(0), Str(""), Arr([]), Obj(map[])})
    && (ids[i] in configs ==> configs[ids[i]].enabled)
  }

  /**
   The definition, read path by path apart from the switch: what the stored configuration holds is there, an object
   of it on top of the YAML's; what it neither holds nor cuts off is the YAML's; and nothing else.
   */
  ghost predicate FollowsStored(base: Json, stored: Json, d: Json)
    requires base.Obj? && stored.Obj?
  {
    forall path: seq<string> :: path != [] && path[0] != "enabled" ==>
      && (Lookup(stored, path).Some? && !Lookup(stored, path).value.Obj? ==> Lookup(d, path) == Lookup(stored, path))
      && (FoundObject(stored, path) ==> FoundObject(d, path))
      && (Lookup(stored, path) == None ==>
            Lookup(d, path) == if Cuts(stored, path) then None else Lookup(base, path))
  }

  ghost predicate FollowsYaml(base: Json, d: Json) {
    forall path: seq<string> :: path != [] && path[0] != "enabled" ==> Lookup(d, path) == Lookup(base, path)
  }

  /** Without a row the YAML as it is; with one, switched on, what is stored, or, for what the API refuses, the YAML. */
  ghost predicate AsConfigured(registry: Registry, configs: Configs, id: string, d: Json)
    requires id in registry && registry[id].Obj?
  {
    if id !in configs then d == registry[id]
    else
      var stored := configs[id].configuration;
      && d.Obj? && "enabled" in d.fields && d.fields["enabled"] == Bool(true)
      && (Guard(stored) == Valid ==> FollowsStored(registry[id], Obj(stored), d))
      && (FollowsStored(registry[id], Obj(stored), d) || FollowsYaml(registry[id], d))
  }

  lemma SwitchIsBesides(d: Json, enabled: bool, path: seq<string>)
    requires d.Obj? && path != [] && path[0] != "enabled"
    ensures Lookup(WithEnabled(d, enabled), path) == Lookup(d, path)
  {
  }

  lemma MergedFollowsStored(base: Json, stored: Json, enabled: bool)
    requires base.Obj? && stored.Obj?
    ensures FollowsStored(base, stored, WithEnabled(Merge(base, stored), enabled))
  {
    forall path: seq<string> | path != [] && path[0] != "enabled"
      ensures var found := Lookup(WithEnabled(Merge(base, stored), enabled), path);
              && found == Lookup(Merge(base, stored), path)
              && (Lookup(stored, path).Some? && !Lookup(stored, path).value.Obj? ==> found == Lookup(stored, path))
              && (FoundObject(stored, path) ==> found.Some? && found.value.Obj?)
              && (Lookup(stored, path) == None ==>
                    found == if Cuts(stored, path) then None else Lookup(base, path))
    {
      SwitchIsBesides(Merge(base, stored), enabled, path);
      MergeByPath(base, stored, path);
    }
  }

  lemma FallbackFollowsYaml(base: Json, enabled: bool)
    requires base.Obj?
    ensures FollowsYaml(base, WithEnabled(base, enabled))
  {
    forall path: seq<string> | path != [] && path[0] != "enabled"
      ensures Lookup(WithEnabled(base, enabled), path) == Lookup(base, path)
    {
      SwitchIsBesides(base, enabled, path);
    }
  }

  lemma EffectiveIsAsConfigured(registry: Registry, configs: Configs, id: string, d: Json)
    requires Loaded(registry) && id in registry && Effective(registry, configs, id) == Definition(Some(d))
    requires id in configs ==> configs[id].enabled
    ensures AsConfigured(registry, configs, id, d)
  {
    hide Guard, Validate, FollowsStored, FollowsYaml;
    if id in configs {
      var o := configs[id];
      EnabledIsTheColumns(Some(registry[id]), o);
      MergedFollowsStored(registry[id], Obj(o.configuration), o.enabled);
      FallbackFollowsYaml(registry[id], o.enabled);
      if Guard(o.configuration) == Valid {
        AcceptedConfigurationsApply(Some(registry[id]), o);
      }
    }
  }

  /** One definition for each listed agent that takes part, in order, as configured. */
  ghost predicate Resolves(registry: Registry, configs: Configs, ids: seq<string>, n: nat, at: seq<nat>, ds: seq<Json>)
    requires Loaded(registry)
  {
    && Picks(at, n, (i: nat) => TakesPart(registry, configs, ids, i))
    && |ds| == |at|
    && forall a :: 0 <= a < |at| ==>
                     at[a] < |ids| && ids[at[a]] in registry
                     && AsConfigured(registry, configs, ids[at[a]], ds[a])
  }

  ghost predicate PicksRunning(
    registry: Registry, configs: Configs, ids: seq<string>, n: nat, at: seq<nat>, running: seq<string>)
    requires Loaded(registry)
  {
    && Picks(at, n, (i: nat) => TakesPart(registry, configs, ids, i))
    && |at| == |running|
    && forall a :: 0 <= a < |at| ==> at[a] < |ids| && ids[at[a]] == running[a]
  }

  lemma NextRunning(registry: Registry, configs: Configs, ids: seq<string>, n: nat, at: seq<nat>, running: seq<string>)
    requires Loaded(registry) && n < |ids| && PicksRunning(registry, configs, ids, n, at, running)
    ensures if TakesPart(registry, configs, ids, n)
            then PicksRunning(registry, configs, ids, n + 1, at + [n], running + [ids[n]])
            else PicksRunning(registry, configs, ids, n + 1, at, running)
  {
    hide TakesPart, Loaded;
    PicksNext(at, n, (i: nat) => TakesPart(registry, configs, ids, i));
  }

  lemma TakesPartIfRuns(registry: Registry, configs: Configs, ids: seq<string>, i: nat)
    requires Loaded(registry) && i < |ids|
    ensures TakesPart(registry, configs, ids, i) <==> Runs(registry, configs, ids[i])
  {
  }

  lemma {:induction false} RunningPicks(registry: Registry, configs: Configs, ids: seq<string>, n: nat)
    returns (at: seq<nat>)
    requires Loaded(registry) && n <= |ids|
    ensures PicksRunning(registry, configs, ids, n, at, Running(registry, configs, ids[..n]))
  {
    if n == 0 {
      at := [];
    } else {
      hide PicksRunning, TakesPart, Runs, Loaded;
      at := RunningPicks(registry, configs, ids, n - 1);
      TakesPartIfRuns(registry, configs, ids, n - 1);
      NextRunning(registry, configs, ids, n - 1, at, Running(registry, configs, ids[..n - 1]));
      assert ids[..n][..n - 1] == ids[..n - 1];
      at := if TakesPart(registry, configs, ids, n - 1) then at + [n - 1] else at;
    }
  }

  lemma EffectiveResolves(registry: Registry, configs: Configs, ids: seq<string>, ds: seq<Json>)
    returns (at: seq<nat>)
    requires Loaded(registry) && AreEffective(registry, configs, Running(registry, configs, ids), ds)
    ensures Resolves(registry, configs, ids, |ids|, at, ds)
  {
    hide Effective, AsConfigured, Runs;
    at := RunningPicks(registry, configs, ids, |ids|);
    assert ids[..|ids|] == ids;
    forall a | 0 <= a < |at| ensures AsConfigured(registry, configs, ids[at[a]], ds[a]) {
      assert at[a] in at && TakesPart(registry, configs, ids, at[a]);
      assert ids[at[a]] == Running(registry, configs, ids)[a];
      EffectiveIsAsConfigured(registry, configs, ids[at[a]], ds[a]);
    }
  }

  /**
   `_resolve_stage_agents`: None if a merge raises. Otherwise the agents of the stage are, in its order, exactly
   those that both the registry and the column have switched on, each with its effective definition.
   */
  method ResolveStageAgents(registry: Registry, ids: seq<string>, configs: Configs)
    returns (resolved: Option<seq<Json>>)
    requires Loaded(registry)
    ensures resolved == None <==> exists id :: id in ids && Breaks(registry, configs, id)
    ensures resolved.Some? ==> AreEffective(registry, configs, Running(registry, configs, ids), resolved.value)
    ensures resolved.Some? ==> exists at :: Resolves(registry, configs, ids, |ids|, at, resolved.value)
  {
    hide MergeDefinition, Validate, SwitchedOn, Resolves;
    var bases := AgentsForStage(registry, ids);
    var definitions: seq<Json> := [];
    for i := 0 to |bases|
      invariant forall j :: 0 <= j < i ==> !Breaks(registry, configs, bases[j])
      invariant AreEffective(registry, configs, Running(registry, configs, bases[..i]), definitions)
    {
      assert bases[..i + 1][..i] == bases[..i];
      var id := bases[i];
      assert id in bases;
      TheColumnDecides(registry, configs, id);
      var r := MergeDefinition(Some(registry[id]), OverrideFor(configs, id));
      if r.Raised? {
        assert id in ids && Breaks(registry, configs, id);
        return None;
      }
      if r.definition.Some? && SwitchedOn(r.definition.value) {
        definitions := definitions + [r.definition.value];
      }
    }
    assert bases[..|bases|] == bases;
    RunningAmongSelected(registry, configs, ids);
    assert forall id :: id in ids && Breaks(registry, configs, id) ==> id in bases;
    ghost var at := EffectiveResolves(registry, configs, ids, definitions);
    return Some(definitions);
  }

  /** Over a proper YAML a stage fails on an agent exactly for a column that no edit through the API could store. */
  lemma BreaksExactlyWhen(registry: Registry, configs: Configs, id: string)
    requires Loaded(registry) && (id in registry ==> Proper(registry[id]))
    ensures Breaks(registry, configs, id) <==>
            && id in registry && SwitchedOn(registry[id]) && id in configs
            && var o := configs[id];
               || Unsearchable(o, "inputs")
               || (CheckOverride(o, "inputs", INPUT_KEYS) == Valid
                   && (|| Unsearchable(o, "tools")
                       || (CheckOverride(o, "tools", TOOL_KEYS) == Valid && Unsearchable(o, "outputs"))))
  {
    hide MergeDefinition, Validate, CheckOverride, SwitchedOn, Unsearchable;
    if id in registry && id in configs {
      RaisesExactlyWhen(registry[id], configs[id]);
    } else if id in registry {
      NoOverrideNeverRaises(registry[id]);
    }
  }

  lemma NoOverrideNeverRaises(base: Json)
    requires base.Obj?
    ensures MergeDefinition(Some(base), None) == Definition(Some(base))
  {
  }

  /** With configurations that the API accepts no merge raises, so every stage resolves. */
  lemma AcceptedConfigurationsResolve(registry: Registry, configs: Configs, id: string)
    requires Loaded(registry) && forall key :: key in configs ==> Guard(configs[key].configuration) == Valid
    ensures !Breaks(registry, configs, id)
  {
    if id in registry && id in configs {
      AcceptedConfigurationsApply(Some(registry[id]), configs[id]);
    }
  }

  /**
   From the table to the stage: whatever was published, edited and reset, each agent that a stage runs and that has a
   row is switched on in it and follows, path by path, the configuration stored there.
   */
  lemma StoredReachesTheStage(
    ops: seq<AgentTable.Operation>, registry: Registry, ids: seq<string>, at: seq<nat>, ds: seq<Json>, a: nat)
    requires forall i :: 0 <= i < |ops| && ops[i].Publish? ==> AgentTable.Validated(ops[i].ds)
    requires Loaded(registry) && a < |at|
    requires Resolves(registry, AgentTable.Overrides(AgentTable.History(ops)), ids, |ids|, at, ds)
    ensures at[a] < |ids| && a < |ds| && ids[at[a]] in registry
    ensures var id, rows := ids[at[a]], AgentTable.History(ops);
            if id in rows
            then rows[id].enabled && FollowsStored(registry[id], Obj(rows[id].configuration), ds[a])
            else ds[a] == registry[id]
  {
    hide Guard, Validate, FollowsStored, FollowsYaml, AgentTable.Validated;
    AgentTable.HistoryIsAccepted(ops);
    assert at[a] in at;
  }

  /** The toggle can only switch off: it decides exactly for the agents that their registry entry has switched on. */
  lemma ToggleDecidesIff(registry: Registry, id: string)
    requires Loaded(registry) && id in registry
    ensures (forall o: Override :: Runs(registry, map[id := o], id) == o.enabled) <==> SwitchedOn(registry[id])
  {
    assert Runs(registry, map[id := Override(true, map[])], id) == SwitchedOn(registry[id]);
  }

  /** An agent gate whose stage has nobody to run is passed without anyone having looked. */
  lemma NobodyRunsPasses(registry: Registry, ids: seq<string>, configs: Configs, gate: DeliveryState.Gate, inp: Input)
    requires Loaded(registry) && gate != DeliveryState.ScopeGate && gate != DeliveryState.ReleaseGate
    requires forall id :: id in ids ==> !Runs(registry, configs, id)
    requires |inp.results| == |Running(registry, configs, ids)|
    ensures Passes(gate, inp)
  {
    var running := Running(registry, configs, ids);
    if |running| > 0 {
      RunningMembers(registry, configs, ids, running[0]);
    }
    NoAgentsApprove();
  }
}

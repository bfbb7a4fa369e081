/** The table of agent definitions: publication of the YAML files at start-up, and the cached reading of it. */
module AgentTable {
  import opened Wrappers
  import opened ConfigMerge

  /** A definition as published from the YAML files. */
  datatype Published = Published(
    id: string, name: string, version: string, domain: string, configuration: map<string, Json>, stages: seq<string>)

  datatype Row = Row(
    name: string, version: string, domain: string,
    configuration: map<string, Json>, defaultConfiguration: map<string, Json>,
    stages: seq<string>, enabled: bool)

  type Rows = map<string, Row>

  function Refreshed(row: Row, d: Published): Row {
    row.(name := d.name, version := d.version, domain := d.domain,
         defaultConfiguration := d.configuration, stages := d.stages)
  }

  function Inserted(d: Published): Row {
    Row(d.name, d.version, d.domain, d.configuration, d.configuration, d.stages, true)
  }

  /** The ids are distinct, as those of a registry are. */
  ghost predicate Distinct(ds: seq<Published>) {
    forall i, j :: 0 <= i < j < |ds| ==> ds[i].id != ds[j].id
  }

  /** Nothing is inserted twice: an id that occurs again was in the table before. */
  ghost predicate Insertable(rows: Rows, ds: seq<Published>) {
    forall i, j :: 0 <= i < j < |ds| && ds[i].id == ds[j].id ==> ds[i].id in rows
  }

  /** The table after the publication. */
  function Synced(rows: Rows, ds: seq<Published>): (synced: Rows)
    ensures rows.Keys <= synced.Keys
  {
    if ds == [] then rows
    else
      var before := Synced(rows, ds[..|ds| - 1]);
      var d := ds[|ds| - 1];
      before[d.id := if d.id in rows then Refreshed(before[d.id], d) else Inserted(d)]
  }

  lemma {:induction false} SyncedKeys(rows: Rows, ds: seq<Published>)
    ensures rows.Keys <= Synced(rows, ds).Keys
    ensures forall id :: id in Synced(rows, ds) <==> id in rows || exists i :: 0 <= i < |ds| && ds[i].id == id
  {
    if ds != [] {
      var init := ds[..|ds| - 1];
      SyncedKeys(rows, init);
      forall id ensures id in Synced(rows, ds) <==> id in rows || exists i :: 0 <= i < |ds| && ds[i].id == id {
        if id in Synced(rows, init) && id !in rows {
          var i :| 0 <= i < |init| && init[i].id == id;
          assert ds[i].id == id;
        }
        if i :| 0 <= i < |ds| && ds[i].id == id {
          if i < |init| {
            assert init[i].id == id;
          }
        }
      }
    }
  }

  /** The next definition can be inserted exactly when its id is old, or is not in the table by now. */
  lemma NextInsertable(rows: Rows, ds: seq<Published>, i: nat)
    requires i < |ds| && Insertable(rows, ds[..i])
    ensures Insertable(rows, ds[..i + 1]) <==> ds[i].id in rows || ds[i].id !in Synced(rows, ds[..i])
  {
    SyncedKeys(rows, ds[..i]);
    if ds[i].id !in rows && ds[i].id in Synced(rows, ds[..i]) {
      var j :| 0 <= j < i && ds[..i][j].id == ds[i].id;
      assert ds[..i + 1][j].id == ds[..i + 1][i].id;
    } else {
      var longer := ds[..i + 1];
      forall j, k | 0 <= j < k < |longer| && longer[j].id == longer[k].id ensures longer[j].id in rows {
        assert ds[..i][j] == ds[j];
        if k < i {
          assert ds[..i][k] == ds[k];
        }
      }
    }
  }

  lemma PrefixInsertable(rows: Rows, ds: seq<Published>, i: nat)
    requires i <= |ds| && Insertable(rows, ds)
    ensures Insertable(rows, ds[..i])
  {
  }

  // ---- edits through the API ----

  /** An edit: a whole new configuration or the present one, with shortcut fields set and perhaps the prompt removed. */
  datatype Edit = Edit(
    configuration: Option<map<string, Json>>, shortcuts: map<string, Json>, removePrompt: bool, enabled: Option<bool>)

  function Edited(row: Row, edit: Edit): map<string, Json> {
    var edited := edit.configuration.GetOr(row.configuration) + edit.shortcuts;
    if edit.removePrompt then edited - {"prompt_template"} else edited
  }

  /** An edit is refused if it changes the configuration to one that the guard does not accept. */
  predicate Editable(row: Row, edit: Edit) {
    Edited(row, edit) == row.configuration || Guard(Edited(row, edit)) == Valid
  }

  /** The value of a field, if the configuration has it. */
  function Get(configuration: map<string, Json>, field: string): Option<Json> {
    if field in configuration then Some(configuration[field]) else None
  }

  predicate RemovesField(edit: Edit, field: string) {
    edit.removePrompt && field == "prompt_template"
  }

  /** Field by field: removed, or the shortcut's, or the whole new configuration's if there is one, or as it was. */
  ghost predicate IsEdited(before: map<string, Json>, edit: Edit, after: map<string, Json>) {
    forall field :: Get(after, field) ==
      if RemovesField(edit, field) then None
      else if field in edit.shortcuts then Some(edit.shortcuts[field])
      else match edit.configuration
        case Some(given) => Get(given, field)
        case None => Get(before, field)
  }

  lemma EditedByField(row: Row, edit: Edit)
    ensures IsEdited(row.configuration, edit, Edited(row, edit))
    ensures forall after :: IsEdited(row.configuration, edit, after) ==> after == Edited(row, edit)
  {
    forall after | IsEdited(row.configuration, edit, after) ensures after == Edited(row, edit) {
      SameFields(after, Edited(row, edit));
    }
  }

  lemma SameFields(a: map<string, Json>, b: map<string, Json>)
    requires forall field :: Get(a, field) == Get(b, field)
    ensures a == b
  {
    assert forall field :: field in a <==> Get(a, field).Some?;
    assert forall field :: field in b <==> Get(b, field).Some?;
    forall field | field in a ensures field in b && a[field] == b[field] {
      assert Get(a, field) == Get(b, field);
    }
    forall field | field in b ensures field in a {
      assert Get(a, field) == Get(b, field);
    }
  }

  function AfterEdit(row: Row, edit: Edit): Row {
    row.(configuration := Edited(row, edit), enabled := edit.enabled.GetOr(row.enabled))
  }

  /** Every stored configuration, and every default, is one that the guard accepts. */
  ghost predicate Accepted(rows: Rows) {
    forall id :: id in rows ==> Guard(rows[id].configuration) == Valid && Guard(rows[id].defaultConfiguration) == Valid
  }

  ghost predicate Validated(ds: seq<Published>) {
    forall i :: 0 <= i < |ds| ==> Validate(Obj(ds[i].configuration)) == Valid
  }

  lemma {:induction false} SyncKeepsAccepted(rows: Rows, ds: seq<Published>)
    requires Accepted(rows) && Validated(ds)
    ensures Accepted(Synced(rows, ds))
  {
    hide Guard, Validate;
    if ds != [] {
      var d := ds[|ds| - 1];
      SyncKeepsAccepted(rows, ds[..|ds| - 1]);
      GuardIsTheValidation(d.configuration);
    }
  }

  class Table {
    var rows: Rows

    constructor (rows: Rows)
      ensures this.rows == rows
    {
      this.rows := rows;
    }

    /** One transaction; a second insertion of an id violates the primary key and undoes all of it. */
    method SyncAgentDefinitions(ds: seq<Published>) returns (ok: bool)
      modifies this
      ensures ok <==> Insertable(old(rows), ds)
      ensures rows == if ok then Synced(old(rows), ds) else old(rows)
    {
      hide Insertable;
      var before := rows;
      var existing := rows.Keys;
      EmptyInsertable(before, ds);
      for i := 0 to |ds|
        invariant rows == Synced(before, ds[..i])
        invariant Insertable(before, ds[..i])
      {
        var d := ds[i];
        assert ds[..i + 1][..|ds[..i + 1]| - 1] == ds[..i];
        NextInsertable(before, ds, i);
        if d.id in existing {
          rows := rows[d.id := Refreshed(rows[d.id], d)];
        } else if d.id in rows {
          if Insertable(before, ds) {
            PrefixInsertable(before, ds, i + 1);
          }
          rows := before;
          return false;
        } else {
          rows := rows[d.id := Inserted(d)];
        }
      }
      assert ds[..|ds|] == ds;
      return true;
    }

    /** PATCH: false if the agent is unknown or the configuration is refused. */
    method UpdateAgent(id: string, edit: Edit) returns (ok: bool)
      modifies this
      ensures ok <==> id in old(rows) && Editable(old(rows)[id], edit)
      ensures rows == if ok then old(rows)[id := AfterEdit(old(rows)[id], edit)] else old(rows)
      // field by field
      ensures ok ==>
                && id in old(rows) && id in rows && rows == old(rows)[id := rows[id]]
                && IsEdited(old(rows)[id].configuration, edit, rows[id].configuration)
                && rows[id].enabled == (if edit.enabled.Some? then edit.enabled.value else old(rows)[id].enabled)
                && rows[id].defaultConfiguration == old(rows)[id].defaultConfiguration
                && rows[id].stages == old(rows)[id].stages
      // refused only for what the guard does not accept
      ensures !ok && id in old(rows) ==>
                exists refused :: IsEdited(old(rows)[id].configuration, edit, refused)
                                  && refused != old(rows)[id].configuration && Guard(refused) != Valid
      ensures old(Accepted(rows)) ==> Accepted(rows)
    {
      hide Guard, IsEdited;
      if id !in rows {
        return false;
      }
      var row := rows[id];
      EditedByField(row, edit);
      var configuration := Edited(row, edit);
      if configuration != row.configuration {
        if Guard(configuration) != Valid {
          return false;
        }
        row := row.(configuration := configuration);
      }
      if edit.enabled.Some? {
        row := row.(enabled := edit.enabled.value);
      }
      rows := rows[id := row];
      return true;
    }

    /** The reset: the default, enabled, if there is one. */
    method ResetAgent(id: string) returns (ok: bool)
      modifies this
      ensures ok <==> id in old(rows) && old(rows)[id].defaultConfiguration != map[]
      ensures rows == if ok
                      then old(rows)[id := old(rows)[id].(configuration := old(rows)[id].defaultConfiguration,
                                                          enabled := true)]
                      else old(rows)
      ensures ok ==> id in rows && rows[id].configuration == old(rows)[id].defaultConfiguration && rows[id].enabled
      ensures old(Accepted(rows)) ==> Accepted(rows)
    {
      hide Guard;
      if id !in rows || rows[id].defaultConfiguration == map[] {
        return false;
      }
      rows := rows[id := rows[id].(configuration := rows[id].defaultConfiguration, enabled := true)];
      return true;
    }
  }

  // ---- whole lives of the table ----

  datatype Operation = Publish(ds: seq<Published>) | Update(id: string, edit: Edit) | Reset(id: string)

  ghost function Performed(rows: Rows, op: Operation): Rows {
    match op
    case Publish(ds) => if Insertable(rows, ds) then Synced(rows, ds) else rows
    case Update(id, edit) =>
      if id in rows && Editable(rows[id], edit) then rows[id := AfterEdit(rows[id], edit)] else rows
    case Reset(id) =>
      if id in rows && rows[id].defaultConfiguration != map[]
      then rows[id := rows[id].(configuration := rows[id].defaultConfiguration, enabled := true)]
      else rows
  }

  /** The table after publications of validated definitions, edits and resets, from an empty one. */
  ghost function History(ops: seq<Operation>): Rows {
    if ops == [] then map[] else Performed(History(ops[..|ops| - 1]), ops[|ops| - 1])
  }

  lemma {:induction false} HistoryIsAccepted(ops: seq<Operation>)
    requires forall i :: 0 <= i < |ops| && ops[i].Publish? ==> Validated(ops[i].ds)
    ensures Accepted(History(ops))
  {
    hide Guard, Validate, Synced, Validated, Insertable;
    if ops != [] {
      var before, op := History(ops[..|ops| - 1]), ops[|ops| - 1];
      HistoryIsAccepted(ops[..|ops| - 1]);
      if op.Publish? {
        SyncKeepsAccepted(before, op.ds);
      }
    }
  }

  /**
   Whatever has been published, edited and reset: the effective definition of an agent in the table is its
   configuration merged over the YAML at hand. The fallback and the exception are out of reach.
   */
  lemma StoredConfigurationsApply(ops: seq<Operation>, id: string, base: Option<Json>)
    requires forall i :: 0 <= i < |ops| && ops[i].Publish? ==> Validated(ops[i].ds)
    requires id in History(ops) && (base.Some? ==> base.value.Obj?)
    ensures var row := History(ops)[id];
            MergeDefinition(base, Some(OverrideOf(row))) ==
            Definition(Some(WithEnabled(
              if base.Some? then Merge(base.value, Obj(row.configuration)) else Obj(row.configuration), row.enabled)))
  {
    HistoryIsAccepted(ops);
    AcceptedConfigurationsApply(base, OverrideOf(History(ops)[id]));
  }

  // ---- what a row holds after any history ----

  /** The last definition of this id among those published. */
  ghost predicate LastOf(ds: seq<Published>, id: string, j: nat) {
    j < |ds| && ds[j].id == id && forall l :: j < l < |ds| ==> ds[l].id != id
  }

  lemma {:induction false} FindLast(ds: seq<Published>, id: string) returns (found: Option<nat>)
    ensures found.Some? ==> LastOf(ds, id, found.value)
    ensures found.None? ==> forall l :: 0 <= l < |ds| ==> ds[l].id != id
  {
    if ds == [] {
      found := None;
    } else if ds[|ds| - 1].id == id {
      found := Some(|ds| - 1);
    } else {
      found := FindLast(ds[..|ds| - 1], id);
    }
  }

  /** What a row holds that can be set: a field of its configuration, the switch, the default, the stages. */
  datatype Column = Field(name: string) | Switch | Default | Stages

  datatype Content =
    | Absent
    | Value(j: Json)
    | On(on: bool)
    | Whole(configuration: map<string, Json>)
    | Listed(s: seq<string>)

  function FieldContent(configuration: map<string, Json>, field: string): Content {
    if field in configuration then Value(configuration[field]) else Absent
  }

  function Read(row: Row, column: Column): Content {
    match column
    case Field(name) => FieldContent(row.configuration, name)
    case Switch => On(row.enabled)
    case Default => Whole(row.defaultConfiguration)
    case Stages => Listed(row.stages)
  }

  /** A publication sets the default and the stages, and on first publication everything. */
  predicate PublishSets(d: Published, isNew: bool, column: Column, content: Content) {
    match column
    case Field(name) => isNew && content == FieldContent(d.configuration, name)
    case Switch => isNew && content == On(true)
    case Default => content == Whole(d.configuration)
    case Stages => content == Listed(d.stages)
  }

  /** An edit sets the fields it removes, its shortcuts, with a whole new configuration all others, and the switch. */
  predicate EditSets(edit: Edit, column: Column, content: Content) {
    match column
    case Field(name) =>
      if RemovesField(edit, name) then content == Absent
      else if name in edit.shortcuts then content == Value(edit.shortcuts[name])
      else edit.configuration.Some? && content == FieldContent(edit.configuration.value, name)
    case Switch => edit.enabled.Some? && content == On(edit.enabled.value)
    case _ => false
  }

  /** A reset sets the fields to those of the default, and switches on. */
  predicate ResetSets(row: Row, column: Column, content: Content) {
    match column
    case Field(name) => content == FieldContent(row.defaultConfiguration, name)
    case Switch => content == On(true)
    case _ => false
  }

  /** The operation, on this table, takes place and sets the agent's column to this. */
  ghost predicate Sets(rows: Rows, op: Operation, id: string, column: Column, content: Content) {
    match op
    case Publish(ds) =>
      Insertable(rows, ds) && exists j: nat :: LastOf(ds, id, j) && PublishSets(ds[j], id !in rows, column, content)
    case Update(other, edit) => other == id && id in rows && Accepts(rows[id], edit) && EditSets(edit, column, content)
    case Reset(other) =>
      other == id && id in rows && rows[id].defaultConfiguration != map[] && ResetSets(rows[id], column, content)
  }

  /** The edit changes nothing, or to a configuration that the guard accepts. */
  ghost predicate Accepts(row: Row, edit: Edit) {
    exists after :: IsEdited(row.configuration, edit, after) && (after == row.configuration || Guard(after) == Valid)
  }

  lemma AcceptsIfEditable(row: Row, edit: Edit)
    ensures Accepts(row, edit) <==> Editable(row, edit)
  {
    hide IsEdited, Guard, Edited;
    EditedByField(row, edit);
    if Editable(row, edit) {
      assert IsEdited(row.configuration, edit, Edited(row, edit));
    }
  }

  /** One operation: what it does not set stays. */
  lemma ColumnStep(rows: Rows, op: Operation, id: string, column: Column)
    requires id in Performed(rows, op)
    ensures var now := Read(Performed(rows, op)[id], column);
            || Sets(rows, op, id, column, now)
            || (&& id in rows && now == Read(rows[id], column)
                && forall content :: !Sets(rows, op, id, column, content))
  {
    hide Guard, Editable, Accepts, Insertable;
    match op
    case Publish(ds) => PublishStep(rows, ds, id, column);
    case Update(other, edit) =>
      if other == id && id in rows {
        AcceptsIfEditable(rows[id], edit);
      }
    case Reset(_) =>
  }

  lemma PublishStep(rows: Rows, ds: seq<Published>, id: string, column: Column)
    requires id in Performed(rows, Publish(ds))
    ensures var now := Read(Performed(rows, Publish(ds))[id], column);
            || Sets(rows, Publish(ds), id, column, now)
            || (&& id in rows && now == Read(rows[id], column)
                && forall content :: !Sets(rows, Publish(ds), id, column, content))
  {
    hide Insertable, Synced;
    SyncedKeys(rows, ds);
    var found := FindLast(ds, id);
    if id in rows {
      SyncKeepsCustomization(rows, ds, id);
    }
    if found.Some? {
      SyncPublishes(rows, ds, found.value);
      assert LastOf(ds, id, found.value);
    }
  }

  /** The i-th operation of a history is the last that set the column, and set it to this. */
  ghost predicate LastSet(ops: seq<Operation>, i: nat, id: string, column: Column, content: Content) {
    && i < |ops| && Sets(History(ops[..i]), ops[i], id, column, content)
    && forall l, other :: i < l < |ops| ==> !Sets(History(ops[..l]), ops[l], id, column, other)
  }

  /**
   After any history each field of an agent's stored configuration, its switch, its default and its stages are what
   was last set, by a publication, an edit or a reset; operations that set other things do not touch them.
   */
  lemma {:induction false} ColumnsAreTheLastSet(ops: seq<Operation>, id: string, column: Column) returns (i: nat)
    requires id in History(ops)
    ensures LastSet(ops, i, id, column, Read(History(ops)[id], column))
  {
    hide Sets, Performed, Read;
    var init, op := ops[..|ops| - 1], ops[|ops| - 1];
    var content := Read(History(ops)[id], column);
    ColumnStep(History(init), op, id, column);
    assert init + [op] == ops && ops[..|init|] == init;
    if Sets(History(init), op, id, column, content) {
      i := |init|;
    } else {
      i := ColumnsAreTheLastSet(init, id, column);
      StillLastSet(init, op, i, id, column, content);
    }
  }

  lemma StillLastSet(init: seq<Operation>, op: Operation, i: nat, id: string, column: Column, content: Content)
    requires LastSet(init, i, id, column, content) && forall other :: !Sets(History(init), op, id, column, other)
    ensures LastSet(init + [op], i, id, column, content)
  {
    hide Sets, History;
    var ops := init + [op];
    assert init[..i] == ops[..i];
    forall l, other | i < l < |ops| ensures !Sets(History(ops[..l]), ops[l], id, column, other) {
      assert ops[..l] == init[..l];
    }
  }

  lemma EmptyInsertable(rows: Rows, ds: seq<Published>)
    ensures Insertable(rows, ds[..0])
  {
  }

  /** What the user may edit, and what agents outside the registry have, survives every publication. */
  lemma {:induction false} SyncKeepsCustomization(rows: Rows, ds: seq<Published>, id: string)
    requires id in rows
    ensures id in Synced(rows, ds)
    ensures Synced(rows, ds)[id].configuration == rows[id].configuration
    ensures Synced(rows, ds)[id].enabled == rows[id].enabled
    ensures (forall i :: 0 <= i < |ds| ==> ds[i].id != id) ==> Synced(rows, ds)[id] == rows[id]
  {
    if ds != [] {
      SyncKeepsCustomization(rows, ds[..|ds| - 1], id);
    }
  }

  /**
   A published definition, the last one if its id is published twice, reaches its row: all of it if the row is new,
   and otherwise the columns that are not the user's.
   */
  lemma {:induction false} SyncPublishes(rows: Rows, ds: seq<Published>, i: nat)
    requires i < |ds| && forall j :: i < j < |ds| ==> ds[j].id != ds[i].id
    ensures ds[i].id in Synced(rows, ds)
    ensures var d, row := ds[i], Synced(rows, ds)[ds[i].id];
            && row.name == d.name && row.version == d.version && row.domain == d.domain && row.stages == d.stages
            && row.defaultConfiguration == d.configuration
            && (d.id in rows ==> row.configuration == rows[d.id].configuration && row.enabled == rows[d.id].enabled)
            && (d.id !in rows ==> row.configuration == d.configuration && row.enabled)
  {
    var init := ds[..|ds| - 1];
    if i < |init| {
      SyncPublishes(rows, init, i);
      assert init[i] == ds[i] && ds[|ds| - 1].id != ds[i].id;
    } else if ds[i].id in rows {
      SyncKeepsCustomization(rows, init, ds[i].id);
    }
  }

  /** A restart that publishes the same files again changes nothing. */
  lemma SyncIsIdempotent(rows: Rows, ds: seq<Published>)
    requires Distinct(ds)
    ensures Synced(Synced(rows, ds), ds) == Synced(rows, ds)
  {
    var once := Synced(rows, ds);
    var twice := Synced(once, ds);
    SyncedKeys(rows, ds);
    SyncedKeys(once, ds);
    forall id | id in once ensures id in twice && twice[id] == once[id] {
      SyncKeepsCustomization(once, ds, id);
      if exists i :: 0 <= i < |ds| && ds[i].id == id {
        var i :| 0 <= i < |ds| && ds[i].id == id;
        SyncPublishes(rows, ds, i);
        SyncPublishes(once, ds, i);
      }
    }
    assert twice.Keys == once.Keys;
    assert twice == once;
  }

  /** The row as `load_effective_configs` reads it. */
  function OverrideOf(row: Row): Override {
    Override(row.enabled, row.configuration)
  }

  /** What a reading of the whole table gives. */
  function Overrides(rows: Rows): Configs {
    map id | id in rows :: OverrideOf(rows[id])
  }

  /** An agent published for the first time runs exactly its YAML definition, enabled. */
  lemma FreshAgentRunsItsYaml(rows: Rows, ds: seq<Published>, i: nat)
    requires Distinct(ds) && i < |ds| && ds[i].id !in rows && Proper(Obj(ds[i].configuration))
    ensures ds[i].id in Synced(rows, ds)
    ensures MergeDefinition(Some(Obj(ds[i].configuration)), Some(OverrideOf(Synced(rows, ds)[ds[i].id])))
            == Definition(Some(WithEnabled(Obj(ds[i].configuration), true)))
  {
    SyncPublishes(rows, ds, i);
    var yaml := Obj(ds[i].configuration);
    var o := OverrideOf(Synced(rows, ds)[ds[i].id]);
    ObjectOverridesApply(yaml, o);
    MergeWithItself(yaml);
  }

  /**
   A restart with new YAML files, read path by path: what the stored configuration settles stays as it was before,
   and elsewhere the new YAML holds.
   */
  lemma RestartByPath(rows: Rows, ds: seq<Published>, id: string, before: Json, after: Json, path: seq<string>)
    requires id in rows && before.Obj? && after.Obj? && path != []
    ensures id in Synced(rows, ds)
    ensures var stored := Obj(rows[id].configuration);
            var was, result := Merge(before, stored), Merge(after, Obj(Synced(rows, ds)[id].configuration));
            && (Settled(stored, path) ==> Lookup(result, path) == Lookup(was, path))
            && (!Settled(stored, path) && Lookup(stored, path) == None ==> Lookup(result, path) == Lookup(after, path))
  {
    SyncKeepsCustomization(rows, ds, id);
    MergeByPath(before, Obj(rows[id].configuration), path);
    MergeByPath(after, Obj(rows[id].configuration), path);
  }

  /** The configuration holds something other than an object at the path, or on the way to it. */
  ghost predicate Settled(stored: Json, path: seq<string>) {
    || (Lookup(stored, path).Some? && !Lookup(stored, path).value.Obj?)
    || (Lookup(stored, path) == None && Cuts(stored, path))
  }

  /** In particular a restart with the same YAML changes nothing. */
  lemma RestartKeepsEffectiveDefinition(rows: Rows, ds: seq<Published>, id: string, base: Option<Json>)
    requires id in rows && (base.Some? ==> base.value.Obj?)
    ensures id in Synced(rows, ds)
    ensures MergeDefinition(base, Some(OverrideOf(Synced(rows, ds)[id])))
            == MergeDefinition(base, Some(OverrideOf(rows[id])))
  {
    SyncKeepsCustomization(rows, ds, id);
  }

  /**
   Even an agent that nobody customised keeps what its first YAML said: its stored configuration is that YAML,
   which wins over every later one.
   */
  lemma FirstYamlWins(rows: Rows, first: seq<Published>, later: seq<Published>, i: nat, after: Json, path: seq<string>)
    requires Distinct(first) && i < |first| && first[i].id !in rows && after.Obj? && path != []
    requires var yaml := Obj(first[i].configuration); Lookup(yaml, path).Some? && !Lookup(yaml, path).value.Obj?
    ensures first[i].id in Synced(Synced(rows, first), later)
    ensures Lookup(Merge(after, Obj(Synced(Synced(rows, first), later)[first[i].id].configuration)), path)
            == Lookup(Obj(first[i].configuration), path)
  {
    SyncPublishes(rows, first, i);
    SyncKeepsCustomization(Synced(rows, first), later, first[i].id);
    MergeByPath(after, Obj(first[i].configuration), path);
  }

  // ---- the cache in front of the table ----

  type Configs = map<string, Override>

  class ConfigStore {
    const ttl: int
    var cache: Option<Configs>
    var cacheAt: int
    /** The successful readings of the table, with their times. */
    ghost var readings: seq<(int, Configs)>

    ghost predicate Valid()
      reads this
    {
      cache.Some? ==> (cacheAt, cache.value) in readings
    }

    constructor (ttl: int)
      ensures Valid() && this.ttl == ttl && cache == None && readings == []
    {
      this.ttl := ttl;
      cache, cacheAt := None, 0;
      readings := [];
    }

    method InvalidateCache()
      requires Valid()
      modifies this
      ensures Valid() && cache == None && readings == old(readings)
    {
      cache, cacheAt := None, 0;
    }

    /**
     `load_effective_configs` at time `now`; `table` is what a reading of the table would give, None if it fails.
     The answer is never older than the time to live, except that a failed reading answers with no overrides.
     */
    method Load(now: int, force: bool, table: Option<Configs>) returns (configs: Configs)
      requires Valid()
      modifies this
      ensures Valid()
      ensures || (exists at :: (at, configs) in readings && (at == now || now - at < ttl))
              || (table == None && configs == map[])
      ensures (force || old(cache) == None || now - old(cacheAt) >= ttl) ==>
                configs == table.GetOr(map[])
                && readings == old(readings) + (if table.Some? then [(now, table.value)] else [])
                && cache == (if table.Some? then table else old(cache))
      ensures !(force || old(cache) == None || now - old(cacheAt) >= ttl) ==>
                Some(configs) == old(cache) && cache == old(cache) && readings == old(readings)
    {
      if !force && cache.Some? && now - cacheAt < ttl {
        assert (cacheAt, cache.value) in readings;
        return cache.value;
      }
      match table
      case Some(rows) =>
        cache, cacheAt := Some(rows), now;
        readings := readings + [(now, rows)];
        assert (now, rows) in readings;
        return rows;
      case None =>
        return map[];
    }
  }
}

/** The configuration over any sequence of updates, partial updates, resets and restarts. */
module ConfigRuns {
  import opened Common
  import opened Config

  /** What the process holds, and the user file on disk. */
  datatype Settings = Settings(env: Builder, usr: Builder, live: Items, overrides: seq<Name>, disk: Option<Builder>)

  function FromFile(disk: Option<Builder>): Builder {
    if disk.Some? then disk.value else map[]
  }

  /** Loading; None when the configuration check refuses it, unless that check is skipped. */
  function Load(schema: Schema, env: Builder, disk: Option<Builder>, skipValidation: bool): Option<Settings> {
    var usr := FromFile(disk);
    var live := Build(schema, MergeFields(schema.fields, env, usr));
    if !skipValidation && !schema.validate(live, false) then None
    else Some(Settings(env, usr, live, Overrides(schema.fields, env, usr), disk))
  }

  /** A new user configuration. The memory is changed before the file is written, and stays changed when that fails. */
  function Replace(schema: Schema, s: Settings, usr: Builder, writeOk: bool): Settings {
    var live := Build(schema, MergeFields(schema.fields, s.env, usr));
    if !schema.validate(live, true) then s
    else Settings(s.env, usr, live, Overrides(schema.fields, s.env, usr), if writeOk then Some(usr) else s.disk)
  }

  function Update(schema: Schema, s: Settings, other: Builder, ignoreNonEditable: bool, writeOk: bool): Settings {
    Replace(schema, s, if ignoreNonEditable then EditableOnly(schema, other) else other, writeOk)
  }

  function UpdatePartial(schema: Schema, s: Settings, other: Builder, writeOk: bool): Settings {
    Update(schema, s, MergeFields(schema.fields, s.usr, other), false, writeOk)
  }

  /** Back to the environment; nothing is validated. */
  function Reset(schema: Schema, s: Settings, deleteOk: bool): Settings {
    if !deleteOk then s else Settings(s.env, map[], Build(schema, s.env), [], None)
  }

  datatype Event =
    | EvUpdate(other: Builder, ignoreNonEditable: bool, writeOk: bool)
    | EvPartial(other: Builder, writeOk: bool)
    | EvReset(deleteOk: bool)

  function Next(schema: Schema, s: Settings, e: Event): Settings {
    match e
    case EvUpdate(other, ignore, writeOk) => Update(schema, s, other, ignore, writeOk)
    case EvPartial(other, writeOk) => UpdatePartial(schema, s, other, writeOk)
    case EvReset(deleteOk) => Reset(schema, s, deleteOk)
  }

  function After(schema: Schema, start: Settings, run: seq<Event>): Settings {
    if run == [] then start else Next(schema, After(schema, start, run[..|run| - 1]), run[|run| - 1])
  }

  ghost predicate FittingEvent(schema: Schema, e: Event) {
    !e.EvReset? ==> Fitting(schema, e.other)
  }

  // ----- What always holds

  /** The live settings are those of user file over environment, and the overrides are the names set in both. */
  ghost predicate Layered(schema: Schema, s: Settings) {
    && Fitting(schema, s.env) && Fitting(schema, s.usr)
    && s.live == Build(schema, s.env + s.usr)
    && s.overrides == Overrides(schema.fields, s.env, s.usr)
    && (forall n :: n in s.overrides <==> n in s.env && n in s.usr)
    && InFieldOrder(s.overrides, schema.fields)
  }

  lemma OverridesExact(schema: Schema, env: Builder, usr: Builder)
    requires Fitting(schema, env)
    ensures forall n :: n in Overrides(schema.fields, env, usr) <==> n in env && n in usr
    ensures InFieldOrder(Overrides(schema.fields, env, usr), schema.fields)
  {
    forall n ensures n in Overrides(schema.fields, env, usr) <==> n in env && n in usr {
      OverridesAre(schema.fields, env, usr, n);
    }
    OverridesInOrder(schema.fields, env, usr);
  }

  lemma LoadIsLayered(schema: Schema, env: Builder, disk: Option<Builder>, skipValidation: bool)
    requires Fitting(schema, env) && Fitting(schema, FromFile(disk)) && Load(schema, env, disk, skipValidation).Some?
    ensures Layered(schema, Load(schema, env, disk, skipValidation).value)
  {
    MergeIsUnion(schema, env, FromFile(disk));
    OverridesExact(schema, env, FromFile(disk));
  }

  lemma {:induction false} NoOverrides(fields: seq<Field>, env: Builder)
    ensures Overrides(fields, env, map[]) == []
  {
    if fields != [] { NoOverrides(fields[..|fields| - 1], env); }
  }

  lemma ReplaceIsLayered(schema: Schema, s: Settings, usr: Builder, writeOk: bool)
    requires Layered(schema, s) && Fitting(schema, usr)
    ensures Layered(schema, Replace(schema, s, usr, writeOk))
  {
    MergeIsUnion(schema, s.env, usr);
    OverridesExact(schema, s.env, usr);
  }

  lemma ResetIsLayered(schema: Schema, s: Settings, deleteOk: bool)
    requires Layered(schema, s)
    ensures Layered(schema, Reset(schema, s, deleteOk))
  {
    assert s.env + map[] == s.env;
    NoOverrides(schema.fields, s.env);
    OverridesExact(schema, s.env, map[]);
  }

  lemma PartialIsLayered(schema: Schema, s: Settings, other: Builder, writeOk: bool)
    requires Layered(schema, s) && Fitting(schema, other)
    ensures Layered(schema, UpdatePartial(schema, s, other, writeOk))
  {
    MergeIsUnion(schema, s.usr, other);
    ReplaceIsLayered(schema, s, s.usr + other, writeOk);
  }

  lemma StepIsLayered(schema: Schema, s: Settings, e: Event)
    requires Layered(schema, s) && FittingEvent(schema, e)
    ensures Layered(schema, Next(schema, s, e))
  {
    match e
    case EvUpdate(other, ignore, writeOk) =>
      ReplaceIsLayered(schema, s, if ignore then EditableOnly(schema, other) else other, writeOk);
    case EvPartial(other, writeOk) => PartialIsLayered(schema, s, other, writeOk);
    case EvReset(deleteOk) => ResetIsLayered(schema, s, deleteOk);
  }

  lemma EnvironmentStays(schema: Schema, s: Settings, e: Event)
    ensures Next(schema, s, e).env == s.env
  {
  }

  /** After any sequence of updates, partial updates and resets, whether or not the file could be written. */
  lemma {:induction false} RunIsLayered(schema: Schema, start: Settings, run: seq<Event>)
    requires Layered(schema, start) && forall i :: 0 <= i < |run| ==> FittingEvent(schema, run[i])
    ensures Layered(schema, After(schema, start, run)) && After(schema, start, run).env == start.env
  {
    if run != [] {
      RunIsLayered(schema, start, run[..|run| - 1]);
      StepIsLayered(schema, After(schema, start, run[..|run| - 1]), run[|run| - 1]);
      EnvironmentStays(schema, After(schema, start, run[..|run| - 1]), run[|run| - 1]);
    }
  }

  // ----- Partial updates compose

  /** The configuration check accepts the user configuration over this environment. */
  predicate Accepts(schema: Schema, s: Settings, usr: Builder) {
    schema.validate(Build(schema, s.env + usr), true)
  }

  /** The settings with a given user configuration in place. */
  function Placed(schema: Schema, env: Builder, usr: Builder, disk: Option<Builder>): Settings {
    Settings(env, usr, Build(schema, env + usr), Overrides(schema.fields, env, usr), disk)
  }

  lemma PartialIsUnion(schema: Schema, s: Settings, other: Builder, usr: Builder)
    requires Fitting(schema, s.usr) && Fitting(schema, other) && usr == s.usr + other && Accepts(schema, s, usr)
    ensures UpdatePartial(schema, s, other, true) == Placed(schema, s.env, usr, Some(usr))
  {
    MergeIsUnion(schema, s.usr, other);
    MergeIsUnion(schema, s.env, usr);
  }

  /** Two accepted partial updates in a row leave what one with the second on top of the first leaves. */
  lemma {:induction false} PartialUpdatesCompose(schema: Schema, s: Settings, a: Builder, b: Builder)
    requires Fitting(schema, s.usr) && Fitting(schema, a) && Fitting(schema, b)
    requires Accepts(schema, s, s.usr + a) && Accepts(schema, s, s.usr + (a + b))
    ensures UpdatePartial(schema, UpdatePartial(schema, s, a, true), b, true)
            == UpdatePartial(schema, s, MergeFields(schema.fields, a, b), true)
  {
    var first, both := s.usr + a, s.usr + (a + b);
    assert first + b == both;
    PartialIsUnion(schema, s, a, first);
    PartialIsUnion(schema, Placed(schema, s.env, first, Some(first)), b, both);
    MergeIsUnion(schema, a, b);
    PartialIsUnion(schema, s, a + b, both);
  }

  // ----- What one step does

  /** The user configuration an event asks for. */
  function NewUser(schema: Schema, s: Settings, e: Event): Builder {
    match e
    case EvUpdate(other, ignore, _) => if ignore then EditableOnly(schema, other) else other
    case EvPartial(other, _) => s.usr + other
    case EvReset(_) => map[]
  }

  /** A change has to pass the configuration check; a reset only needs its file deleted. */
  predicate Accepted(schema: Schema, s: Settings, e: Event) {
    if e.EvReset? then e.deleteOk else Accepts(schema, s, NewUser(schema, s, e))
  }

  /** The file after an accepted event. */
  function NewFile(schema: Schema, s: Settings, e: Event): Option<Builder> {
    if e.EvReset? then None else if e.writeOk then Some(NewUser(schema, s, e)) else s.disk
  }

  /** An accepted event puts its user configuration in place; any other changes nothing. */
  lemma StepIs(schema: Schema, s: Settings, e: Event)
    requires Layered(schema, s) && FittingEvent(schema, e)
    ensures Next(schema, s, e)
            == if Accepted(schema, s, e) then Placed(schema, s.env, NewUser(schema, s, e), NewFile(schema, s, e)) else s
  {
    match e
    case EvUpdate(_, _, _) => MergeIsUnion(schema, s.env, NewUser(schema, s, e));
    case EvPartial(other, _) =>
      MergeIsUnion(schema, s.usr, other);
      MergeIsUnion(schema, s.env, s.usr + other);
    case EvReset(_) =>
      assert s.env + map[] == s.env;
      NoOverrides(schema.fields, s.env);
  }

  // ----- Restart

  /** The file on disk holds the user configuration in memory. */
  predicate Saved(s: Settings) {
    FromFile(s.disk) == s.usr
  }

  predicate WritesOk(run: seq<Event>) {
    forall i :: 0 <= i < |run| ==> (run[i].EvUpdate? ==> run[i].writeOk) && (run[i].EvPartial? ==> run[i].writeOk)
  }

  lemma {:induction false} WritesKeepSaved(schema: Schema, start: Settings, run: seq<Event>)
    requires Saved(start) && WritesOk(run)
    ensures Saved(After(schema, start, run))
  {
    if run != [] { WritesKeepSaved(schema, start, run[..|run| - 1]); }
  }

  /** The check made on an update is at least as strict as the one made on loading. */
  ghost predicate StricterOnUpdate(schema: Schema) {
    forall items :: schema.validate(items, true) ==> schema.validate(items, false)
  }

  /**
   * A restart comes up with the live settings exactly when the file holds the user configuration and the loading check
   * accepts them.
   */
  lemma {:induction false} RestartReproducesIff(schema: Schema, s: Settings, skipValidation: bool)
    requires Layered(schema, s)
    ensures var again := Load(schema, s.env, s.disk, skipValidation);
            && (again == Some(s) <==> Saved(s) && (skipValidation || schema.validate(s.live, false)))
            && (Saved(s) && again.Some? ==> again.value == s)
  {
    if Saved(s) { MergeIsUnion(schema, s.env, s.usr); }
  }

  /** The length of the run at its last save: the last accepted change whose file was written or deleted. */
  ghost function LastSave(schema: Schema, start: Settings, run: seq<Event>): (k: nat)
    ensures k <= |run|
  {
    if run == [] then 0
    else
      var prefix, e := run[..|run| - 1], run[|run| - 1];
      if Accepted(schema, After(schema, start, prefix), e) && (e.EvReset? || e.writeOk) then |run|
      else LastSave(schema, start, prefix)
  }

  lemma StepSaves(schema: Schema, s: Settings, e: Event)
    requires Layered(schema, s) && FittingEvent(schema, e)
    ensures if Accepted(schema, s, e) && (e.EvReset? || e.writeOk) then Saved(Next(schema, s, e))
            else Next(schema, s, e).disk == s.disk
  {
    StepIs(schema, s, e);
  }

  lemma {:induction false} DiskIsLastSave(schema: Schema, start: Settings, run: seq<Event>)
    requires Layered(schema, start) && Saved(start)
    requires forall i :: 0 <= i < |run| ==> FittingEvent(schema, run[i])
    ensures var s := After(schema, start, run[..LastSave(schema, start, run)]);
            Saved(s) && s.disk == After(schema, start, run).disk
  {
    assert run[..|run|] == run;
    if run != [] {
      var prefix, e := run[..|run| - 1], run[|run| - 1];
      DiskIsLastSave(schema, start, prefix);
      RunIsLayered(schema, start, prefix);
      StepSaves(schema, After(schema, start, prefix), e);
      var k := LastSave(schema, start, prefix);
      assert prefix[..k] == run[..k];
    }
  }

  /**
   * After any run, whichever writes have failed, a restart that passes the loading check comes up with the settings of
   * the last save; what was accepted after it is gone.
   */
  lemma {:induction false} RestartReturnsToLastSave(schema: Schema, start: Settings, run: seq<Event>,
                                                    skipValidation: bool)
    requires Layered(schema, start) && Saved(start)
    requires forall i :: 0 <= i < |run| ==> FittingEvent(schema, run[i])
    ensures var s := After(schema, start, run[..LastSave(schema, start, run)]);
            Load(schema, start.env, After(schema, start, run).disk, skipValidation)
            == if skipValidation || schema.validate(s.live, false) then Some(s) else None
  {
    var k := LastSave(schema, start, run);
    DiskIsLastSave(schema, start, run);
    RunIsLayered(schema, start, run[..k]);
    RestartReproducesIff(schema, After(schema, start, run[..k]), skipValidation);
    RestartFailsIff(schema, After(schema, start, run[..k]), skipValidation);
  }

  lemma RestartFailsIff(schema: Schema, s: Settings, skipValidation: bool)
    requires Layered(schema, s) && Saved(s)
    ensures Load(schema, s.env, s.disk, skipValidation).None? <==> !skipValidation && !schema.validate(s.live, false)
  {
    MergeIsUnion(schema, s.env, s.usr);
  }

  /**
   * From a start with its file in place, every run of saved changes can be resumed after a restart, resets included or
   * not.
   */
  lemma {:induction false} RunSurvivesRestart(schema: Schema, env: Builder, disk: Option<Builder>, run: seq<Event>)
    requires Fitting(schema, env) && Fitting(schema, FromFile(disk)) && StricterOnUpdate(schema)
    requires Load(schema, env, disk, false).Some? && WritesOk(run)
    requires forall i :: 0 <= i < |run| ==> FittingEvent(schema, run[i])
    ensures var s := After(schema, Load(schema, env, disk, false).value, run);
            && (Load(schema, env, s.disk, false).Some? <==> schema.validate(s.live, false))
            && (Load(schema, env, s.disk, false).Some? ==> Load(schema, env, s.disk, false).value == s)
            && ((forall i :: 0 <= i < |run| ==> !run[i].EvReset?) ==> Load(schema, env, s.disk, false) == Some(s))
  {
    var start := Load(schema, env, disk, false).value;
    LoadIsLayered(schema, env, disk, false);
    RunIsLayered(schema, start, run);
    WritesKeepSaved(schema, start, run);
    RestartReproducesIff(schema, After(schema, start, run), false);
    if forall i :: 0 <= i < |run| ==> !run[i].EvReset? { RunStaysValid(schema, start, run); }
  }

  lemma {:induction false} RunStaysValid(schema: Schema, start: Settings, run: seq<Event>)
    requires schema.validate(start.live, false) && StricterOnUpdate(schema)
    requires forall i :: 0 <= i < |run| ==> !run[i].EvReset?
    ensures schema.validate(After(schema, start, run).live, false)
  {
    if run != [] { RunStaysValid(schema, start, run[..|run| - 1]); }
  }

  /**
   * An accepted change whose file cannot be written is live although the file is as before, and a restart that passes
   * the loading check gives back the settings from before the change.
   */
  lemma {:induction false} FailedWriteIsLive(schema: Schema, s: Settings, e: Event, skipValidation: bool)
    requires Layered(schema, s) && Saved(s) && FittingEvent(schema, e)
    requires !e.EvReset? && Accepted(schema, s, e) && !e.writeOk
    ensures var s' := Next(schema, s, e);
            && s'.usr == NewUser(schema, s, e) && s'.live == Build(schema, s.env + s'.usr) && s'.disk == s.disk
            && (Saved(s') <==> s'.usr == s.usr)
            && Load(schema, s.env, s'.disk, skipValidation)
               == if skipValidation || schema.validate(s.live, false) then Some(s) else None
  {
    StepIs(schema, s, e);
    RestartReproducesIff(schema, s, skipValidation);
    RestartFailsIff(schema, s, skipValidation);
  }

  // ----- Which event a setting comes from

  function Given(b: Builder, name: Name): Option<Value> {
    if name in b then Some(b[name]) else None
  }

  /**
   * What the events of a run leave of a setting: a partial update counts where it gives the setting, an update replaces
   * it, one from the admin page drops it unless it is editable, and so does a reset. Refused events do not count.
   */
  ghost function Kept(schema: Schema, start: Settings, run: seq<Event>, name: Name): Option<Value> {
    if run == [] then Given(start.usr, name)
    else
      var prefix, e := run[..|run| - 1], run[|run| - 1];
      var before := Kept(schema, start, prefix, name);
      if Accepted(schema, After(schema, start, prefix), e) then KeptBy(schema, e, name, before) else before
  }

  function KeptBy(schema: Schema, e: Event, name: Name, before: Option<Value>): Option<Value> {
    match e
    case EvPartial(other, _) => if name in other then Some(other[name]) else before
    case EvUpdate(other, ignore, _) => if ignore && !Editable(schema, name) then None else Given(other, name)
    case EvReset(_) => None
  }

  lemma StepKeeps(schema: Schema, s: Settings, e: Event, name: Name)
    requires Layered(schema, s) && FittingEvent(schema, e)
    ensures Given(Next(schema, s, e).usr, name)
            == if Accepted(schema, s, e) then KeptBy(schema, e, name, Given(s.usr, name)) else Given(s.usr, name)
  {
    StepIs(schema, s, e);
  }

  lemma {:induction false} UserIsKept(schema: Schema, start: Settings, run: seq<Event>, name: Name)
    requires Layered(schema, start) && forall k :: 0 <= k < |run| ==> FittingEvent(schema, run[k])
    ensures Given(After(schema, start, run).usr, name) == Kept(schema, start, run, name)
  {
    if run != [] {
      var prefix, e := run[..|run| - 1], run[|run| - 1];
      UserIsKept(schema, start, prefix, name);
      RunIsLayered(schema, start, prefix);
      StepKeeps(schema, After(schema, start, prefix), e, name);
    }
  }

  /** A field whose value does not depend on the fields before it. */
  predicate StandsAlone(f: Field, env: Builder) {
    f.action.Optional? || f.action.Default? || (f.action.Auto? && f.name in env)
  }

  /**
   * For every run of updates, partial updates and resets, and every field that is not generated: the live value is the
   * one that the events have kept, and where they kept none, a field that stands alone has the environment's.
   */
  lemma {:induction false} LiveIsKept(schema: Schema, start: Settings, run: seq<Event>, i: nat)
    requires Layered(schema, start) && forall k :: 0 <= k < |run| ==> FittingEvent(schema, run[k])
    requires Distinct(schema.fields) && i < |schema.fields| && !Corrected(schema.fields[i].name)
    requires !schema.fields[i].action.Generated?
    ensures var name, live := schema.fields[i].name, After(schema, start, run).live;
            var kept, given := Kept(schema, start, run, name), Build(schema, start.env);
            && (kept.Some? ==> name in live && live[name] == kept.value)
            && (kept.None? && StandsAlone(schema.fields[i], start.env) ==>
                  (name in live <==> name in given) && (name in live ==> live[name] == given[name]))
  {
    var name := schema.fields[i].name;
    RunIsLayered(schema, start, run);
    UserIsKept(schema, start, run, name);
    BuildMeans(schema, start.env, i);
    BuildMeans(schema, start.env + After(schema, start, run).usr, i);
  }

  /** An accepted admin save takes over the editable settings on the page, and no others. */
  lemma {:induction false} AdminSaveTakesEditable(schema: Schema, s: Settings, page: Builder, writeOk: bool, i: nat)
    requires Layered(schema, s) && Fitting(schema, page) && Accepts(schema, s, EditableOnly(schema, page))
    requires Distinct(schema.fields) && i < |schema.fields| && !Corrected(schema.fields[i].name)
    requires !schema.fields[i].action.Generated? && schema.fields[i].name in page
    ensures var name, after := schema.fields[i].name, Update(schema, s, page, true, writeOk);
            && (schema.fields[i].editable ==> name in after.usr && name in after.live && after.live[name] == page[name])
            && (!schema.fields[i].editable ==> name !in after.usr)
  {
    var name, e := schema.fields[i].name, EvUpdate(page, true, writeOk);
    StepIs(schema, s, e);
    assert [e][..0] == [];
    assert After(schema, s, [e]) == Next(schema, After(schema, s, []), e);
    LiveIsKept(schema, s, [e], i);
    assert schema.fields[i].editable ==> Editable(schema, name);
    assert Kept(schema, s, [e], name) == KeptBy(schema, e, name, Given(s.usr, name));
  }

  /** An accepted admin update or a reset among the events. */
  ghost predicate Replaced(schema: Schema, start: Settings, run: seq<Event>) {
    run != [] &&
    var prefix, e := run[..|run| - 1], run[|run| - 1];
    Replaced(schema, start, prefix) || (!e.EvPartial? && Accepted(schema, After(schema, start, prefix), e))
  }

  /** Admin updates, resets, and partial updates of other settings. */
  predicate Leaves(run: seq<Event>, name: Name) {
    forall k :: 0 <= k < |run| ==>
      && (run[k].EvUpdate? ==> run[k].ignoreNonEditable)
      && (run[k].EvPartial? ==> name !in run[k].other)
  }

  lemma {:induction false} KeptUnlessReplaced(schema: Schema, start: Settings, run: seq<Event>, name: Name)
    requires !Editable(schema, name) && Leaves(run, name)
    ensures Kept(schema, start, run, name) == if Replaced(schema, start, run) then None else Given(start.usr, name)
  {
    if run != [] { KeptUnlessReplaced(schema, start, run[..|run| - 1], name); }
  }

  /**
   * A key that the server has generated and stored in an optional setting that is not editable, as it does for Duo: it
   * is still there after any number of later admin updates, resets and partial updates of other settings exactly when
   * none of the admin updates and resets was accepted.
   */
  lemma {:induction false} GeneratedKeySurvivesIff(schema: Schema, start: Settings, run: seq<Event>, i: nat)
    requires Layered(schema, start) && forall k :: 0 <= k < |run| ==> FittingEvent(schema, run[k])
    requires Distinct(schema.fields) && i < |schema.fields| && !Corrected(schema.fields[i].name)
    requires schema.fields[i].action.Optional? && !schema.fields[i].editable
    requires schema.fields[i].name in start.usr && schema.fields[i].name !in start.env
    requires Leaves(run, schema.fields[i].name)
    ensures var name, live := schema.fields[i].name, After(schema, start, run).live;
            && (name in live <==> !Replaced(schema, start, run))
            && (name in live ==> live[name] == start.usr[name])
  {
    var name := schema.fields[i].name;
    assert !Editable(schema, name);
    KeptUnlessReplaced(schema, start, run, name);
    LiveIsKept(schema, start, run, i);
    BuildMeans(schema, start.env, i);
  }

  /** For every page that passes the check: the server stores a generated key, and the next admin save drops it. */
  lemma {:induction false} AdminSaveDropsKey(schema: Schema, start: Settings, i: nat, key: Value, page: Builder)
    requires Layered(schema, start) && Fitting(schema, page)
    requires Distinct(schema.fields) && i < |schema.fields| && !Corrected(schema.fields[i].name)
    requires schema.fields[i].action.Optional? && !schema.fields[i].editable && schema.fields[i].name !in start.env
    requires Accepts(schema, start, start.usr + map[schema.fields[i].name := key])
    requires Accepts(schema, start, EditableOnly(schema, page))
    ensures var name := schema.fields[i].name;
            var stored := UpdatePartial(schema, start, map[name := key], true);
            && name in stored.live && stored.live[name] == key
            && name !in Update(schema, stored, page, true, true).live
  {
    var name := schema.fields[i].name;
    var e1, e2 := EvPartial(map[name := key], true), EvUpdate(page, true, true);
    assert HasField(schema.fields, name);
    var stored := Next(schema, start, e1);
    StepIs(schema, start, e1);
    StepIsLayered(schema, start, e1);
    assert [e2][..0] == [];
    assert After(schema, stored, [e2]) == Next(schema, After(schema, stored, []), e2);
    assert Replaced(schema, stored, [e2]);
    GeneratedKeySurvivesIff(schema, stored, [], i);
    GeneratedKeySurvivesIff(schema, stored, [e2], i);
  }

  // ----- The configuration as it runs

  class Service {
    const schema: Schema
    const env: Builder
    var usr: Builder
    var config: Items
    var overrides: seq<Name>
    var disk: Option<Builder>

    ghost function Contents(): Settings
      reads this
    {
      Settings(env, usr, config, overrides, disk)
    }

    /** A loaded configuration; refused settings do not get this far. */
    constructor (schema: Schema, loaded: Settings)
      ensures this.schema == schema && Contents() == loaded
    {
      this.schema, env, usr := schema, loaded.env, loaded.usr;
      config, overrides, disk := loaded.live, loaded.overrides, loaded.disk;
    }

    method UpdateConfig(other: Builder, ignoreNonEditable: bool, writeOk: bool) returns (r: Outcome)
      modifies this
      ensures Contents() == Update(schema, old(Contents()), other, ignoreNonEditable, writeOk)
      ensures var user := if ignoreNonEditable then EditableOnly(schema, other) else other;
              r == Ok <==> writeOk && schema.validate(Build(schema, MergeFields(schema.fields, env, user)), true)
      ensures r == Ok ==> Saved(Contents())
    {
      var builder := other;
      if ignoreNonEditable {
        builder := ClearNonEditable(schema, builder);
      }
      var merged, names := MergeBuilders(schema, env, builder);
      var live := BuildItems(schema, merged);
      if !schema.validate(live, true) {
        return Err;
      }
      config, usr, overrides := live, builder, names;
      if !writeOk {
        return Err;
      }
      disk := Some(builder);
      return Ok;
    }

    method UpdateConfigPartial(other: Builder, writeOk: bool) returns (r: Outcome)
      modifies this
      ensures Contents() == UpdatePartial(schema, old(Contents()), other, writeOk)
      ensures var user := MergeFields(schema.fields, old(usr), other);
              r == Ok <==> writeOk && schema.validate(Build(schema, MergeFields(schema.fields, env, user)), true)
      ensures r == Ok ==> Saved(Contents())
    {
      var builder, _ := MergeBuilders(schema, usr, other);
      r := UpdateConfig(builder, false, writeOk);
    }

    method DeleteUserConfig(deleteOk: bool) returns (r: Outcome)
      modifies this
      ensures Contents() == Reset(schema, old(Contents()), deleteOk)
      ensures r == Ok <==> deleteOk
    {
      if !deleteOk {
        return Err;
      }
      disk := None;
      var live := BuildItems(schema, env);
      config, usr, overrides := live, map[], [];
      return Ok;
    }
  }
}

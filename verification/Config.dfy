/**
 * The layered configuration: environment, user file on top of it, defaults below, some of them
 * computed from settings that come earlier. The field list is a parameter, as it is a macro argument.
 */
module Config {
  import opened Common

  type Name = string
  type Value = string

  /** The settings that are given; the others are unset. */
  type Builder = map<Name, Value>

  /** The settings in force. */
  type Items = map<Name, Value>

  datatype Action =
    | Optional
    | Default(value: Value)
    | Auto(from: Items -> Value)
    | Generated(from: Items -> Value)

  datatype Field = Field(name: Name, editable: bool, action: Action)

  /** The fields in order of declaration, the clean-up of comma separated lists, and the configuration check. */
  datatype Schema = Schema(fields: seq<Field>, tidy: Value -> Value, validate: (Items, bool) -> bool)

  predicate HasField(fields: seq<Field>, name: Name) {
    exists i :: 0 <= i < |fields| && fields[i].name == name
  }

  lemma HasFieldGrows(fields: seq<Field>, name: Name)
    requires fields != []
    ensures HasField(fields, name) <==> HasField(fields[..|fields| - 1], name) || fields[|fields| - 1].name == name
  {
    var before := fields[..|fields| - 1];
    if HasField(before, name) {
      var i :| 0 <= i < |before| && before[i].name == name;
      assert fields[i].name == name;
    }
    if HasField(fields, name) && fields[|fields| - 1].name != name {
      var i :| 0 <= i < |fields| && fields[i].name == name;
      assert before[i].name == name;
    }
  }

  /** A builder has no other members than the fields. */
  ghost predicate Fitting(schema: Schema, b: Builder) {
    forall n :: n in b ==> HasField(schema.fields, n)
  }

  // ----- Merging

  /** The field by field copy: where `other` has a value, it wins. */
  function MergeFields(fields: seq<Field>, base: Builder, other: Builder): Builder {
    if fields == [] then base
    else
      var m := MergeFields(fields[..|fields| - 1], base, other);
      var name := fields[|fields| - 1].name;
      if name in other then m[name := other[name]] else m
  }

  /** The names set in both, in field order. */
  function Overrides(fields: seq<Field>, base: Builder, other: Builder): seq<Name> {
    if fields == [] then []
    else
      var name := fields[|fields| - 1].name;
      Overrides(fields[..|fields| - 1], base, other) + if name in base && name in other then [name] else []
  }

  lemma {:induction false} MergeFieldsAre(fields: seq<Field>, base: Builder, other: Builder, name: Name)
    ensures var m := MergeFields(fields, base, other);
            && (name in m <==> name in base || (name in other && HasField(fields, name)))
            && (name in m ==> m[name] == if name in other && HasField(fields, name) then other[name] else base[name])
  {
    if fields != [] {
      MergeFieldsAre(fields[..|fields| - 1], base, other, name);
      HasFieldGrows(fields, name);
    }
  }

  /** Merging is overriding: the second builder on top of the first. */
  lemma MergeIsUnion(schema: Schema, base: Builder, other: Builder)
    requires Fitting(schema, other)
    ensures MergeFields(schema.fields, base, other) == base + other
  {
    forall n
      ensures n in MergeFields(schema.fields, base, other) <==> n in base + other
      ensures n in base + other ==> MergeFields(schema.fields, base, other)[n] == (base + other)[n]
    {
      MergeFieldsAre(schema.fields, base, other, n);
    }
  }

  lemma {:induction false} OverridesAre(fields: seq<Field>, base: Builder, other: Builder, name: Name)
    ensures name in Overrides(fields, base, other) <==> name in base && name in other && HasField(fields, name)
  {
    if fields != [] {
      OverridesAre(fields[..|fields| - 1], base, other, name);
      HasFieldGrows(fields, name);
    }
  }

  /** A list of some of the field names in field order, each at most once. */
  ghost predicate InFieldOrder(names: seq<Name>, fields: seq<Field>) {
    if fields == [] then names == []
    else
      var last := fields[|fields| - 1].name;
      || InFieldOrder(names, fields[..|fields| - 1])
      || (names != [] && names[|names| - 1] == last && InFieldOrder(names[..|names| - 1], fields[..|fields| - 1]))
  }

  lemma {:induction false} OverridesInOrder(fields: seq<Field>, base: Builder, other: Builder)
    ensures InFieldOrder(Overrides(fields, base, other), fields)
  {
    if fields != [] {
      var before := fields[..|fields| - 1];
      OverridesInOrder(before, base, other);
      var o := Overrides(fields, base, other);
      if o != Overrides(before, base, other) { assert o[..|o| - 1] == Overrides(before, base, other); }
    }
  }

  method MergeBuilders(schema: Schema, base: Builder, other: Builder) returns (builder: Builder, overrides: seq<Name>)
    ensures builder == MergeFields(schema.fields, base, other)
    ensures overrides == Overrides(schema.fields, base, other)
  {
    builder, overrides := base, [];
    for i := 0 to |schema.fields|
      invariant builder == MergeFields(schema.fields[..i], base, other)
      invariant overrides == Overrides(schema.fields[..i], base, other)
    {
      var name := schema.fields[i].name;
      assert schema.fields[..i + 1][..i] == schema.fields[..i];
      if name in other {
        builder := builder[name := other[name]];
        if name in base {
          overrides := overrides + [name];
        }
      }
    }
    assert schema.fields[..|schema.fields|] == schema.fields;
  }

  predicate EditableBefore(schema: Schema, name: Name, n: nat)
    requires n <= |schema.fields|
  {
    forall i :: 0 <= i < n && schema.fields[i].name == name ==> schema.fields[i].editable
  }

  predicate Editable(schema: Schema, name: Name) {
    EditableBefore(schema, name, |schema.fields|)
  }

  /** What an administrator may set. */
  function EditableOnly(schema: Schema, b: Builder): Builder {
    map n | n in b && Editable(schema, n) :: b[n]
  }

  method ClearNonEditable(schema: Schema, b: Builder) returns (r: Builder)
    ensures r == EditableOnly(schema, b)
    ensures forall n :: n in r <==>
              n in b && forall i :: 0 <= i < |schema.fields| && schema.fields[i].name == n ==> schema.fields[i].editable
    ensures forall n :: n in r ==> r[n] == b[n]
  {
    r := b;
    for i := 0 to |schema.fields|
      invariant r == map n | n in b && EditableBefore(schema, n, i) :: b[n]
    {
      if !schema.fields[i].editable {
        r := r - {schema.fields[i].name};
      }
    }
  }

  // ----- Building

  /** The value of one field, given what has been built of the fields before it. */
  function FieldValue(f: Field, b: Builder, sofar: Items): Option<Value> {
    match f.action
    case Optional => if f.name in b then Some(b[f.name]) else None
    case Default(v) => Some(if f.name in b then b[f.name] else v)
    case Auto(g) => Some(if f.name in b then b[f.name] else g(sofar))
    case Generated(g) => Some(g(sofar))
  }

  function WithField(items: Items, name: Name, v: Option<Value>): Items {
    if v.Some? then items[name := v.value] else items
  }

  function BuildFields(fields: seq<Field>, b: Builder): Items {
    if fields == [] then map[]
    else
      var sofar := BuildFields(fields[..|fields| - 1], b);
      var f := fields[|fields| - 1];
      WithField(sofar, f.name, FieldValue(f, b, sofar))
  }

  function TrimSlashes(s: string): string {
    if s != [] && s[|s| - 1] == '/' then TrimSlashes(s[..|s| - 1]) else s
  }

  const DOMAIN := "domain"
  const DOMAIN_SET := "domain_set"
  const WHITELIST := "signups_domains_whitelist"
  const ORG_USERS := "org_creation_users"
  const BLOCK_REGEX := "http_request_block_regex"
  const ICON_REGEX := "icon_blacklist_regex"

  function Rewritten(items: Items, name: Name, f: Value -> Value): Items {
    if name in items then items[name := f(items[name])] else items
  }

  /** The corrections after all fields are built; values computed from the domain have seen it uncorrected. */
  function Finish(schema: Schema, items: Items, domainGiven: bool): Items {
    var i1 := items[DOMAIN_SET := if domainGiven then "true" else "false"];
    var i2 := Rewritten(i1, DOMAIN, TrimSlashes);
    var i3 := Rewritten(Rewritten(i2, WHITELIST, schema.tidy), ORG_USERS, schema.tidy);
    if BLOCK_REGEX !in i3 && ICON_REGEX in i3 then i3[BLOCK_REGEX := i3[ICON_REGEX]] else i3
  }

  function Build(schema: Schema, b: Builder): Items {
    Finish(schema, BuildFields(schema.fields, b), DOMAIN in b)
  }

  method BuildItems(schema: Schema, b: Builder) returns (config: Items)
    ensures config == Build(schema, b)
  {
    config := map[];
    for i := 0 to |schema.fields|
      invariant config == BuildFields(schema.fields[..i], b)
    {
      assert schema.fields[..i + 1][..i] == schema.fields[..i];
      config := WithField(config, schema.fields[i].name, FieldValue(schema.fields[i], b, config));
    }
    assert schema.fields[..|schema.fields|] == schema.fields;
    config := Finish(schema, config, DOMAIN in b);
  }

  predicate Distinct(fields: seq<Field>) {
    forall i, j :: 0 <= i < j < |fields| ==> fields[i].name != fields[j].name
  }

  /** Only given settings of fields that are not generated can matter, and only for this field and later ones. */
  lemma {:induction false} BuildDependsOnPrefix(fields: seq<Field>, a: Builder, b: Builder)
    requires forall i :: 0 <= i < |fields| && !fields[i].action.Generated? ==>
               (fields[i].name in a <==> fields[i].name in b)
    requires forall i :: 0 <= i < |fields| && !fields[i].action.Generated? && fields[i].name in a ==>
               fields[i].name in b && a[fields[i].name] == b[fields[i].name]
    ensures BuildFields(fields, a) == BuildFields(fields, b)
  {
    if fields != [] {
      BuildDependsOnPrefix(fields[..|fields| - 1], a, b);
    }
  }

  lemma {:induction false} BuiltNames(fields: seq<Field>, b: Builder, name: Name)
    ensures name in BuildFields(fields, b) ==> HasField(fields, name)
  {
    if fields != [] {
      HasFieldGrows(fields, name);
      BuiltNames(fields[..|fields| - 1], b, name);
    }
  }

  /** Each field has the value computed from the fields before it; later fields do not disturb it. */
  lemma {:induction false} BuiltValue(fields: seq<Field>, b: Builder, i: nat)
    requires Distinct(fields) && i < |fields|
    ensures var name := fields[i].name;
            var v := FieldValue(fields[i], b, BuildFields(fields[..i], b));
            && (name in BuildFields(fields, b) <==> v.Some?)
            && (v.Some? ==> BuildFields(fields, b)[name] == v.value)
  {
    var before := fields[..|fields| - 1];
    if i < |before| {
      BuiltValue(before, b, i);
      assert before[..i] == fields[..i];
      assert fields[|fields| - 1].name != fields[i].name;
    } else {
      BuiltNames(before, b, fields[i].name);
      assert forall k :: 0 <= k < |before| ==> before[k] == fields[k];
      assert !HasField(before, fields[i].name);
    }
  }

  /** The fields that are corrected after the build. */
  predicate Corrected(name: Name) {
    name in {DOMAIN, DOMAIN_SET, WHITELIST, ORG_USERS, BLOCK_REGEX}
  }

  lemma FinishKeeps(schema: Schema, items: Items, domainGiven: bool, name: Name)
    requires !Corrected(name)
    ensures var done := Finish(schema, items, domainGiven);
            (name in done <==> name in items) && (name in items ==> done[name] == items[name])
  {
  }

  /**
   * What a field ends up with: the given value, or nothing, or its default, or what its rule computes from the fields
   * declared before it. A generated field follows its rule whatever is given.
   */
  lemma BuildMeans(schema: Schema, b: Builder, i: nat)
    requires Distinct(schema.fields) && i < |schema.fields| && !Corrected(schema.fields[i].name)
    ensures var f := schema.fields[i];
            var items := Build(schema, b);
            var earlier := BuildFields(schema.fields[..i], b);
            && (f.action.Optional? ==> (f.name in items <==> f.name in b))
            && (!f.action.Optional? ==> f.name in items)
            && (f.name in b && !f.action.Generated? ==> items[f.name] == b[f.name])
            && (f.name !in b && f.action.Default? ==> items[f.name] == f.action.value)
            && (f.name !in b && f.action.Auto? ==> items[f.name] == f.action.from(earlier))
            && (f.action.Generated? ==> items[f.name] == f.action.from(earlier))
  {
    BuiltValue(schema.fields, b, i);
    FinishKeeps(schema, BuildFields(schema.fields, b), DOMAIN in b, schema.fields[i].name);
  }

  predicate OnlySlashes(s: string) {
    forall i :: 0 <= i < |s| ==> s[i] == '/'
  }

  lemma {:induction false} TrimmedIsBare(s: string)
    ensures TrimSlashes(s) <= s && OnlySlashes(s[|TrimSlashes(s)|..])
    ensures TrimSlashes(s) != [] ==> TrimSlashes(s)[|TrimSlashes(s)| - 1] != '/'
  {
    if s != [] && s[|s| - 1] == '/' {
      TrimmedIsBare(s[..|s| - 1]);
      var r := TrimSlashes(s);
      assert s[|r|..] == s[..|s| - 1][|r|..] + [s[|s| - 1]];
    }
  }

  lemma NamesDiffer()
    ensures |DOMAIN| < |DOMAIN_SET| < |ORG_USERS| < |ICON_REGEX| < |BLOCK_REGEX| < |WHITELIST|
  {
  }

  lemma DomainIsTrimmed(schema: Schema, b: Builder)
    requires DOMAIN in BuildFields(schema.fields, b)
    ensures DOMAIN in Build(schema, b) && Build(schema, b)[DOMAIN] == TrimSlashes(BuildFields(schema.fields, b)[DOMAIN])
  {
    NamesDiffer();
  }

  /**
   * The corrections: whether a domain was given, the domain without trailing slashes, the two lists tidied, and the
   * older spelling of the block list where the newer one is not set.
   */
  lemma CorrectionsAre(schema: Schema, b: Builder)
    ensures var items, built := Build(schema, b), BuildFields(schema.fields, b);
            && DOMAIN_SET in items && items[DOMAIN_SET] == (if DOMAIN in b then "true" else "false")
            && (DOMAIN in built ==> DOMAIN in items)
            && (DOMAIN in built ==> items[DOMAIN] <= built[DOMAIN] && OnlySlashes(built[DOMAIN][|items[DOMAIN]|..]))
            && (DOMAIN in built && items[DOMAIN] != [] ==> items[DOMAIN][|items[DOMAIN]| - 1] != '/')
            && (WHITELIST in built ==> WHITELIST in items && items[WHITELIST] == schema.tidy(built[WHITELIST]))
            && (ORG_USERS in built ==> ORG_USERS in items && items[ORG_USERS] == schema.tidy(built[ORG_USERS]))
            && (BLOCK_REGEX in items <==> BLOCK_REGEX in built || ICON_REGEX in built)
            && (BLOCK_REGEX in items ==>
                  items[BLOCK_REGEX] == if BLOCK_REGEX in built then built[BLOCK_REGEX] else built[ICON_REGEX])
  {
    var built := BuildFields(schema.fields, b);
    if DOMAIN in built {
      DomainIsTrimmed(schema, b);
      TrimmedIsBare(built[DOMAIN]);
    }
    NamesDiffer();
  }
}

/** The foreign-key directive example: a schema transformation copies the argument of
    `@fk(field: ...)` into the field's `extensions.fkField`, and one server-wide field
    resolver either loads the related object through the loader named after the field's
    type or reads the property of the same name. */
module FieldResolver {
  import opened Values

  /** A directive applied to a field definition: `@fk(field: ...)` or any other one. */
  datatype Directive = Fk(field: string) | OtherDirective(name: string)

  /** A field's configuration as the schema mapper sees it. */
  datatype FieldConfig = FieldConfig(directives: seq<Directive>, extensions: map<string, string>)

  /** Object type name to field name to field configuration. */
  type Schema = map<string, map<string, FieldConfig>>

  const FkField := "fkField"

  /** The argument of the first `@fk` on the field, if any (the mapper only looks at the
      first occurrence the directive lookup returns). */
  function FirstFk(ds: seq<Directive>): (r: Option<string>)
    ensures r.None? <==> forall i :: 0 <= i < |ds| ==> !ds[i].Fk?
    ensures r.Some? ==> exists i :: 0 <= i < |ds| && ds[i] == Fk(r.value) && forall j :: 0 <= j < i ==> !ds[j].Fk?
  {
    if ds == [] then None
    else if ds[0].Fk? then Some(ds[0].field)
    else
      var r := FirstFk(ds[1..]);
      assert forall i :: 1 <= i < |ds| ==> ds[i] == ds[1..][i - 1];
      r
  }

  /** The object-field mapper of `applyFkDirective`. A field with `@fk(field: x)` gets
      `extensions.fkField = x`, taken from its first `@fk`; every other extension entry
      and the directives are kept; a field without `@fk` is returned unchanged. */
  function ApplyFk(fc: FieldConfig): (r: FieldConfig)
    ensures r.directives == fc.directives
    ensures (forall i :: 0 <= i < |fc.directives| ==> !fc.directives[i].Fk?) ==> r == fc
    ensures (exists i :: 0 <= i < |fc.directives| && fc.directives[i].Fk?) ==>
      && FkField in r.extensions
      && exists i :: 0 <= i < |fc.directives| && fc.directives[i] == Fk(r.extensions[FkField])
           && forall j :: 0 <= j < i ==> !fc.directives[j].Fk?
    ensures forall k :: k != FkField ==>
      (k in r.extensions <==> k in fc.extensions) && (k in fc.extensions ==> r.extensions[k] == fc.extensions[k])
  {
    match FirstFk(fc.directives)
    case None => fc
    case Some(field) => fc.(extensions := fc.extensions[FkField := field])
  }

  /** `applyFkDirective`: `mapSchema` with the mapper above on every object field. */
  function ApplyFkDirective(schema: Schema): (r: Schema)
    ensures r.Keys == schema.Keys
    ensures forall t :: t in schema ==> r[t].Keys == schema[t].Keys
    ensures forall t, f :: t in schema && f in schema[t] ==> r[t][f] == ApplyFk(schema[t][f])
    ensures forall t, f :: t in schema && f in schema[t] && FirstFk(schema[t][f].directives).None? ==>
      r[t][f] == schema[t][f]
  {
    map t | t in schema :: map f | f in schema[t] :: ApplyFk(schema[t][f])
  }

  /** Applying the transformation twice gives what applying it once gives. */
  lemma ApplyFkIdempotent(fc: FieldConfig)
    ensures ApplyFk(ApplyFk(fc)) == ApplyFk(fc)
  {
    var once := ApplyFk(fc);
    if FirstFk(fc.directives).Some? {
      assert once.extensions[FkField := FirstFk(fc.directives).value] == once.extensions;
    }
  }

  // ----- the server-wide field resolver -----

  /** A GraphQL output type as seen through `info.returnType`. */
  datatype GqlType = Named(name: string) | NonNull(ofType: GqlType) | ListOf(ofType: GqlType)

  /** The parts of the resolve info the field resolver reads. */
  datatype ResolveInfo = ResolveInfo(parentType: string, fieldName: string, returnType: GqlType)

  /** What the field resolver returns: a `load` on the named loader, or the property read. */
  datatype Resolution = Load(loader: string, key: JsValue) | Read(value: JsValue)

  /** The name of the type the field's return type wraps: reading it throws for a
      nullable named type (it wraps nothing) and gives `undefined` when the wrapped type is
      itself a wrapper (a list). */
  function RelationName(t: GqlType): (r: Outcome<Option<string>>)
    ensures r.TypeError? <==> t.Named?
    ensures r.Ok? ==> (r.value.Some? <==> t.ofType.Named?)
    ensures r.Ok? && r.value.Some? ==> r.value.value == t.ofType.name
  {
    match t
    case Named(_) => TypeError
    case NonNull(inner) => Ok(if inner.Named? then Some(inner.name) else None)
    case ListOf(inner) => Ok(if inner.Named? then Some(inner.name) else None)
  }

  /** The property key under which the loader is looked up in the context: an undefined name
      is converted to the string "undefined". */
  function LoaderKey(relationName: Option<string>): (key: string)
    ensures relationName.Some? ==> key == relationName.value
    ensures relationName.None? ==> key == "undefined"
  {
    if relationName.Some? then relationName.value else "undefined"
  }

  /** The `fkField` extension of the resolved field's definition in the parent type; the
      lookup throws when the parent type has no such field. */
  function FkFieldOf(schema: Schema, info: ResolveInfo): (r: Outcome<Option<string>>)
    ensures r.TypeError? <==> !(info.parentType in schema && info.fieldName in schema[info.parentType])
    ensures r.Ok? ==> (r.value.Some? <==> FkField in schema[info.parentType][info.fieldName].extensions)
    ensures r.Ok? && r.value.Some? ==> r.value.value == schema[info.parentType][info.fieldName].extensions[FkField]
  {
    if info.parentType in schema && info.fieldName in schema[info.parentType] then
      var ext := schema[info.parentType][info.fieldName].extensions;
      Ok(if FkField in ext then Some(ext[FkField]) else None)
    else TypeError
  }

  /** The server's `fieldResolver`, with `context.dataloaders` given as the set of loader names. */
  function ResolveField(schema: Schema, loaders: set<string>, source: map<string, JsValue>, info: ResolveInfo)
    : (r: Outcome<Resolution>)
    ensures RelationName(info.returnType).TypeError? || FkFieldOf(schema, info).TypeError? <==> r.TypeError?
    ensures r.Ok? && r.value.Load? <==>
      && RelationName(info.returnType).Ok?
      && LoaderKey(RelationName(info.returnType).value) in loaders
      && FkFieldOf(schema, info).Ok? && FkFieldOf(schema, info).value.Some?
      && FkFieldOf(schema, info).value.value != ""
      && Truthy(Prop(source, FkFieldOf(schema, info).value.value))
    ensures r.Ok? && r.value.Load? ==>
      r.value == Load(LoaderKey(RelationName(info.returnType).value), Prop(source, FkFieldOf(schema, info).value.value))
    ensures r.Ok? && r.value.Read? ==> r.value.value == Prop(source, info.fieldName)
  {
    match RelationName(info.returnType)
    case TypeError => TypeError
    case Ok(relationName) =>
      var key := LoaderKey(relationName);
      match FkFieldOf(schema, info)
      case TypeError => TypeError
      case Ok(fieldName) =>
        if key in loaders && fieldName.Some? && fieldName.value != "" && Truthy(Prop(source, fieldName.value))
        then Ok(Load(key, Prop(source, fieldName.value)))
        else Ok(Read(Prop(source, info.fieldName)))
  }

  /** After the transformation, a field declared `T! @fk(field: x)` whose type has a
      registered loader loads `source[x]` through the `T` loader whenever that value is
      truthy, and otherwise reads `source[fieldName]`. */
  lemma FkFieldResolvesThroughLoader(
    schema: Schema, loaders: set<string>, source: map<string, JsValue>, info: ResolveInfo, x: string)
    requires info.parentType in schema && info.fieldName in schema[info.parentType]
    requires FirstFk(schema[info.parentType][info.fieldName].directives) == Some(x) && x != ""
    requires info.returnType.NonNull? && info.returnType.ofType.Named?
    requires info.returnType.ofType.name in loaders
    ensures Truthy(Prop(source, x)) ==>
      ResolveField(ApplyFkDirective(schema), loaders, source, info) == Ok(Load(info.returnType.ofType.name, Prop(source, x)))
    ensures !Truthy(Prop(source, x)) ==>
      ResolveField(ApplyFkDirective(schema), loaders, source, info) == Ok(Read(Prop(source, info.fieldName)))
  {
    var s := ApplyFkDirective(schema);
    assert s[info.parentType][info.fieldName] == ApplyFk(schema[info.parentType][info.fieldName]);
  }

  /** A field without `@fk` (and with no `fkField` extension of its own) reads the property
      of its own name, loader or not, when its return type is non-null or a list. */
  lemma PlainFieldReadsProperty(
    schema: Schema, loaders: set<string>, source: map<string, JsValue>, info: ResolveInfo)
    requires info.parentType in schema && info.fieldName in schema[info.parentType]
    requires FirstFk(schema[info.parentType][info.fieldName].directives).None?
    requires FkField !in schema[info.parentType][info.fieldName].extensions
    requires !info.returnType.Named?
    ensures ResolveField(ApplyFkDirective(schema), loaders, source, info) == Ok(Read(Prop(source, info.fieldName)))
  {
    var s := ApplyFkDirective(schema);
    assert s[info.parentType][info.fieldName] == schema[info.parentType][info.fieldName];
  }

  /** The example's schema after the transformation: `Post.author` and `Post.editor`
      carry `@fk`, every other field does not. */
  function SeedSchema(): Schema
  {
    var plain := FieldConfig([], map[]);
    map[
      "User" := map["id" := plain, "name" := plain],
      "Post" := map[
        "id" := plain, "title" := plain,
        "author" := FieldConfig([Fk("authorId")], map[]),
        "editor" := FieldConfig([Fk("editorId")], map[])],
      "Query" := map["posts" := plain, "users" := plain]
    ]
  }

  /** The first seed post as a source record. */
  function SeedPost1(): map<string, JsValue>
  {
    map["id" := Str("1"), "title" := Str("Post 1"), "authorId" := Str("1"), "editorId" := Str("2")]
  }

  /** For the first seed post, `author` loads user "1". */
  lemma SeedPostAuthor()
    ensures ResolveField(ApplyFkDirective(SeedSchema()), {"User"}, SeedPost1(), ResolveInfo("Post", "author", NonNull(Named("User"))))
      == Ok(Load("User", Str("1")))
  {
    var s: Schema := SeedSchema();
    assert FirstFk(s["Post"]["author"].directives) == Some("authorId");
    FkFieldResolvesThroughLoader(s, {"User"}, SeedPost1(), ResolveInfo("Post", "author", NonNull(Named("User"))), "authorId");
  }

  /** For the first seed post, `editor` loads user "2". */
  lemma SeedPostEditor()
    ensures ResolveField(ApplyFkDirective(SeedSchema()), {"User"}, SeedPost1(), ResolveInfo("Post", "editor", NonNull(Named("User"))))
      == Ok(Load("User", Str("2")))
  {
    var s: Schema := SeedSchema();
    assert FirstFk(s["Post"]["editor"].directives) == Some("editorId");
    FkFieldResolvesThroughLoader(s, {"User"}, SeedPost1(), ResolveInfo("Post", "editor", NonNull(Named("User"))), "editorId");
  }

  /** For the first seed post, `title` is read from the post. */
  lemma SeedPostTitle()
    ensures ResolveField(ApplyFkDirective(SeedSchema()), {"User"}, SeedPost1(), ResolveInfo("Post", "title", NonNull(Named("String"))))
      == Ok(Read(Str("Post 1")))
  {
    var s: Schema := SeedSchema();
    assert FirstFk(s["Post"]["title"].directives).None?;
    PlainFieldReadsProperty(s, {"User"}, SeedPost1(), ResolveInfo("Post", "title", NonNull(Named("String"))));
  }
}

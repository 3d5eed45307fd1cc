/** The type resolver of src/transform.js: turns a schema fragment into a
    `{ type, importType }` descriptor, yields `undefined` for a shape it does
    not know, or throws. */
module TypeResolver {
  import opened Js
  import opened Strings
  import opened Document
  import opened Descriptors

  const Primitives: set<string> := {"boolean", "number", "string", "object"}

  /** `getType(type)`: the primitive table. Only `boolean`, `integer`,
      `number`, `string` and `object` resolve, always without an import. */
  function GetType(t: Option<string>): (r: Option<TypeDesc>)
    ensures r.Some? <==> t.Some? && t.value in {"boolean", "integer", "number", "string", "object"}
    ensures r.Some? ==> r.value.importType == None && r.value.typeName in Primitives
    ensures r.Some? ==> (r.value.typeName == "number" <==> t.value in {"integer", "number"})
    ensures r.Some? && t.value != "integer" ==> r.value.typeName == t.value
  {
    match t
    case Some("boolean") => Some(TypeDesc("boolean", None))
    case Some("integer") => Some(TypeDesc("number", None))
    case Some("number") => Some(TypeDesc("number", None))
    case Some("string") => Some(TypeDesc("string", None))
    case Some("object") => Some(TypeDesc("object", None))
    case _ => None
  }

  /** `getTypeByRef`: a fragment with a non-empty `$ref` resolves to the last
      segment of the pointer, both as its type and as its import. */
  function GetTypeByRef(s: Schema): (r: Option<TypeDesc>)
    ensures r.Some? <==> Truthy(s.ref)
    ensures r.Some? ==> r.value.importType == Some(r.value.typeName)
    ensures r.Some? ==> r.value.typeName == LastSegment(s.ref.value) && '/' !in r.value.typeName
  {
    if Truthy(s.ref) then
      var t := LastSegment(s.ref.value);
      LastSegmentShape(s.ref.value);
      Some(TypeDesc(t, Some(t)))
    else None
  }

  /** The argument `getTypeFromObject` receives. Its correct callers pass a
      schema; `getTypeBySchema` passes `schema.type`, a string or `undefined`. */
  datatype JsArg = Undefined | StringArg(s: string) | SchemaArg(schema: Schema)

  /** `getTypeFromArray`: an `array` schema resolves to its item type plus
      `[]`, carrying the item's import. A `$ref` item short-circuits to the
      pointer's last segment; missing items, or items that do not resolve,
      throw. */
  function GetTypeFromArray(s: Schema): (r: Result<Option<TypeDesc>>)
    decreases s, 1
    ensures s.typ != Some("array") ==> r == Ok(None)
    ensures s.typ == Some("array") && s.items.None? ==> r.Err?
    ensures r.Ok? && r.value.Some? ==>
      |r.value.value.typeName| >= 2 && r.value.value.typeName[|r.value.value.typeName| - 2..] == "[]"
    ensures s.typ == Some("array") && s.items.Some? && Truthy(s.items.value.ref) ==>
      var t := LastSegment(s.items.value.ref.value);
      r == Ok(Some(TypeDesc(t + "[]", Some(t))))
    ensures s.typ == Some("array") && s.items.Some? && !Truthy(s.items.value.ref) ==>
      var item := GetTypeBySchema(s.items.value);
      && (item.Ok? && item.value.Some? ==>
            r == Ok(Some(TypeDesc(item.value.value.typeName + "[]", item.value.value.importType))))
      && (item.Ok? && item.value.None? ==> r.Err?)
      && (item.Err? ==> r == Err(item.error))
  {
    if s.typ != Some("array") then Ok(None)
    else if s.items.None? then Err(TypeError("schema.items['$ref']"))
    else
      var items := s.items.value;
      if Truthy(items.ref) then
        var t := LastSegment(items.ref.value);
        Ok(Some(TypeDesc(t + "[]", Some(t))))
      else
        var d :- GetTypeBySchema(items);
        if d.None? then Err(TypeError("type.type"))
        else Ok(Some(TypeDesc(d.value.typeName + "[]", d.value.importType)))
  }

  /** `getTypeFromObject`: an `object` schema with `additionalProperties` is a
      map; a `$ref` value type gives `<ref>[]` importing `<ref>`, any other
      value type gives its `type` text plus `[]` and no import. Reading
      `.type` of `undefined` throws; a string has no `type` property. */
  function GetTypeFromObject(arg: JsArg): (r: Result<Option<TypeDesc>>)
    ensures r.Err? <==> arg.Undefined?
    ensures arg.StringArg? ==> r == Ok(None)
    ensures r.Ok? && r.value.Some? ==>
      && arg.SchemaArg? && arg.schema.typ == Some("object") && arg.schema.additionalProperties.Some?
      && |r.value.value.typeName| >= 2 && r.value.value.typeName[|r.value.value.typeName| - 2..] == "[]"
      && (r.value.value.importType.Some? <==> Truthy(arg.schema.additionalProperties.value.ref))
    ensures arg.SchemaArg? && !(arg.schema.typ == Some("object") && arg.schema.additionalProperties.Some?) ==>
      r == Ok(None)
    ensures arg.SchemaArg? && arg.schema.typ == Some("object") && arg.schema.additionalProperties.Some? ==>
      var ap := arg.schema.additionalProperties.value;
      && (Truthy(ap.ref) ==>
            var t := LastSegment(ap.ref.value);
            r == Ok(Some(TypeDesc(t + "[]", Some(t)))))
      && (!Truthy(ap.ref) ==> r == Ok(Some(TypeDesc(Text(ap.typ) + "[]", None))))
  {
    match arg
    case Undefined => Err(TypeError("schema.type"))
    case StringArg(_) => Ok(None)
    case SchemaArg(s) =>
      if s.typ == Some("object") && s.additionalProperties.Some? then
        var ap := s.additionalProperties.value;
        if Truthy(ap.ref) then
          var t := LastSegment(ap.ref.value);
          Ok(Some(TypeDesc(t + "[]", Some(t))))
        else Ok(Some(TypeDesc(Text(ap.typ) + "[]", None)))
      else Ok(None)
  }

  /** The value of `schema.type` as the argument passed at line 284. */
  function TypeField(s: Schema): JsArg {
    if s.typ.Some? then StringArg(s.typ.value) else Undefined
  }

  /** `getTypeBySchema`: reference, then array, then map, then primitive; the
      first that matches wins. Because the map case is handed `schema.type`
      instead of the schema, it never matches: a schema without `type` throws
      there and an `object` schema falls through to the primitive table. */
  function GetTypeBySchema(s: Schema): (r: Result<Option<TypeDesc>>)
    decreases s, 2
    ensures Truthy(s.ref) ==> r == Ok(GetTypeByRef(s))
    ensures !Truthy(s.ref) && s.typ == Some("array") ==> r == GetTypeFromArray(s)
    ensures !Truthy(s.ref) && s.typ != Some("array") ==>
      r == if s.typ.None? then Err(TypeError("schema.type")) else Ok(GetType(s.typ))
  {
    var byRef := GetTypeByRef(s);
    if byRef.Some? then Ok(byRef)
    else
      var fromArray :- GetTypeFromArray(s);
      if fromArray.Some? then Ok(fromArray)
      else
        var fromObject :- GetTypeFromObject(TypeField(s));
        if fromObject.Some? then Ok(fromObject)
        else Ok(GetType(s.typ))
  }

  // ---------------------------------------------------------------------
  // properties of the resolver

  /** `t` is `base` followed by zero or more `[]`. */
  predicate Bracketed(t: string, base: string)
    decreases |t|
  {
    t == base || (|t| >= 2 && t[|t| - 2..] == "[]" && Bracketed(t[..|t| - 2], base))
  }

  /** The descriptor invariant: an import is set only for a named type, and
      the type is that name under some array brackets; without an import the
      type is a primitive under some array brackets. */
  predicate WellShaped(d: TypeDesc) {
    if d.importType.Some? then Bracketed(d.typeName, d.importType.value)
    else exists p :: p in Primitives && Bracketed(d.typeName, p)
  }

  lemma BracketOnce(t: string, base: string)
    requires Bracketed(t, base)
    ensures Bracketed(t + "[]", base)
  {
    var u := t + "[]";
    assert u[|u| - 2..] == "[]";
    assert u[..|u| - 2] == t;
  }

  /** Every descriptor `getTypeBySchema` returns is well shaped. */
  lemma {:induction false} ResolvedShape(s: Schema)
    requires GetTypeBySchema(s).Ok? && GetTypeBySchema(s).value.Some?
    ensures WellShaped(GetTypeBySchema(s).value.value)
    decreases s
  {
    var d := GetTypeBySchema(s).value.value;
    if Truthy(s.ref) {
    } else if s.typ == Some("array") {
      var items := s.items.value;
      if Truthy(items.ref) {
        var t := LastSegment(items.ref.value);
        BracketOnce(t, t);
      } else {
        ResolvedShape(items);
        var inner := GetTypeBySchema(items).value.value;
        if inner.importType.Some? {
          BracketOnce(inner.typeName, inner.importType.value);
        } else {
          var p :| p in Primitives && Bracketed(inner.typeName, p);
          BracketOnce(inner.typeName, p);
        }
      }
    } else {
      assert Bracketed(d.typeName, d.typeName);
    }
  }

  /** An array of references resolves to `<ref>[]` and imports `<ref>`
      itself: the brackets never reach the import. */
  lemma ArrayOfRefResolves(s: Schema, pointer: string)
    requires !Truthy(s.ref) && s.typ == Some("array")
    requires s.items.Some? && s.items.value.ref == Some(pointer) && pointer != ""
    ensures var t := LastSegment(pointer);
      GetTypeBySchema(s) == Ok(Some(TypeDesc(t + "[]", Some(t)))) && '/' !in t
  {
    LastSegmentShape(pointer);
  }

  /** As written, an object schema with a `$ref` value type resolves to the
      untyped `object`, although `getTypeFromObject` would make it a map of
      that reference. */
  lemma MapBranchUnreachable(s: Schema)
    requires !Truthy(s.ref) && s.typ == Some("object")
    requires s.additionalProperties.Some? && Truthy(s.additionalProperties.value.ref)
    ensures GetTypeBySchema(s) == Ok(Some(TypeDesc("object", None)))
    ensures var t := LastSegment(s.additionalProperties.value.ref.value);
      GetTypeFromObject(SchemaArg(s)) == Ok(Some(TypeDesc(t + "[]", Some(t))))
  {
  }

  /** `$ref` takes priority over every other key of the fragment. */
  lemma RefWins(s: Schema)
    requires Truthy(s.ref)
    ensures var t := LastSegment(s.ref.value);
      GetTypeBySchema(s) == Ok(Some(TypeDesc(t, Some(t))))
  {
  }
}

/** The resolvers of the earlier draft engine (transform.js at the root of the
    repository): a `getType` that yields a bare type name, `getReturnType`
    and `getParameters`. The draft has no imports and no model files. */
module DraftResolver {
  import opened Js
  import opened Strings
  import opened Document
  import Extractor
  import TypeResolver
  import Descriptors

  /** `{ name, required, type }`. A declared parameter takes its name from
      the declaration; the request-body parameter is named after its type,
      which may be `undefined`. */
  datatype Parameter = Parameter(name: Option<string>, required: Option<bool>, typ: Option<string>)

  /** `{ name, returnType, parameters, httpMethod, path }`; the return type
      is a type name, `''`, or `undefined`. */
  datatype Action = Action(name: string, returnType: Option<string>, parameters: seq<Parameter>, httpMethod: string, path: string)

  // ---------------------------------------------------------------------
  // getType

  /** `getType(schema)`: a `$ref` gives the pointer's last segment; `string`,
      `integer` and `boolean` give `string`, `number` and `boolean`; an
      `object` whose `additionalProperties` carries a `$ref` gives that
      reference plus `[]`, and any other `object` falls through into the
      `array` case; every other `type` gives `undefined`. */
  function GetType(s: Schema): Result<Option<string>>
    decreases s, 1
  {
    if Truthy(s.ref) then Ok(Some(LastSegment(s.ref.value)))
    else
      match s.typ
      case Some("string") => Ok(Some("string"))
      case Some("integer") => Ok(Some("number"))
      case Some("boolean") => Ok(Some("boolean"))
      case Some("object") =>
        if s.additionalProperties.Some? && Truthy(s.additionalProperties.value.ref) then
          Ok(Some(LastSegment(s.additionalProperties.value.ref.value) + "[]"))
        else ArrayCase(s)
      case Some("array") => ArrayCase(s)
      case _ => Ok(None)
  }

  /** The `array` case of `getType`: reading `items['$ref']` of a schema
      without `items` throws; a `$ref` item gives the reference plus `[]`;
      any other item gives its type as text (`undefined` when it does not
      resolve) plus `[]`. */
  function ArrayCase(s: Schema): Result<Option<string>>
    decreases s, 0
  {
    if s.items.None? then Err(TypeError("schema.items['$ref']"))
    else if Truthy(s.items.value.ref) then Ok(Some(LastSegment(s.items.value.ref.value) + "[]"))
    else
      var t :- GetType(s.items.value);
      Ok(Some(Text(t) + "[]"))
  }

  // ---------------------------------------------------------------------
  // getReturnType

  /** `getReturnType(method, pathInfo)`: the 200 response must exist; without
      `content`, or with a JSON entry that has no schema, the result is `''`;
      a `content` without a JSON entry throws. */
  function GetReturnType(op: Operation): (r: Result<Option<string>>)
    ensures r.Ok? ==> op.responses.Some? && SuccessStatusCode in op.responses.value
    ensures r.Ok? && op.responses.value[SuccessStatusCode].content.Some? ==>
      JsonContentType in op.responses.value[SuccessStatusCode].content.value
    ensures op.responses.None? || SuccessStatusCode !in op.responses.value ==> r.Err?
    ensures op.responses.Some? && SuccessStatusCode in op.responses.value ==>
      var content := op.responses.value[SuccessStatusCode].content;
      && (content.None? ==> r == Ok(Some("")))
      && (content.Some? && JsonContentType !in content.value ==> r.Err?)
      && (content.Some? && JsonContentType in content.value ==>
            var schema := content.value[JsonContentType].schema;
            && (schema.None? ==> r == Ok(Some("")))
            && (schema.Some? ==> r == GetType(schema.value)))
  {
    if op.responses.None? then Err(TypeError("pathInfo[method].responses"))
    else if SuccessStatusCode !in op.responses.value then Err(TypeError("responses[SuccessStatusCode].content"))
    else
      var content := op.responses.value[SuccessStatusCode].content;
      if content.None? then Ok(Some(""))
      else if JsonContentType !in content.value then Err(TypeError("content[ApplicationJsonContentType].schema"))
      else
        var schema := content.value[JsonContentType].schema;
        if schema.None? then Ok(Some(""))
        else GetType(schema.value)
  }

  // ---------------------------------------------------------------------
  // getParameters

  /** A declared parameter of a GET: its `type` is read from its inline
      schema, so a declaration without a schema throws. */
  function DeclaredParameter(d: ParameterDecl): Result<Parameter> {
    if d.schema.None? then Err(TypeError("pathInfoParameter.schema.type"))
    else Ok(Parameter(Some(d.name), d.required, d.schema.value.typ))
  }

  /** The push loop over declared parameters, as a fold. */
  function DeclaredFrom(acc: seq<Parameter>, decls: seq<ParameterDecl>): Result<seq<Parameter>>
    decreases decls
  {
    if decls == [] then Ok(acc)
    else
      var p :- DeclaredParameter(decls[0]);
      DeclaredFrom(acc + [p], decls[1..])
  }

  /** The one parameter of a mutating operation: the JSON body's schema is
      read through `requestBody.content`, each step of which must exist, and
      `getType` of a missing schema throws. */
  function BodyParameter(op: Operation): Result<Parameter> {
    if op.requestBody.None? then Err(TypeError("pathInfo[method].requestBody.content"))
    else if op.requestBody.value.content.None? then Err(TypeError("requestBody.content[ApplicationJsonContentType]"))
    else if JsonContentType !in op.requestBody.value.content.value then Err(TypeError("content[ApplicationJsonContentType].schema"))
    else
      var schema := op.requestBody.value.content.value[JsonContentType].schema;
      if schema.None? then Err(TypeError("schema[ReferenceObject]"))
      else
        var t :- GetType(schema.value);
        Ok(Parameter(t, Some(true), t))
  }

  /** `getParameters(method, pathInfo)` as a function. */
  function Parameters(httpMethod: string, op: Operation): Result<seq<Parameter>> {
    var upper := ToUpper(httpMethod);
    if upper == "GET" then
      if op.parameters.None? then Ok([]) else DeclaredFrom([], op.parameters.value)
    else if Extractor.IsMutating(upper) then
      var p :- BodyParameter(op);
      Ok([p])
    else Ok([])
  }

  /** `getParameters(method, pathInfo)`. */
  method GetParameters(httpMethod: string, op: Operation) returns (r: Result<seq<Parameter>>)
    ensures r == Parameters(httpMethod, op)
  {
    var parameters: seq<Parameter> := [];
    var upper := ToUpper(httpMethod);
    if upper == "GET" {
      if op.parameters.None? {
        return Ok(parameters);
      }
      var decls := op.parameters.value;
      var i := 0;
      while i < |decls|
        invariant 0 <= i <= |decls|
        invariant DeclaredFrom(parameters, decls[i..]) == DeclaredFrom([], decls)
      {
        assert decls[i..][1..] == decls[i + 1..];
        var p := DeclaredParameter(decls[i]);
        if p.Err? {
          return Err(p.error);
        }
        parameters := parameters + [p.value];
        i := i + 1;
      }
      assert decls[i..] == [];
      assert DeclaredFrom(parameters, decls[i..]) == Ok(parameters);
    } else if Extractor.IsMutating(upper) {
      var p := BodyParameter(op);
      if p.Err? {
        return Err(p.error);
      }
      parameters := parameters + [p.value];
      assert parameters == [p.value];
    }
    return Ok(parameters);
  }

  // ---------------------------------------------------------------------
  // properties of the draft resolvers

  /** `$ref` wins over every other key, and the primitive table maps
      `string`, `integer` and `boolean`; an `object` whose
      `additionalProperties` carries a `$ref` is an array of that reference;
      an `array` is its item's type plus `[]`, a `$ref` item giving the
      reference itself; `number` and unknown types yield `undefined`. */
  lemma GetTypeTable(s: Schema)
    ensures (!Truthy(s.ref) && s.typ == Some("object") &&
             s.additionalProperties.Some? && Truthy(s.additionalProperties.value.ref)) ==>
      GetType(s) == Ok(Some(LastSegment(s.additionalProperties.value.ref.value) + "[]"))
    ensures !Truthy(s.ref) && s.typ == Some("array") ==>
      && (s.items.None? ==> GetType(s).Err?)
      && (s.items.Some? && Truthy(s.items.value.ref) ==>
            GetType(s) == Ok(Some(LastSegment(s.items.value.ref.value) + "[]")))
      && (s.items.Some? && !Truthy(s.items.value.ref) ==>
            var item := GetType(s.items.value);
            && (item.Ok? ==> GetType(s) == Ok(Some(Text(item.value) + "[]")))
            && (item.Err? ==> GetType(s) == Err(item.error)))
    ensures Truthy(s.ref) ==> GetType(s) == Ok(Some(LastSegment(s.ref.value)))
    ensures !Truthy(s.ref) && s.typ == Some("string") ==> GetType(s) == Ok(Some("string"))
    ensures !Truthy(s.ref) && s.typ == Some("integer") ==> GetType(s) == Ok(Some("number"))
    ensures !Truthy(s.ref) && s.typ == Some("boolean") ==> GetType(s) == Ok(Some("boolean"))
    ensures !Truthy(s.ref) && s.typ !in {Some("string"), Some("integer"), Some("boolean"), Some("object"), Some("array")} ==>
      GetType(s) == Ok(None)
  {
  }

  /** An `object` without a `$ref` value type is read as an array: it
      resolves exactly as the same schema with `type: "array"` would. */
  lemma ObjectFallsThrough(s: Schema)
    requires !Truthy(s.ref) && s.typ == Some("object")
    requires s.additionalProperties.None? || !Truthy(s.additionalProperties.value.ref)
    ensures GetType(s) == GetType(s.(typ := Some("array")))
  {
  }

  /** An array whose items do not resolve is named after the word
      `undefined`: its type is `undefined[]`. */
  lemma UnresolvedItemsText(s: Schema)
    requires !Truthy(s.ref) && s.typ == Some("array") && s.items.Some?
    requires !Truthy(s.items.value.ref) && GetType(s.items.value) == Ok(None)
    ensures GetType(s) == Ok(Some("undefined[]"))
  {
    assert Text(None) + "[]" == "undefined[]";
  }

  /** The fragment both engines understand: references, `string`, `integer`,
      `boolean`, and arrays of those. */
  predicate Common(s: Schema)
    decreases s
  {
    || Truthy(s.ref)
    || s.typ in {Some("string"), Some("integer"), Some("boolean")}
    || (s.typ == Some("array") && s.items.Some? && (Truthy(s.items.value.ref) || Common(s.items.value)))
  }

  /** On that fragment the draft resolver and the later one agree on the type
      name. */
  lemma {:induction false} AgreesWithResolver(s: Schema)
    requires Common(s)
    ensures GetType(s).Ok? && GetType(s).value.Some?
    ensures TypeResolver.GetTypeBySchema(s).Ok? && TypeResolver.GetTypeBySchema(s).value.Some?
    ensures GetType(s).value.value == TypeResolver.GetTypeBySchema(s).value.value.typeName
    decreases s
  {
    if !Truthy(s.ref) && s.typ == Some("array") && !Truthy(s.items.value.ref) {
      AgreesWithResolver(s.items.value);
    }
  }

  /** On an OpenAPI 3 JSON response whose schema both engines understand,
      and without a 204 response, the draft's return type is the type name
      the later engine resolves. Without `content` the draft gives `''`,
      where the later engine reads the Swagger 2 `schema`. */
  lemma ReturnTypeAgrees(op: Operation)
    requires op.responses.Some? && SuccessStatusCode in op.responses.value
    requires CreatedStatusCode !in op.responses.value
    ensures var resp := op.responses.value[SuccessStatusCode];
      resp.content.None? ==> GetReturnType(op) == Ok(Some(""))
    ensures var resp := op.responses.value[SuccessStatusCode];
      resp.content.Some? && JsonContentType in resp.content.value &&
      resp.content.value[JsonContentType].schema.Some? && Common(resp.content.value[JsonContentType].schema.value) ==>
        && Extractor.GetReturnType(op).Ok? && Extractor.GetReturnType(op).value.Typed?
        && GetReturnType(op) == Ok(Some(Extractor.GetReturnType(op).value.desc.typeName))
  {
    var resp := op.responses.value[SuccessStatusCode];
    if resp.content.Some? && JsonContentType in resp.content.value && resp.content.value[JsonContentType].schema.Some? {
      var s := resp.content.value[JsonContentType].schema.value;
      if Common(s) {
        AgreesWithResolver(s);
      }
    }
  }

  /** The draft does not know `number`: a schema of that type resolves to
      `undefined`, where the later resolver gives `number`. */
  lemma NumberUnknown(s: Schema)
    requires !Truthy(s.ref) && s.typ == Some("number")
    ensures GetType(s) == Ok(None)
    ensures TypeResolver.GetTypeBySchema(s) == Ok(Some(Descriptors.TypeDesc("number", None)))
  {
  }

  /** GET yields one parameter per declaration, in order, with `name`,
      `required` and the schema's `type` copied; it fails exactly when some
      declaration has no schema. */
  lemma {:induction false} DeclaredFromCopies(acc: seq<Parameter>, decls: seq<ParameterDecl>)
    decreases decls
    ensures DeclaredFrom(acc, decls).Err? <==> exists i :: 0 <= i < |decls| && decls[i].schema.None?
    ensures DeclaredFrom(acc, decls).Ok? ==>
      var ps := DeclaredFrom(acc, decls).value;
      && |ps| == |acc| + |decls|
      && ps[..|acc|] == acc
      && forall i :: 0 <= i < |decls| ==>
           ps[|acc| + i] == Parameter(Some(decls[i].name), decls[i].required, decls[i].schema.value.typ)
  {
    if decls != [] {
      if decls[0].schema.Some? {
        var p := DeclaredParameter(decls[0]).value;
        DeclaredFromCopies(acc + [p], decls[1..]);
        if DeclaredFrom(acc, decls).Ok? {
          var ps := DeclaredFrom(acc, decls).value;
          assert ps[..|acc| + 1][..|acc|] == ps[..|acc|];
          forall i | 0 <= i < |decls|
            ensures ps[|acc| + i] == Parameter(Some(decls[i].name), decls[i].required, decls[i].schema.value.typ)
          {
            if i > 0 {
              assert decls[1..][i - 1] == decls[i];
            }
          }
        }
        if exists i :: 0 <= i < |decls| && decls[i].schema.None? {
          var i :| 0 <= i < |decls| && decls[i].schema.None?;
          assert decls[1..][i - 1] == decls[i];
        }
        if exists i :: 0 <= i < |decls[1..]| && decls[1..][i].schema.None? {
          var i :| 0 <= i < |decls[1..]| && decls[1..][i].schema.None?;
          assert decls[i + 1] == decls[1..][i];
        }
      }
    }
  }

  /** The parameter count by method: GET, one per declaration (none when
      there are none); POST, PUT, PATCH and DELETE, exactly one, named after
      its own type and required; any other method, none. */
  lemma ParameterCount(httpMethod: string, op: Operation)
    requires Parameters(httpMethod, op).Ok?
    ensures var ps := Parameters(httpMethod, op).value;
      && (ToUpper(httpMethod) == "GET" ==> |ps| == if op.parameters.None? then 0 else |op.parameters.value|)
      && (Extractor.IsMutating(ToUpper(httpMethod)) ==>
            |ps| == 1 && ps[0].name == ps[0].typ && ps[0].required == Some(true)
            && var schema := op.requestBody.value.content.value[JsonContentType].schema;
               schema.Some? && GetType(schema.value) == Ok(ps[0].typ))
      && (ToUpper(httpMethod) != "GET" && !Extractor.IsMutating(ToUpper(httpMethod)) ==> ps == [])
  {
    if ToUpper(httpMethod) == "GET" && op.parameters.Some? {
      DeclaredFromCopies([], op.parameters.value);
    }
  }
}

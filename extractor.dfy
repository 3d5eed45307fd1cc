/** The parameter and return extractor of src/transform.js: `getReturnType`
    and `getParameters`. */
module Extractor {
  import opened Js
  import opened Strings
  import opened Lists
  import opened Document
  import opened Descriptors
  import opened TypeResolver

  // ---------------------------------------------------------------------
  // return type

  /** `getReturnType`: a declared 204 response means no type; otherwise the
      200 response's JSON schema (OpenAPI 3 `content`, or Swagger 2 `schema`)
      is resolved. Missing `responses`, a missing 200 response, or `content`
      without a JSON entry throw. */
  function GetReturnType(op: Operation): (r: Result<ReturnType>)
    ensures op.responses.Some? && CreatedStatusCode in op.responses.value ==> r == Ok(NoType)
    ensures op.responses.None? ==> r.Err?
    ensures r.Ok? && r.value.Typed? ==> WellShaped(r.value.desc)
    ensures r.Ok? && r.value.Typed? ==>
      && op.responses.Some? && SuccessStatusCode in op.responses.value
      && var resp := op.responses.value[SuccessStatusCode];
      && (resp.content.Some? ==> JsonContentType in resp.content.value)
      && var schema := if resp.content.Some? then resp.content.value[JsonContentType].schema else resp.schema;
      && schema.Some? && GetTypeBySchema(schema.value) == Ok(Some(r.value.desc))
    ensures op.responses.Some? && CreatedStatusCode !in op.responses.value ==>
      var responses := op.responses.value;
      && (SuccessStatusCode !in responses ==> r.Err?)
      && (SuccessStatusCode in responses ==>
            var resp := responses[SuccessStatusCode];
            && (resp.content.Some? && JsonContentType !in resp.content.value ==> r.Err?)
            && (resp.content.None? || JsonContentType in resp.content.value ==>
                  var schema := if resp.content.Some? then resp.content.value[JsonContentType].schema else resp.schema;
                  && (schema.None? ==> r == Ok(NoType))
                  && (schema.Some? ==> ReturnOf(GetTypeBySchema(schema.value), r))))
  {
    if op.responses.None? then Err(TypeError("pathInfo[method].responses"))
    else
      var responses := op.responses.value;
      if CreatedStatusCode in responses then Ok(NoType)
      else if SuccessStatusCode !in responses then Err(TypeError("response.content"))
      else
        var response := responses[SuccessStatusCode];
        var schema :-
          if response.content.None? then Ok(response.schema)
          else if JsonContentType in response.content.value then Ok(response.content.value[JsonContentType].schema)
          else Err(TypeError("response.content['application/json'].schema"));
        if schema.None? then Ok(NoType)
        else
          var t :- GetTypeBySchema(schema.value);
          if t.None? then Ok(Unresolved)
          else
            ResolvedShape(schema.value);
            Ok(Typed(t.value))
  }

  /** `return getTypeBySchema(schema)`: a resolved descriptor is the return
      type, `undefined` is `Unresolved`, and a throw propagates. */
  predicate ReturnOf(resolved: Result<Option<TypeDesc>>, r: Result<ReturnType>) {
    match resolved
    case Err(e) => r == Err(e)
    case Ok(None) => r == Ok(Unresolved)
    case Ok(Some(d)) => r == Ok(Typed(d))
  }

  // ---------------------------------------------------------------------
  // parameters

  /** What a declared parameter's type is resolved from: its inline schema
      when it has one, its bare `type` otherwise. */
  function DeclaredType(d: ParameterDecl): Result<Option<TypeDesc>> {
    if d.schema.Some? then GetTypeBySchema(d.schema.value) else Ok(GetType(d.typ))
  }

  /** One declared parameter: its inline schema or its bare type is resolved;
      one that does not resolve throws when its `.type` is read. */
  function DeclaredParameter(d: ParameterDecl): (r: Result<Parameter>)
    ensures r.Ok? ==> r.value.name == d.name && r.value.required == d.required
    ensures r.Ok? ==> WellShaped(TypeDesc(r.value.typeName, r.value.importType))
    ensures r.Ok? <==> DeclaredType(d).Ok? && DeclaredType(d).value.Some?
    ensures r.Ok? ==> TypeDesc(r.value.typeName, r.value.importType) == DeclaredType(d).value.value
    ensures DeclaredType(d).Err? ==> r == Err(DeclaredType(d).error)
  {
    var t :- DeclaredType(d);
    if t.None? then Err(TypeError("type.type"))
    else
      var p := Parameter(d.name, d.required, t.value.typeName, t.value.importType);
      if d.schema.Some? then
        ResolvedShape(d.schema.value);
        Ok(p)
      else
        assert Bracketed(p.typeName, p.typeName);
        Ok(p)
  }

  /** The push loop over declared parameters, as a fold: `acc` holds the
      parameters pushed so far. */
  function DeclaredFrom(acc: seq<Parameter>, decls: seq<ParameterDecl>): Result<seq<Parameter>>
    decreases decls
  {
    if decls == [] then Ok(acc)
    else
      var p :- DeclaredParameter(decls[0]);
      DeclaredFrom(acc + [p], decls[1..])
  }

  predicate IsMutating(upper: string) {
    upper == "POST" || upper == "PUT" || upper == "PATCH" || upper == "DELETE"
  }

  /** The name given to a request-body parameter: `content.name` when set;
      `values` for an array of primitives; otherwise the lower-cased last
      capital-initial chunk of the type name. */
  function BodyParameterName(name: Option<string>, typeName: string): string {
    if Truthy(name) then name.value
    else if typeName == "boolean[]" || typeName == "number[]" || typeName == "string[]" then "values"
    else ToLower(CamelTail(typeName))
  }

  /** The request-body parameter of a mutating operation that declares no
      parameters: none without a JSON body; one, named by
      `BodyParameterName`, when the JSON body has a schema. A JSON body
      without a schema reaches a branch that names a variable out of scope. */
  function BodyParameter(op: Operation): (r: Result<seq<Parameter>>)
    ensures op.requestBody.None? ==> r == Ok([])
    ensures r.Ok? ==> |r.value| <= 1
    ensures r.Ok? && |r.value| == 1 ==>
      && op.requestBody.Some? && op.requestBody.value.content.Some?
      && JsonContentType in op.requestBody.value.content.value
      && var content := op.requestBody.value.content.value[JsonContentType];
      && content.schema.Some?
      && r.value[0].name == BodyParameterName(content.name, r.value[0].typeName)
      && r.value[0].required == content.required
      && GetTypeBySchema(content.schema.value) == Ok(Some(TypeDesc(r.value[0].typeName, r.value[0].importType)))
    ensures op.requestBody.Some? && op.requestBody.value.content.None? ==> r.Err?
    ensures op.requestBody.Some? && op.requestBody.value.content.Some? ==>
      var contents := op.requestBody.value.content.value;
      && (JsonContentType !in contents ==> r == Ok([]))
      && (JsonContentType in contents && contents[JsonContentType].schema.None? ==> r.Err?)
      && (JsonContentType in contents && contents[JsonContentType].schema.Some? ==>
            var content := contents[JsonContentType];
            var t := GetTypeBySchema(content.schema.value);
            && (t.Ok? && t.value.Some? ==>
                  var d := t.value.value;
                  r == Ok([Parameter(BodyParameterName(content.name, d.typeName), content.required, d.typeName, d.importType)]))
            && (t.Ok? && t.value.None? ==> r.Err?)
            && (t.Err? ==> r == Err(t.error)))
  {
    if op.requestBody.None? then Ok([])
    else if op.requestBody.value.content.None? then Err(TypeError("requestBody.content['application/json']"))
    else if JsonContentType !in op.requestBody.value.content.value then Ok([])
    else
      var content := op.requestBody.value.content.value[JsonContentType];
      if content.schema.Some? then
        var t :- GetTypeBySchema(content.schema.value);
        if t.None? then Err(TypeError("type.type"))
        else Ok([Parameter(BodyParameterName(content.name, t.value.typeName), content.required,
                           t.value.typeName, t.value.importType)])
      else Err(ReferenceError("pathInfoParameter"))
  }

  /** `getParameters`, as a function of the method key and the operation. */
  function Parameters(httpMethod: string, op: Operation): Result<seq<Parameter>> {
    var upper := ToUpper(httpMethod);
    if upper == "GET" then
      if op.parameters.None? then Ok([]) else DeclaredFrom([], op.parameters.value)
    else if IsMutating(upper) then
      if op.parameters.Some? && |op.parameters.value| > 0 then DeclaredFrom([], op.parameters.value)
      else BodyParameter(op)
    else Ok([])
  }

  /** The loop over declared parameters. */
  method ResolveDeclared(decls: seq<ParameterDecl>) returns (r: Result<seq<Parameter>>)
    ensures r == DeclaredFrom([], decls)
  {
    var parameters: seq<Parameter> := [];
    var i := 0;
    while i < |decls|
      invariant 0 <= i <= |decls|
      invariant DeclaredFrom(parameters, decls[i..]) == DeclaredFrom([], decls)
    {
      assert decls[i..][1..] == decls[i + 1..];
      var p := DeclaredParameter(decls[i]);
      if p.Err? {
        return Err(p.error);
      }
      parameters := parameters + [p.value];
      i := i + 1;
    }
    return Ok(parameters);
  }

  /** `getParameters(method, pathInfo)`. */
  method GetParameters(httpMethod: string, op: Operation) returns (r: Result<seq<Parameter>>)
    ensures r == Parameters(httpMethod, op)
  {
    var upper := ToUpper(httpMethod);
    if upper == "GET" {
      if op.parameters.None? {
        return Ok([]);
      }
      r := ResolveDeclared(op.parameters.value);
    } else if IsMutating(upper) {
      if op.parameters.Some? && |op.parameters.value| > 0 {
        r := ResolveDeclared(op.parameters.value);
      } else {
        r := BodyParameter(op);
      }
    } else {
      r := Ok([]);
    }
  }

  // ---------------------------------------------------------------------
  // properties of the extractor

  /** The declared-parameter loop fails exactly when some declaration does
      not resolve. */
  lemma {:induction false} DeclaredFromFails(acc: seq<Parameter>, decls: seq<ParameterDecl>)
    decreases decls
    ensures DeclaredFrom(acc, decls).Err? <==> exists i :: 0 <= i < |decls| && DeclaredParameter(decls[i]).Err?
  {
    if decls != [] {
      var p := DeclaredParameter(decls[0]);
      if p.Ok? {
        DeclaredFromFails(acc + [p.value], decls[1..]);
        assert DeclaredFrom(acc, decls) == DeclaredFrom(acc + [p.value], decls[1..]);
        if exists i :: 0 <= i < |decls| && DeclaredParameter(decls[i]).Err? {
          var i :| 0 <= i < |decls| && DeclaredParameter(decls[i]).Err?;
          assert decls[1..][i - 1] == decls[i];
        }
        if exists i :: 0 <= i < |decls[1..]| && DeclaredParameter(decls[1..][i]).Err? {
          var i :| 0 <= i < |decls[1..]| && DeclaredParameter(decls[1..][i]).Err?;
          assert decls[i + 1] == decls[1..][i];
        }
      }
    }
  }

  /** The push loop with any builder `f`: it stops at the first failure. */
  ghost function PushAll<A, B>(f: A -> Result<B>, acc: seq<B>, xs: seq<A>): Result<seq<B>>
    decreases xs
  {
    if xs == [] then Ok(acc)
    else
      var p :- f(xs[0]);
      PushAll(f, acc + [p], xs[1..])
  }

  /** The declared-parameter loop is the push loop with `DeclaredParameter`. */
  lemma {:induction false} DeclaredFromPushAll(acc: seq<Parameter>, decls: seq<ParameterDecl>)
    decreases decls
    ensures DeclaredFrom(acc, decls) == PushAll(DeclaredParameter, acc, decls)
  {
    if decls != [] && DeclaredParameter(decls[0]).Ok? {
      DeclaredFromPushAll(acc + [DeclaredParameter(decls[0]).value], decls[1..]);
    }
  }

  /** When the push loop succeeds it appends, in order, what `f` builds from
      each element. */
  lemma {:induction false} PushAllCopies<A, B>(f: A -> Result<B>, acc: seq<B>, xs: seq<A>)
    requires PushAll(f, acc, xs).Ok?
    decreases xs
    ensures var ps := PushAll(f, acc, xs).value;
      && |ps| == |acc| + |xs| && ps[..|acc|] == acc
      && forall i :: 0 <= i < |xs| ==> f(xs[i]) == Ok(ps[|acc| + i])
  {
    if xs != [] {
      var p := f(xs[0]).value;
      PushAllCopies(f, acc + [p], xs[1..]);
      BuiltCons(f, acc, p, xs, PushAll(f, acc, xs).value);
    }
  }

  /** When the declared-parameter loop succeeds it yields one parameter per
      declaration, in order: the one `DeclaredParameter` builds from it, so
      with `name` and `required` copied and the declared type resolved. */
  lemma DeclaredFromCopies(acc: seq<Parameter>, decls: seq<ParameterDecl>)
    requires DeclaredFrom(acc, decls).Ok?
    ensures var ps := DeclaredFrom(acc, decls).value;
      && |ps| == |acc| + |decls|
      && ps[..|acc|] == acc
      && forall i :: 0 <= i < |decls| ==>
           && DeclaredParameter(decls[i]) == Ok(ps[|acc| + i])
           && ps[|acc| + i].name == decls[i].name && ps[|acc| + i].required == decls[i].required
  {
    DeclaredFromPushAll(acc, decls);
    PushAllCopies(DeclaredParameter, acc, decls);
  }

  /** `ps` extends `acc` with what `f` builds from each of `xs`, given that
      it extends `acc + [p]` with what `f` builds from the rest, and `p` is
      built from the first. */
  lemma BuiltCons<A, B>(f: A -> Result<B>, acc: seq<B>, p: B, xs: seq<A>, ps: seq<B>)
    requires xs != [] && f(xs[0]) == Ok(p)
    requires |ps| == |acc + [p]| + |xs[1..]| && ps[..|acc + [p]|] == acc + [p]
    requires forall i :: 0 <= i < |xs[1..]| ==> f(xs[1..][i]) == Ok(ps[|acc + [p]| + i])
    ensures |ps| == |acc| + |xs| && ps[..|acc|] == acc
    ensures forall i :: 0 <= i < |xs| ==> f(xs[i]) == Ok(ps[|acc| + i])
  {
    assert ps[..|acc|] == ps[..|acc| + 1][..|acc|];
    assert ps[|acc|] == ps[..|acc| + 1][|acc|] == p;
    forall i | 1 <= i < |xs|
      ensures f(xs[i]) == Ok(ps[|acc| + i])
    {
      assert xs[1..][i - 1] == xs[i];
      assert |acc| + i == |acc + [p]| + (i - 1);
    }
  }

  /** A GET operation, or a mutating one that declares parameters, yields
      exactly one parameter per declared parameter, in order: the one
      `DeclaredParameter` builds from it, with `name` and `required` copied. */
  lemma DeclaredParametersCopied(httpMethod: string, op: Operation)
    requires ToUpper(httpMethod) == "GET" || (IsMutating(ToUpper(httpMethod)) && op.parameters.Some? && |op.parameters.value| > 0)
    requires op.parameters.Some? && Parameters(httpMethod, op).Ok?
    ensures var ps := Parameters(httpMethod, op).value;
      var decls := op.parameters.value;
      && |ps| == |decls|
      && forall i :: 0 <= i < |ps| ==>
           && DeclaredParameter(decls[i]) == Ok(ps[i])
           && ps[i].name == decls[i].name && ps[i].required == decls[i].required
  {
    DeclaredFromCopies([], op.parameters.value);
  }

  /** A mutating operation with no parameters and no request body, and any
      method other than GET, POST, PUT, PATCH or DELETE, yields none. */
  lemma NoParameters(httpMethod: string, op: Operation)
    requires
      || (IsMutating(ToUpper(httpMethod)) && (op.parameters.None? || op.parameters.value == []) && op.requestBody.None?)
      || (ToUpper(httpMethod) != "GET" && !IsMutating(ToUpper(httpMethod)))
    ensures Parameters(httpMethod, op) == Ok([])
  {
  }

  /** The request-body parameter name: an explicit name wins; an array of
      primitives is `values`; otherwise the name is the lower-cased suffix of
      the type name that starts at its last capital letter. */
  lemma BodyParameterNameShape(name: Option<string>, typeName: string)
    requires !Truthy(name) && typeName !in {"boolean[]", "number[]", "string[]"}
    ensures var tail := CamelTail(typeName);
      && BodyParameterName(name, typeName) == ToLower(tail)
      && |tail| <= |typeName| && typeName[|typeName| - |tail|..] == tail
      && (forall k :: 1 <= k < |tail| ==> !IsUpper(tail[k]))
      && (|tail| < |typeName| ==> tail != "" && IsUpper(tail[0]))
  {
    CamelTailShape(typeName);
  }
}

/** The model graph builder of src/transform.js: `putModelFile` registers
    the model file of a named component in a folder, first registering every
    component its properties refer to. */
module ModelGraph {
  import opened Js
  import opened Strings
  import opened Lists
  import opened Document
  import opened Descriptors
  import opened TypeResolver
  import opened Folders

  /** The named schemas of the document. */
  type Schemas = map<string, Schema>

  /** `isNullable(property)`. */
  predicate IsNullable(p: Schema) {
    p.nullable || p.xNullable
  }

  /** `${value}` for an enum value. */
  function ValueText(v: EnumValue): string {
    match v
    case IntValue(n) => IntText(n)
    case StringValue(s) => s
  }

  /** The name of enum member `i`: its entry of `x-enumNames` when that entry
      exists and is non-empty, `_<value>` otherwise. */
  function EnumMemberName(values: seq<EnumValue>, names: seq<string>, i: nat): string
    requires i < |values|
  {
    if i < |names| && names[i] != "" then names[i] else "_" + ValueText(values[i])
  }

  /** The fields of an enum model, one per value in order. Reading
      `x-enumNames[i]` when `x-enumNames` is missing throws. */
  function EnumFields(values: seq<EnumValue>, names: Option<seq<string>>): Result<seq<Field>> {
    if values == [] then Ok([])
    else if names.None? then Err(TypeError("component['x-enumNames']"))
    else Ok(seq(|values|, i requires 0 <= i < |values| => Field(EnumMemberName(values, names.value, i), Literal(values[i]), true)))
  }

  /** What one property of an object component contributes: a field whose
      type is resolved and may name a model to register, an inline enum, or
      a field of primitive type. */
  datatype PropertyKind =
    | Linked(desc: TypeDesc)
    | InlineEnum(values: seq<EnumValue>, names: Option<seq<string>>)
    | Plain(typeName: string)

  /** The shape `getTypeFromObject` reads as a map. */
  predicate IsMapSchema(p: Schema) {
    p.typ == Some("object") && p.additionalProperties.Some?
  }

  /** The branch a property takes; `PropertyBranches` states each. */
  function ClassifyProperty(p: Schema): (r: Result<PropertyKind>)
    ensures r.Ok? && r.value.Linked? && p.typ != Some("array") && Truthy(p.ref) ==> r.value.desc == GetTypeByRef(p).value
    ensures r.Ok? && r.value.Plain? ==> GetType(p.typ).Some? && r.value.typeName in Primitives
    ensures r.Ok? && r.value.InlineEnum? ==> p.enumValues == Some(r.value.values) && p.xEnumNames == r.value.names
  {
    var arrayType :- GetTypeFromArray(p);
    if arrayType.Some? then Ok(Linked(arrayType.value))
    else
      var typeWithRef := GetTypeByRef(p);
      if typeWithRef.Some? then Ok(Linked(typeWithRef.value))
      else
        var typeFromObject := GetTypeFromObject(SchemaArg(p)).value;
        if typeFromObject.Some? then Ok(Linked(typeFromObject.value))
        else if p.enumValues.Some? then Ok(InlineEnum(p.enumValues.value, p.xEnumNames))
        else if p.allOf.Some? then
          if p.allOf.value == [] then Err(TypeError("_enum['$ref']"))
          else
            var first := GetTypeByRef(p.allOf.value[0]);
            if first.None? then Err(TypeError("typeWithRef.type")) else Ok(Linked(first.value))
        else
          var t := GetType(p.typ);
          if t.None? then Err(TypeError("getType(propertyInfo.type).type")) else Ok(Plain(t.value.typeName))
  }

  /** The branch a property takes: array, then reference, then map, then
      inline enum, then `allOf`, then primitive. The array resolution runs
      first for every property and may throw; an empty `allOf`, an `allOf`
      whose first element has no reference, and an unknown primitive throw. */
  lemma PropertyBranches(p: Schema)
    // 1. array
    ensures GetTypeFromArray(p).Err? ==> ClassifyProperty(p) == Err(GetTypeFromArray(p).error)
    ensures GetTypeFromArray(p).Ok? && GetTypeFromArray(p).value.Some? ==>
      ClassifyProperty(p) == Ok(Linked(GetTypeFromArray(p).value.value))
    // 2. reference
    ensures p.typ != Some("array") && Truthy(p.ref) ==>
      var t := LastSegment(p.ref.value);
      ClassifyProperty(p) == Ok(Linked(TypeDesc(t, Some(t))))
    // 3. map: the branch that fires here, unlike in `getTypeBySchema`
    ensures !Truthy(p.ref) && p.typ == Some("object") && p.additionalProperties.Some? ==>
      var ap := p.additionalProperties.value;
      && (Truthy(ap.ref) ==>
            var t := LastSegment(ap.ref.value);
            ClassifyProperty(p) == Ok(Linked(TypeDesc(t + "[]", Some(t)))))
      && (!Truthy(ap.ref) ==> ClassifyProperty(p) == Ok(Linked(TypeDesc(Text(ap.typ) + "[]", None))))
    // 4. inline enum
    ensures !Truthy(p.ref) && p.typ != Some("array") && !IsMapSchema(p) && p.enumValues.Some? ==>
      ClassifyProperty(p) == Ok(InlineEnum(p.enumValues.value, p.xEnumNames))
    // 5. `allOf`: the first element's reference
    ensures !Truthy(p.ref) && p.typ != Some("array") && !IsMapSchema(p) && p.enumValues.None? && p.allOf.Some? ==>
      && (p.allOf.value == [] ==> ClassifyProperty(p).Err?)
      && (p.allOf.value != [] && !Truthy(p.allOf.value[0].ref) ==> ClassifyProperty(p).Err?)
      && (p.allOf.value != [] && Truthy(p.allOf.value[0].ref) ==>
            var t := LastSegment(p.allOf.value[0].ref.value);
            ClassifyProperty(p) == Ok(Linked(TypeDesc(t, Some(t)))))
    // 6. primitive
    ensures !Truthy(p.ref) && p.typ != Some("array") && !IsMapSchema(p) && p.enumValues.None? && p.allOf.None? ==>
      && (GetType(p.typ).Some? ==> ClassifyProperty(p) == Ok(Plain(GetType(p.typ).value.typeName)))
      && (GetType(p.typ).None? ==> ClassifyProperty(p).Err?)
  {
  }

  /** A component whose properties are walked: not an enum, of type
      `object`, with `properties`. */
  predicate IsObjectModel(c: Schema) {
    c.enumValues.None? && c.typ == Some("object") && c.properties.Some?
  }

  /** The properties of an object component. */
  function Properties(components: Schemas, owner: string): seq<(string, Schema)>
    requires owner in components && IsObjectModel(components[owner])
  {
    components[owner].properties.value
  }

  /** The branch property `i` of `owner` takes, when it does not throw. */
  function KindAt(components: Schemas, owner: string, i: nat): Option<PropertyKind> {
    if owner in components && IsObjectModel(components[owner]) && i < |Properties(components, owner)| then
      match ClassifyProperty(Properties(components, owner)[i].1)
      case Ok(k) => Some(k)
      case Err(_) => None
    else None
  }

  /** The name `putModelFile` recurses into for property `i` of `owner`. */
  function ChildImport(components: Schemas, owner: string, i: nat): Option<string> {
    match KindAt(components, owner, i)
    case Some(Linked(d)) => if Truthy(d.importType) then d.importType else None
    case _ => None
  }

  /** `rank` orders the component graph: every reference goes from a name
      to a name of lower rank. Under it `putModelFile` terminates. */
  ghost predicate Acyclic(components: Option<Schemas>, rank: map<string, nat>) {
    components.Some? ==>
      forall owner, i :: ChildImport(components.value, owner, i).Some? ==>
        && owner in rank && ChildImport(components.value, owner, i).value in rank
        && rank[ChildImport(components.value, owner, i).value] < rank[owner]
  }

  function Measure(rank: map<string, nat>, name: Option<string>): nat {
    if !Truthy(name) then 0 else if name.value in rank then rank[name.value] + 2 else 1
  }

  /** The local state of the property walk: the folder's model files, and
      the fields and raw imports collected so far. */
  datatype Walk = Walk(models: seq<ModelFile>, fields: seq<Field>, imports: seq<Option<string>>)

  /** `putModelFile(components, folder, name)` on the folder's model files. */
  function PutModel(components: Option<Schemas>, models: seq<ModelFile>, name: Option<string>, rank: map<string, nat>): Result<seq<ModelFile>>
    requires Acyclic(components, rank)
    decreases Measure(rank, name), 1, 0, 0
  {
    if !Truthy(name) || name.value in ModelNames(models) then Ok(models)
    else if components.None? then Err(TypeError("components[_import]"))
    else if name.value !in components.value then Err(TypeError("component.enum"))
    else
      var component := components.value[name.value];
      if component.enumValues.Some? then
        var fields :- EnumFields(component.enumValues.value, component.xEnumNames);
        Ok(models + [ModelFile(name.value, true, [], fields)])
      else if component.typ == Some("object") then
        if component.properties.None? then Err(TypeError("Object.entries(component.properties)"))
        else
          var w :- PutProps(components.value, Walk(models, [], []), name.value, 0, rank);
          Ok(w.models + [ModelFile(name.value, false, Distinct(Present(w.imports)), w.fields)])
      else Ok(models + [ModelFile(name.value, false, [], [])])
  }

  /** The walk over the properties of `owner` from property `i` on. */
  function PutProps(components: Schemas, w: Walk, owner: string, i: nat, rank: map<string, nat>): Result<Walk>
    requires owner != "" && owner in components && IsObjectModel(components[owner])
    requires i <= |Properties(components, owner)| && Acyclic(Some(components), rank)
    decreases Measure(rank, Some(owner)), 0, |Properties(components, owner)| - i, 1
  {
    if i == |Properties(components, owner)| then Ok(w)
    else
      var w' :- Step(components, w, owner, i, rank);
      PutProps(components, w', owner, i + 1, rank)
  }

  /** A linked property's import is the child the walk registers. */
  lemma LinkedImport(components: Schemas, owner: string, i: nat, d: TypeDesc)
    requires owner in components && IsObjectModel(components[owner]) && i < |Properties(components, owner)|
    requires ClassifyProperty(Properties(components, owner)[i].1) == Ok(Linked(d))
    ensures Truthy(d.importType) ==> ChildImport(components, owner, i) == d.importType
  {
    assert KindAt(components, owner, i) == Some(Linked(d));
  }

  /** What property `i` of `owner` does to the walk: its field is added;
      a linked type is registered first, an inline enum's model file is
      pushed as is. */
  function Step(components: Schemas, w: Walk, owner: string, i: nat, rank: map<string, nat>): Result<Walk>
    requires owner != "" && owner in components && IsObjectModel(components[owner])
    requires i < |Properties(components, owner)| && Acyclic(Some(components), rank)
    decreases Measure(rank, Some(owner)), 0, |Properties(components, owner)| - i, 0
  {
    var (propertyName, propertyInfo) := Properties(components, owner)[i];
    var kind :- ClassifyProperty(propertyInfo);
    var required := !IsNullable(propertyInfo);
    match kind
    case Linked(d) =>
      LinkedImport(components, owner, i, d);
      var models :- PutModel(Some(components), w.models, d.importType, rank);
      Ok(Walk(models, w.fields + [Field(propertyName, TypeName(d.typeName), required)], w.imports + [d.importType]))
    case InlineEnum(values, names) =>
      var enumTypeName := owner + "Type";
      var enumFields :- EnumFields(values, names);
      Ok(Walk(w.models + [ModelFile(enumTypeName, true, [], enumFields)],
              w.fields + [Field(propertyName, TypeName(enumTypeName), required)],
              w.imports + [Some(enumTypeName)]))
    case Plain(t) =>
      Ok(Walk(w.models, w.fields + [Field(propertyName, TypeName(t), required)], w.imports))
  }

  // ---------------------------------------------------------------------
  // the procedure itself

  /** The enum-member loop, used for enum components and inline enums. */
  method CollectEnumFields(values: seq<EnumValue>, names: Option<seq<string>>) returns (r: Result<seq<Field>>)
    ensures r == EnumFields(values, names)
  {
    var fields: seq<Field> := [];
    var i := 0;
    while i < |values|
      invariant 0 <= i <= |values| && |fields| == i
      invariant i > 0 ==> names.Some?
      invariant forall j :: 0 <= j < i ==> fields[j] == Field(EnumMemberName(values, names.value, j), Literal(values[j]), true)
    {
      if names.None? {
        return Err(TypeError("component['x-enumNames']"));
      }
      var elementName := if i < |names.value| then Some(names.value[i]) else None;
      var name := if Truthy(elementName) then elementName.value else "_" + ValueText(values[i]);
      fields := fields + [Field(name, Literal(values[i]), true)];
      i := i + 1;
    }
    if values != [] {
      assert fields == EnumFields(values, names).value;
    }
    return Ok(fields);
  }

  /** `putModelFile(components, folder, name)`: a falsy name or one already
      registered changes nothing; otherwise the component's model file is
      pushed after those of everything it refers to. */
  method PutModelFile(components: Option<Schemas>, folder: Folder, name: Option<string>, ghost rank: map<string, nat>)
      returns (r: Result<()>)
    requires Acyclic(components, rank)
    modifies folder`modelFiles
    decreases Measure(rank, name)
    ensures var spec := PutModel(components, old(folder.modelFiles), name, rank);
      && (r.Ok? <==> spec.Ok?)
      && (r.Err? ==> r.error == spec.error)
      && (r.Ok? ==> folder.modelFiles == spec.value)
  {
    if !Truthy(name) {
      return Ok(());
    }
    var model := name.value;
    if model in ModelNames(folder.modelFiles) {
      return Ok(());
    }
    if components.None? {
      return Err(TypeError("components[_import]"));
    }
    if model !in components.value {
      return Err(TypeError("component.enum"));
    }
    var component := components.value[model];
    var fields: seq<Field> := [];
    var imports: seq<Option<string>> := [];
    var isEnum := false;
    if component.enumValues.Some? {
      isEnum := true;
      var enumFields := CollectEnumFields(component.enumValues.value, component.xEnumNames);
      if enumFields.Err? {
        return Err(enumFields.error);
      }
      fields := enumFields.value;
    } else if component.typ == Some("object") {
      if component.properties.None? {
        return Err(TypeError("Object.entries(component.properties)"));
      }
      var props := component.properties.value;
      var i := 0;
      while i < |props|
        invariant 0 <= i <= |props| && props == Properties(components.value, model)
        invariant PutProps(components.value, Walk(folder.modelFiles, fields, imports), model, i, rank)
               == PutProps(components.value, Walk(old(folder.modelFiles), [], []), model, 0, rank)
      {
        ghost var before := Walk(folder.modelFiles, fields, imports);
        var (propertyName, propertyInfo) := props[i];
        var kind := ClassifyProperty(propertyInfo);
        if kind.Err? {
          return Err(kind.error);
        }
        var required := !IsNullable(propertyInfo);
        match kind.value {
          case Linked(d) =>
            fields := fields + [Field(propertyName, TypeName(d.typeName), required)];
            imports := imports + [d.importType];
            assert Truthy(d.importType) ==> ChildImport(components.value, model, i) == d.importType;
            var registered := PutModelFile(components, folder, d.importType, rank);
            if registered.Err? {
              return registered;
            }
          case InlineEnum(values, names) =>
            var enumTypeName := model + "Type";
            fields := fields + [Field(propertyName, TypeName(enumTypeName), required)];
            imports := imports + [Some(enumTypeName)];
            var enumFields := CollectEnumFields(values, names);
            if enumFields.Err? {
              return Err(enumFields.error);
            }
            folder.modelFiles := folder.modelFiles + [ModelFile(enumTypeName, true, [], enumFields.value)];
          case Plain(t) =>
            fields := fields + [Field(propertyName, TypeName(t), required)];
        }
        assert Step(components.value, before, model, i, rank) == Ok(Walk(folder.modelFiles, fields, imports));
        i := i + 1;
      }
    }
    folder.modelFiles := folder.modelFiles + [ModelFile(model, isEnum, Distinct(Present(imports)), fields)];
    return Ok(());
  }

  // ---------------------------------------------------------------------
  // properties of the model graph

  /** Enum members: one field per value, in order, each required, typed by
      the value itself and named by `x-enumNames[i]` or `_<value>`; a
      non-empty enum without `x-enumNames` throws. */
  lemma EnumNaming(values: seq<EnumValue>, names: Option<seq<string>>)
    ensures EnumFields(values, names).Err? <==> values != [] && names.None?
    ensures EnumFields(values, names).Ok? ==>
      var fields := EnumFields(values, names).value;
      && |fields| == |values|
      && forall i :: 0 <= i < |values| ==>
           && fields[i].fieldType == Literal(values[i]) && fields[i].required
           && (names.Some? && i < |names.value| && names.value[i] != "" ==> fields[i].name == names.value[i])
           && (names.Some? && (i >= |names.value| || names.value[i] == "") ==> fields[i].name == "_" + ValueText(values[i]))
  {
  }

  /** An empty name, or one already among the folder's model files, changes
      nothing. */
  lemma NoOpWhenKnown(components: Option<Schemas>, models: seq<ModelFile>, name: Option<string>, rank: map<string, nat>)
    requires Acyclic(components, rank)
    requires !Truthy(name) || HasModel(models, name.value)
    ensures PutModel(components, models, name, rank) == Ok(models)
  {
  }

  /** A new name without a component is a failure. */
  lemma MissingComponentFails(components: Option<Schemas>, models: seq<ModelFile>, name: Option<string>, rank: map<string, nat>)
    requires Acyclic(components, rank)
    requires Truthy(name) && !HasModel(models, name.value)
    requires components.None? || name.value !in components.value
    ensures PutModel(components, models, name, rank).Err?
  {
  }

  /** A new enum component becomes one enum model file, appended. */
  lemma EnumComponentModel(components: Option<Schemas>, models: seq<ModelFile>, name: string, rank: map<string, nat>)
    requires Acyclic(components, rank)
    requires name != "" && !HasModel(models, name)
    requires components.Some? && name in components.value && components.value[name].enumValues.Some?
    ensures var c := components.value[name];
      var fields := EnumFields(c.enumValues.value, c.xEnumNames);
      && (PutModel(components, models, Some(name), rank).Ok? <==> fields.Ok?)
      && (fields.Ok? ==> PutModel(components, models, Some(name), rank).value == models + [ModelFile(name, true, [], fields.value)])
  {
    assert name !in ModelNames(models);
  }

  lemma HasModelPrefix(models: seq<ModelFile>, r: seq<ModelFile>, name: string)
    requires |models| <= |r| && r[..|models|] == models && HasModel(models, name)
    ensures HasModel(r, name)
  {
    var i :| 0 <= i < |models| && models[i].name == name;
    assert r[..|models|][i] == r[i];
  }

  /** A successful `putModelFile` only appends to the model files; afterwards
      the name is registered, and when it was new its model file is the last
      one and every model its properties refer to comes before it. */
  lemma {:induction false} PutModelExtends(components: Option<Schemas>, models: seq<ModelFile>, name: Option<string>, rank: map<string, nat>)
    requires Acyclic(components, rank)
    requires PutModel(components, models, name, rank).Ok?
    decreases Measure(rank, name), 1, 0, 0
    ensures var r := PutModel(components, models, name, rank).value;
      && |models| <= |r| && r[..|models|] == models
      && (Truthy(name) ==> HasModel(r, name.value))
      && (Truthy(name) && !HasModel(models, name.value) ==> |r| > |models| && r[|r| - 1].name == name.value)
      && (Truthy(name) && !HasModel(models, name.value) ==>
            forall j :: ChildImport(components.value, name.value, j).Some? ==>
              HasModel(r[..|r| - 1], ChildImport(components.value, name.value, j).value))
  {
    var r := PutModel(components, models, name, rank).value;
    if !Truthy(name) || name.value in ModelNames(models) {
      if Truthy(name) {
        var i :| 0 <= i < |models| && ModelNames(models)[i] == name.value;
        assert models[i].name == name.value;
      }
    } else {
      assert !HasModel(models, name.value);
      var n := name.value;
      var c := components.value[n];
      if c.enumValues.None? && c.typ == Some("object") {
        var w := PutProps(components.value, Walk(models, [], []), n, 0, rank).value;
        PutPropsExtends(components.value, Walk(models, [], []), n, 0, rank);
        assert r == w.models + [ModelFile(n, false, Distinct(Present(w.imports)), w.fields)];
        assert r[..|r| - 1] == w.models;
        assert r[..|models|] == w.models[..|models|];
        forall j | ChildImport(components.value, n, j).Some?
          ensures HasModel(r[..|r| - 1], ChildImport(components.value, n, j).value)
        {
        }
      } else {
        forall j
          ensures ChildImport(components.value, n, j).None?
        {
          assert KindAt(components.value, n, j).None?;
        }
      }
      assert r[|r| - 1].name == n;
    }
  }

  lemma PrefixTrans<T>(a: seq<T>, b: seq<T>, c: seq<T>)
    requires |a| <= |b| && b[..|a|] == a && |b| <= |c| && c[..|b|] == b
    ensures |a| <= |c| && c[..|a|] == a
  {
    assert c[..|a|] == c[..|b|][..|a|];
  }

  /** One turn of the walk over properties. */
  lemma PutPropsHead(components: Schemas, w: Walk, owner: string, i: nat, rank: map<string, nat>) returns (w': Walk)
    requires owner != "" && owner in components && IsObjectModel(components[owner])
    requires i < |Properties(components, owner)| && Acyclic(Some(components), rank)
    requires PutProps(components, w, owner, i, rank).Ok?
    ensures Step(components, w, owner, i, rank) == Ok(w')
    ensures PutProps(components, w', owner, i + 1, rank) == PutProps(components, w, owner, i, rank)
  {
    w' := Step(components, w, owner, i, rank).value;
  }

  /** The walk over properties only appends model files. */
  lemma {:induction false} PutPropsPrefix(components: Schemas, w: Walk, owner: string, i: nat, rank: map<string, nat>)
    requires owner != "" && owner in components && IsObjectModel(components[owner])
    requires i <= |Properties(components, owner)| && Acyclic(Some(components), rank)
    requires PutProps(components, w, owner, i, rank).Ok?
    decreases Measure(rank, Some(owner)), 0, |Properties(components, owner)| - i, 1
    ensures var r := PutProps(components, w, owner, i, rank).value;
      |w.models| <= |r.models| && r.models[..|w.models|] == w.models
  {
    if i < |Properties(components, owner)| {
      var r := PutProps(components, w, owner, i, rank).value;
      var w' := PutPropsHead(components, w, owner, i, rank);
      StepExtends(components, w, owner, i, rank);
      PutPropsPrefix(components, w', owner, i + 1, rank);
      PrefixTrans(w.models, w'.models, r.models);
    }
  }

  lemma {:induction false} PutPropsExtends(components: Schemas, w: Walk, owner: string, i: nat, rank: map<string, nat>)
    requires owner != "" && owner in components && IsObjectModel(components[owner])
    requires i <= |Properties(components, owner)| && Acyclic(Some(components), rank)
    requires PutProps(components, w, owner, i, rank).Ok?
    decreases Measure(rank, Some(owner)), 0, |Properties(components, owner)| - i, 2
    ensures var r := PutProps(components, w, owner, i, rank).value;
      && |w.models| <= |r.models| && r.models[..|w.models|] == w.models
      && forall j :: i <= j && ChildImport(components, owner, j).Some? ==>
           HasModel(r.models, ChildImport(components, owner, j).value)
  {
    PutPropsPrefix(components, w, owner, i, rank);
    if i < |Properties(components, owner)| {
      var r := PutProps(components, w, owner, i, rank).value;
      var w' := PutPropsHead(components, w, owner, i, rank);
      StepExtends(components, w, owner, i, rank);
      PutPropsPrefix(components, w', owner, i + 1, rank);
      PutPropsExtends(components, w', owner, i + 1, rank);
      RegistersFrom(components, owner, i, w'.models, r.models);
    }
  }

  /** The models property `i` registers, followed by those the properties
      after it register, are all the models from property `i` on. */
  lemma RegistersFrom(components: Schemas, owner: string, i: nat, mid: seq<ModelFile>, r: seq<ModelFile>)
    requires |mid| <= |r| && r[..|mid|] == mid
    requires ChildImport(components, owner, i).Some? ==> HasModel(mid, ChildImport(components, owner, i).value)
    requires forall j :: i + 1 <= j && ChildImport(components, owner, j).Some? ==> HasModel(r, ChildImport(components, owner, j).value)
    ensures forall j :: i <= j && ChildImport(components, owner, j).Some? ==> HasModel(r, ChildImport(components, owner, j).value)
  {
    if ChildImport(components, owner, i).Some? {
      HasModelPrefix(mid, r, ChildImport(components, owner, i).value);
    }
  }

  lemma {:induction false} StepExtends(components: Schemas, w: Walk, owner: string, i: nat, rank: map<string, nat>)
    requires owner != "" && owner in components && IsObjectModel(components[owner])
    requires i < |Properties(components, owner)| && Acyclic(Some(components), rank)
    requires Step(components, w, owner, i, rank).Ok?
    decreases Measure(rank, Some(owner)), 0, |Properties(components, owner)| - i, 0
    ensures var r := Step(components, w, owner, i, rank).value;
      && |w.models| <= |r.models| && r.models[..|w.models|] == w.models
      && (ChildImport(components, owner, i).Some? ==> HasModel(r.models, ChildImport(components, owner, i).value))
  {
    var kind := ClassifyProperty(Properties(components, owner)[i].1).value;
    var r := Step(components, w, owner, i, rank).value;
    match kind {
      case Linked(d) =>
        assert Truthy(d.importType) ==> ChildImport(components, owner, i) == d.importType;
        PutModelExtends(Some(components), w.models, d.importType, rank);
      case InlineEnum(_, _) =>
        assert r.models[..|w.models|] == w.models;
      case Plain(_) =>
    }
  }

  /** The type name a property's field gets. */
  function KindTypeName(owner: string, k: PropertyKind): string {
    match k
    case Linked(d) => d.typeName
    case InlineEnum(_, _) => owner + "Type"
    case Plain(t) => t
  }

  lemma {:induction false} StepField(components: Schemas, w: Walk, owner: string, i: nat, rank: map<string, nat>)
    requires owner != "" && owner in components && IsObjectModel(components[owner])
    requires i < |Properties(components, owner)| && Acyclic(Some(components), rank)
    requires Step(components, w, owner, i, rank).Ok?
    ensures KindAt(components, owner, i).Some?
    ensures var p := Properties(components, owner)[i];
      Step(components, w, owner, i, rank).value.fields
        == w.fields + [Field(p.0, TypeName(KindTypeName(owner, KindAt(components, owner, i).value)), !IsNullable(p.1))]
  {
  }

  lemma {:induction false} PutPropsFields(components: Schemas, w: Walk, owner: string, i: nat, rank: map<string, nat>)
    requires owner != "" && owner in components && IsObjectModel(components[owner])
    requires i <= |Properties(components, owner)| && Acyclic(Some(components), rank)
    requires PutProps(components, w, owner, i, rank).Ok?
    decreases |Properties(components, owner)| - i
    ensures var r := PutProps(components, w, owner, i, rank).value;
      var props := Properties(components, owner);
      && |r.fields| == |w.fields| + |props| - i && r.fields[..|w.fields|] == w.fields
      && forall j :: i <= j < |props| ==>
           && KindAt(components, owner, j).Some?
           && r.fields[|w.fields| + j - i]
                == Field(props[j].0, TypeName(KindTypeName(owner, KindAt(components, owner, j).value)), !IsNullable(props[j].1))
  {
    var props := Properties(components, owner);
    if i < |props| {
      var r := PutProps(components, w, owner, i, rank).value;
      var w' := Step(components, w, owner, i, rank).value;
      assert r == PutProps(components, w', owner, i + 1, rank).value;
      StepField(components, w, owner, i, rank);
      PutPropsFields(components, w', owner, i + 1, rank);
      assert r.fields[..|w'.fields|] == w'.fields;
      assert r.fields[..|w.fields|] == w.fields by {
        assert r.fields[..|w.fields|] == r.fields[..|w'.fields|][..|w.fields|];
      }
      forall j | i <= j < |props|
        ensures KindAt(components, owner, j).Some?
        ensures r.fields[|w.fields| + j - i]
          == Field(props[j].0, TypeName(KindTypeName(owner, KindAt(components, owner, j).value)), !IsNullable(props[j].1))
      {
        if j == i {
          assert r.fields[|w.fields|] == r.fields[..|w'.fields|][|w.fields|];
        } else {
          assert |w.fields| + j - i == |w'.fields| + j - (i + 1);
        }
      }
    }
  }

  /** The raw imports a property's branch adds: a linked type its import
      (possibly none), an inline enum its `<owner>Type` model, a primitive
      nothing. */
  function KindImports(owner: string, k: PropertyKind): (r: seq<Option<string>>)
    ensures |r| <= 1
    ensures k.Plain? <==> r == []
  {
    match k
    case Linked(d) => [d.importType]
    case InlineEnum(_, _) => [Some(owner + "Type")]
    case Plain(_) => []
  }

  /** The raw imports of the properties of `owner` from property `i` on. */
  function PropImportsFrom(components: Schemas, owner: string, i: nat): seq<Option<string>>
    requires owner in components && IsObjectModel(components[owner]) && i <= |Properties(components, owner)|
    decreases |Properties(components, owner)| - i
  {
    if i == |Properties(components, owner)| then []
    else
      var here := match KindAt(components, owner, i) case Some(k) => KindImports(owner, k) case None => [];
      here + PropImportsFrom(components, owner, i + 1)
  }

  /** The raw imports of all the properties of `owner`, in order. */
  function PropImports(components: Schemas, owner: string): seq<Option<string>>
    requires owner in components && IsObjectModel(components[owner])
  {
    PropImportsFrom(components, owner, 0)
  }

  lemma {:induction false} StepImports(components: Schemas, w: Walk, owner: string, i: nat, rank: map<string, nat>)
    requires owner != "" && owner in components && IsObjectModel(components[owner])
    requires i < |Properties(components, owner)| && Acyclic(Some(components), rank)
    requires Step(components, w, owner, i, rank).Ok?
    ensures KindAt(components, owner, i).Some?
    ensures Step(components, w, owner, i, rank).value.imports == w.imports + KindImports(owner, KindAt(components, owner, i).value)
  {
  }

  lemma PropImportsHead(components: Schemas, owner: string, i: nat, before: seq<Option<string>>)
    requires owner in components && IsObjectModel(components[owner]) && i < |Properties(components, owner)|
    requires KindAt(components, owner, i).Some?
    ensures before + PropImportsFrom(components, owner, i)
         == before + KindImports(owner, KindAt(components, owner, i).value) + PropImportsFrom(components, owner, i + 1)
  {
  }

  /** The walk collects exactly the raw imports of the properties it visits. */
  lemma {:induction false} PutPropsImports(components: Schemas, w: Walk, owner: string, i: nat, rank: map<string, nat>)
    requires owner != "" && owner in components && IsObjectModel(components[owner])
    requires i <= |Properties(components, owner)| && Acyclic(Some(components), rank)
    requires PutProps(components, w, owner, i, rank).Ok?
    decreases |Properties(components, owner)| - i
    ensures PutProps(components, w, owner, i, rank).value.imports == w.imports + PropImportsFrom(components, owner, i)
  {
    if i < |Properties(components, owner)| {
      var w' := PutPropsHead(components, w, owner, i, rank);
      StepImports(components, w, owner, i, rank);
      PutPropsImports(components, w', owner, i + 1, rank);
      PropImportsHead(components, owner, i, w.imports);
    }
  }

  /** A new object component's model file is built from the walk over its
      properties. */
  lemma ObjectModelWalk(components: Option<Schemas>, models: seq<ModelFile>, name: string, rank: map<string, nat>) returns (w: Walk)
    requires Acyclic(components, rank)
    requires name != "" && !HasModel(models, name)
    requires components.Some? && name in components.value && IsObjectModel(components.value[name])
    requires PutModel(components, models, Some(name), rank).Ok?
    ensures PutProps(components.value, Walk(models, [], []), name, 0, rank) == Ok(w)
    ensures PutModel(components, models, Some(name), rank) == Ok(w.models + [ModelFile(name, false, Distinct(Present(w.imports)), w.fields)])
  {
    assert name !in ModelNames(models);
    w := PutProps(components.value, Walk(models, [], []), name, 0, rank).value;
  }

  /** A new object component's model file imports the distinct names its
      properties import. */
  lemma ObjectModelImports(components: Option<Schemas>, models: seq<ModelFile>, name: string, rank: map<string, nat>)
    requires Acyclic(components, rank)
    requires name != "" && !HasModel(models, name)
    requires components.Some? && name in components.value && IsObjectModel(components.value[name])
    requires PutModel(components, models, Some(name), rank).Ok?
    ensures var r := PutModel(components, models, Some(name), rank).value;
      && r != [] && var m := r[|r| - 1];
      && m.imports == Distinct(Present(PropImports(components.value, name)))
      && NoDups(m.imports) && forall x :: x in m.imports ==> x != ""
  {
    var w := ObjectModelWalk(components, models, name, rank);
    PutPropsImports(components.value, Walk(models, [], []), name, 0, rank);
    assert w.imports == PropImports(components.value, name);
    DistinctMembers(Present(w.imports));
    PresentMembers(w.imports);
  }

  /** The fields of a new object component's model file. */
  lemma ObjectModelFieldList(components: Option<Schemas>, models: seq<ModelFile>, name: string, rank: map<string, nat>)
    requires Acyclic(components, rank)
    requires name != "" && !HasModel(models, name)
    requires components.Some? && name in components.value && IsObjectModel(components.value[name])
    requires PutModel(components, models, Some(name), rank).Ok?
    ensures var r := PutModel(components, models, Some(name), rank).value;
      var props := Properties(components.value, name);
      && |r| > |models| && var m := r[|r| - 1];
      && m.name == name && !m.isEnum && |m.fields| == |props|
      && forall j :: 0 <= j < |props| ==>
           && KindAt(components.value, name, j).Some?
           && m.fields[j].name == props[j].0
           && m.fields[j].required == !IsNullable(props[j].1)
           && m.fields[j].fieldType == TypeName(KindTypeName(name, KindAt(components.value, name, j).value))
  {
    var w := ObjectModelWalk(components, models, name, rank);
    PutPropsFields(components.value, Walk(models, [], []), name, 0, rank);
    PutPropsPrefix(components.value, Walk(models, [], []), name, 0, rank);
    var r := PutModel(components, models, Some(name), rank).value;
    var m := r[|r| - 1];
    var props := Properties(components.value, name);
    assert m.fields == w.fields && |m.fields| == |props|;
    forall j | 0 <= j < |props|
      ensures KindAt(components.value, name, j).Some?
      ensures m.fields[j].name == props[j].0 && m.fields[j].required == !IsNullable(props[j].1)
      ensures m.fields[j].fieldType == TypeName(KindTypeName(name, KindAt(components.value, name, j).value))
    {
      assert m.fields[j] == w.fields[0 + j - 0];
    }
  }

  /** A new object component becomes one model file, appended after those
      it registers: one field per property, in order, named by the property,
      typed by the branch it takes, and required exactly when the property
      is neither `nullable` nor `x-nullable`; its imports are the distinct
      names its properties import, in first-occurrence order. */
  lemma ObjectModelFields(components: Option<Schemas>, models: seq<ModelFile>, name: string, rank: map<string, nat>)
    requires Acyclic(components, rank)
    requires name != "" && !HasModel(models, name)
    requires components.Some? && name in components.value && IsObjectModel(components.value[name])
    requires PutModel(components, models, Some(name), rank).Ok?
    ensures var r := PutModel(components, models, Some(name), rank).value;
      var props := Properties(components.value, name);
      && |r| > |models| && var m := r[|r| - 1];
      && m.name == name && !m.isEnum && |m.fields| == |props|
      && (forall j :: 0 <= j < |props| ==>
            && KindAt(components.value, name, j).Some?
            && m.fields[j].name == props[j].0
            && m.fields[j].required == !IsNullable(props[j].1)
            && m.fields[j].fieldType == TypeName(KindTypeName(name, KindAt(components.value, name, j).value)))
      && m.imports == Distinct(Present(PropImports(components.value, name)))
      && NoDups(m.imports) && forall x :: x in m.imports ==> x != ""
  {
    ObjectModelFieldList(components, models, name, rank);
    ObjectModelImports(components, models, name, rank);
  }

  // ---------------------------------------------------------------------
  // uniqueness of model names

  /** No property of any object component is an inline enum. */
  ghost predicate NoInlineEnums(components: Option<Schemas>) {
    components.Some? ==>
      forall owner, i :: KindAt(components.value, owner, i).Some? ==> !KindAt(components.value, owner, i).value.InlineEnum?
  }

  lemma ModelNamesSnoc(models: seq<ModelFile>, m: ModelFile)
    requires NoDups(ModelNames(models)) && m.name !in ModelNames(models)
    ensures NoDups(ModelNames(models + [m]))
  {
    assert ModelNames(models + [m]) == ModelNames(models) + [m.name];
  }

  /** Outside inline enums, `putModelFile` never registers a name twice:
      model names stay distinct, and every model it adds has a rank no higher
      than the requested name. */
  lemma {:induction false} PutModelUnique(components: Option<Schemas>, models: seq<ModelFile>, name: Option<string>, rank: map<string, nat>)
    requires Acyclic(components, rank) && NoInlineEnums(components)
    requires NoDups(ModelNames(models)) && PutModel(components, models, name, rank).Ok?
    decreases Measure(rank, name), 1, 0, 0
    ensures var r := PutModel(components, models, name, rank).value;
      && NoDups(ModelNames(r)) && |models| <= |r| && r[..|models|] == models
      && forall k :: |models| <= k < |r| ==> Measure(rank, Some(r[k].name)) <= Measure(rank, name)
  {
    var r := PutModel(components, models, name, rank).value;
    if Truthy(name) && name.value !in ModelNames(models) {
      var n := name.value;
      var c := components.value[n];
      if c.enumValues.None? && c.typ == Some("object") {
        var w := PutProps(components.value, Walk(models, [], []), n, 0, rank).value;
        PutPropsUnique(components.value, Walk(models, [], []), n, 0, rank);
        assert n !in ModelNames(w.models) by {
          forall k | 0 <= k < |w.models|
            ensures w.models[k].name != n
          {
            if k < |models| {
              assert w.models[k] == w.models[..|models|][k];
            }
          }
        }
        ModelNamesSnoc(w.models, ModelFile(n, false, Distinct(Present(w.imports)), w.fields));
        assert r[..|models|] == w.models[..|models|];
      } else {
        ModelNamesSnoc(models, r[|r| - 1]);
      }
    }
  }

  lemma {:induction false} PutPropsUnique(components: Schemas, w: Walk, owner: string, i: nat, rank: map<string, nat>)
    requires owner != "" && owner in components && IsObjectModel(components[owner])
    requires i <= |Properties(components, owner)| && Acyclic(Some(components), rank)
    requires NoInlineEnums(Some(components)) && NoDups(ModelNames(w.models))
    requires PutProps(components, w, owner, i, rank).Ok?
    decreases Measure(rank, Some(owner)), 0, |Properties(components, owner)| - i, 1
    ensures var r := PutProps(components, w, owner, i, rank).value;
      && NoDups(ModelNames(r.models)) && |w.models| <= |r.models| && r.models[..|w.models|] == w.models
      && forall k :: |w.models| <= k < |r.models| ==> Measure(rank, Some(r.models[k].name)) < Measure(rank, Some(owner))
  {
    if i < |Properties(components, owner)| {
      var r := PutProps(components, w, owner, i, rank).value;
      var w' := Step(components, w, owner, i, rank).value;
      StepUnique(components, w, owner, i, rank);
      PutPropsUnique(components, w', owner, i + 1, rank);
      assert r.models[..|w.models|] == r.models[..|w'.models|][..|w.models|];
      forall k | |w.models| <= k < |w'.models|
        ensures r.models[k] == w'.models[k]
      {
        assert r.models[..|w'.models|][k] == r.models[k];
      }
    }
  }

  lemma {:induction false} StepUnique(components: Schemas, w: Walk, owner: string, i: nat, rank: map<string, nat>)
    requires owner != "" && owner in components && IsObjectModel(components[owner])
    requires i < |Properties(components, owner)| && Acyclic(Some(components), rank)
    requires NoInlineEnums(Some(components)) && NoDups(ModelNames(w.models))
    requires Step(components, w, owner, i, rank).Ok?
    decreases Measure(rank, Some(owner)), 0, |Properties(components, owner)| - i, 0
    ensures var r := Step(components, w, owner, i, rank).value;
      && NoDups(ModelNames(r.models)) && |w.models| <= |r.models| && r.models[..|w.models|] == w.models
      && forall k :: |w.models| <= k < |r.models| ==> Measure(rank, Some(r.models[k].name)) < Measure(rank, Some(owner))
  {
    var kind := ClassifyProperty(Properties(components, owner)[i].1).value;
    assert KindAt(components, owner, i) == Some(kind);
    if kind.Linked? {
      var d := kind.desc;
      assert Truthy(d.importType) ==> ChildImport(components, owner, i) == d.importType;
      PutModelUnique(Some(components), w.models, d.importType, rank);
    } else {
      assert kind.Plain?;
    }
  }

  /** An inline enum property `[0]` named `Open`. */
  function OpenEnum(): Schema {
    Schema(None, None, None, None, None, Some([IntValue(0)]), Some(["Open"]), false, false, None)
  }

  /** An object `Order` with two inline-enum properties. */
  function OrderComponents(): Schemas {
    map["Order" := Schema(None, Some("object"), None, None, Some([("status", OpenEnum()), ("state", OpenEnum())]), None, None, false, false, None)]
  }

  function OrderEnumModel(): ModelFile {
    ModelFile("OrderType", true, [], [Field("Open", Literal(IntValue(0)), true)])
  }

  lemma OrderEnumStep(w: Walk, i: nat, name: string)
    requires i < 2 && name == ["status", "state"][i]
    ensures Step(OrderComponents(), w, "Order", i, map[])
      == Ok(Walk(w.models + [OrderEnumModel()], w.fields + [Field(name, TypeName("OrderType"), true)], w.imports + [Some("OrderType")]))
  {
    var e := OpenEnum();
    assert ClassifyProperty(e) == Ok(InlineEnum([IntValue(0)], Some(["Open"])));
    assert EnumMemberName([IntValue(0)], ["Open"], 0) == "Open";
    assert EnumFields([IntValue(0)], Some(["Open"])).value == OrderEnumModel().fields;
    assert Properties(OrderComponents(), "Order")[i] == (name, e);
    assert "Order" + "Type" == "OrderType";
    assert !IsNullable(e);
  }

  lemma OrderAcyclic()
    ensures Acyclic(Some(OrderComponents()), map[])
  {
    var components := OrderComponents();
    forall owner: string, i: nat
      ensures ChildImport(components, owner, i).None?
    {
      if owner in components && IsObjectModel(components[owner]) && i < |Properties(components, owner)| {
        assert owner == "Order";
        assert Properties(components, owner) == [("status", OpenEnum()), ("state", OpenEnum())];
        assert Properties(components, owner)[i].1 == OpenEnum();
        assert ClassifyProperty(OpenEnum()) == Ok(InlineEnum([IntValue(0)], Some(["Open"])));
      }
    }
  }

  /** The walk over `Order`'s two properties pushes the enum model twice. */
  lemma OrderWalk()
    requires Acyclic(Some(OrderComponents()), map[])
    ensures PutProps(OrderComponents(), Walk([], [], []), "Order", 0, map[]).Ok?
    ensures PutProps(OrderComponents(), Walk([], [], []), "Order", 0, map[]).value.models == [OrderEnumModel(), OrderEnumModel()]
  {
    var components := OrderComponents();
    var model := OrderEnumModel();
    var w0 := Walk([], [], []);
    OrderEnumStep(w0, 0, "status");
    var w1 := Walk([model], [Field("status", TypeName("OrderType"), true)], [Some("OrderType")]);
    assert w0.models + [model] == w1.models && w0.fields + w1.fields == w1.fields && w0.imports + w1.imports == w1.imports;
    assert Step(components, w0, "Order", 0, map[]) == Ok(w1);
    OrderEnumStep(w1, 1, "state");
    var w2 := Walk([model, model], w1.fields + [Field("state", TypeName("OrderType"), true)], w1.imports + [Some("OrderType")]);
    assert w1.models + [model] == w2.models;
    assert Step(components, w1, "Order", 1, map[]) == Ok(w2);
    assert |Properties(components, "Order")| == 2;
    assert PutProps(components, w2, "Order", 2, map[]) == Ok(w2);
    assert PutProps(components, w1, "Order", 1, map[]) == Ok(w2);
  }

  /** Inline enums break uniqueness: an object with two inline-enum
      properties registers `<Owner>Type` twice. */
  lemma InlineEnumsDuplicate()
    ensures var components := OrderComponents();
      Acyclic(Some(components), map[])
      && PutModel(Some(components), [], Some("Order"), map[]).Ok?
      && ModelNames(PutModel(Some(components), [], Some("Order"), map[]).value) == ["OrderType", "OrderType", "Order"]
  {
    OrderAcyclic();
    OrderWalk();
    var components := OrderComponents();
    var w := PutProps(components, Walk([], [], []), "Order", 0, map[]).value;
    var r := PutModel(Some(components), [], Some("Order"), map[]);
    assert "Order" !in ModelNames([]);
    assert r == Ok(w.models + [ModelFile("Order", false, Distinct(Present(w.imports)), w.fields)]);
  }
}

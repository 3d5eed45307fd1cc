/** What the engine produces: type descriptors, parameters, actions, model
    files and their fields. All of them are plain values; the folders and
    client files that collect them are objects (see module Folders). */
module Descriptors {
  import opened Js
  import opened Document
  import opened Lists

  /** `{ type, importType }`: the semantic type name and, when the type is a
      named component, the name to import. */
  datatype TypeDesc = TypeDesc(typeName: string, importType: Option<string>)

  /** The result of `getReturnType`: the object `{ type: undefined,
      importType: undefined }` (`NoType`), plain `undefined` when the schema
      does not resolve (`Unresolved`), or a resolved descriptor. */
  datatype ReturnType = NoType | Unresolved | Typed(desc: TypeDesc)

  datatype Parameter = Parameter(name: string, required: Option<bool>, typeName: string, importType: Option<string>)

  datatype Action = Action(
    name: string,
    returnType: ReturnType,
    parameters: seq<Parameter>,
    httpMethod: string,
    path: string)

  /** The `type` of a field: a type name, or for an enum member the literal
      value itself. */
  datatype FieldType = TypeName(name: string) | Literal(value: EnumValue)

  datatype Field = Field(name: string, fieldType: FieldType, required: bool)

  datatype ModelFile = ModelFile(name: string, isEnum: bool, imports: seq<string>, fields: seq<Field>)

  /** The import names one action contributes: each parameter's
      `importType`, then the return type's when it is set. */
  function ActionImports(a: Action): seq<Option<string>> {
    ImportTypes(a.parameters)
    + (if a.returnType.Typed? && Truthy(a.returnType.desc.importType) then [a.returnType.desc.importType] else [])
  }

  /** `parameters.map(x => x.importType)`. */
  function ImportTypes(parameters: seq<Parameter>): (r: seq<Option<string>>)
    ensures |r| == |parameters| && forall i :: 0 <= i < |parameters| ==> r[i] == parameters[i].importType
  {
    Map((p: Parameter) => p.importType, parameters)
  }

  /** The value of a client file object at one moment. */
  datatype ClientFileVal = ClientFileVal(name: string, actions: seq<Action>, imports: seq<string>)

  /** The value of a folder object at one moment. */
  datatype FolderVal = FolderVal(name: Option<string>, clientFiles: seq<ClientFileVal>, modelFiles: seq<ModelFile>)

  predicate HasModel(models: seq<ModelFile>, name: string) {
    exists i :: 0 <= i < |models| && models[i].name == name
  }

  function ModelNames(models: seq<ModelFile>): (r: seq<string>)
    ensures |r| == |models| && forall i :: 0 <= i < |models| ==> r[i] == models[i].name
  {
    Map((m: ModelFile) => m.name, models)
  }
}

/** The parsed API description document as the engine reads it. Only the keys
    the engine consults are represented; a key the document does not carry is
    `None`. Objects the engine walks with `Object.entries` are sequences of
    (key, value) pairs in document order; objects it only indexes by key are
    maps. */
module Document {
  import opened Js

  /** An element of an `enum` array: JSON numbers the engine meets are
      integers, or strings. */
  datatype EnumValue = IntValue(n: int) | StringValue(s: string)

  /** A schema fragment: `$ref`, `type`, `items`, `additionalProperties`,
      `properties`, `enum`, `x-enumNames`, `nullable`, `x-nullable`, `allOf`.
      A flag that is absent reads as false. */
  datatype Schema = Schema(
    ref: Option<string>,
    typ: Option<string>,
    items: Option<Schema>,
    additionalProperties: Option<Schema>,
    properties: Option<seq<(string, Schema)>>,
    enumValues: Option<seq<EnumValue>>,
    xEnumNames: Option<seq<string>>,
    nullable: bool,
    xNullable: bool,
    allOf: Option<seq<Schema>>)

  /** An entry of a `content` object. `name` and `required` are what the
      engine reads from it when it synthesizes a body parameter. */
  datatype MediaType = MediaType(schema: Option<Schema>, name: Option<string>, required: Option<bool>)

  /** A `content` object, keyed by media type. */
  type Content = map<string, MediaType>

  datatype RequestBody = RequestBody(content: Option<Content>)

  /** A response: OpenAPI 3 puts its schema under `content`, Swagger 2 under
      `schema`. */
  datatype Response = Response(content: Option<Content>, schema: Option<Schema>)

  /** A declared operation parameter, with either an inline `schema` or a bare
      `type`. */
  datatype ParameterDecl = ParameterDecl(name: string, required: Option<bool>, schema: Option<Schema>, typ: Option<string>)

  /** An operation object; `responses` is keyed by status code. */
  datatype Operation = Operation(
    tags: Option<seq<string>>,
    parameters: Option<seq<ParameterDecl>>,
    requestBody: Option<RequestBody>,
    responses: Option<map<string, Response>>)

  /** A path item: its operations keyed by HTTP method, in document order. */
  type PathItem = seq<(string, Operation)>

  datatype Components = Components(schemas: Option<map<string, Schema>>)

  /** The whole document: `paths` in document order, and the named schemas
      under `components.schemas` (OpenAPI 3) or `definitions` (Swagger 2). */
  datatype Doc = Doc(
    paths: Option<seq<(string, PathItem)>>,
    components: Option<Components>,
    definitions: Option<map<string, Schema>>)

  const JsonContentType := "application/json"
  const SuccessStatusCode := "200"
  /** The source calls this constant `CreatedStatusCode`; its value is the
      no-content status. */
  const CreatedStatusCode := "204"

  /** `(json.components && json.components.schemas) || json.definitions`. */
  function ComponentSchemas(doc: Doc): Option<map<string, Schema>> {
    if doc.components.Some? && doc.components.value.schemas.Some? then doc.components.value.schemas
    else doc.definitions
  }
}

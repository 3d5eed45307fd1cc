# swagger-to-ts: the transformation engine, in Dafny

swagger-to-ts reads an OpenAPI 3 / Swagger 2 document and generates
TypeScript HTTP clients and model interfaces. Everything it writes comes
from one pure-ish step, `transform(json)`. That step groups the document's
operations into **folders** (one per first path segment) and **client
files** (one per first tag). Each operation becomes an **action** with a
name, a resolved return type and parameters. In the current engine
(`src/transform.js`), each folder then receives one **model file** per
component schema that its clients import, directly or through properties.
The repository also keeps the engine's earlier draft (`transform.js` at the
root). The draft has a string-valued type resolver and no model phase.

This project models both engines and proves what their results look like.

Modules:

- `Js` (js.dfy): JavaScript's `undefined` is `Option.None`. A thrown
  `TypeError` or `ReferenceError` is `Result.Err`. It also defines
  truthiness and how `+` renders `undefined`.
- `Document` (document.dfy): the parsed document, with only the keys the
  engine reads. Key order is kept wherever the engine iterates with
  `Object.entries`.
- `Strings`, `Lists` (strings.dfy, lists.dfy): the string and array idioms
  the engine uses.
  - `split`, `slice(-1)[0]`, `filter(x => x)[0]`.
  - The capital-letter split and ASCII `toUpperCase` / `toLowerCase`.
  - `indexOf`, and the `indexOf`-filter that removes duplicates.
- `TypeResolver` (type_resolver.dfy): `getType`, `getTypeByRef`,
  `getTypeFromArray`, `getTypeFromObject`, `getTypeBySchema`.
- `Extractor` (extractor.dfy): `getReturnType` and `getParameters`; the
  parameter loop is a method.
- `Descriptors` (descriptors.dfy): type descriptors, parameters, actions,
  fields and model files.
- `Folders` (folders.dfy): folders and client files are classes, because
  the engine pushes into them in place. This module holds `getFolder` and
  `getClientFile`.
- `ModelGraph` (model_graph.dfy): `putModelFile` as a recursive function
  over the component graph, and as a method that pushes into the folder.
- `Transform` (transform.dfy): `transform` as methods with loops. Each
  method is proved against a fold over values (`TransformSpec`).
- `Placement` (placement.dfy): the find-or-append grouping both engines
  share, over plain values. Each operation goes to one folder and, within
  it, to one file; the walk keeps every file's entries equal to the entries
  keyed to it, in traversal order.
- `TransformProperties` (transform_props.dfy): what the result of
  `transform` looks like.
- `DraftResolver`, `DraftFolders`, `DraftTransform`, `DraftProperties`
  (draft_*.dfy): the same four layers for the draft engine.

`putModelFile` recurses into referenced components. The model takes a
ghost `rank` map under which every reference in the whole component map
goes to a lower rank (`ModelGraph.Acyclic`). This is more than the source
needs. `transform` starts the recursion only from the imports of client
files (src/transform.js:336-344), so it terminates whenever the components
those imports reach are acyclic. A cycle that no import reaches does no
harm in the source, but the model excludes it (see "## Left out").

## Model

| member | source | states |
|---|---|---|
| Strings.JoinSplit | src/transform.js:21-27 | `split('/')` loses nothing: joining the parts gives back the path, and no part contains a slash |
| Strings.SplitJoin | src/transform.js:21-27 | the converse round trip: slash-free parts are recovered by splitting their join |
| Strings.ActionNameShape | src/transform.js:21-23 | `getActionName` is the path's last slash-free stretch followed by `Async`; that stretch ends the path and is preceded by a slash or is the whole path |
| Strings.FolderNameShape | src/transform.js:25-27 | `getFolderName` is `undefined` exactly when the path is all slashes; otherwise it is a maximal non-empty segment preceded only by slashes |
| Strings.LastSegmentShape | src/transform.js:229-238 | `split('/').slice(-1)[0]` is the longest slash-free suffix of the pointer |
| Strings.CapitalPiecesShape | src/transform.js:173-176 | `split(/(?=[A-Z])/)` pieces concatenate back to the string, each later piece starts with a capital, and no piece has a capital after its first character |
| Strings.CapitalPiecesConcat | src/transform.js:173-176 | the `split(/(?=[A-Z])/)` pieces concatenate back to the string |
| Strings.CapitalPiecesStarts | src/transform.js:173-176 | the first piece of a non-empty string is non-empty, and every later piece starts with a capital |
| Strings.CapitalPiecesLower | src/transform.js:173-176 | no piece has a capital after its first character |
| Strings.CamelTailShape | src/transform.js:173-176 | the last such piece is the suffix starting at the last capital letter (the whole string when there is none after the first character) |
| Lists.IndexOf | src/transform.js:330-332 | `indexOf` is -1 exactly when the element is absent; otherwise it gives the element's first position |
| Lists.DistinctIsIndexOfFilter | src/transform.js:330-332 | the `indexOf(x) === index` filter keeps the first occurrence of every element, in order |
| Lists.DistinctMembers | src/transform.js:330-332 | the de-duplicated list has exactly the same elements and no repetitions |
| Lists.PresentMembers | src/transform.js:330-332 | filtering out falsy imports keeps exactly the defined, non-empty ones |
| Lists.DistinctIdempotentPrefix | src/transform.js:330-332 | merging into already de-duplicated imports gives the same list as de-duplicating the whole history |
| Lists.DistinctAppend | src/transform.js:330-332 | appending never disturbs the imports already kept: the old list is a prefix of the new one |
| TypeResolver.GetType | src/transform.js:209-227 | the primitive table: it resolves exactly `boolean`, `integer`, `number`, `string` and `object`, never with an import; `integer` and `number` give `number`, the rest keep their name |
| TypeResolver.GetTypeByRef | src/transform.js:229-238 | it resolves exactly when `$ref` is truthy, to the pointer's last segment, which contains no slash and is also the import |
| TypeResolver.GetTypeFromArray | src/transform.js:240-254 | a non-array gives `undefined`; an array without `items` throws; a `$ref` item gives `<ref>[]` importing `<ref>`; any other item gives the type `getTypeBySchema` resolves for it plus `[]`, with the item's import; an item that resolves to `undefined` throws when its `.type` is read, and an item's error propagates |
| TypeResolver.GetTypeFromObject | src/transform.js:256-271 | it throws exactly on `undefined`; a string argument, and a schema that is not an `object` with `additionalProperties`, give `undefined`; an `object` whose value type has a `$ref` gives `<ref>[]` importing `<ref>`; any other value type gives its `type` as text plus `[]`, with no import |
| TypeResolver.GetTypeBySchema | src/transform.js:273-293 | `$ref` first, then the array case, then the primitive table; a schema without `type` that reaches the map case throws |
| TypeResolver.RefWins | src/transform.js:274-277 | `$ref` takes priority over every other key |
| TypeResolver.ArrayOfRefResolves | src/transform.js:240-245 | an array of references is `<ref>[]` and imports `<ref>` itself, never the bracketed name |
| TypeResolver.MapBranchUnreachable | src/transform.js:284-287 | because line 284 passes `schema.type`, an object schema with a `$ref` value type resolves to plain `object`, although `getTypeFromObject` of the schema would give a map |
| TypeResolver.ResolvedShape | src/transform.js:273-293 | every resolved descriptor is well shaped: with an import, its type is that name under array brackets; without one, a primitive under array brackets |
| Extractor.GetReturnType | src/transform.js:67-79 | missing `responses` throws; a 204 response means no type; otherwise a missing 200 response throws, a `content` without a JSON entry throws, and no schema (`content`, or Swagger 2 `schema`) means no type; a schema gives exactly what `getTypeBySchema` resolves: its error, an unresolved type for `undefined`, or its descriptor, which is well shaped |
| Extractor.DeclaredParameter | src/transform.js:90-114 | a declared parameter keeps its `name` and `required`; it succeeds exactly when its schema, or without one its bare `type`, resolves to a descriptor, which becomes its type and import; a resolver error propagates; the type is well shaped |
| Extractor.BodyParameter | src/transform.js:153-202 | without a request body there are no parameters; a missing `content` throws; `content` without a JSON entry gives none; a JSON entry without a schema throws; a schema that resolves gives exactly one parameter, named by `content.name` or after its type, carrying `content.required`, the type and its import; a schema that resolves to `undefined` throws, and a resolver error propagates |
| Extractor.ResolveDeclared | src/transform.js:88-116 | the push loop over declared parameters computes the declared-parameter fold |
| Extractor.GetParameters | src/transform.js:81-207 | the method computes `getParameters` by method key: GET, mutating methods, the default |
| Extractor.DeclaredFromFails | src/transform.js:88-116 | the loop over declared parameters fails exactly when some declaration does not resolve |
| Extractor.DeclaredFromCopies | src/transform.js:88-116 | when it succeeds: one parameter per declaration, appended in order, each exactly the parameter `DeclaredParameter` builds from its declaration, so with `name` and `required` copied and the declared type and import |
| Extractor.DeclaredParametersCopied | src/transform.js:117-151 | a GET, or a mutating operation that declares parameters, yields one parameter per declaration, in order, each exactly the parameter `DeclaredParameter` builds from it |
| Extractor.NoParameters | src/transform.js:153-205 | a mutating operation with neither parameters nor body, and any other method, yields no parameters |
| Extractor.BodyParameterNameShape | src/transform.js:163-181 | without `content.name`, the body parameter is named `values` for arrays of primitives; otherwise the lower-cased suffix of its type from the last capital on |
| Folders.FindOrAddFolder | src/transform.js:35-48 | the folder list after `getFolder` is unchanged when the name is present (first match), and has a new empty folder appended otherwise |
| Folders.GetFolder | src/transform.js:35-48 | the method returns the first folder of that name or pushes a fresh empty one; the snapshot follows `FindOrAddFolder`; distinct names and unshared client files are preserved |
| Folders.FindOrAddFile | src/transform.js:50-63 | the same for client files within one folder |
| Folders.GetClientFile | src/transform.js:50-63 | the method returns the first client file of that name or pushes a fresh empty one; the folder's value follows `FindOrAddFile`; file names stay distinct |
| ModelGraph.ClassifyProperty | src/transform.js:386-479 | whatever branch is taken: a reference gives its ref descriptor, a primitive a known primitive, an inline enum its values and names |
| ModelGraph.PropertyBranches | src/transform.js:386-479 | the branches in priority order, each with its outcome: the array resolution first, whose error propagates and whose descriptor wins; then `$ref`, giving the last segment; then the map case, giving `<ref>[]` importing `<ref>` or the value type's text plus `[]`; then an inline enum with its values and names; then `allOf`, giving its first element's reference and throwing when the list is empty or that element has none; then the primitive table, throwing on an unknown type |
| ModelGraph.CollectEnumFields | src/transform.js:372-383 | the enum-member loop computes the enum fields |
| ModelGraph.EnumNaming | src/transform.js:372-383 | one required field per enum value, in order, named from `x-enumNames` or `_<value>`; a non-empty enum without `x-enumNames` throws |
| ModelGraph.PutModelFile | src/transform.js:353-491 | the method pushes exactly the model files `PutModel` describes, or fails exactly when it does |
| ModelGraph.NoOpWhenKnown | src/transform.js:354-361 | a falsy name, or one already registered, changes nothing |
| ModelGraph.MissingComponentFails | src/transform.js:363-369 | a new name without a component throws |
| ModelGraph.EnumComponentModel | src/transform.js:369-383 | a new enum component becomes one enum model file, appended |
| ModelGraph.PutModelExtends | src/transform.js:353-491 | it only appends; afterwards the name is registered, and a new model comes after every model its properties refer to |
| ModelGraph.ObjectModelFields | src/transform.js:384-490 | an object component's model has one field per property, in order, with `required` equal to not `isNullable`, and the type of the property's branch; its imports are the distinct non-empty names its properties import (`PropImports`), in order of first occurrence |
| ModelGraph.PutPropsImports | src/transform.js:385-479 | the walk over properties collects exactly their imports: a linked type's import, `<Owner>Type` for an inline enum, nothing for a primitive |
| ModelGraph.PutModelUnique | src/transform.js:353-491 | without inline enums, model names in a folder stay distinct |
| ModelGraph.InlineEnumsDuplicate | src/transform.js:423-457 | two inline-enum properties of one component both register `<Owner>Type`, so the folder then holds two model files of that name |
| Transform.FileName | src/transform.js:29-31 | the first tag plus `Client`; missing `tags` throws and an empty list gives `undefinedClient` (the draft's `getFileName`, transform.js:37-39, is the same) |
| Transform.Transform | src/transform.js:295-347 | `transform` succeeds, fails with the same error, and yields the folder values exactly as `TransformSpec` does; the folders are fresh and separate |
| Transform.GroupPaths | src/transform.js:298-334 | the loop over paths computes the grouping fold `PathsFrom` |
| Transform.AddPath | src/transform.js:299-333 | one path: `getFolder`, then its operations, as `PathStep` describes |
| Transform.AddPathOperations | src/transform.js:303-333 | the operations of one path change only that path's folder |
| Transform.MethodStep | src/transform.js:304-332 | one operation changes neither the folder's name nor its model files |
| Transform.AddOperations | src/transform.js:303-333 | the loop over one path's operations computes `MethodsInto`, keeping client file names distinct |
| Transform.AddOperation | src/transform.js:304-332 | one operation: `getClientFile`, then the action recorded, as `MethodStep` describes; client files are only appended, fresh, and keep distinct names |
| Transform.RecordAction | src/transform.js:310-332 | the action is appended, and its non-empty imports are merged into the file's imports with first occurrences kept; only that client file changes |
| Transform.RegisterModels | src/transform.js:336-344 | the loop over folders computes `BuildFrom`; client files are untouched |
| Transform.RegisterFolderAt | src/transform.js:338-344 | registering one folder's models changes only that folder, is one step of `BuildFrom`, and keeps the folders separate |
| Transform.RegisterFolder | src/transform.js:339-343 | the loop over one folder's client files computes `ModelsFromFiles` |
| Transform.RegisterImports | src/transform.js:340-342 | the loop over one client file's imports computes `ModelsFrom` |
| TransformProperties.SummarizedImportsClean | src/transform.js:330-332 | a file's imports are non-empty, never repeated, and exactly the non-empty imports of its actions |
| TransformProperties.RecordSummarizes | src/transform.js:318-332 | recording an action keeps the imports equal to the de-duplicated imports of all actions |
| TransformProperties.MethodsIntoWellFormed | src/transform.js:303-333 | a path's operations keep file names distinct, actions placed under their path's folder and name, and imports summarized |
| TransformProperties.PathsFromWellFormed | src/transform.js:298-334 | the loop over paths keeps every folder well formed |
| TransformProperties.PathsFromNames | src/transform.js:298-301 | the folders are the distinct folder names of the paths, in order of first appearance |
| TransformProperties.ModelsFromRegisters | src/transform.js:340-342 | the imports of one file only append models, register every non-empty import, and keep names distinct without inline enums |
| TransformProperties.ModelsFromFilesRegisters | src/transform.js:339-343 | the same over all client files of a folder |
| TransformProperties.BuildFromRegisters | src/transform.js:336-344 | the model phase keeps names and client files and gives each folder a model for every import of its client files |
| TransformProperties.BuildShape | src/transform.js:336-344 | the model phase keeps folder names and well-formedness, gives every import a model in its folder, and keeps model names distinct without inline enums |
| TransformProperties.TransformShape | src/transform.js:295-347 | without `paths` it throws; otherwise: one folder per distinct folder name in order; distinct file names; actions placed; every client file's actions are exactly the actions `MethodAction` builds for the document's operations keyed to that folder and file, in document order of path, then method, and every operation builds its action; exactly as many actions as operations; imports summarized; a model for every import; distinct model names without inline enums |
| TransformProperties.ActionOrder | src/transform.js:298-334 | every client file's actions are the actions `MethodAction` builds for the document's operations keyed to that folder and file, in document order of path, then method; every operation builds its action; every operation's folder and client file exist; there are exactly as many actions as operations |
| TransformProperties.GroupingOrder | src/transform.js:298-334 | the grouping loop keeps the placement invariant for the actions of all the document's operations and holds one action per operation |
| TransformProperties.ProjectPathsFrom | src/transform.js:298-334 | the loop over paths is the generic walk over the document's operations, each keyed to its folder and file and carrying its action |
| TransformProperties.MethodsIntoBuilds | src/transform.js:303-333 | when a path's operations succeed, every one of them builds its action |
| TransformProperties.PathsFromBuilds | src/transform.js:298-334 | when the loop over paths succeeds, every operation of the document builds its action |
| TransformProperties.ProjectPathStep | src/transform.js:299-333 | one path is one step of the generic walk: `getFolder` then its operations |
| TransformProperties.ProjectMethodsInto | src/transform.js:303-333 | a path's operations are the generic fold over that folder, keyed by `getFileName` |
| TransformProperties.ProjectAddAction | src/transform.js:304-332 | recording one action is the generic find-or-append of its client file followed by appending that action |
| Placement.AddToFolderInv | src/transform.js:304-332 | placing one operation keeps every file holding exactly the operations keyed to it, in order, and file names distinct |
| Placement.FolderFoldInv | src/transform.js:303-333 | the operations of one path keep that folder's invariant |
| Placement.AddPathInv | src/transform.js:299-333 | one path keeps the invariant for every folder, and folder names distinct |
| Placement.WalkInv | src/transform.js:298-334 | the walk over all paths keeps every file holding exactly the operations keyed to its folder and name, in traversal order, with every operation's folder and file present |
| Placement.WalkCount | src/transform.js:298-334 | the walk holds exactly one entry per operation |
| DraftResolver.GetReturnType | transform.js:54-64 | a missing `responses` or 200 response throws; without `content`, or with a JSON entry that has no schema, the result is `''`; a `content` without a JSON entry throws; a schema gives exactly the draft `getType` of it |
| DraftResolver.ReturnTypeAgrees | transform.js:54-64 | without `content` the draft gives `''`; on a JSON schema both engines understand, it gives the later engine's type name |
| DraftResolver.GetParameters | transform.js:66-100 | the method computes the draft's `getParameters` |
| DraftResolver.DeclaredFromCopies | transform.js:75-82 | GET yields one parameter per declaration, in order, copying `name`, `required` and the schema's `type`; it fails exactly when some declaration has no schema |
| DraftResolver.ParameterCount | transform.js:66-100 | GET gives one per declaration; POST, PUT, PATCH and DELETE give exactly one, named by its type and required; other methods give none |
| DraftResolver.GetTypeTable | transform.js:102-141 | `$ref` wins with its last segment; an `object` whose `additionalProperties` has a `$ref` gives `<ref>[]`; an `array` without `items` throws, a `$ref` item gives `<ref>[]` and any other item its type as text plus `[]`, or its error; `string`, `integer`, `boolean` map to `string`, `number`, `boolean`; other types give `undefined` |
| DraftResolver.ObjectFallsThrough | transform.js:118-134 | an `object` schema without a `$ref` value type falls through to the array case |
| DraftResolver.UnresolvedItemsText | transform.js:134-139 | items that resolve to `undefined` give the text `undefined[]` |
| DraftResolver.AgreesWithResolver | transform.js:102-141 | on references, `string`, `integer`, `boolean` and arrays of them, the draft and the later resolver give the same type name |
| DraftResolver.NumberUnknown | transform.js:108-140 | the draft resolves `number` to `undefined`, where the later resolver gives `number` |
| DraftFolders.FindOrAddFolder | transform.js:24-35 | the draft's folder list after `getFolder`: unchanged when present, an empty folder appended otherwise |
| DraftFolders.GetFolder | transform.js:24-35 | the method follows `FindOrAddFolder` and keeps folders separate |
| DraftFolders.FindOrAddFile | transform.js:41-52 | the folder after `getFile`: unchanged when present, an empty file appended otherwise |
| DraftFolders.GetFile | transform.js:41-52 | the method follows `FindOrAddFile` and keeps file names distinct |
| DraftTransform.Transform | transform.js:143-170 | the draft `transform` succeeds, fails with the same error, and yields the folder values exactly as `TransformSpec` does; the folders are fresh and separate |
| DraftTransform.AddPath | transform.js:146-167 | one path: `getFolder`, then its operations, as `PathStep` describes |
| DraftTransform.AddPathOperations | transform.js:151-166 | the operations of one path change only that path's folder |
| DraftTransform.MethodStep | transform.js:152-165 | one operation does not change the folder's name |
| DraftTransform.AddOperations | transform.js:151-166 | the loop over one path's operations computes `MethodsInto`, keeping file names distinct |
| DraftTransform.AddOperation | transform.js:152-165 | one operation: `getFile`, then the action pushed, as `MethodStep` describes; files are only appended, fresh, and keep distinct names |
| DraftTransform.PushAction | transform.js:165 | the action is appended to its file, and nothing else in the folder changes |
| DraftProperties.AddActionCounts | transform.js:152-165 | one operation adds exactly one action to its folder |
| DraftProperties.MethodsIntoCounts | transform.js:151-166 | a path's operations add one action each |
| DraftProperties.PathsFromCounts | transform.js:146-167 | the loop over paths adds one action per operation of the document |
| DraftProperties.MethodsIntoWellFormed | transform.js:151-166 | file names stay distinct; every action sits under its path's folder and name, with its method in capitals |
| DraftProperties.PathsFromWellFormed | transform.js:146-167 | the loop over paths keeps every folder well formed |
| DraftProperties.PathsFromNames | transform.js:146-149 | the folders are the distinct folder names of the paths, in order of first appearance |
| DraftProperties.TransformShape | transform.js:143-170 | without `paths` it throws; otherwise: one folder per distinct folder name in order; distinct file names; actions placed with their method in capitals; every file's actions are exactly the actions the draft builds for the document's operations keyed to that folder and file, in document order of path, then method, and every operation builds its action; exactly as many actions as operations |
| DraftProperties.ActionOrder | transform.js:143-170 | every file's actions are the actions the draft builds for the document's operations keyed to that folder and file (method in capitals), in document order of path, then method; every operation builds its action; every operation's folder and file exist |
| DraftProperties.ProjectPathsFrom | transform.js:146-167 | the draft loop over paths is the generic walk over the document's operations, each keyed to its folder and file and carrying its action |
| DraftProperties.MethodsIntoBuilds | transform.js:151-166 | when a path's operations succeed, every one of them builds its action |
| DraftProperties.PathsFromBuilds | transform.js:146-167 | when the loop over paths succeeds, every operation of the document builds its action |
| DraftProperties.ProjectPathStep | transform.js:146-167 | one path is one step of the generic walk: `getFolder` then its operations |
| DraftProperties.ProjectMethodsInto | transform.js:151-166 | a path's operations are the generic fold over that folder, keyed by `getFileName` |
| DraftProperties.ProjectAddAction | transform.js:152-165 | pushing one action is the generic find-or-append of its file followed by appending that action |

## Left out

- The command line, file reading and writing, and template rendering
  (`index.js`, `src/index.js`) are not part of this model. Neither is the
  `HttpClientFactory` TypeScript runtime. The document arrives already
  parsed, as a `Document.Doc` value.
- `console.error()` and `debugger` in the draft `getType` have no effect on
  the result and are omitted.
- `isModelType` (src/transform.js:16-18) is never called and is not modelled.
- `toUpperCase` and `toLowerCase` are modelled on ASCII letters only, and the
  capital-letter split only splits before ASCII capitals.
- Schemas are trees of records with the keys the engine reads. Some inputs
  are therefore not represented:
  - a non-string `type`;
  - a boolean `additionalProperties`;
  - keys that shadow `Object.prototype` members;
  - duplicate JSON keys.
- A path item holds only operations. Path-level keys that are not methods,
  such as `parameters`, `summary` or `servers`, are not represented. The
  engines iterate over them with `Object.entries` (src/transform.js:303,
  transform.js:151), and reading `tags[0]` of such a value throws a
  TypeError (src/transform.js:30, transform.js:38). The model says nothing
  about documents with such keys.
- Keys are kept in document order. JavaScript's `Object.entries` lists
  integer-like keys first, in ascending order. The model does not reorder
  such paths or methods, so its order claims hold for documents without
  integer-like keys.
- Enum values are integers or strings. Fractional numbers (and how
  JavaScript prints them) are not modelled.
- ModelGraph.PutModelFile: the model requires a rank under which the whole
  component map is acyclic (`Acyclic`). The source loops forever only on a
  cycle that some client file's import reaches. A document whose component
  map holds a cycle that no import reaches is transformed normally by the
  source. For such documents `PutModelFile`, `Transform.Transform`,
  `TransformProperties.TransformShape` and the model-phase lemmas promise
  nothing.
- Transform.Transform: when an operation throws midway, the folders already
  built are unreachable, because the exception escapes `transform`. The
  contracts therefore state only the error, not the partial state.
- DraftTransform.Transform: the same holds for the draft.
- Where the code departs from its evident intent, the model follows the
  code:
  - The synthesized body parameter carries `content.required`
    (src/transform.js:185), usually `undefined`, not `true`.
  - `getTypeBySchema` passes `schema.type` to `getTypeFromObject`
    (src/transform.js:284). The map case therefore never fires
    (`TypeResolver.MapBranchUnreachable`), and a schema without `type`
    throws there.
  - A JSON body without a schema names `pathInfoParameter`, which is out of
    scope (src/transform.js:192), so that branch throws a ReferenceError.
  - The draft resolver does not know `number` (`DraftResolver.NumberUnknown`).

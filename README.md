# oresm active-record layer, modelled in Dafny

oresm maps model instances in the browser to resources of a REST API. A model type
(`class User extends Model {}`) has a host, a path prefix, a resource noun (its
lower-cased, pluralized type name) and a key attribute (`id` by default). An instance
has three parts:

- an entity: the attribute mapping;
- a dirty list: the names written since the last sync, repeats kept;
- accessor properties, through which attributes are read and written.

The lifecycle operations do the following:

- `save` merges data, then POSTs a keyless entity to the collection endpoint or PUTs a
  keyed one to the keyed endpoint.
- `patch` sends the dirty attributes.
- `delete` sends DELETE and freezes the instance.
- `find` GETs one record into a fresh instance.

The project has four modules:

- `Values` (values.dfy): the JavaScript values the layer handles.
  - Truthiness.
  - `String()` as applied by `join`.
  - Objects as ordered field lists (their `Object.keys` order feeds the dirty list).
  - The attribute mapping they denote.
- `Helper` (helper.dfy): `src/helper.js`.
  - Endpoint construction, the resource noun, `isNew`, `checkAction` and `collect` are
    functions.
  - The state-changing parts are pure transitions over a `State`: the setter
    (`Write`), `updateEntity` (`Merge`), `setEntity` (`Load`) and `destroy`.
  - A `State` holds the entity (or none: the null entity of `new Model()`), the dirty
    list, the set of names with an installed accessor, and the frozen flag.
- `Oresm` (oresm.dfy): `src/oresm.js`.
  - The class `Model` keeps the fields the JavaScript object keeps and updates them in
    place. Each method is proved to end in exactly the state, error and request that a
    pure step function (`SaveStep`, `PatchStep`, …) gives for the old state.
  - The HTTP client is not modelled: a method returns the `Request` it issues (verb,
    endpoint, payload) and takes the client's `Reply` as a parameter.
  - Lemmas about the step functions state the lifecycle properties.
- `Scenarios` (scenarios.dfy): the concrete expectations of the repository's tests,
  stated for a `User` type.

Errors are values:

- the layer's own errors: "action not allowed", "cannot update key", the missing-key
  error, "documents is not an array";
- two TypeErrors the runtime raises for the layer: reading through a null entity, and
  redefining or assigning a property of a frozen model;
- `Transport`, any failure of the client.

An operation that fails part-way keeps the changes it made before the failure, as the
code does. For example, a merge whose third field fails keeps the first two writes.

Behaviour of the code worth knowing:

- `delete` checks only that the model is not destroyed. A model whose key is falsy
  sends DELETE to the collection endpoint (`Oresm.DeleteTargets`) instead of failing
  with the missing-key error.
- Freezing is shallow, and only `_update` and `delete` call `checkAction`. After
  `delete`:
  - attribute writes through existing accessors still succeed;
  - a merge of existing attributes still succeeds;
  - `save` of a keyless model still POSTs, and only loading the reply then fails.

  So every later lifecycle call fails (`Oresm.DestroyedModelFails`), but attribute
  writes do not.
- A transport failure leaves the model as the merge before the request left it. The
  merge is not undone.

## Model

| member | source | states |
|---|---|---|
| Helper.CheckAction | src/helper.js:5-9 | Definition: "action not allowed" exactly on a destroyed model. Its consequences are stated in `Oresm.UpdateGuards`, `Oresm.DeleteIsTerminal` and `Oresm.DestroyedModelFails`. |
| Helper.MergeField | src/helper.js:13-18 | Definition of one step of `updateEntity`. Its properties are stated in `Helper.MergeAssigns` and `Helper.MergeAttributes`. |
| Helper.Merge | src/helper.js:11-21 | Definition of `updateEntity`. Its properties are stated in `Helper.MergeAssigns`, `Helper.MergeAttributes` and `Helper.MergeKeepsDestroyed`. |
| Helper.Load | src/helper.js:23-37 | Definition of `setEntity`. Its properties are stated in `Helper.LoadRecord` and `Helper.IsNewAfterLoad`. |
| Helper.Write | src/helper.js:46-52 | Definition of the setter. Its properties are stated in `Helper.WritesTracked`, `Helper.WritesWhileKeyFalsy` and `Helper.KeyImmutable`. |
| Helper.TruthyOnly | src/helper.js:59 | Definition of `filter(Boolean)`. Its properties are stated in `Helper.TruthyOnlyMembers` and `Helper.EndpointShape`. |
| Helper.TruthyOnlyMembers | src/helper.js:59 | The filter keeps exactly the truthy values. |
| Helper.Endpoint | src/helper.js:56-61 | Definition of `constructEndpoint`. Its properties are stated in `Helper.EndpointShape`. |
| Helper.EndpointWithKey | src/helper.js:63-65 | Definition of `constructEndpointWithKey`. Its properties are stated in `Helper.EndpointWithKeyAppends`. |
| Helper.Resource | src/helper.js:76-79 | Definition of `getResource`. Its properties are stated in `Helper.ResourceIgnoresCase`. |
| Helper.IsNew | src/helper.js:81-83 | Definition of `isNew`. Its properties are stated in `Helper.IsNewAfterLoad` and `Oresm.SaveChoosesVerb`. |
| Helper.Destroy | src/helper.js:85-87 | Definition of `destroy`. Its properties are stated in `Oresm.DeleteIsTerminal` and `Oresm.DestroyedModelFails`. |
| Helper.WritesWhileKeyFalsy | src/helper.js:46-52 | While the key is falsy, every assignment through an accessor succeeds, the key included, provided each key assignment but the last writes a falsy value. The entity becomes the old one overridden by the assigned values. The dirty list grows by the assigned names in order. |
| Oresm.DefaultConfig | src/oresm.js:12-26 | Definition of the default getters. Its concrete values are stated in `Scenarios.DefaultUserConfig`. |
| Oresm.ClearDirtyStep | src/oresm.js:28-30 | Definition of `clearDirty`. Its properties are stated in `Oresm.StoreLoadsReply`, `Oresm.UpdateMergesReply` and `Oresm.DestroyedModelFails`. |
| Oresm.FindStep | src/oresm.js:32-37 | Definition of `find` (with `_get`, src/oresm.js:45-48). Its properties are stated in `Oresm.FindLoadsReply`. |
| Oresm.DeleteStep | src/oresm.js:50-55 | Definition of `delete`. Its properties are stated in `Oresm.DeleteIsTerminal`, `Oresm.DeleteTargets` and `Oresm.DestroyedModelFails`. |
| Oresm.SaveStep | src/oresm.js:57-61 | Definition of `save`. Its properties are stated in `Oresm.SaveChoosesVerb`, `Oresm.SaveKeyInDataRoutesToPut` and `Oresm.DestroyedModelFails`. |
| Oresm.StoreStep | src/oresm.js:63-70 | Definition of `_store`. Its properties are stated in `Oresm.StoreLoadsReply`. |
| Oresm.UpdateStep | src/oresm.js:72-81 | Definition of `_update`. Its properties are stated in `Oresm.UpdateGuards` and `Oresm.UpdateMergesReply`. |
| Oresm.PatchStep | src/oresm.js:83-90 | Definition of `patch`. Its properties are stated in `Oresm.PatchSendsDirty` and `Oresm.PatchWithoutKeyRefused`. |
| Oresm.PatchParams | src/oresm.js:85-88 | Definition of the reduce that builds the PATCH body. Its properties are stated in `Oresm.PatchParamsExact`. |
| Oresm.EntityCopy | src/oresm.js:92-94 | Definition of `getEntity` on a state. Its properties are stated in `Oresm.GetEntityCopiesRecord`. |
| Oresm.Model.GetEntity | src/oresm.js:92-94 | `getEntity` on the class, read through `EntityCopy`. Its properties are stated in `Oresm.GetEntityCopiesRecord`. |
| Helper.EndpointShape | src/helper.js:56-61 | The segments are prefix, resource and the extra parts, in that order, with the falsy ones dropped. The kept parts are exactly the truthy ones. No segment is empty when no part is an array. The endpoint starts with the unfiltered host and "/". Splitting the path at "/" gives back the segments. |
| Helper.EndpointWithKeyAppends | src/helper.js:63-65 | A falsy key gives the collection endpoint. A truthy key adds its text as one last segment: the endpoint is the collection endpoint, "/" (unless there are no segments at all) and the key's text. |
| Helper.ResourceIgnoresCase | src/helper.js:76-79 | Type names differing only in ASCII letter case get the same resource noun. The noun the pluralizer receives has no upper-case letter. |
| Helper.KeyImmutable | src/helper.js:46-52 | After any run of assignments to a model whose key is truthy, the key keeps its value. The run fails exactly when it assigns the key through its accessor, and then with "cannot update key". |
| Helper.WritesTracked | src/helper.js:46-52 | Assignments through accessors to non-key attributes all succeed. The entity becomes the old one overridden by the assigned values, and the dirty list grows by the assigned names in order, repeats kept. |
| Helper.MergeAssigns | src/helper.js:11-21 | Merging an object into a model with an entity succeeds, except on a frozen model given a new name. The entity is overridden by every field except an already-truthy key. The dirty list grows by those names in the object's order. Accessors are installed for them. Consistency is kept. |
| Helper.MergeAttributes | src/helper.js:11-21 | After the merge, each field of the object reads as its value. An already-truthy key keeps its old value. Attributes the object does not name keep their values. |
| Helper.MergeKeepsDestroyed | src/helper.js:11-21 | A merge, failing or not, never freezes or thaws the model. |
| Helper.LoadRecord | src/helper.js:23-37 | Loading an object makes its names exactly the entity's attributes, with its values, and its names exactly the dirty list. Loading null leaves no entity and keeps the dirty list. Consistency is kept. |
| Helper.IsNewAfterLoad | src/helper.js:81-83 | A model loaded with an object is new exactly when no field of the object is a truthy key. |
| Helper.Collect | src/helper.js:67-74 | The result is an error exactly when the documents are not an array, and the error is "documents is not an array". An array gives one model per document, in the same order, each built from its own document. |
| Helper.MapDocuments | src/helper.js:72 | One model per document, same length, the i-th built from the i-th document. |
| Oresm.Model.constructor | src/oresm.js:7-10 | The new model's state is a blank model after loading the constructor's record. |
| Oresm.Model.SetAttribute | src/helper.js:46-52 | The new state and error are those of the setter transition `Write`. Consistency is kept. |
| Oresm.Model.UpdateEntity | src/helper.js:11-21 | The loop ends in the state and error of `Merge` on the old state. Consistency is kept. |
| Oresm.Model.SetEntity | src/helper.js:23-37 | The new state and error are those of `Load` on the old state. |
| Oresm.Model.Destroy | src/helper.js:85-87 | The model becomes frozen and nothing else changes. |
| Oresm.Model.ClearDirty | src/oresm.js:28-30 | The dirty list becomes empty. On a frozen model it fails and the list stays. |
| Oresm.Model.Store | src/oresm.js:63-70 | The request, state and error are those of `StoreStep` on the old state. |
| Oresm.Model.Update | src/oresm.js:72-81 | The request, state and error are those of `UpdateStep` on the old state. |
| Oresm.Model.Save | src/oresm.js:57-61 | The request, state and error are those of `SaveStep` on the old state. |
| Oresm.Model.Patch | src/oresm.js:83-90 | The request, state and error are those of `PatchStep` on the old state. |
| Oresm.Model.Delete | src/oresm.js:50-55 | The request, state and error are those of `DeleteStep` on the old state. |
| Oresm.Model.Find | src/oresm.js:32-37 | The GET request is the one `FindStep` issues. A model is returned exactly when no error occurs. The returned model is fresh and consistent, and its state is the one `FindStep` loads. |
| Oresm.SaveChoosesVerb | src/oresm.js:57-61 | `save` POSTs exactly when the key is falsy after the merge, sending the merged entity to the collection endpoint. Otherwise it PUTs the merged entity to the keyed endpoint. A destroyed model with a key is refused, with "action not allowed", before any request. |
| Oresm.SaveKeyInDataRoutesToPut | src/oresm.js:57-61 | A keyless model saved with data holding a truthy key PUTs to the endpoint of that key. |
| Oresm.StoreLoadsReply | src/oresm.js:63-70 | After a successful POST the entity has exactly the reply's attributes and values, or is null for a null reply. The dirty list is empty. |
| Oresm.UpdateGuards | src/oresm.js:72-77 | `_update` issues its request exactly when the model is not destroyed and its key is truthy, sending the given body to the keyed endpoint. Otherwise it leaves the model unchanged and fails: with "action not allowed" on a destroyed model, with the missing-key error on a falsy key. |
| Oresm.UpdateMergesReply | src/oresm.js:77-80 | After a PUT or PATCH, the reply's non-key fields are written. The key keeps its value. Other attributes are unchanged. The dirty list is empty. |
| Oresm.PatchParamsExact | src/oresm.js:85-88 | The PATCH body has exactly the dirty names as keys, each mapped to its current value. |
| Oresm.PatchSendsDirty | src/oresm.js:83-90 | On a keyed model, PATCH goes to the keyed endpoint. Its body has exactly the names dirty before the call plus the data's non-key names. Data fields carry their new values. The other names carry their current values. |
| Oresm.PatchWithoutKeyRefused | src/oresm.js:74-76 | `patch` on a model whose key stays falsy after the merge fails with the missing-key error and issues no request. |
| Oresm.DestroyedModelFails | src/helper.js:5-9 | On a destroyed model every lifecycle call fails and the model stays destroyed: `_update` and `delete` with "action not allowed" and no request, `clearDirty` and `setEntity` as frozen. Only `save` may still issue a request: the POST of a keyless model. |
| Oresm.DeleteIsTerminal | src/oresm.js:50-55 | `delete` sends DELETE to the keyed endpoint and freezes the model, changing nothing else. Afterwards `delete` and `_update` fail with "action not allowed" and no request. |
| Oresm.DeleteTargets | src/oresm.js:52-53 | `delete` sends DELETE to the collection endpoint when the key is falsy, and to the collection endpoint extended by the key's text otherwise. |
| Oresm.FindLoadsReply | src/oresm.js:45-48 | `find` GETs the endpoint extended by the id (a falsy id adds nothing), with the parameters as query. The reply becomes the fresh model's entity, and its names become the dirty list, which is not cleared. |
| Oresm.GetEntityCopiesRecord | src/oresm.js:92-94 | The copy of a model built from an object has exactly the object's names and values. Built from nothing, the copy is empty. |
| Scenarios.DefaultUserConfig | src/oresm.js:12-26 | A `User` type with no overrides has host "", prefix "", resource "users" and key "id". |
| Scenarios.CollectionEndpoints | test/helperTest.js:8-46 | The endpoints are "/users", "/api/users" and "http://127.0.0.1/api/users". |
| Scenarios.KeyedEndpoints | test/helperTest.js:48-68 | The keyed endpoint is "/users/1" for key `id` and for key `user_id`. |
| Scenarios.ConstructorMarksLoadedDirty | test/helperTest.js:209-218 | A model built from `{id: 1, username: '111'}` has dirty list `['id', 'username']`. |
| Scenarios.ConstructedEntityCopy | test/oresmTest.js:77-86 | The entity copy of the model built from `{id: 1}` equals that object. |
| Scenarios.NewnessOfLoadedModels | test/helperTest.js:90-108 | A model with an id is not new. One without an id is. |
| Scenarios.SetterScenarios | test/helperTest.js:142-179 | Changing a set key fails with "cannot update key". Assigning `username` writes the entity. |
| Scenarios.UnknownNameNotAdded | test/oresmTest.js:88-98 | Assigning a name the model has no attribute for leaves the entity (where it stays undefined) and the dirty list untouched. |
| Scenarios.MergeAddsAttribute | test/helperTest.js:188-207 | Merging `{lastname}` adds the attribute and keeps `id` and `username`. |
| Scenarios.CollectScenarios | test/helperTest.js:132-186 | A string, and undefined (what the bound call in the test actually passes as documents), are refused with "documents is not an array". Two documents give two models. |
| Scenarios.SaveVerbs | test/oresmTest.js:37-60 | `save` without an id POSTs; with an id it PUTs. |
| Scenarios.PatchWithoutKeyFails | test/oresmTest.js:121-131 | `patch()` on a keyless model fails with the missing-key error before any request. |
| Scenarios.PatchDirtyFields | test/oresmTest.js:100-119 | The model is saved (the server assigns id 1) and then patched with `{type: 1}`. The PATCH goes to "/users/1" with body `{type: 1}`. |

## Left out

- HTTP transport (`fetch-me-json`) and `configureFetch` (src/oresm.js:97-99) are foreign I/O. Each call is a returned `Request`, and the response is a `Reply` parameter.
- Promises and suspension: each operation is one atomic step. Interleavings of concurrent calls on one model are not modelled.
- `Model.get` (src/oresm.js:39-43) and `Collection`: `src/collection.js` is not part of this model. `get` passes an instance where `collect` expects a constructor, which fails at run time. `collect` is modelled with the constructor as a function parameter.
- The `pluralize` library and class-name introspection: the pluralizer is a function parameter, and the type name is a string.
- Lower-casing covers ASCII letters only.
- JavaScript reflection is replaced by explicit fields:
  - an accessor set and a frozen flag;
  - property descriptors and enumerability are not modelled;
  - neither are attribute names that collide with the model's own members (`key`, `save`, `_entity`, …).
- A write to a name without an accessor creates a plain own property in JavaScript. The model treats it as a no-op, since it touches neither the entity nor the dirty list. That property is still visible to `_update`'s key check, which reads `this[this.key]` (src/oresm.js:74), and the model does not capture this. After `u = new User({name: 'x'}); u.id = 5; u.patch()`, JavaScript passes the check and sends PATCH to the collection endpoint, because `constructEndpointWithKey` reads the key through the entity only. The model instead fails with the missing-key error and sends no request.
- Aliasing is not modelled: model values are immutable.
  - The constructor and `setEntity` keep a reference to the caller's object.
  - `getEntity` copies only one level deep.
- Numbers are integers. Floating point, NaN and `String()` of fractions are not modelled.
- `Object.keys` lists integer-like names first. Records keep their given field order, and Distinct field names are assumed wherever a lemma relates a record to its mapping.
- Helper.Collect: requires every document of an array to be an object, null or undefined. What the constructor makes of a string or number document is not modelled.

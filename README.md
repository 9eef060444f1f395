# immutable-mapbox-gl-style-spec: the defaults and the record factories

`index.js` turns the Mapbox GL style reference into default values for
Immutable records. This project models that core and proves properties of it.

- **`getDefaults(object)`** reduces the keys of a descriptor group into an
  object holding each descriptor's `default`, with `undefined` where a
  descriptor declares none.
- **`LayerShape`** sets every generic layer field to `undefined`.
- **`LayerDefaultsByType`** has one entry per layer type. Each entry is a copy
  of `LayerShape` whose `layout` and `paint` come from `getDefaults` applied to
  the `layout_<type>` and `paint_<type>` groups.
- **`makeXLayer`** are the seven factories built from those entries:
  `Record(background)`, `Record(circle)` and so on.
- **`makeLayer`** dispatches on `layer.type`.
- **`StyleDefaults`** and **`makeStyle`** are the style document's defaults and
  its factory.

The model has five files:

- `js_objects.dfy` (module `JsObjects`): JavaScript values, and plain objects
  with their key order (`Obj`). It also holds `Put`, the copy-and-set step
  (`Object.assign({}, acc, {[k]: v})`, which gives the same result as
  `acc[k] = v`). Two generic reduces are built from `Put`:
  - `AssignEach`, whose steps cannot fail;
  - `StoreEach`, whose entries may throw, and where the first error ends the
    reduce.
- `style_reference.dfy` (module `StyleReference`): the parts of the style
  reference that are read.
  - A `layer` object.
  - A `typeValues` object, which is `styleSpec.layer.type.values`.
  - The descriptor groups, by name.

  The reference is external data, so it is a parameter throughout.
- `defaults.dfy` (module `Defaults`): `getDefaults`, `LayerShape` and
  `LayerDefaultsByType`.
  - The first two are functions.
  - `LayerDefaultsByType` is the function `LayerDefaultsByType`, plus two
    methods: `BuildTypeDefaults` runs the reducer body statement by statement,
    and `BuildLayerDefaultsByType` is the loop over the type names. Both
    methods are proved equal to the functions.
- `factories.dfy` (module `Factories`): the destructuring, the seven factories
  and `makeLayer`.
- `style.dfy` (module `Style`): `StyleDefaults` and `makeStyle`.

Reading a descriptor group the reference does not have gives `undefined`, and
`Object.keys(undefined)` throws a TypeError. The model keeps that error path:
`TypeDefaults` and `LayerDefaultsByType` return `Err(NotAnObject(group))`,
where `group` is a tag of the model recording which read threw. It does not
require every group to be present.

## Model

Functions such as `Put`, `GetDefaults`, `LayerShape`, `TypeDefaults`,
`LayerDefaultsByType`, `Bind`, `StyleDefaults` and `MakeStyle` carry no
contract of their own. Each is specified by the lemma rows below that are
stated about it.

| member | source | states |
|---|---|---|
| JsObjects.PutContents | index.js:10 | The copy holds every earlier key with its old value, keeps each key in its place and sets `k` to `v`. A key that is new is appended last. A well-formed object stays well formed. |
| JsObjects.AssignEachContents | index.js:9-11 | Over distinct keys, the reduce lists exactly the keys, in order and once each. Each key holds its computed value. |
| JsObjects.AssignEachStep | index.js:10 | Each step keeps the earlier keys, their values and their order. It adds only the current key, which was not there before. |
| JsObjects.StoreEachSucceeds | index.js:19-30 | The reduce succeeds exactly when no entry throws. |
| JsObjects.StoreEachKeys | index.js:19-30 | A successful reduce over distinct names lists those names, in order and once each. |
| JsObjects.StoreEachValues | index.js:26 | After a successful reduce, every stored name holds its own entry. |
| JsObjects.StoreEachFails | index.js:19-30 | A failing reduce throws the error of the first name whose entry throws. Every earlier entry succeeded. |
| JsObjects.FailureIsFinal | index.js:19-30 | Once an entry has thrown, later names do not change the outcome. |
| Defaults.GetDefaultsContents | index.js:8-12 | The result has exactly the keys of the group, in the group's order. Each key holds its descriptor's `default`. |
| Defaults.GetDefaultsStep | index.js:10 | Each step keeps the earlier keys and values. It appends only the current key, holding that descriptor's default. |
| Defaults.MissingDefaultKeepsKey | index.js:10 | A descriptor without a `default` still contributes its key, holding `undefined`. |
| Defaults.LayerShapeContents | index.js:14-17 | `LayerShape` lists exactly the generic layer fields, in reference order, each holding `undefined`. |
| Defaults.AssignLayoutPaint | index.js:21-24 | Assigning `layout` and then `paint` on a copy of the shape changes only those two fields. The keys are the shape's keys in their order, followed by whichever of `layout` and `paint` are new. A well-formed shape gives a well-formed result. |
| Defaults.TypeDefaultsResult | index.js:21-27 | The reducer succeeds for a type exactly when both of its groups exist, and then stores the type's default shape. Otherwise it throws on the first missing group, layout before paint. |
| Defaults.LayerDefaultsKeys | index.js:14-24 | A type's default shape is well formed. Its keys are the generic layer fields in reference order, then `layout` and `paint` if they are not among them. |
| Defaults.LayerDefaultsOtherFieldsUndefined | index.js:21-24 | In a type's default shape, every field except `layout` and `paint` is a generic layer field holding `undefined`. |
| Defaults.LayerDefaultsSections | index.js:23-24 | `layout` and `paint` are well-formed objects with exactly the keys of the type's two groups, in the groups' order, each holding its descriptor's default. |
| Defaults.LayerDefaultsByTypeSucceeds | index.js:19-30 | `LayerDefaultsByType` succeeds exactly when every type name has both groups. |
| Defaults.LayerDefaultsByTypeContents | index.js:19-30 | On success there is one entry per type name, in reference order, and each entry is that type's default shape. |
| Defaults.LayerDefaultsByTypeFails | index.js:19-30 | On failure the error is tagged with the first missing group of the first type that lacks one. Every earlier type has both groups. |
| Defaults.BuildTypeDefaults | index.js:21-27 | The reducer body, run statement by statement, gives the same entry or error as `TypeDefaults`. |
| Defaults.BuildLayerDefaultsByType | index.js:19-30 | The loop over the type names gives the same result as `LayerDefaultsByType`. |
| Factories.BindFactories | index.js:32-61 | Exactly the seven destructured type names get a factory. Each factory's defaults are the entry under that name, or `undefined` when the entry is absent. |
| Factories.MakeLayer | index.js:72-88 | The result is a record exactly when `layer.type` is one of the six case labels. The record comes from that type's factory, with the layer as its argument. Any other type throws `Unknown type`, carrying the type it was given. |
| Factories.CircleIsUnknown | index.js:72-88 | A `circle` layer is rejected, although a circle factory exists. |
| Factories.MakeLayerIntended | index.js:63-88 | Dispatch over all seven types of the `Layer` union, `circle` included. Otherwise it behaves as `makeLayer`. |
| Factories.IntendedDiffersOnlyOnCircle | index.js:72-88 | The corrected dispatch differs from the written one exactly on `circle` layers. |
| Factories.MakeLayerUsesTypeDefaults | index.js:19-88 | For the corrected dispatch, the factory a layer is dispatched to has that type's default shape as its defaults. The defaults are `undefined` when the reference does not list the type. |
| Factories.MakeLayerAsWrittenUsesTypeDefaults | index.js:19-88 | The same holds for `makeLayer` as written: a record it builds comes from a factory whose defaults are the layer type's default shape, or `undefined` when the reference does not list the type. |
| Style.StyleKeysAreFields | index.js:91-121 | The literal's keys are the fields of the style type, each listed once. |
| Style.StyleDefaultsFields | index.js:91-121 | `StyleDefaults` is a well-formed object whose keys are exactly the style document's fields. |
| Style.StyleRequiredDefaults | index.js:91-121 | The required fields hold values of their declared kind: `version` is 8, `sources` is an empty object and `layers` is an empty array. |
| Style.StyleOptionalDefaults | index.js:107-121 | `bearing` and `pitch` are 0, and every other optional field is `undefined`. |
| Style.MakeStyleDefaults | index.js:124 | `makeStyle`'s defaults are an object over exactly the style document's fields. |

## Left out

- Immutable's `Record` is not modelled. A factory is known only by the defaults
  it was built from, and a record only by its factory and its argument. Nothing
  is claimed about field reads, unknown keys, `toJS` or structural equality.
- Factories.MakeLayer: a factory made from an absent entry, `Record(undefined)`
  (index.js:32-61), is modelled as building records like any other factory.
  Immutable's behaviour for defaults that are not an object is not modelled, so
  the "a record exactly when" part of `MakeLayer` and the `undefined` branch of
  `MakeLayerUsesTypeDefaults` and `MakeLayerAsWrittenUsesTypeDefaults` rest on
  that assumption.
- The contents of the style reference are a parameter. So are the type names
  and the fact that each group exists. The modules that load it, and
  `webpack.config.js`, are not part of this model.
- The Flow type annotations and the `RecordOf`/`RecordFactory` aliases have no
  runtime effect, so they are not modelled. The one exception is the field list
  of `StyleSpecification`, which `Style.StyleFields` uses as the reference for
  the style defaults.
- `Object.keys` lists integer-like keys first, in ascending order. The model
  keeps pure insertion order, because no key of the style reference is
  integer-like.
- A descriptor that is `null` or `undefined` is not modelled; in the code,
  reading `.default` on one throws. Descriptors are always records here.
- A descriptor group whose value is some other non-object is not modelled.
  Only present and absent groups are.
- The error message text of `makeLayer` is not modelled. `Unknown type ${layer.type}` becomes
  `UnknownType(type)`, which carries the value the message is built from.
- A `layer` argument that is not an object is not modelled. For `null` or
  `undefined`, reading `.type` throws a TypeError before the switch is reached.
  A primitive such as a number gives `undefined` for `.type` and reaches the
  default case (index.js:86-87). The model takes `layer` as an object, so
  neither kind is represented.
- A type whose layout or paint group is missing makes the reducer throw a
  TypeError (index.js:23-24). The model follows the code.
- Defaults.LayerDefaultsByTypeFails: the TypeError that `Object.keys(undefined)`
  throws does not carry the group's name. `NotAnObject(section)` tags the error
  with the read that threw, so the model's error says more than the real one.

## Findings

| source | as written | input that shows it | evidently intended | confidence | as-written member | corrected member |
|---|---|---|---|---|---|---|
| index.js:72-88 | `makeLayer` has cases for six layer types and throws for any other, `circle` included. | a layer whose `type` is `"circle"` | `circle` layers go to `makeCircleLayer` (index.js:45-46), as the `Layer` union (index.js:63-70) and the seven destructured types imply | medium, not executed | Factories.CircleIsUnknown | Factories.MakeLayerIntended |

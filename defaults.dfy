/**
 * The defaults derived from the style reference: `getDefaults`, the generic
 * layer shape `LayerShape` and the per-type table `LayerDefaultsByType`
 * (index.js, lines 8-30).
 */
module Defaults {
  import opened JsObjects
  import opened StyleReference

  /**
   * The TypeError `Object.keys(undefined)` throws when the reducer reads a
   * descriptor group the reference lacks.  The real error's message names no
   * group; `section` is a tag of this model recording which read threw.
   */
  datatype LoadError = NotAnObject(section: string)

  // ---------------------------------------------------------------- getDefaults

  /** `d[k].default`: the default a descriptor declares, `undefined` when it declares none. */
  function DefaultOf(d: Obj<Descriptor>, k: string): Value
  {
    if k in d.at then d.at[k].defaultValue else Undefined
  }

  /**
   * `getDefaults(d)`: reduce the keys of `d`, each step copying the
   * accumulator and adding the key with its descriptor's default.
   */
  function GetDefaults(d: Obj<Descriptor>): Obj<Value>
  {
    AssignEach(d.keys, k => DefaultOf(d, k), |d.keys|)
  }

  /**
   * `getDefaults(d)` has exactly the keys of `d`, in the same order, each
   * holding its descriptor's default (`undefined` when there is none).
   */
  lemma GetDefaultsContents(d: Obj<Descriptor>)
    requires d.WellFormed()
    ensures GetDefaults(d).WellFormed()
    ensures GetDefaults(d).keys == d.keys
    ensures GetDefaults(d).at.Keys == d.at.Keys
    ensures forall k | k in d.at :: GetDefaults(d).at[k] == d.at[k].defaultValue
  {
    AssignEachContents(d.keys, k => DefaultOf(d, k), |d.keys|);
    assert d.keys[..|d.keys|] == d.keys;
  }

  /**
   * Step `n` of the `getDefaults` reduce keeps every earlier key, its value
   * and its place, and adds only the `n`-th key of `d`, which was not there
   * yet, holding its descriptor's default.
   */
  lemma GetDefaultsStep(d: Obj<Descriptor>, n: nat)
    requires d.WellFormed() && 0 < n <= |d.keys|
    ensures d.keys[n - 1] in d.at
    ensures d.keys[n - 1] !in AssignEach(d.keys, k => DefaultOf(d, k), n - 1).at
    ensures AssignEach(d.keys, k => DefaultOf(d, k), n).keys
         == AssignEach(d.keys, k => DefaultOf(d, k), n - 1).keys + [d.keys[n - 1]]
    ensures AssignEach(d.keys, k => DefaultOf(d, k), n).at
         == AssignEach(d.keys, k => DefaultOf(d, k), n - 1).at[d.keys[n - 1] := d.at[d.keys[n - 1]].defaultValue]
  {
    AssignEachStep(d.keys, k => DefaultOf(d, k), n);
    KeySetListed(d.keys, d.keys[n - 1]);
  }

  /** A descriptor without a default still contributes its key, holding `undefined`. */
  lemma MissingDefaultKeepsKey(d: Obj<Descriptor>, k: string)
    requires d.WellFormed()
    requires k in d.at && d.at[k].defaultValue == Undefined
    ensures k in GetDefaults(d).at && GetDefaults(d).at[k] == Undefined
  {
    GetDefaultsContents(d);
  }

  // ---------------------------------------------------------------- LayerShape

  /** `LayerShape`: reduce the generic layer fields, each step adding the field set to `undefined`. */
  function LayerShape(ref: Reference): Obj<Value>
  {
    AssignEach(ref.layer.keys, k => Undefined, |ref.layer.keys|)
  }

  /** `LayerShape` lists every generic layer field, in reference order, each holding `undefined`. */
  lemma LayerShapeContents(ref: Reference)
    requires ref.layer.WellFormed()
    ensures LayerShape(ref).WellFormed()
    ensures LayerShape(ref).keys == ref.layer.keys
    ensures LayerShape(ref).at.Keys == ref.layer.at.Keys
    ensures forall k | k in LayerShape(ref).at :: LayerShape(ref).at[k] == Undefined
  {
    AssignEachContents(ref.layer.keys, k => Undefined, |ref.layer.keys|);
    assert ref.layer.keys[..|ref.layer.keys|] == ref.layer.keys;
  }

  // ---------------------------------------------------------------- LayerDefaultsByType

  /**
   * The keys that assigning `layout` and then `paint` appends to `shape`:
   * whichever of the two it lacks, in that order.
   */
  function AddedKeys(shape: Obj<Value>): seq<string>
  {
    (if "layout" in shape.at then [] else ["layout"]) + (if "paint" in shape.at then [] else ["paint"])
  }

  /**
   * `e` is `shape` with `layout` set to `layoutValue` and `paint` to
   * `paintValue`: the same fields plus those two, `Object.keys(e)` being the
   * shape's keys followed by whichever of the two the shape lacks, a
   * well-formed object when the shape is one, and every other field as in
   * the shape.
   */
  predicate Overrides(shape: Obj<Value>, e: Obj<Value>, layoutValue: Value, paintValue: Value)
  {
    && e.at.Keys == shape.at.Keys + {"layout", "paint"}
    && e.keys == shape.keys + AddedKeys(shape)
    && (shape.WellFormed() ==> e.WellFormed())
    && e.at["layout"] == layoutValue
    && e.at["paint"] == paintValue
    && forall f | f in e.at && f != "layout" && f != "paint" :: e.at[f] == shape.at[f]
  }

  /**
   * Assigning `layout` and then `paint` on a copy of a shape overrides just
   * those two fields, appends only the ones the shape lacks, and keeps the
   * copy a well-formed object when the shape is one.
   */
  lemma AssignLayoutPaint(shape: Obj<Value>, layoutValue: Value, paintValue: Value)
    ensures Overrides(shape, Put(Put(shape, "layout", layoutValue), "paint", paintValue), layoutValue, paintValue)
  {
    var withLayout := Put(shape, "layout", layoutValue);
    PutContents(shape, "layout", layoutValue);
    PutContents(withLayout, "paint", paintValue);
    assert "layout" != "paint";
    assert ("paint" in withLayout.at) == ("paint" in shape.at);
  }

  /** `getDefaults(styleSpec[name])` for a descriptor group the reference has, as a value. */
  function SectionDefaults(ref: Reference, name: string): Value
    requires name in ref.sections
  {
    Object(GetDefaults(ref.sections[name]))
  }

  /**
   * `e` is the default shape of layer type `t`: `LayerShape` with `layout`
   * and `paint` holding the defaults of the type's two descriptor groups.
   */
  predicate IsLayerDefaults(ref: Reference, t: string, e: Obj<Value>)
  {
    && HasSections(ref, t)
    && Overrides(LayerShape(ref), e, SectionDefaults(ref, LayoutSection(t)), SectionDefaults(ref, PaintSection(t)))
  }

  /**
   * In a type's default shape every field but `layout` and `paint` is a
   * generic layer field holding `undefined`, as in `LayerShape`.
   */
  lemma LayerDefaultsOtherFieldsUndefined(ref: Reference, t: string, e: Obj<Value>, f: string)
    requires ref.layer.WellFormed()
    requires IsLayerDefaults(ref, t, e)
    requires f in e.at && f != "layout" && f != "paint"
    ensures f in ref.layer.at && e.at[f] == Undefined
  {
    LayerShapeContents(ref);
  }

  /**
   * A type's default shape is a well-formed object whose `Object.keys` are the
   * generic layer fields in reference order, followed by whichever of
   * `layout` and `paint` the reference does not list as generic fields.
   */
  lemma LayerDefaultsKeys(ref: Reference, t: string, e: Obj<Value>)
    requires ref.layer.WellFormed()
    requires IsLayerDefaults(ref, t, e)
    ensures e.WellFormed()
    ensures e.keys == ref.layer.keys
      + (if "layout" in ref.layer.at then [] else ["layout"])
      + (if "paint" in ref.layer.at then [] else ["paint"])
  {
    LayerShapeContents(ref);
  }

  /**
   * The `layout` and `paint` of a type's default shape list exactly the
   * properties of its two descriptor groups, each holding its default.
   */
  lemma LayerDefaultsSections(ref: Reference, t: string, e: Obj<Value>)
    requires ref.WellFormed()
    requires IsLayerDefaults(ref, t, e)
    ensures e.at["layout"].Object? && e.at["paint"].Object?
    ensures e.at["layout"].obj.keys == ref.sections[LayoutSection(t)].keys
    ensures e.at["paint"].obj.keys == ref.sections[PaintSection(t)].keys
    ensures e.at["layout"].obj.WellFormed() && e.at["paint"].obj.WellFormed()
    ensures e.at["layout"].obj.at.Keys == ref.sections[LayoutSection(t)].at.Keys
    ensures e.at["paint"].obj.at.Keys == ref.sections[PaintSection(t)].at.Keys
    ensures forall k | k in ref.sections[LayoutSection(t)].at ::
      k in e.at["layout"].obj.at && e.at["layout"].obj.at[k] == ref.sections[LayoutSection(t)].at[k].defaultValue
    ensures forall k | k in ref.sections[PaintSection(t)].at ::
      k in e.at["paint"].obj.at && e.at["paint"].obj.at[k] == ref.sections[PaintSection(t)].at[k].defaultValue
  {
    GetDefaultsContents(ref.sections[LayoutSection(t)]);
    GetDefaultsContents(ref.sections[PaintSection(t)]);
  }

  /**
   * What one call of the `LayerDefaultsByType` reducer stores for type `t`:
   * a copy of `LayerShape` whose `layout`, then `paint`, is replaced by the
   * defaults of the type's descriptor group; reading a group the reference
   * lacks throws.
   */
  function TypeDefaults(ref: Reference, t: string): Result<Value, LoadError>
  {
    if LayoutSection(t) !in ref.sections then Err(NotAnObject(LayoutSection(t)))
    else if PaintSection(t) !in ref.sections then Err(NotAnObject(PaintSection(t)))
    else
      var layoutValue := SectionDefaults(ref, LayoutSection(t));
      var paintValue := SectionDefaults(ref, PaintSection(t));
      Ok(Object(Put(Put(LayerShape(ref), "layout", layoutValue), "paint", paintValue)))
  }

  /**
   * The reducer succeeds for `t` exactly when the reference has both of its
   * descriptor groups, and then stores the type's default shape; otherwise
   * it throws on the first missing group, layout before paint.
   */
  lemma TypeDefaultsResult(ref: Reference, t: string)
    ensures TypeDefaults(ref, t).Ok? <==> HasSections(ref, t)
    ensures TypeDefaults(ref, t).Err? ==> TypeDefaults(ref, t).error == NotAnObject(FirstMissingSection(ref, t))
    ensures TypeDefaults(ref, t).Ok? ==>
      TypeDefaults(ref, t).value.Object? && IsLayerDefaults(ref, t, TypeDefaults(ref, t).value.obj)
  {
    if HasSections(ref, t) {
      AssignLayoutPaint(LayerShape(ref), SectionDefaults(ref, LayoutSection(t)), SectionDefaults(ref, PaintSection(t)));
    }
  }

  /** The `LayerDefaultsByType` reducer, as the entry it computes for each type name. */
  function Reducer(ref: Reference): string -> Result<Value, LoadError>
  {
    t => TypeDefaults(ref, t)
  }

  /** Every entry of `acc` is the default shape of the type it is stored under. */
  predicate EntriesAreDefaults(ref: Reference, acc: Obj<Value>)
  {
    forall t | t in acc.at :: acc.at[t].Object? && IsLayerDefaults(ref, t, acc.at[t].obj)
  }

  /** `LayerDefaultsByType`: the reduce of `Reducer(ref)` over the layer type names. */
  function LayerDefaultsByType(ref: Reference): Result<Obj<Value>, LoadError>
  {
    StoreEach(ref.typeValues.keys, Reducer(ref), |ref.typeValues.keys|)
  }

  /** `LayerDefaultsByType` succeeds exactly when every layer type has both descriptor groups. */
  lemma LayerDefaultsByTypeSucceeds(ref: Reference)
    ensures LayerDefaultsByType(ref).Ok? <==> forall t | t in ref.typeValues.keys :: HasSections(ref, t)
  {
    var types := ref.typeValues.keys;
    StoreEachSucceeds(types, Reducer(ref), |types|);
    forall i | 0 <= i < |types| {
      TypeDefaultsResult(ref, types[i]);
    }
    assert (forall t | t in types :: HasSections(ref, t))
       <==> (forall i | 0 <= i < |types| :: Reducer(ref)(types[i]).Ok?);
  }

  /**
   * When it succeeds, `LayerDefaultsByType` has one entry per layer type
   * name, in reference order, each the type's default shape.
   */
  lemma LayerDefaultsByTypeContents(ref: Reference)
    requires ref.typeValues.WellFormed()
    requires LayerDefaultsByType(ref).Ok?
    ensures LayerDefaultsByType(ref).value.WellFormed()
    ensures LayerDefaultsByType(ref).value.keys == ref.typeValues.keys
    ensures LayerDefaultsByType(ref).value.at.Keys == ref.typeValues.at.Keys
    ensures EntriesAreDefaults(ref, LayerDefaultsByType(ref).value)
  {
    var types := ref.typeValues.keys;
    StoreEachKeys(types, Reducer(ref), |types|);
    StoreEachValues(types, Reducer(ref), |types|);
    assert types[..|types|] == types;
    forall t {
      TypeDefaultsResult(ref, t);
    }
  }

  /**
   * When `LayerDefaultsByType` throws, it names the first missing group of
   * the first type name (in reference order) that lacks one; every earlier
   * type has both.
   */
  lemma LayerDefaultsByTypeFails(ref: Reference)
    requires LayerDefaultsByType(ref).Err?
    ensures exists i | 0 <= i < |ref.typeValues.keys| ::
      && (forall j | 0 <= j < i :: HasSections(ref, ref.typeValues.keys[j]))
      && !HasSections(ref, ref.typeValues.keys[i])
      && LayerDefaultsByType(ref).error == NotAnObject(FirstMissingSection(ref, ref.typeValues.keys[i]))
  {
    StoreEachFails(ref.typeValues.keys, Reducer(ref), |ref.typeValues.keys|);
    forall t {
      TypeDefaultsResult(ref, t);
    }
  }

  /**
   * The reducer body of index.js:21-27 as the statements it is: copy
   * `LayerShape` into a local layer, assign its `layout` and then its
   * `paint`, each from the defaults of a descriptor group; a missing group
   * throws on the spot, before anything later is read.
   */
  method BuildTypeDefaults(ref: Reference, shape: Obj<Value>, t: string) returns (r: Result<Value, LoadError>)
    requires shape == LayerShape(ref)
    ensures r == TypeDefaults(ref, t)
  {
    var layer := shape;
    if LayoutSection(t) !in ref.sections {
      return Err(NotAnObject(LayoutSection(t)));
    }
    layer := Put(layer, "layout", SectionDefaults(ref, LayoutSection(t)));
    if PaintSection(t) !in ref.sections {
      return Err(NotAnObject(PaintSection(t)));
    }
    layer := Put(layer, "paint", SectionDefaults(ref, PaintSection(t)));
    r := Ok(Object(layer));
  }

  /**
   * The reduce of index.js:19-30 as the loop it is: for each layer type, in
   * reference order, compute the type's entry and store it into the
   * accumulator; the first error ends the loop.  `LayerShape` is computed
   * once and never changed by the copies taken of it.
   */
  method BuildLayerDefaultsByType(ref: Reference) returns (r: Result<Obj<Value>, LoadError>)
    ensures r == LayerDefaultsByType(ref)
  {
    var types := ref.typeValues.keys;
    var R := Reducer(ref);
    var shape := LayerShape(ref);
    r := Ok(EmptyObject());
    var i := 0;
    while i < |types| && r.Ok?
      invariant 0 <= i <= |types|
      invariant r == StoreEach(types, R, i)
    {
      var t := types[i];
      var entry := BuildTypeDefaults(ref, shape, t);
      StoreEachNext(types, R, i);
      if entry.Err? {
        r := Err(entry.error);
      } else {
        r := Ok(Put(r.value, t, entry.value));
      }
      i := i + 1;
    }
    if r.Err? {
      FailureIsFinal(types, R, i, |types|);
    }
  }
}

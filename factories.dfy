/**
 * The Immutable record factories built from the per-type defaults and
 * `makeLayer`, which picks one of them by the layer's `type`
 * (index.js, lines 32-88).
 */
module Factories {
  import opened JsObjects
  import opened StyleReference
  import opened Defaults

  /**
   * `Record(defaults)` from Immutable: a record factory, known here only by
   * the defaults it was made from.
   */
  datatype RecordFactory = RecordFactory(defaults: Value)

  /**
   * What calling a record factory on an argument returns.  The record's own
   * behaviour (which fields it keeps, what reading one gives) belongs to
   * Immutable and is not modelled.
   */
  datatype Record = Built(factory: RecordFactory, argument: Value)

  /**
   * The seven factories index.js exports, one per layer type that the
   * destructuring of `LayerDefaultsByType` names.
   */
  datatype Registry = Registry(
    background: RecordFactory,
    circle: RecordFactory,
    fill: RecordFactory,
    fillExtrusion: RecordFactory,
    line: RecordFactory,
    raster: RecordFactory,
    symbol: RecordFactory)

  /** The layer type names the destructuring reads, in its order. */
  function BoundTypes(): seq<string>
  {
    ["background", "circle", "fill", "fill-extrusion", "line", "raster", "symbol"]
  }

  /** The layer type names the `switch` of `makeLayer` has a case for, in its order. */
  function DispatchedTypes(): seq<string>
  {
    ["background", "fill", "fill-extrusion", "line", "raster", "symbol"]
  }

  /**
   * Destructure `byType` (absent entries read as `undefined`) and wrap each
   * entry in `Record`; `fill-extrusion` is bound to the name `fillExtrusion`.
   */
  function Bind(byType: Obj<Value>): Registry
  {
    Registry(
      RecordFactory(Prop(byType, "background")),
      RecordFactory(Prop(byType, "circle")),
      RecordFactory(Prop(byType, "fill")),
      RecordFactory(Prop(byType, "fill-extrusion")),
      RecordFactory(Prop(byType, "line")),
      RecordFactory(Prop(byType, "raster")),
      RecordFactory(Prop(byType, "symbol")))
  }

  /** The exported factory for layer type `name`, if index.js exports one. */
  function FactoryOf(reg: Registry, name: string): Option<RecordFactory>
  {
    if name == "background" then Some(reg.background)
    else if name == "circle" then Some(reg.circle)
    else if name == "fill" then Some(reg.fill)
    else if name == "fill-extrusion" then Some(reg.fillExtrusion)
    else if name == "line" then Some(reg.line)
    else if name == "raster" then Some(reg.raster)
    else if name == "symbol" then Some(reg.symbol)
    else None
  }

  /**
   * Every destructured type gets a factory, and that factory's defaults are
   * exactly what `byType` holds under the type's name; no other name gets one.
   */
  lemma BindFactories(byType: Obj<Value>, name: string)
    ensures FactoryOf(Bind(byType), name).Some? <==> name in BoundTypes()
    ensures name in BoundTypes() ==> FactoryOf(Bind(byType), name) == Some(RecordFactory(Prop(byType, name)))
  {
  }

  /** The error `makeLayer` throws, carrying the `type` it could not dispatch. */
  datatype LayerError = UnknownType(typeValue: Value)

  /**
   * `makeLayer(layer)`: compare `layer.type` strictly with each case label
   * in turn, call the matching factory on the layer, or throw.
   */
  function MakeLayer(reg: Registry, layer: Obj<Value>): (r: Result<Record, LayerError>)
    ensures r.Ok? <==> Prop(layer, "type").Str? && Prop(layer, "type").s in DispatchedTypes()
    ensures r.Ok? ==>
      && Some(r.value.factory) == FactoryOf(reg, Prop(layer, "type").s)
      && r.value.argument == Object(layer)
    ensures r.Err? ==> r.error == UnknownType(Prop(layer, "type"))
  {
    var ty := Prop(layer, "type");
    if ty == Str("background") then Ok(Built(reg.background, Object(layer)))
    else if ty == Str("fill") then Ok(Built(reg.fill, Object(layer)))
    else if ty == Str("fill-extrusion") then Ok(Built(reg.fillExtrusion, Object(layer)))
    else if ty == Str("line") then Ok(Built(reg.line, Object(layer)))
    else if ty == Str("raster") then Ok(Built(reg.raster, Object(layer)))
    else if ty == Str("symbol") then Ok(Built(reg.symbol, Object(layer)))
    else Err(UnknownType(ty))
  }

  /**
   * As written, a circle layer is rejected although a circle factory is
   * built and exported.
   */
  lemma CircleIsUnknown(reg: Registry, layer: Obj<Value>)
    requires Prop(layer, "type") == Str("circle")
    ensures FactoryOf(reg, "circle") == Some(reg.circle)
    ensures MakeLayer(reg, layer) == Err(UnknownType(Str("circle")))
  {
  }

  /** `makeLayer` with the `circle` case its layer union and factories call for. */
  function MakeLayerIntended(reg: Registry, layer: Obj<Value>): (r: Result<Record, LayerError>)
    ensures r.Ok? <==> Prop(layer, "type").Str? && Prop(layer, "type").s in BoundTypes()
    ensures r.Ok? ==>
      && Some(r.value.factory) == FactoryOf(reg, Prop(layer, "type").s)
      && r.value.argument == Object(layer)
    ensures r.Err? ==> r.error == UnknownType(Prop(layer, "type"))
  {
    if Prop(layer, "type") == Str("circle") then Ok(Built(reg.circle, Object(layer)))
    else MakeLayer(reg, layer)
  }

  /** The corrected dispatch differs from the written one on circle layers only. */
  lemma IntendedDiffersOnlyOnCircle(reg: Registry, layer: Obj<Value>)
    ensures MakeLayerIntended(reg, layer) != MakeLayer(reg, layer) <==> Prop(layer, "type") == Str("circle")
  {
  }

  /**
   * End to end, for the corrected dispatch: over a reference whose type table
   * is well formed and whose `LayerDefaultsByType` succeeds, the record built
   * for a layer of type `t` comes from a factory whose defaults are the
   * default shape of `t` when the reference lists `t`, and `undefined` when
   * it does not.
   */
  lemma MakeLayerUsesTypeDefaults(ref: Reference, layer: Obj<Value>)
    requires ref.typeValues.WellFormed()
    requires LayerDefaultsByType(ref).Ok?
    requires MakeLayerIntended(Bind(LayerDefaultsByType(ref).value), layer).Ok?
    ensures Prop(layer, "type").Str?
    ensures var t := Prop(layer, "type").s;
            var defaults := MakeLayerIntended(Bind(LayerDefaultsByType(ref).value), layer).value.factory.defaults;
            if t in ref.typeValues.at then defaults.Object? && IsLayerDefaults(ref, t, defaults.obj)
            else defaults == Undefined
  {
    var byType := LayerDefaultsByType(ref).value;
    LayerDefaultsByTypeContents(ref);
    BindFactories(byType, Prop(layer, "type").s);
  }

  /** The same end-to-end property for `makeLayer` as written. */
  lemma MakeLayerAsWrittenUsesTypeDefaults(ref: Reference, layer: Obj<Value>)
    requires ref.typeValues.WellFormed()
    requires LayerDefaultsByType(ref).Ok?
    requires MakeLayer(Bind(LayerDefaultsByType(ref).value), layer).Ok?
    ensures Prop(layer, "type").Str?
    ensures var t := Prop(layer, "type").s;
            var defaults := MakeLayer(Bind(LayerDefaultsByType(ref).value), layer).value.factory.defaults;
            if t in ref.typeValues.at then defaults.Object? && IsLayerDefaults(ref, t, defaults.obj)
            else defaults == Undefined
  {
    IntendedDiffersOnlyOnCircle(Bind(LayerDefaultsByType(ref).value), layer);
    MakeLayerUsesTypeDefaults(ref, layer);
  }
}

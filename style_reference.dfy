/**
 * The parts of the mapbox-gl style reference that the defaults are derived
 * from.  The reference itself is external data, so it is a parameter here.
 */
module StyleReference {
  import opened JsObjects

  /**
   * One property's entry in the reference.  Only its `default` is read;
   * `Undefined` when the entry declares none.
   */
  datatype Descriptor = Descriptor(defaultValue: Value)

  /**
   * `layer` is `styleSpec.layer`, whose keys are the generic layer fields;
   * `typeValues` is `styleSpec.layer.type.values`, whose keys are the layer
   * type names (its entries are documentation, and only the keys are read,
   * so they are kept as plain values); `sections` holds the top-level descriptor groups by name
   * (`layout_fill`, `paint_fill`, ...): a name it lacks reads as `undefined`.
   */
  datatype Reference = Reference(
    layer: Obj<Descriptor>,
    typeValues: Obj<Value>,
    sections: map<string, Obj<Descriptor>>)
  {
    /** Every object of the reference lists exactly its keys, each once. */
    predicate WellFormed()
    {
      && layer.WellFormed()
      && typeValues.WellFormed()
      && forall name | name in sections :: sections[name].WellFormed()
    }
  }

  /** The name of the layout descriptor group of layer type `t`. */
  function LayoutSection(t: string): string
  {
    "layout_" + t
  }

  /** The name of the paint descriptor group of layer type `t`. */
  function PaintSection(t: string): string
  {
    "paint_" + t
  }

  /** The reference has both descriptor groups of layer type `t`. */
  predicate HasSections(ref: Reference, t: string)
  {
    LayoutSection(t) in ref.sections && PaintSection(t) in ref.sections
  }

  /** The group whose absence is noticed first for type `t`: layout is read before paint. */
  function FirstMissingSection(ref: Reference, t: string): string
  {
    if LayoutSection(t) !in ref.sections then LayoutSection(t) else PaintSection(t)
  }
}

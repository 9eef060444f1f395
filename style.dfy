/**
 * The style defaults and the style record factory (index.js, lines 91-124).
 */
module Style {
  import opened JsObjects
  import opened Factories

  /** The fields of a style document, as its type lists them (index.js:91-105). */
  function StyleFields(): set<string>
  {
    {"version", "name", "metadata", "center", "zoom", "bearing", "pitch",
     "light", "sources", "sprite", "glyphs", "transition", "layers"}
  }

  /** The fields a style document must have: the others are optional. */
  function RequiredStyleFields(): set<string>
  {
    {"version", "sources", "layers"}
  }

  /** The optional fields that are nevertheless given a default. */
  function DefaultedOptionalFields(): set<string>
  {
    {"bearing", "pitch"}
  }

  /** The keys of the `StyleDefaults` literal, in the order it writes them. */
  function StyleKeys(): seq<string>
  {
    ["version", "name", "metadata", "center", "zoom", "bearing", "pitch",
     "light", "sources", "sprite", "glyphs", "transition", "layers"]
  }

  /** The literal lists each style field exactly once. */
  lemma StyleKeysAreFields()
    ensures Distinct(StyleKeys())
    ensures KeySet(StyleKeys()) == StyleFields()
  {
    assert forall i, j | 0 <= i < j < |StyleKeys()| :: StyleKeys()[i] != StyleKeys()[j];
    DistinctByIndex(StyleKeys());
    forall k
      ensures k in KeySet(StyleKeys()) <==> k in StyleFields()
    {
      KeySetListed(StyleKeys(), k);
    }
  }

  /** `StyleDefaults`: the object literal of index.js:107-121, in its key order. */
  function StyleDefaults(): Obj<Value>
  {
    Obj(
      StyleKeys(),
      map[
        "version" := Num(8.0),
        "name" := Undefined,
        "metadata" := Undefined,
        "center" := Undefined,
        "zoom" := Undefined,
        "bearing" := Num(0.0),
        "pitch" := Num(0.0),
        "light" := Undefined,
        "sources" := Object(EmptyObject()),
        "sprite" := Undefined,
        "glyphs" := Undefined,
        "transition" := Undefined,
        "layers" := Arr([])])
  }

  /** The style defaults cover every field of a style document and no other, each listed once. */
  lemma StyleDefaultsFields()
    ensures StyleDefaults().WellFormed()
    ensures StyleDefaults().at.Keys == StyleFields()
  {
    StyleKeysAreFields();
  }

  /**
   * The required fields hold values of their declared kind: `version` the
   * number 8, `sources` an empty object, `layers` an empty array.
   */
  lemma StyleRequiredDefaults()
    ensures forall f | f in RequiredStyleFields() :: f in StyleDefaults().at && StyleDefaults().at[f] != Undefined
    ensures StyleDefaults().at["version"] == Num(8.0)
    ensures StyleDefaults().at["sources"] == Object(EmptyObject())
    ensures StyleDefaults().at["layers"] == Arr([])
  {
  }

  /** `bearing` and `pitch` default to 0; every other optional field is `undefined`. */
  lemma StyleOptionalDefaults()
    ensures StyleDefaults().at["bearing"] == Num(0.0) && StyleDefaults().at["pitch"] == Num(0.0)
    ensures forall f | f in StyleFields() - RequiredStyleFields() - DefaultedOptionalFields() ::
      f in StyleDefaults().at && StyleDefaults().at[f] == Undefined
  {
  }

  /** `makeStyle`: `Record(StyleDefaults)`. */
  function MakeStyle(): RecordFactory
  {
    RecordFactory(Object(StyleDefaults()))
  }

  /** The style factory's defaults are an object over exactly the style document's fields. */
  lemma MakeStyleDefaults()
    ensures MakeStyle().defaults.Object?
    ensures MakeStyle().defaults.obj.WellFormed()
    ensures MakeStyle().defaults.obj.at.Keys == StyleFields()
  {
    StyleDefaultsFields();
  }
}

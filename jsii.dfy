/**
 * The part of the jsii documentation model the doc generator reads: the
 * `docs` record of an API element, its stability, and the parameters of a
 * method-like element. Every optional field is an `Option`.
 */
module Jsii {

  datatype Option<+T> = None | Some(value: T)

  /** The maturity levels an API element can declare. */
  datatype Stability = Deprecated | Experimental | Stable | External

  /** The string value of each stability level in the assembly format. */
  function StabilityName(s: Stability): string {
    match s
    case Deprecated => "deprecated"
    case Experimental => "experimental"
    case Stable => "stable"
    case External => "external"
  }

  /**
   * The documentation record. `returnsDoc` is the `returns` field and
   * `defaultValue` the `default` field.
   * `custom` holds the custom tags as the sequence of entries JavaScript's
   * `Object.entries` yields for the mapping.
   */
  datatype Docs = Docs(
    summary: Option<string>,
    remarks: Option<string>,
    returnsDoc: Option<string>,
    defaultValue: Option<string>,
    stability: Option<Stability>,
    see: Option<string>,
    subclassable: Option<bool>,
    example: Option<string>,
    custom: Option<seq<(string, string)>>
  )

  /** A record with no field set. */
  const NoDocs: Docs := Docs(None, None, None, None, None, None, None, None, None)

  datatype Parameter = Parameter(name: string, docs: Option<Docs>)

  /**
   * A documentable element: either one without parameters (types,
   * properties, enum members) or a method-like one with its parameters in
   * declaration order.
   */
  datatype Documentable =
    | Plain(docs: Option<Docs>)
    | MethodLike(docs: Option<Docs>, parameters: seq<Parameter>)

  /** The parameters an element has; none unless it is method-like. */
  function Parameters(obj: Documentable): seq<Parameter> {
    match obj
    case Plain(_) => []
    case MethodLike(_, ps) => ps
  }

  /** An optional string is truthy in JavaScript when present and non-empty. */
  predicate Truthy(o: Option<string>) {
    o.Some? && o.value != ""
  }

  /** `docs.custom ?? {}`, as its entries. */
  function CustomEntries(docs: Docs): seq<(string, string)> {
    if docs.custom.Some? then docs.custom.value else []
  }
}

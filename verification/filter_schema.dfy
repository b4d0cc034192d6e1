/** The declared kind of each filter field (`"string" | "number" | "boolean"`). */
module FilterSchema {

  datatype Kind = StringKind | NumberKind | BooleanKind

  /** `Record<string, "string" | "number" | "boolean">`: filter key to declared kind. */
  type Schema = map<string, Kind>
}

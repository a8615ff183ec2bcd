/** Small shared datatypes. */
module Util {

  /** An optional value: TypeScript's `x?: T` (absent or present). */
  datatype Option<+T> = None | Some(value: T)

  /** JavaScript truthiness of an optional string: absent and "" are falsy. */
  predicate TruthyString(s: Option<string>) {
    s.Some? && s.value != ""
  }
}

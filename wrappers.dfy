/** Small shared datatypes. */
module Wrappers {

  /** An optional value: TypeScript's `T | undefined`, or a React component that renders `null`. */
  datatype Option<+T> = None | Some(value: T)
}

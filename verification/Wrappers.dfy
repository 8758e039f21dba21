/** An optional value: what the program returns as None. */
module Wrappers {
  datatype Maybe<+T> = Nothing | Just(value: T)
}

/** Result shapes shared by the two enumeration lookups. */
module Outcome {

  /** A value or nothing; the Java `null` of a search that finds nothing. */
  datatype Option<+T> = None | Some(value: T)

  /** What an enumeration lookup gives back: a variant, the `null` that a
      caller is expected to test for, or the program reaching the fail-fast
      stub `Utils.TEST_DRIVE_ME`. The stub's body is not part of this model,
      so the outcome only records that it was reached; it never carries a
      variant and is never confused with `Absent`. */
  datatype Lookup<+T> = Found(value: T) | Absent | StubReached
}

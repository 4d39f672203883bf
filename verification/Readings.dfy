/** The two readings of the program that the models are stated for. */
module Readings {

  /** Written: the code as it stands. Intended: the code with its evident slips repaired. */
  datatype Variant = Written | Intended
}

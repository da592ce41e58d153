/** Optional values and the failures the core can report. */
module Outcomes {

  datatype Option<T> = None | Some(value: T)

  /**
   * NullVector is the `std::logic_error` thrown by `unit_vector` on a vector of length zero.
   * NotANumber marks an input on which the C++ code divides by zero and carries on with
   * an IEEE NaN or infinity whose later use has no determined outcome; this model does not
   * represent those values and stops with this outcome instead.
   */
  datatype Error = NullVector | NotANumber

  datatype Result<T> = Ok(value: T) | Err(error: Error)
}

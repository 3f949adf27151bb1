/** Stock optional and error-carrying values, standing in for Java's null and checked exceptions. */
module Wrappers {

  /** A value that may be absent (a Java reference that may be null). */
  datatype Option<+T> = None | Some(value: T)

  /** The outcome of an operation that may throw. */
  datatype Result<+T, +E> = Ok(value: T) | Err(error: E)
}

/** Calendar values shared by the assignment service and the audit query. */
module Dates {
  import opened Wrappers

  /** A java.util.Date, as milliseconds since the epoch. */
  type Date = int

  /** net.rrm.ehour.data.DateRange: a pair of bounds, either of which may be null (open). */
  datatype DateRange = DateRange(dateStart: Option<Date>, dateEnd: Option<Date>)
}

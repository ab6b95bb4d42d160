/** Values shared by every part of the model. */
module Common {

  /** A Java reference that may be null: `None` stands for null. */
  datatype Option<+T> = None | Some(value: T)

  /** A `java.time.LocalDate`, as a day number. */
  type Date = int
}

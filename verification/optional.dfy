/** Kotlin's nullable types (`String?`, `Int?`) as an option datatype. */
module Optional {

  /** `None` stands for Kotlin's `null`. */
  datatype Option<+T> = None | Some(value: T)
}

/** The optional-value datatype shared by the other modules. */
module Options {

  /** `None` stands for JavaScript's `undefined` or an absent entry. */
  datatype Option<+T> = None | Some(value: T)
}

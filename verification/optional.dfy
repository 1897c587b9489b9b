/** The optional value used wherever the bar chart code holds `null` or `undefined`. */
module Optional {

  /** `None` stands for JavaScript's `null` / `undefined`, `Some(v)` for a present value. */
  datatype Option<+T> = None | Some(value: T)
}

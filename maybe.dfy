/** An optional value: what Python's `None` and JavaScript's `NaN` stand for in this model. */
module Maybe {

  datatype Option<+T> = None | Some(value: T)
}

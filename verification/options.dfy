/** An optional value; `None` stands for JavaScript's `undefined` where the dashboard can produce it. */
module Options {

  datatype Option<+T> = None | Some(value: T)
}

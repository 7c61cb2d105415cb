/** An optional value. In this model `None` stands for JavaScript's `NaN`:
    the result of `parseInt` on text that does not start with a number, and
    the value a rounding computation yields when it divides by zero. */
module Options {

  datatype Option<+T> = None | Some(value: T)
}

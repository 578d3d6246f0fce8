/** An optional value: `None` where the engine's arithmetic has no value
    (a 0/0 or x/0 division, which the floating-point code turns into NaN or an
    infinity) or where an entry does not take part in a scan. */
module Options {
  datatype Option<T> = None | Some(value: T)
}

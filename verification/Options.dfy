module Options {
  datatype Option<+T> = None | Some(value: T)

  /** For counting. */
  function Bit(b: bool): nat { if b then 1 else 0 }
}

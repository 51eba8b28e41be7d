/** A value that may be missing. */
module Options {

  datatype Option<+T> = None | Some(value: T)
}

/** Pages of memory, virtual or physical. */
module Pages {

  const PAGE: nat := 0x1000

  /** The start of the page that has a. */
  function PageBase(a: nat): (r: nat)
    ensures r % PAGE == 0 && r <= a < r + PAGE
  {
    a - a % PAGE
  }
}

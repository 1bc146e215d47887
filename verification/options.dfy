/** The optional value used wherever the program has "maybe nothing": a strategy
    that did not load, a title that matched no row. */
module Options {

  datatype Option<+T> = None | Some(value: T)

}

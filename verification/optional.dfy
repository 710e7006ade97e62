/** An optional value. `None` stands for JavaScript's `undefined`, which is what
    indexing an array out of bounds (or at -1) yields. */
module Optional {

  datatype Option<+T> = None | Some(value: T)
}

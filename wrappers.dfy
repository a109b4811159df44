/** The optional value shared by the dungeon helpers and the behaviour-tree leaves
    (std::optional and "no entity found" in the source). */
module Wrappers {
  datatype Option<T> = None | Some(value: T)
}

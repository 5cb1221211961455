// Datatypes shared by the models.
module Base {
  datatype Option<+T> = None | Some(value: T)

  /** A workspace's storage mode (internal/workspace/selector.go). */
  datatype StorageMode = Ephemeral | Persistent

  function Last<T>(s: seq<T>): T
    requires s != []
  {
    s[|s| - 1]
  }
}

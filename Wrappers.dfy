/** Optional values, for the places where the program may find nothing
    (a song looked up by its code) or where a collaborator may fail
    (the catalogue file, the renderer's bridge to the main process). */
module Wrappers {
  datatype Option<+T> = None | Some(value: T)
}

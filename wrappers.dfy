/** The optional value the game logic returns where the game's TypeScript code returns `null`. */
module Wrappers {

  datatype Option<T> = None | Some(value: T)
}

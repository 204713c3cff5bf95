/** Small shared vocabulary of the editor model. */
module Common {

  /** A value that may be absent, as the editor's `null`-initialised state is. */
  datatype Option<T> = None | Some(value: T)

  /** An object URL ("blob:..."): the only handle the editor keeps for a clip. */
  type Ref = string
}

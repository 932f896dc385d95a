/**
 * The persistence switch read by `configure`: the environment variable
 * `DETRITUS_NO_PERSIST`.
 */
module Configuration {

  /** `!!ENV["DETRITUS_NO_PERSIST"]` as written: chats persist exactly when the variable is set. */
  function PersistFlagAsWritten(noPersistSet: bool): bool {
    noPersistSet
  }

  /** The switch as its name means it: chats persist unless the variable is set. */
  function PersistFlag(noPersistSet: bool): (persist: bool)
    ensures persist <==> !noPersistSet
    ensures persist != PersistFlagAsWritten(noPersistSet)
  {
    !noPersistSet
  }
}

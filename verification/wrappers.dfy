/** Optional values, used for the nullable results of the Kotlin code
    (`readText` that may fail, an override a subclass may leave out). */
module Wrappers {

  datatype Option<+T> = None | Some(value: T)
}

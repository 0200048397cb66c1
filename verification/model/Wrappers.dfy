/** Result and option types shared by every module. */
module Wrappers {

  datatype Option<+T> = None | Some(value: T)

  /** The return codes of the runtime that the modelled functions use. */
  datatype Status = Ok | Error | Einval | Esyscall
}

/** The failure-compatible types shared by every module. */
module Wrappers {
  datatype Option<+T> = None | Some(value: T)

  /** `Success` carries what the code returns; `Failure` stands for the exception it raises. */
  datatype Result<+T> = Success(value: T) | Failure(message: string)
}

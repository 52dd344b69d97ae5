/** How an operation of the logger ends: normally, or by throwing. */
module Outcomes {

  /** The `code` of a Node.js file-system error. */
  datatype Errno = ENOENT | EEXIST | ENOTDIR | EISDIR | EACCES

  /** What is thrown: a file-system error, or an `Error` carrying a message. */
  datatype Error = SysError(code: Errno) | Thrown(message: string)

  /** A settled call: it completed, or it threw (its promise rejected). */
  datatype Status = Done | Failed(error: Error)

  /** A value that may be missing, as an unset environment variable is. */
  datatype Option<T> = None | Some(value: T)
}

/** Results of operations. */
module Errno {
  datatype Errno = OK | EIO | EINTR | ENOTEMPTY | EXDEV | ENOENT
}

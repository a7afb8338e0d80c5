/** Stand-ins for Rust's `Option` and for `SysResult`, whose error carries an errno. */
module Results {
  datatype Option<+T> = None | Some(value: T)

  datatype Errno =
    PERM | NOENT | IO | BADF | FAULT | EXIST | XDEV | NOTDIR | ISDIR | INVAL | SRCH | NOSYS | NOMEM | INTR |
    BUSY | NOTEMPTY

  datatype Result<+T> = Ok(value: T) | Err(errno: Errno)
}

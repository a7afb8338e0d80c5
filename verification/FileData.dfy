/** Bytes, and what a symbolic link leads to. */
module FileData {
  type Byte = b: int | 0 <= b < 256

  /** What following a symbolic link yields. */
  datatype Leads = ToFile(bytes: seq<Byte>) | ToDir | Nowhere
}

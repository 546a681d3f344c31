/** What several modules share. */
module Common {
  /** One more than the largest `uint`. */
  const UINT_LIMIT: nat := 0x1_0000_0000

  type Byte = b: int | 0 <= b < 256

  datatype Option<T> = None | Some(value: T)

  /** The sequence without its k-th element. */
  function Cut<T>(s: seq<T>, k: nat): (r: seq<T>)
    requires k < |s|
  {
    s[..k] + s[k + 1..]
  }
}

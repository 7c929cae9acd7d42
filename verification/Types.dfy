/** The values that the bridge passes around: paths, file contents, content hashes and change records. */
module Types {
  datatype Option<+T> = None | Some(value: T)

  newtype byte = x: int | 0 <= x < 256

  type Path = string
  type Bytes = seq<byte>

  /** SHA-256 is taken to be free of collisions, so a hash is represented by the bytes that were hashed. */
  type Hash = Bytes

  /** A change as it travels through the hub; the data of a deletion is empty. */
  datatype FileData = FileData(data: Bytes, deleted: bool)

  /** The bytes "\x01Deleted", hashed in place of a missing FileData. */
  const DELETED_MARK: Bytes := [1, 68, 101, 108, 101, 116, 101, 100]

  function HashOf(data: Option<FileData>): Hash {
    match data
    case None => DELETED_MARK
    case Some(fd) => fd.data
  }

  function Lookup<K, V>(m: map<K, V>, k: K): Option<V> {
    if k in m then Some(m[k]) else None
  }
}

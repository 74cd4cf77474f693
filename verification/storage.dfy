/** Storage locations as the upload command sees them: a flat namespace of
    named byte blobs, addressed by a relative path. The local file system
    storage and the remote object storage are both values of type Store. */
module Storage {

  newtype byte = x: int | 0 <= x < 256

  /** A path relative to the storage root, with forward slashes. */
  type Path = string

  type Contents = seq<byte>

  type Store = map<Path, Contents>

  /** `storage.exists(path)` */
  predicate Exists(s: Store, p: Path) {
    p in s
  }

  /** `storage.size(path)`: the byte count of the stored file. */
  function Size(s: Store, p: Path): nat
    requires Exists(s, p)
  {
    |s[p]|
  }

  /** `storage.save(path, content)`, for a backend that overwrites in place:
      the file ends up under the very path it was saved to, and no other
      entry of the storage changes. */
  function Save(s: Store, p: Path, c: Contents): (r: Store)
    ensures Exists(r, p) && r[p] == c && Size(r, p) == |c|
    ensures forall q :: q != p ==> (q in r <==> q in s)
    ensures forall q :: q != p && q in s ==> r[q] == s[q]
  {
    s[p := c]
  }
}

/** The icon resolver (`_load_and_prepare_icon`). Decoding, first-frame
    selection and the 32x32 resize are done by an image library; here they
    are one lookup in an `IconStore` that says which files exist and which
    of them decode to a handle. */
module Icons {
  import opened Wrappers

  /** A displayable, already resized image. Only its presence matters to the
      launcher; the number tells two handles apart. */
  datatype IconHandle = IconHandle(id: nat)

  /** What the file system and the image library would answer: the paths
      that exist, and for those that decode, the handle decoding gives.
      An existing path missing from `decodable` is a file the library fails
      on (corrupt or not an image). */
  datatype IconStore = IconStore(existing: set<string>, decodable: map<string, IconHandle>)

  /** Python's truth test on an optional path: `None` and `""` are false. */
  predicate Falsy(path: Option<string>) {
    path.None? || path.value == ""
  }

  /** `_load_and_prepare_icon(icon_path)`: no handle, and no decoding
      attempted, for an absent or empty path or one that does not exist; for
      an existing file, the decoded handle, or none when decoding fails. It
      never fails otherwise. */
  function ResolveIcon(path: Option<string>, store: IconStore): (h: Option<IconHandle>)
    ensures Falsy(path) || path.value !in store.existing ==> h.None?
    ensures h.Some? <==> !Falsy(path) && path.value in store.existing && path.value in store.decodable
    ensures h.Some? ==> h.value == store.decodable[path.value]
  {
    if Falsy(path) || path.value !in store.existing then None
    else if path.value in store.decodable then Some(store.decodable[path.value])
    else None
  }

  /** The guard really comes before the decoder: for a path the guard turns
      away, what the image library would do with the file cannot change the
      result. */
  lemma GuardIgnoresDecoder(path: Option<string>, s1: IconStore, s2: IconStore)
    requires s1.existing == s2.existing
    requires Falsy(path) || path.value !in s1.existing
    ensures ResolveIcon(path, s1) == ResolveIcon(path, s2) == None
  {
  }
}

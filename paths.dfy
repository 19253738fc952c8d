/** The slice of std::filesystem the configuration reader uses, on a POSIX
    system: joining paths with `operator/`, and `exists` plus reading a file,
    over an abstract file system. */
module Paths {
  import opened Wrappers

  /** A POSIX path is absolute when it starts with the root directory. */
  predicate IsAbsolute(p: string) {
    |p| > 0 && p[0] == '/'
  }

  /** A POSIX path has a filename unless it is empty or ends with a separator. */
  predicate HasFilename(p: string) {
    |p| > 0 && p[|p| - 1] != '/'
  }

  predicate EndsWith(s: string, suffix: string) {
    |suffix| <= |s| && s[|s| - |suffix|..] == suffix
  }

  /** `path(base) / rel`: an absolute `rel` replaces `base`; otherwise `rel` is
      appended, with one separator inserted only when `base` has a filename. */
  function Join(base: string, rel: string): (r: string)
    ensures IsAbsolute(rel) ==> r == rel
    ensures !IsAbsolute(rel) ==> |r| == |base| + |rel| + (if HasFilename(base) then 1 else 0)
    ensures !IsAbsolute(rel) ==> base <= r && EndsWith(r, rel)
    ensures !IsAbsolute(rel) && base != [] ==> r[|r| - |rel| - 1] == '/'
  {
    if IsAbsolute(rel) then rel
    else if HasFilename(base) then base + "/" + rel
    else base + rel
  }

  /** The disk as the reader sees it during one call: the paths that exist and
      the contents of those that can be opened and read as a file. */
  datatype FileSystem = FileSystem(existing: set<string>, readable: map<string, string>)

  /** `std::filesystem::exists(p)`. */
  predicate Exists(fs: FileSystem, p: string) {
    p in fs.existing
  }

  /** The text an `std::ifstream` on `p` delivers; None when it cannot be opened
      or read (a directory, missing permission). */
  function Read(fs: FileSystem, p: string): (r: Option<string>)
    ensures r.Some? <==> p in fs.readable
    ensures r.Some? ==> r.value == fs.readable[p]
  {
    if p in fs.readable then Some(fs.readable[p]) else None
  }
}

/** The disk as the downloader sees it: a map from path to file contents. */
module FileSystem {
  import opened Wrappers

  newtype byte = x: int | 0 <= x < 256

  type Bytes = seq<byte>

  type Files = map<string, Bytes>

  /** `open(path).read()` when the file exists. */
  function Lookup(files: Files, path: string): (r: Option<Bytes>)
    ensures r.Some? <==> path in files
    ensures r.Some? ==> r.value == files[path]
  {
    if path in files then Some(files[path]) else None
  }

  /** `os.path.getsize(path) if os.path.exists(path) else 0`. */
  function SizeOr0(file: Option<Bytes>): (n: nat)
    ensures file.Some? ==> n == |file.value|
    ensures file.None? ==> n == 0
  {
    if file.Some? then |file.value| else 0
  }

  /** Writes `file` at `path`, or deletes `path` when `file` is None. */
  function Store(files: Files, path: string, file: Option<Bytes>): (r: Files)
    ensures Lookup(r, path) == file
    ensures forall p :: p != path ==> Lookup(r, p) == Lookup(files, p)
  {
    if file.Some? then files[path := file.value] else files - {path}
  }
}

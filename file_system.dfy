/**
  The files the editor reads and writes, as a map from path to content. Whether a read, a write or
  a rename succeeds beyond what the map decides (permissions, for instance) is a flag supplied by
  the caller; a failed write changes no file. Exists is plain membership and takes no flag.
  Byte/charset conversion is the identity on strings.
 */
module FileSystem {
  import opened Wrappers

  type Files = map<string, string>

  /** Files.readAllBytes: fails when the file is missing or the read fails. */
  function Read(files: Files, p: string, ok: bool): (r: Option<string>)
    ensures r.Some? <==> ok && p in files
    ensures r.Some? ==> r.value == files[p]
  {
    if ok && p in files then Some(files[p]) else None
  }

  /** File.exists */
  predicate Exists(files: Files, p: string) {
    p in files
  }

  /** Files.write: creates or truncates the file; None is the IOException. */
  function Write(files: Files, p: string, content: string, ok: bool): (r: Option<Files>)
    ensures r.Some? <==> ok
    ensures r.Some? ==> r.value.Keys == files.Keys + {p}
    ensures r.Some? ==> forall q :: q in files && q != p ==> r.value[q] == files[q]
    ensures r.Some? ==> Read(r.value, p, true) == Some(content)
  {
    if ok then Some(files[p := content]) else None
  }

  /** The boolean File.renameTo returns. */
  predicate Renamed(files: Files, from: string, ok: bool) {
    ok && from in files
  }

  /** File.renameTo: on success the content moves from the old name to the new one. */
  function Rename(files: Files, from: string, to: string, ok: bool): (r: Files)
    requires from != to
    ensures Renamed(files, from, ok) ==> from !in r && Read(r, to, true) == Read(files, from, true)
    ensures Renamed(files, from, ok) ==> r.Keys == files.Keys - {from} + {to}
    ensures Renamed(files, from, ok) ==> forall q :: q in files && q != from && q != to ==> r[q] == files[q]
    ensures !Renamed(files, from, ok) ==> r == files
  {
    if Renamed(files, from, ok) then (files - {from})[to := files[from]] else files
  }
}

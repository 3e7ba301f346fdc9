/** `std::path::PathBuf::join` on Unix paths written as strings. */
module Paths {
  import opened Wrappers
  import opened Text

  predicate IsAbsolute(p: string) {
    StartsWith(p, "/")
  }

  /** `base.join(name)`: an absolute `name` replaces `base`; otherwise a
      separator is inserted unless `base` is empty or already ends in one. */
  function Join(base: string, name: string): (r: string)
    ensures IsAbsolute(name) ==> r == name
    ensures !IsAbsolute(name) ==> EndsWith(r, name) && StartsWith(r, base)
    ensures !IsAbsolute(name) && base != [] && base[|base| - 1] != '/' ==> r == base + "/" + name
  {
    if IsAbsolute(name) then name
    else if base == [] || base[|base| - 1] == '/' then base + name
    else base + "/" + name
  }

  /** What `DirEntry::file_type` reports; it does not follow symbolic
      links, so a link to a directory is a `Symlink`. */
  datatype FileType = Directory | RegularFile | Symlink | OtherType

  /** A readable entry of a directory listing: its file name and its type,
      None when `file_type()` fails. */
  datatype Entry = Entry(name: string, fileType: Option<FileType>)
}

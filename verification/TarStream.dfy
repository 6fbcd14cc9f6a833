/** Tar streams as sequences of entries.  A hard link's target is a path; a symbolic link's is text. */
module TarStream {
  import opened Paths
  import opened Objects

  datatype Body = DirB | RegB(data: Bytes) | LinkB(to: Path) | SymB(target: string) | OtherB

  datatype Entry = Entry(path: Path, uid: nat, gid: nat, mode: nat, mtime: nat, body: Body)

  function DefaultDir(path: Path): Entry { Entry(path, 0, 0, 0x1ED, 0, DirB) }

  function DefaultData(path: Path, data: Bytes): Entry { Entry(path, 0, 0, 0x1A4, 0, RegB(data)) }

  function DefaultLink(path: Path, to: Path): Entry { Entry(path, 0, 0, 0x1A4, 0, LinkB(to)) }
}

/** The files, directories and volumes that the mover and the hot-swap daemon work on. */
module Files {
  import opened Hashing
  import opened Names

  datatype Option<+T> = None | Some(value: T)

  type Digest = string
  type Date = string
  type Mount = string

  /** A regular file on the local disk; `mtime` and every clock value are nanoseconds. */
  datatype File = File(content: Content, mtime: int)

  type Directory = map<Name, File>

  /** pcap/<date>/<name> below a drive root. */
  datatype Path = Path(date: Date, name: Name)

  /** One line of MANIFEST.txt. */
  datatype Line = Line(name: Name, digest: Digest)

  /** One line of TRANSFER.LOG. */
  datatype Entry = Entry(name: Name, ok: bool, size: nat, digest: Option<Digest>)

  /** What is stored below one drive root; `dirs` are the dated directories there are. */
  datatype Store = Store(
    files: map<Path, Content>, manifests: map<Date, seq<Line>>, log: seq<Entry>, dirs: set<Date>)

  /** What a mount path leads to: an attached volume, or the bare directory underneath. */
  datatype Place = Bare(at: Mount) | Volume(id: nat)

  const NANOS: int := 1_000_000_000

  /** QUIET_SECS, in nanoseconds. */
  const QUIET: int := 3 * NANOS

  /** Reading an mtime; a missing file is never asked for, the value only makes the function total. */
  function Mtime(dir: Directory, n: Name): int {
    if n in dir then dir[n].mtime else 0
  }

  /** A directory listing: every name once, in whatever order the file system yields them. */
  ghost predicate IsListing(names: seq<Name>, dir: Directory) {
    Distinct(names) && forall n :: n in names <==> n in dir
  }
}

/** The typed record one line of a `/proc/<pid>/maps` listing decodes to (src/lib.rs). */
module Types {
  import opened Radix

  /** The "pathname" field: five known pseudo-paths, an anonymous mapping, other bracketed text, or a path. */
  datatype Pathname =
    | Stack
    | Vdso
    | Vvar
    | Vsyscall
    | Heap
    | Mmap
    | OtherPseudo(text: string)
    | Path(text: string)

  datatype AddressRange = AddressRange(begin: u64, end: u64)

  datatype Permissions = Permissions(readable: bool, writable: bool, executable: bool, shared: bool, private: bool)

  datatype Device = Device(major: u64, minor: u64)

  datatype Map = Map(
    address_range: AddressRange,
    permissions: Permissions,
    offset: u64,
    device: Device,
    inode: u64,
    pathname: Pathname)

  /** The fixed table of known pseudo-paths, keyed by their exact text. */
  const PseudoPathMap: map<string, Pathname> := map[
    "[stack]" := Stack,
    "[vdso]" := Vdso,
    "[vvar]" := Vvar,
    "[vsyscall]" := Vsyscall,
    "[heap]" := Heap]

  /** The text a pathname stands for: the table key, the empty field, or the text kept in the variant. */
  function PathnameText(p: Pathname): string
  {
    match p
    case Stack => "[stack]"
    case Vdso => "[vdso]"
    case Vvar => "[vvar]"
    case Vsyscall => "[vsyscall]"
    case Heap => "[heap]"
    case Mmap => ""
    case OtherPseudo(t) => t
    case Path(t) => t
  }

  /** The table maps each key to the one named variant whose text is that key. */
  lemma PseudoPathMapKeys(key: string)
    requires key in PseudoPathMap
    ensures PathnameText(PseudoPathMap[key]) == key
    ensures PseudoPathMap[key] in {Stack, Vdso, Vvar, Vsyscall, Heap}
  {
  }

  /** `Default for Map`: every number zero, every permission flag false, an anonymous mapping. */
  function DefaultMap(): (m: Map)
    ensures m.address_range.begin == m.address_range.end == m.offset == m.inode == 0
    ensures m.device.major == m.device.minor == 0
    ensures m.pathname == Mmap && PathnameText(m.pathname) == ""
    ensures m.permissions == Permissions(false, false, false, false, false)
  {
    Map(AddressRange(0, 0), Permissions(false, false, false, false, false), 0, Device(0, 0), 0, Mmap)
  }
}

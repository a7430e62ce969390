/** Values exchanged between the hook and the world it runs in: host string
    handles, build architecture and the outcomes of the system calls the hook
    makes. Every piece of I/O is an input value here. */
module Types {

  datatype Option<+T> = None | Some(value: T)

  /** The build architecture. `Arm` stands for every build that is neither
      i386 nor x86_64 (the `#else` branch of the helper loader). */
  datatype Arch = Arm | X86 | X86_64

  /** A host string handle (`jstring`) together with what GetStringUTFChars
      yields for it: `Ref(None)` is a non-null handle whose characters could
      not be obtained. */
  datatype JString = NullRef | Ref(utf: Option<string>)

  /** The two host strings the hook may pin during preAppSpecialize. */
  datatype JniString = NiceName | AppDataDir

  /** What stat(2) reports for a path. */
  datatype StatKind = Missing | Regular | Other

  /** What fstat(2) reports for the opened helper file. */
  datatype FstatOutcome = FstatFails | FileSize(size: nat)

  /** A mapping address; mmap without MAP_FIXED never yields null. */
  type MapAddr = a: nat | a != 0 witness 1

  datatype MmapOutcome = MapFailed | MappedAt(addr: MapAddr)

  /** What one preAppSpecialize call observes of the world.
      nativeLibDir: result of the introspection chain (None when a step of it failed,
                    Some("") when the field was a null string),
      fs:           stat(2) view of the file system (absent paths are Missing),
      moduleDir:    whether getModuleDir() gave a descriptor other than -1,
      moduleFiles:  paths relative to the module directory that openat opens,
      mmap:         the outcome of mapping the helper file. */
  datatype World = World(
    nativeLibDir: Option<string>,
    fs: map<string, StatKind>,
    moduleDir: bool,
    moduleFiles: map<string, FstatOutcome>,
    mmap: MmapOutcome)
}

/** The detector of MyModule::hasIl2CppLibrary: a process is a target when a
    regular file `libil2cpp.so` sits directly in its native library directory. */
module Detection {
  import opened Types

  const LibName: string := "libil2cpp.so"

  /** The probed path: the native library directory, a slash, the library name. */
  function ProbePath(dir: string): string
  {
    dir + "/" + LibName
  }

  /** stat(2) on the modelled file system. */
  function Stat(fs: map<string, StatKind>, p: string): StatKind
  {
    if p in fs then fs[p] else Missing
  }

  /** The decision: no environment, a failed introspection chain or an empty
      directory mean no match; otherwise the probe must be a regular file. */
  function HasIl2CppLibrary(envPresent: bool, nativeLibDir: Option<string>, fs: map<string, StatKind>): (r: bool)
    ensures !envPresent ==> !r
    ensures nativeLibDir.None? || nativeLibDir == Some("") ==> !r
  {
    if !envPresent then false
    else match nativeLibDir
      case None => false
      case Some(dir) => dir != "" && Stat(fs, ProbePath(dir)) == Regular
  }

  // An independent reading of paths: split at the last slash.

  /** Index of the last '/' in p. */
  function LastSlash(p: string): (r: Option<nat>)
    ensures r.Some? ==> r.value < |p| && p[r.value] == '/' && '/' !in p[r.value + 1..]
    ensures r.None? ==> '/' !in p
  {
    if p == [] then None
    else if p[|p| - 1] == '/' then Some(|p| - 1)
    else
      var r := LastSlash(p[..|p| - 1]);
      assert p == p[..|p| - 1] + [p[|p| - 1]];
      r
  }

  /** The directory part of a path; None for a path without a slash. */
  function Dirname(p: string): Option<string>
  {
    match LastSlash(p)
    case None => None
    case Some(i) => Some(p[..i])
  }

  /** The last component of a path. */
  function Basename(p: string): string
  {
    match LastSlash(p)
    case None => p
    case Some(i) => p[i + 1..]
  }

  /** The file system holds a regular file called `name` directly in `dir`. */
  ghost predicate RegularFileIn(fs: map<string, StatKind>, dir: string, name: string)
  {
    exists p :: p in fs && fs[p] == Regular && Dirname(p) == Some(dir) && Basename(p) == name
  }

  lemma LastSlashIs(p: string, i: nat)
    requires i < |p| && p[i] == '/' && '/' !in p[i + 1..]
    ensures LastSlash(p) == Some(i)
  {
  }

  /** The probe path names `libil2cpp.so` inside exactly the given directory. */
  lemma ProbePathSplits(dir: string)
    ensures Dirname(ProbePath(dir)) == Some(dir)
    ensures Basename(ProbePath(dir)) == LibName
  {
    var p := ProbePath(dir);
    assert p[|dir|] == '/';
    assert p[|dir| + 1..] == LibName;
    assert '/' !in LibName by {
      forall k | 0 <= k < |LibName| ensures LibName[k] != '/' { }
    }
    LastSlashIs(p, |dir|);
    assert p[..|dir|] == dir;
  }

  /** A path is its directory, a slash and its last component. */
  lemma SplitJoin(p: string, dir: string)
    requires Dirname(p) == Some(dir)
    ensures p == dir + "/" + Basename(p)
  {
    var i := LastSlash(p).value;
    assert p == p[..i] + [p[i]] + p[i + 1..];
  }

  /** The detector matches exactly when the environment is present, the
      introspection chain gave a non-empty directory, and that directory
      holds a regular file named `libil2cpp.so`. */
  lemma DetectionMeaning(envPresent: bool, nativeLibDir: Option<string>, fs: map<string, StatKind>)
    ensures HasIl2CppLibrary(envPresent, nativeLibDir, fs) <==>
      envPresent && nativeLibDir.Some? && nativeLibDir.value != "" &&
      RegularFileIn(fs, nativeLibDir.value, LibName)
  {
    if envPresent && nativeLibDir.Some? && nativeLibDir.value != "" {
      var dir := nativeLibDir.value;
      ProbePathSplits(dir);
      if RegularFileIn(fs, dir, LibName) {
        var p :| p in fs && fs[p] == Regular && Dirname(p) == Some(dir) && Basename(p) == LibName;
        SplitJoin(p, dir);
      }
      if HasIl2CppLibrary(envPresent, nativeLibDir, fs) {
        assert ProbePath(dir) in fs;
      }
    }
  }
}

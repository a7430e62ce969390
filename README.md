# Zygisk Il2Cpp dumper: the per-process hook, modelled in Dafny

The Zygisk module keeps one `MyModule` object per load and reuses it for every
app process that Zygote specializes. The object has four fields:

- `enable_hack`;
- `game_data_dir`, a heap copy of the app's data directory;
- `arm_so_data` and `arm_so_length`, a read-only mapping of the ARM helper library on x86-family builds.

Three callbacks drive those fields:

- `preAppSpecialize` resets them. It then pins the host strings for the process name and data directory and asks the detector whether the app ships `libil2cpp.so`. For a target, it copies the data directory and, on x86 builds, maps the helper. Finally it unpins the strings.
- `postAppSpecialize` either hands directory, data and length to `hack_prepare` on a detached thread, or unmaps a mapping that will not be used.
- The destructor frees whatever is left.

The model has five modules:

- `Types`: the values the hook exchanges with its world. These are host string handles, the build architecture, what `stat`, `fstat` and `mmap` report, and a `World` record of everything one `preAppSpecialize` call observes.
- `Detection`: the decision of `hasIl2CppLibrary` as a pure function. It is proved equivalent to an independent reading: "a regular file named `libil2cpp.so` sits directly in the non-empty native library directory". That reading splits paths at their last slash.
- `Ledger`: a ghost ledger of the resources the hook owns:
  - the pinned host strings;
  - the helper file descriptor;
  - the helper mapping;
  - the copied data directory.

  A trace of `Acquire`, `Release` and `Handoff` events is replayed over a multiset. A replay fails on any release or handoff of something not held, so a double unmap or a double free makes it fail.
- `HookSpec`: each callback as a step function from the old fields to the new fields plus the events it performs (`Reset`, `LoadHelper`, `MapOpened`, `Decide`, `PreStep`, `PostStep`, `DestroyStep`). It also holds the lemmas that state what the source promises about them.
- `Hook`: the class `MyModule`, with the four fields, the stored environment, a ghost `trace` and the callbacks as methods. Each method updates the fields step by step, as the source does, and is proved to follow its step function. `OnLoad`, `PreAppSpecialize` and `PostAppSpecialize` also keep `Valid()`: the whole history replays to exactly what the fields own. `Destroy` does not keep `Valid()`, since it frees the directory but leaves the flag; it ensures instead that the whole history replays to nothing held. The five sub-steps of `preAppSpecialize` (`ResetCycle`, `PinStrings`, `Evaluate`, `LoadArmHelper`, `UnpinStrings`) only follow their step functions.

## Model

| member | source | states |
|---|---|---|
| HookSpec.Reset | module/src/main/cpp/main.cpp:50-60 | The entry reset: frees a held directory, unmaps only when data is non-null and length positive, and leaves the hack off with no directory; data and length are cleared after an unmap and kept otherwise. |
| HookSpec.Pinned | module/src/main/cpp/main.cpp:68-70 | The characters a non-null handle yields, or none for a null handle or a failed conversion. |
| HookSpec.PinnedDataDir | module/src/main/cpp/main.cpp:68-74 | The data directory is pinned only when the package name was. |
| HookSpec.HelperPath | module/src/main/cpp/main.cpp:97-105 | No helper on ARM builds; `zygisk/armeabi-v7a.so` on i386 and `zygisk/arm64-v8a.so` on x86_64. |
| HookSpec.LoadHelper | module/src/main/cpp/main.cpp:96-133 | Queries the module directory, opens the helper, maps it, and closes the descriptor on every path after a successful open. |
| HookSpec.MapOpened | module/src/main/cpp/main.cpp:110-124 | A failed fstat or an empty file leaves no mapping; a failed mmap also turns the hack off; a successful mmap records its address and the file size. |
| HookSpec.Decide | module/src/main/cpp/main.cpp:77-144 | No package name or no match turns the hack off; a match without a data directory does too; otherwise the directory is copied, the hack enabled and the helper loaded. |
| HookSpec.PreStep | module/src/main/cpp/main.cpp:48-152 | preAppSpecialize as reset, pins, decision and unpins, in that order. |
| HookSpec.PostStep | module/src/main/cpp/main.cpp:154-173 | Hands (directory, data, length) off when enabled with a directory, else unmaps a live mapping inline; data and length are cleared either way. |
| HookSpec.DestroyStep | module/src/main/cpp/main.cpp:28-40 | Frees a remaining directory and unmaps a live mapping, leaving the flag as it was. |
| Detection.ProbePath | module/src/main/cpp/main.cpp:283-284 | The probed path is the native library directory, a slash and `libil2cpp.so`. |
| Detection.Stat | module/src/main/cpp/main.cpp:287-290 | stat on the modelled file system: a missing path reports `Missing`, else its kind. |
| Hook.MyModule.constructor | module/src/main/cpp/main.cpp:24 | A new hook is disabled, holds no directory and no mapping, and has an empty, balanced history. |
| Hook.MyModule.OnLoad | module/src/main/cpp/main.cpp:42-46 | Stores whether an environment was given and changes nothing else. |
| Hook.MyModule.PreAppSpecialize | module/src/main/cpp/main.cpp:48-152 | The new fields and the events performed are those of `PreStep`; the history stays balanced. |
| Hook.MyModule.ResetCycle | module/src/main/cpp/main.cpp:50-60 | Clears the flag, frees a held directory and unmaps a live mapping, as `Reset` says. |
| Hook.MyModule.PinStrings | module/src/main/cpp/main.cpp:62-74 | Pins the package name when its handle is non-null, and the data directory only when the package name was pinned; fields unchanged. |
| Hook.MyModule.Evaluate | module/src/main/cpp/main.cpp:77-144 | The branch on package name, detection and data directory follows `Decide`. |
| Hook.MyModule.LoadArmHelper | module/src/main/cpp/main.cpp:96-133 | The getModuleDir, openat, fstat, mmap and close chain follows `LoadHelper` for the build architecture. |
| Hook.MyModule.UnpinStrings | module/src/main/cpp/main.cpp:146-151 | Releases the pinned strings, the package name first; fields unchanged. |
| Hook.MyModule.PostAppSpecialize | module/src/main/cpp/main.cpp:154-173 | Follows `PostStep`; afterwards data is null and length 0, and the history stays balanced. |
| Hook.MyModule.Destroy | module/src/main/cpp/main.cpp:28-40 | Follows `DestroyStep`; afterwards the whole history has released every resource it acquired. |
| Detection.HasIl2CppLibrary | module/src/main/cpp/main.cpp:184-301 | No environment, a failed introspection or an empty directory give false. |
| Detection.LastSlash | module/src/main/cpp/main.cpp:283-284 | Finds the last '/' of a path, or reports that there is none. |
| Detection.ProbePathSplits | module/src/main/cpp/main.cpp:283-284 | The probe path `dir + "/" + "libil2cpp.so"` has directory `dir` and last component `libil2cpp.so`. |
| Detection.SplitJoin | module/src/main/cpp/main.cpp:283-284 | A path with a directory is that directory, a slash and its last component. |
| Detection.DetectionMeaning | module/src/main/cpp/main.cpp:277-301 | The detector is true exactly when the environment is present, the directory is non-empty, and a regular file named `libil2cpp.so` lies directly in it (both directions). |
| HookSpec.ResetClears | module/src/main/cpp/main.cpp:50-60 | The reset leaves the initial state and performs only releases, one per held resource, which together release everything held. |
| HookSpec.ResetReplay | module/src/main/cpp/main.cpp:50-60 | Replaying the reset over what the hook holds leaves nothing held. |
| HookSpec.ResetReleasesOnce | module/src/main/cpp/main.cpp:50-60 | The reset releases each held resource exactly once. |
| HookSpec.PreStepResets | module/src/main/cpp/main.cpp:50-60 | preAppSpecialize begins with the reset; in the whole call the old directory and the old mapping are each released exactly once. |
| HookSpec.PreStepReleasesOnce | module/src/main/cpp/main.cpp:50-60 | Every resource held on entry is released exactly once by the whole call. |
| HookSpec.PreStepAfterReset | module/src/main/cpp/main.cpp:62-151 | After the reset, the call releases only host strings and the helper descriptor. |
| HookSpec.PreStepForgetsPast | module/src/main/cpp/main.cpp:50-60 | From any two valid states, the same inputs give the same new state: stale state never survives. |
| HookSpec.PreStepPinning | module/src/main/cpp/main.cpp:68-151 | The package name is acquired and released exactly once when its handle yields characters (else never). The data directory is acquired and released exactly once when both strings were obtained (else never). |
| HookSpec.PinsLedger | module/src/main/cpp/main.cpp:68-74 | Pinning adds exactly the pinned strings to what is held. |
| HookSpec.UnpinsLedger | module/src/main/cpp/main.cpp:146-151 | Unpinning removes exactly the pinned strings again. |
| HookSpec.DecideReleases | module/src/main/cpp/main.cpp:77-144 | The decision releases nothing but the helper descriptor and touches no host string. |
| HookSpec.DecideLedger | module/src/main/cpp/main.cpp:77-144 | From the reset state, the decision keeps the invariant and adds to what is held exactly the new directory copy and mapping. |
| HookSpec.PreStepLedger | module/src/main/cpp/main.cpp:48-152 | preAppSpecialize keeps the invariant. Replaying its events over the old holdings yields exactly the new ones, so every string pinned is unpinned. |
| HookSpec.PreStepCompletes | module/src/main/cpp/main.cpp:48-152 | A balanced history stays balanced once preAppSpecialize's events are appended. |
| HookSpec.PreStepNotTarget | module/src/main/cpp/main.cpp:134-144 | No package name, or a negative detection: the hack is off, nothing is kept, and no helper loading is attempted. |
| HookSpec.PreStepDataDirMissing | module/src/main/cpp/main.cpp:84-93 | A match without a data directory turns the hack off, copies nothing and attempts no helper loading. |
| HookSpec.PreStepCopiesDataDir | module/src/main/cpp/main.cpp:84-89 | On a match, the hook keeps an exact copy of the data directory, acquired as its own resource. |
| HookSpec.PreStepArmBuild | module/src/main/cpp/main.cpp:128-132 | ARM builds never map: on a match the hack is on, data is null, length is 0, and getModuleDir is not called. |
| HookSpec.LoadHelperShape | module/src/main/cpp/main.cpp:97-133 | Helper loading keeps the directory. It keeps data null exactly when length is 0, and changes the flag only when no mapping results. It releases only the helper descriptor. |
| HookSpec.LoadHelperLedger | module/src/main/cpp/main.cpp:106-127 | Helper loading adds at most its mapping to what is held. |
| HookSpec.OpenedHelperLedger | module/src/main/cpp/main.cpp:108-125 | An opened helper descriptor is closed on every fstat and mmap outcome. |
| HookSpec.MapOpenedLedger | module/src/main/cpp/main.cpp:111-124 | The fstat and mmap outcomes acquire a mapping exactly when one is recorded, with data null exactly when length is 0. |
| HookSpec.PreStepHelperUnavailable | module/src/main/cpp/main.cpp:106-127 | On x86 builds, any of these leaves no mapping and the hack on: a missing module directory, a failed openat, a failed fstat, an empty helper. |
| HookSpec.PreStepHelperMapFails | module/src/main/cpp/main.cpp:113-119 | A failed mmap of a non-empty helper is the one helper failure that turns the hack off; the directory copy stays. |
| HookSpec.PreStepHelperMapped | module/src/main/cpp/main.cpp:113-122 | A successful mmap leaves the hack on, holding a mapping of the whole helper (i386 path `zygisk/armeabi-v7a.so`, x86_64 path `zygisk/arm64-v8a.so`). |
| HookSpec.PreStepMappingOnlyWhenEnabled | module/src/main/cpp/main.cpp:112-127 | After preAppSpecialize, a mapping exists only while the hack is enabled. |
| HookSpec.PostAfterPreNeverUnmaps | module/src/main/cpp/main.cpp:163-172 | Run right after preAppSpecialize, postAppSpecialize never takes the inline unmap. |
| HookSpec.PostStepHandsOff | module/src/main/cpp/main.cpp:155-162 | Enabled with a directory: exactly one handoff of (directory, data, length) and no release. Data and length are then cleared; directory and flag are unchanged. |
| HookSpec.PostStepReleasesInline | module/src/main/cpp/main.cpp:163-172 | Otherwise there is no handoff and a live mapping is unmapped exactly once. Data and length are cleared; directory and flag are unchanged. |
| HookSpec.PostHandoffBalanced | module/src/main/cpp/main.cpp:155-162 | The handoff gives the mapping away once, and the ledger balances. |
| HookSpec.PostUnmapBalanced | module/src/main/cpp/main.cpp:166-171 | The inline unmap releases the mapping once, and the ledger balances. |
| HookSpec.PostStepLedger | module/src/main/cpp/main.cpp:154-173 | postAppSpecialize keeps the invariant and balances the ledger, and leaves no mapping. A live mapping is disposed of exactly once, never both unmapped and handed off. |
| HookSpec.PostStepCompletes | module/src/main/cpp/main.cpp:154-173 | A balanced history stays balanced once postAppSpecialize's events are appended. |
| HookSpec.CycleBalances | module/src/main/cpp/main.cpp:48-173 | One pre/post cycle keeps the invariant, balances the ledger and ends with no mapping. |
| HookSpec.CyclesLeaveNothingMapped | module/src/main/cpp/main.cpp:48-173 | Over any number of cycles with any outcomes, the ledger balances, and after at least one cycle no mapping is left. |
| HookSpec.DestroyIsReset | module/src/main/cpp/main.cpp:28-40 | The destructor performs exactly the releases of the entry reset. |
| HookSpec.DestroyReleasesAll | module/src/main/cpp/main.cpp:28-40 | The destructor frees the directory and unmaps the mapping, each held resource exactly once, leaving nothing held. |
| HookSpec.DestroyLedger | module/src/main/cpp/main.cpp:28-40 | Replaying the destructor over what the hook holds leaves nothing held. |
| HookSpec.DestroyCompletes | module/src/main/cpp/main.cpp:28-40 | A balanced history ends with nothing held once the destructor's releases are appended. |
| HookSpec.HandedOffDirStillOwned | module/src/main/cpp/main.cpp:155-162 | After a handoff, the next reset and the destructor both free the very directory string the thread received. |

## Left out

- The JNI introspection chain of `hasIl2CppLibrary` (main.cpp:190-274) is an oracle. Its whole outcome is `World.nativeLibDir`, which is `None` when any step fails. This covers the class and method lookups, exception clearing and local-reference deletion.
- System calls are input outcomes. `stat`, `fstat` and `mmap` report through `World`; `munmap` and `close` are `Release` events. The only thing modelled about an address is that it is not null.
- `getModuleDir` is recorded as an event. The model does not track the descriptor it returns; the source does not close it.
- The detached `std::thread` and `hack_prepare` (declared in hack.h, which is not part of this model) are a single `Handoff` event. The handoff transfers the mapping. Concurrency and the payload are not modelled.
- Several things are not modelled at all:
  - logging;
  - the `api` handle stored by `onLoad`;
  - the package-name argument, which `hasIl2CppLibrary` uses only for logging;
  - `REGISTER_ZYGISK_MODULE` (main.cpp:305).
- Other target-detection strategies are described for the system but are absent from main.cpp: a dlopen probe, an ABI directory scan and a deny list. The model follows the code: introspection plus `stat` only.
- Integer widths are not modelled. The helper size is a `nat`; the signed `st_size` being assigned to `size_t` plays no part.
- The data-directory copy (`strlen`, `new[]`, `strcpy`) is modelled as a string value.
- Allocation and thread creation are assumed to succeed; C++ exceptions are not modelled. `new char[...]` (main.cpp:86) and the `std::string` concatenation (main.cpp:284) may throw `std::bad_alloc`. The `std::thread` constructor (main.cpp:157) may throw `std::system_error`, in which case the source makes no handoff, keeps `arm_so_data`, and the exception leaves `postAppSpecialize`; the model's copy in `Decide` and its `Handoff` in `PostStep` always succeed.
- Hook.MyModule.PreAppSpecialize: requires `niceName.Ref? ==> env`, because the source calls `GetStringUTFChars` through the stored environment without a null check.
- Single ownership of `game_data_dir` is not proved, because the source does not give it. After a handoff the thread receives the very buffer the hook keeps and later frees; `HookSpec.HandedOffDirStillOwned` states this.
- `HookSpec.Inv`, the class invariant, leaves out "a mapping exists only while the hack is enabled". That fact holds in every state the callbacks reach: `HookSpec.PreStepMappingOnlyWhenEnabled` proves it after `preAppSpecialize`, and `postAppSpecialize` and the destructor leave no mapping. As an invariant, it would make the inline unmap branch of `postAppSpecialize` unreachable. Instead, that branch is modelled for every valid state, and `HookSpec.PostAfterPreNeverUnmaps` states when it cannot run.

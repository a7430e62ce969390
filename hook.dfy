/** MyModule: the object the host keeps for one load of the module and reuses
    across specializations. Its callbacks update the four fields step by step;
    each is proved to follow the step function of the same name in HookSpec,
    and the ghost trace records every acquisition, release and handoff. */
module Hook {
  import opened Types
  import opened Ledger
  import opened HookSpec
  import Detection

  class MyModule {
    const arch: Arch               // the build architecture
    var env: bool                  // the JNIEnv stored by onLoad is non-null
    var enableHack: bool
    var gameDataDir: Option<string>
    var armSoData: nat             // 0 stands for nullptr
    var armSoLength: nat
    ghost var trace: seq<Event>    // every resource event since construction

    function State(): HookState
      reads this
    {
      HookState(enableHack, gameDataDir, armSoData, armSoLength)
    }

    /** The state invariant holds and the ledger balances: replaying the whole
        history leaves held exactly what the fields own. */
    ghost predicate Valid()
      reads this
    {
      Inv(State()) && Replay(multiset{}, trace) == Some(Held(State()))
    }

    constructor (arch: Arch)
      ensures Valid() && this.arch == arch && !env && State() == Initial && trace == []
    {
      this.arch := arch;
      env := false;
      enableHack := false;
      gameDataDir := None;
      armSoData := 0;
      armSoLength := 0;
      trace := [];
      assert Held(Initial) == multiset{};
    }

    /** onLoad: store the environment handle. */
    method OnLoad(env: bool)
      requires Valid()
      modifies this
      ensures Valid() && this.env == env && State() == old(State()) && trace == old(trace)
    {
      this.env := env;
    }

    /** preAppSpecialize. The host string of the package name is read through
        the stored environment without a null check, so a non-null handle
        needs a loaded environment. */
    method PreAppSpecialize(niceName: JString, appDataDir: JString, w: World)
      requires Valid()
      requires niceName.Ref? ==> env
      modifies this
      ensures Valid() && env == old(env)
      ensures State() == PreStep(old(State()), env, arch, niceName, appDataDir, w).state
      ensures trace == old(trace) + PreStep(old(State()), env, arch, niceName, appDataDir, w).events
    {
      ghost var s := State();
      ghost var reset := Reset(s);
      ResetCycle();
      ghost var afterReset := trace;
      var packageName, dataDirUtf := PinStrings(niceName, appDataDir);
      ghost var afterPins := trace;
      ghost var body := Decide(reset.state, packageName.Some?, dataDirUtf,
                               Detection.HasIl2CppLibrary(env, w.nativeLibDir, w.fs), arch, w);
      Evaluate(packageName.Some?, dataDirUtf, w);
      ghost var afterBody := trace;
      UnpinStrings(packageName, dataDirUtf);

      ghost var r := PreStep(s, env, arch, niceName, appDataDir, w);
      ghost var pins := Pins(packageName, dataDirUtf);
      ghost var unpins := Unpins(packageName, dataDirUtf);
      assert r == Step(body.state, reset.events + pins + body.events + unpins);
      assert trace == old(trace) + r.events by {
        assert trace == old(trace) + reset.events + pins + body.events + unpins;
        Ledger.Regroup(old(trace), reset.events, pins, body.events, unpins);
      }
      PreStepCompletes(s, env, arch, niceName, appDataDir, w, old(trace));
    }

    /** Pin the package name, and the data directory only with it. A null
        handle or a failed conversion leaves the string unpinned. */
    method PinStrings(niceName: JString, appDataDir: JString)
        returns (packageName: Option<string>, dataDirUtf: Option<string>)
      modifies this
      ensures packageName == Pinned(niceName) && dataDirUtf == PinnedDataDir(niceName, appDataDir)
      ensures env == old(env) && State() == old(State())
      ensures trace == old(trace) + Pins(packageName, dataDirUtf)
    {
      packageName := None;
      dataDirUtf := None;
      if niceName.Ref? {
        packageName := niceName.utf;
        if packageName.Some? {
          trace := trace + [Acquire(Utf(NiceName))];
        }
      }
      if appDataDir.Ref? && packageName.Some? {
        dataDirUtf := appDataDir.utf;
        if dataDirUtf.Some? {
          trace := trace + [Acquire(Utf(AppDataDir))];
        }
      }
    }

    /** Release the pinned strings, the package name first. */
    method UnpinStrings(packageName: Option<string>, dataDirUtf: Option<string>)
      modifies this
      ensures env == old(env) && State() == old(State())
      ensures trace == old(trace) + Unpins(packageName, dataDirUtf)
    {
      if packageName.Some? {
        trace := trace + [Release(Utf(NiceName))];
      }
      if dataDirUtf.Some? {
        trace := trace + [Release(Utf(AppDataDir))];
      }
    }

    /** The decision of preAppSpecialize once the strings are pinned: run the
        detector; on a match keep a copy of the data directory (or give up
        without one) and load the helper. */
    method Evaluate(packagePinned: bool, dataDirUtf: Option<string>, w: World)
      modifies this
      ensures env == old(env)
      ensures var d := Decide(old(State()), packagePinned, dataDirUtf,
                              Detection.HasIl2CppLibrary(env, w.nativeLibDir, w.fs), arch, w);
        State() == d.state && trace == old(trace) + d.events
    {
      if packagePinned {
        if Detection.HasIl2CppLibrary(env, w.nativeLibDir, w.fs) {
          enableHack := true;
          if dataDirUtf.Some? {
            gameDataDir := dataDirUtf;
            trace := trace + [Acquire(DataDir(dataDirUtf.value))];
          } else {
            enableHack := false;
          }
          if enableHack {
            LoadArmHelper(w);
          }
        } else {
          enableHack := false;
          armSoData := 0;
          armSoLength := 0;
        }
      } else {
        enableHack := false;
      }
    }

    /** The reset at the top of preAppSpecialize: disable the hack, free the
        data directory and unmap a leftover mapping. */
    method ResetCycle()
      modifies this
      ensures env == old(env)
      ensures State() == Reset(old(State())).state
      ensures trace == old(trace) + Reset(old(State())).events
    {
      enableHack := false;
      if gameDataDir.Some? {
        trace := trace + [Release(DataDir(gameDataDir.value))];
        gameDataDir := None;
      }
      if armSoData != 0 && armSoLength > 0 {
        trace := trace + [Release(Mapping(armSoData, armSoLength))];
        armSoData := 0;
        armSoLength := 0;
      }
    }

    /** The helper loading of preAppSpecialize: on x86-family builds open the
        helper relative to the module directory, size it, map it, close it. */
    method LoadArmHelper(w: World)
      modifies this
      ensures env == old(env)
      ensures State() == LoadHelper(arch, w, old(State())).state
      ensures trace == old(trace) + LoadHelper(arch, w, old(State())).events
    {
      match HelperPath(arch)
      case None =>
        armSoData := 0;
        armSoLength := 0;
      case Some(path) =>
        trace := trace + [ModuleDirQueried];
        if w.moduleDir {
          if path in w.moduleFiles {
            trace := trace + [Acquire(HelperFd)];
            match w.moduleFiles[path] {
              case FstatFails =>
                armSoData := 0;
                armSoLength := 0;
              case FileSize(size) =>
                armSoLength := size;
                if armSoLength > 0 {
                  match w.mmap
                  case MapFailed =>
                    armSoData := 0;
                    armSoLength := 0;
                    enableHack := false;
                  case MappedAt(a) =>
                    armSoData := a;
                    trace := trace + [Acquire(Mapping(a, armSoLength))];
                } else {
                  armSoData := 0;
                  armSoLength := 0;
                }
            }
            trace := trace + [Release(HelperFd)];
            assert trace == old(trace) + [ModuleDirQueried, Acquire(HelperFd)] +
              MapOpened(old(State()), w.moduleFiles[path], w.mmap).events + [Release(HelperFd)];
          } else {
            armSoData := 0;
            armSoLength := 0;
          }
        } else {
          armSoData := 0;
          armSoLength := 0;
        }
    }

    /** postAppSpecialize: start hack_prepare on a detached thread with the data
        directory and the mapping, or unmap the mapping here. */
    method PostAppSpecialize()
      requires Valid()
      modifies this
      ensures Valid() && env == old(env)
      ensures State() == PostStep(old(State())).state
      ensures trace == old(trace) + PostStep(old(State())).events
      ensures armSoData == 0 && armSoLength == 0
    {
      ghost var s := State();
      if enableHack && gameDataDir.Some? {
        trace := trace + [Handoff(gameDataDir.value, armSoData, armSoLength)];
        armSoData := 0;
        armSoLength := 0;
      } else {
        if armSoData != 0 && armSoLength > 0 {
          trace := trace + [Release(Mapping(armSoData, armSoLength))];
          armSoData := 0;
          armSoLength := 0;
        }
      }
      PostStepCompletes(s, old(trace));
    }

    /** ~MyModule: free what an incomplete cycle left. Afterwards the whole
        history has released everything it acquired. */
    method Destroy()
      requires Valid()
      modifies this
      ensures env == old(env) && enableHack == old(enableHack)
      ensures State() == DestroyStep(old(State())).state
      ensures trace == old(trace) + DestroyStep(old(State())).events
      ensures Replay(multiset{}, trace) == Some(multiset{})
    {
      ghost var s := State();
      if gameDataDir.Some? {
        trace := trace + [Release(DataDir(gameDataDir.value))];
        gameDataDir := None;
      }
      if armSoData != 0 && armSoLength > 0 {
        trace := trace + [Release(Mapping(armSoData, armSoLength))];
        armSoData := 0;
        armSoLength := 0;
      }
      DestroyCompletes(s, old(trace));
    }
  }
}

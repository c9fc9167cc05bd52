/** The current (base-image) Dockerfile compiler, one instruction at a time: the instruction
    kinds it knows, how an `Install` becomes a package-manager RUN, the bind-mount table that
    every RUN mounts, the Dockerfile text of each kind, and the companion files (`.dockerignore`,
    the repository definition that points the package manager at the local packages).

    Paths are kept relative to the build's working directory, which is how every use of them
    reads them (`workingDir.relativize(...)`). */
module BaseImageRendering {
  import opened Wrappers
  import opened Text
  import opened OSDistributions
  import DockerfileText
  import DockerVersion

  /** The build instructions this compiler is given. `Unsupported` stands for any other kind of
      instruction (one only another backend knows). */
  datatype Instruction =
    | From(reference: string)
    | FromLocalImageBuild(otherProjectPath: string, tag: string, imageId: string)
    | Copy(layer: string, owner: Option<string>)
    | Run(commands: seq<string>)
    | RepoConfigRun(commands: seq<string>)
    | CreateUser(username: string, userId: int, group: string, groupId: int)
    | SetUser(username: string)
    | Env(key: string, value: string)
    | HealthCheck(check: DockerfileText.HealthCheck)
    | Install(packages: seq<string>)
    | Unsupported(description: string)

  /** The exceptions that abort a build. */
  datatype DaemonError =
    /** `IllegalArgumentException`: a distribution without an install or repository format. */
    | IllegalDistribution
    /** `GradleException`: "Docker instruction ... is not supported for Docker daemon build". */
    | UnsupportedInstruction(instruction: Instruction)
    /** `checkVersion` rejected the daemon. */
    | DaemonVersion(version: DockerVersion.VersionError)
    /** `GradleException`: "A base image is not configured". */
    | NoBaseImage
    /** `GradleException`: `docker image build` exited with a non-zero status. */
    | ImageBuildFailed(exitCode: int)

  /** What the compiler reads from the image buildable. `description` is its `toString`. */
  datatype Buildable = Buildable(
    distribution: OSDistribution,
    isolateFromExternalRepos: bool,
    dockerEphemeralMount: string,
    actualInstructions: seq<Instruction>,
    description: string)

  const DockerEphemeralDir: string := "ephemeral/docker"
  const OSPackagesDir: string := "ephemeral/packages"
  const RepositoryEphemeralDir: string := "ephemeral/repos"
  const ContextDir: string := "context"

  /** Marker in the names of the package-index files that travel with the local packages. */
  const MetaMarker: string := "__META__"

  // ---------------------------------------------------------------- install commands

  /** The packages an `Install` passes to the package manager: all but the index files. */
  function PackagesToInstall(packages: seq<string>): (r: seq<string>)
    ensures |r| <= |packages|
    ensures forall p :: p in r ==> p in packages && !Contains(p, MetaMarker)
  {
    if |packages| == 0 then []
    else (if Contains(packages[0], MetaMarker) then [] else [packages[0]]) + PackagesToInstall(packages[1..])
  }

  /** Exactly the packages whose names do not contain the marker are kept. */
  lemma {:induction false} PackagesToInstallMembers(packages: seq<string>)
    ensures forall p :: p in PackagesToInstall(packages) <==> p in packages && !Contains(p, MetaMarker)
  {
    if |packages| > 0 {
      PackagesToInstallMembers(packages[1..]);
      assert packages == [packages[0]] + packages[1..];
    }
  }

  /** Filtering keeps the order of the packages: it distributes over concatenation. */
  lemma {:induction false} PackagesToInstallAppend(a: seq<string>, b: seq<string>)
    ensures PackagesToInstall(a + b) == PackagesToInstall(a) + PackagesToInstall(b)
  {
    if |a| > 0 {
      PackagesToInstallAppend(a[1..], b);
      assert (a + b)[1..] == a[1..] + b;
      assert (a + b)[0] == a[0];
      var head := if Contains(a[0], MetaMarker) then [] else [a[0]];
      assert PackagesToInstall(a + b) == head + PackagesToInstall(a[1..] + b);
      assert PackagesToInstall(a) == head + PackagesToInstall(a[1..]);
    } else {
      assert a + b == b;
    }
  }

  const AptInstallWords: seq<string> := ["apt-get", "install", "-y"]
  /** Makes yum fail instead of skipping a package it cannot find. */
  const YumSkipMissingOption: string := "--setopt=skip_missing_names_on_install=False"
  const YumInstallWords: seq<string> := ["yum", "install", YumSkipMissingOption, "-y"]

  /** The install command's words before the package list, for the distributions that have one. */
  function InstallWords(d: OSDistribution): Option<seq<string>>
  {
    match d
    case Ubuntu => Some(AptInstallWords)
    case Debian => Some(AptInstallWords)
    case Centos => Some(YumInstallWords)
    case Other => None
  }

  /** The package-manager command of an `Install`: the distribution's install prefix and the
      kept packages separated by single spaces. */
  function InstallCommand(d: OSDistribution, packages: seq<string>): (r: Result<string, DaemonError>)
    ensures r.Err? <==> d == Other
  {
    var packagesToInstall := Join(PackagesToInstall(packages), " ");
    match d
    case Ubuntu => Ok("apt-get install -y " + packagesToInstall)
    case Debian => Ok("apt-get install -y " + packagesToInstall)
    case Centos => Ok("yum install " + YumSkipMissingOption + " -y " + packagesToInstall)
    case Other => Err(IllegalDistribution)
  }

  lemma {:induction false} AptPrefix()
    ensures "apt-get install -y " == DockerfileText.SpaceTerminated(AptInstallWords)
  {
    DockerfileText.SpaceTerminatedCons("-y", []);
    assert ["-y"] + [] == ["-y"];
    DockerfileText.SpaceTerminatedCons("install", ["-y"]);
    DockerfileText.SpaceTerminatedCons("apt-get", ["install", "-y"]);
    assert ["apt-get"] + ["install", "-y"] == AptInstallWords;
  }

  lemma {:induction false} YumPrefix()
    ensures "yum install " + YumSkipMissingOption + " -y " == DockerfileText.SpaceTerminated(YumInstallWords)
  {
    var setopt := YumSkipMissingOption;
    DockerfileText.SpaceTerminatedCons("-y", []);
    assert ["-y"] + [] == ["-y"];
    DockerfileText.SpaceTerminatedCons(setopt, ["-y"]);
    DockerfileText.SpaceTerminatedCons("install", [setopt, "-y"]);
    DockerfileText.SpaceTerminatedCons("yum", ["install", setopt, "-y"]);
    assert ["yum"] + ["install", setopt, "-y"] == YumInstallWords;
    YumWords(setopt);
  }

  lemma {:induction false} YumWords(option: string)
    ensures "yum install " + option + " -y " == "yum" + " " + ("install" + " " + (option + " " + ("-y" + " ")))
  {
  }

  /** Reading an install command back: its words are the distribution's install words followed
      by exactly the packages that are not index files, in their order. */
  lemma {:induction false} InstallCommandWords(d: OSDistribution, packages: seq<string>)
    requires d != Other
    requires |PackagesToInstall(packages)| > 0
    requires forall k :: 0 <= k < |packages| ==> ' ' !in packages[k]
    ensures InstallCommand(d, packages).Ok?
    ensures Split(InstallCommand(d, packages).value, ' ') == InstallWords(d).value + PackagesToInstall(packages)
  {
    var kept := PackagesToInstall(packages);
    forall k | 0 <= k < |kept| ensures ' ' !in kept[k] {
      assert kept[k] in packages;
    }
    var words := InstallWords(d).value;
    InstallWordsSpaceFree(d);
    InstallCommandLayout(d, packages);
    DockerfileText.SplitSpaceTerminated(words, Join(kept, [' ']));
    SplitJoin(kept, ' ');
  }

  lemma {:induction false} InstallWordsSpaceFree(d: OSDistribution)
    requires d != Other
    ensures forall k :: 0 <= k < |InstallWords(d).value| ==> ' ' !in InstallWords(d).value[k]
  {
  }

  /** The install command is the installer's words, each followed by a space, then the packages
      joined by spaces. */
  lemma {:induction false} InstallCommandLayout(d: OSDistribution, packages: seq<string>)
    requires d != Other
    ensures InstallCommand(d, packages).value ==
      DockerfileText.SpaceTerminated(InstallWords(d).value) + Join(PackagesToInstall(packages), [' '])
  {
    var joined := Join(PackagesToInstall(packages), " ");
    if d == Centos {
      YumPrefix();
      assert InstallCommand(d, packages).value == "yum install " + YumSkipMissingOption + " -y " + joined;
    } else {
      AptPrefix();
      assert InstallCommand(d, packages).value == "apt-get install -y " + joined;
    }
  }

  const AptCopyIndex: string := "cp /var/packages-from-gradle/__META__Packages* /var/packages-from-gradle/Packages.gz"
  const AptRemoveDockerClean: string := "rm -f /etc/apt/apt.conf.d/docker-clean"
  const AptKeepDownloaded: string :=
    "echo 'Binary::apt::APT::Keep-Downloaded-Packages \"true\";' > /etc/apt/apt.conf.d/docker-dirty"
  const AptUpdate: string := "apt-get update"
  const AptClean: string := "apt-get clean"
  const AptCleanup: string := "rm -rf /var/lib/apt/lists/* /tmp/* /var/tmp/* /etc/apt/apt.conf.d/90sslConfig"
  const YumEnterPackages: string := "cd /var/packages-from-gradle/"
  const YumUnpackIndex: string := "tar -xf __META__repodata*"
  const YumClean: string := "yum clean all"
  const YumCleanup: string := "rm -rf /var/cache/yum /tmp/* /var/tmp/*"

  /** `Stream.of(...).filter(s -> keep)`: the commands when `keep`, none otherwise. */
  function Only(keep: bool, commands: seq<string>): seq<string>
  {
    if keep then commands else []
  }

  /** `wrapInstallCommand`: the commands of the RUN that installs packages. With isolation the
      package index is set up from the local packages before and the caches are cleaned after;
      without it apt is told to keep what it downloads. */
  function WrapInstallCommand(d: OSDistribution, isolate: bool, command: string): (r: Result<seq<string>, DaemonError>)
    ensures r.Err? <==> d == Other
    ensures d.UsesApt() && isolate ==> r.value == [AptCopyIndex, AptUpdate, command, AptClean, AptCleanup]
    ensures d.UsesApt() && !isolate ==> r.value == [AptRemoveDockerClean, AptKeepDownloaded, AptUpdate, command]
    ensures d == Centos && isolate ==> r.value == [YumEnterPackages, YumUnpackIndex, command, YumClean, YumCleanup]
    ensures d == Centos && !isolate ==> r.value == [command]
  {
    match d
    case Ubuntu | Debian =>
      Ok(Only(isolate, [AptCopyIndex]) +
         Only(!isolate, [AptRemoveDockerClean, AptKeepDownloaded]) +
         [AptUpdate, command] +
         Only(isolate, [AptClean, AptCleanup]))
    case Centos =>
      Ok(Only(isolate, [YumEnterPackages, YumUnpackIndex]) +
         [command] +
         Only(isolate, [YumClean, YumCleanup]))
    case Other => Err(IllegalDistribution)
  }

  /** An install command is never `apt-get update` itself. */
  lemma {:induction false} AptInstallIsNotUpdate(d: OSDistribution, packages: seq<string>)
    requires d.UsesApt()
    ensures InstallCommand(d, packages).value != AptUpdate
  {
    var c := InstallCommand(d, packages).value;
    assert c[8] == 'i' && AptUpdate[8] == 'u';
  }

  /** In the RUN of an apt install, `apt-get update` runs exactly once (WrapInstallCommand's
      contract places it immediately before the install command). */
  lemma {:induction false} AptInstallRun(d: OSDistribution, isolate: bool, c: string)
    requires d.UsesApt() && c != AptUpdate
    ensures multiset(WrapInstallCommand(d, isolate, c).value)[AptUpdate] == 1
  {
    AptUpdateIsDistinct();
    if isolate {
      SecondOfFive(AptCopyIndex, AptUpdate, c, AptClean, AptCleanup);
    } else {
      ThirdOfFour(AptRemoveDockerClean, AptKeepDownloaded, AptUpdate, c);
    }
  }

  lemma {:induction false} SecondOfFive(a: string, x: string, c: string, d: string, e: string)
    requires x != a && x != c && x != d && x != e
    ensures multiset([a, x, c, d, e])[x] == 1
  {
    assert multiset([a, x, c, d, e]) == multiset{a, x, c, d, e};
  }

  lemma {:induction false} ThirdOfFour(a: string, b: string, x: string, d: string)
    requires x != a && x != b && x != d
    ensures multiset([a, b, x, d])[x] == 1
  {
    assert multiset([a, b, x, d]) == multiset{a, b, x, d};
  }

  lemma {:induction false} AptUpdateIsDistinct()
    ensures AptUpdate != AptCopyIndex && AptUpdate != AptClean && AptUpdate != AptCleanup
    ensures AptUpdate != AptRemoveDockerClean && AptUpdate != AptKeepDownloaded
  {
    assert |AptUpdate| == 14 && |AptClean| == 13;
    assert |AptCopyIndex| > 14 && |AptCleanup| > 14;
    assert |AptRemoveDockerClean| > 14 && |AptKeepDownloaded| > 14;
  }

  /** `convertInstallToRun` for one instruction and the current user: an `Install` becomes a
      switch to root, the install RUN, and a switch back to `user`; any other instruction stays
      as it is. */
  function Expand(b: Buildable, i: Instruction, user: string): (r: Result<seq<Instruction>, DaemonError>)
    ensures !i.Install? ==> r == Ok([i])
    ensures i.Install? ==> (r.Err? <==> b.distribution == Other)
    ensures i.Install? && r.Ok? ==>
      |r.value| == 3 && r.value[0] == SetUser("root") && r.value[1].Run? && r.value[2] == SetUser(user) &&
      r.value[1].commands == WrapInstallCommand(b.distribution, b.isolateFromExternalRepos,
                                                InstallCommand(b.distribution, i.packages).value).value
  {
    match i
    case Install(packages) =>
      (match InstallCommand(b.distribution, packages)
       case Err(e) => Err(e)
       case Ok(command) =>
         match WrapInstallCommand(b.distribution, b.isolateFromExternalRepos, command)
         case Err(e) => Err(e)
         case Ok(commands) => Ok([SetUser("root"), Run(commands), SetUser(user)]))
    case _ => Ok([i])
  }

  // ---------------------------------------------------------------- bind mounts

  /** Where the repository definition is mounted, and what is mounted there. */
  function RepoMount(d: OSDistribution): (r: Option<(string, string)>)
    ensures r.None? <==> d == Other
  {
    match d
    case Ubuntu => Some(("/etc/apt/sources.list", RepositoryEphemeralDir + "/sources.list"))
    case Debian => Some(("/etc/apt/sources.list", RepositoryEphemeralDir + "/sources.list"))
    case Centos => Some(("/etc/yum.repos.d", RepositoryEphemeralDir))
    case Other => None
  }

  const PackagesMountTarget: string := "/var/packages-from-gradle"

  function EphemeralMountKey(b: Buildable): string
  {
    "readonly,target=" + b.dockerEphemeralMount
  }

  function RepoMountKey(target: string): string
  {
    "readonly,target=" + target
  }

  const PackagesMountKey: string := "readwrite,target=/var/packages-from-gradle"

  /** A read-only mount never has the key of the read-write packages mount. */
  lemma {:induction false} ReadonlyIsNotPackages(target: string)
    ensures RepoMountKey(target) != PackagesMountKey
  {
    assert RepoMountKey(target)[4] == 'o' && PackagesMountKey[4] == 'w';
  }

  /** `getBindMounts`: mount options (without `type=bind`) to the directory mounted there. The
      docker-ephemeral directory is always mounted; with isolation, so are the repository
      definition and the local packages. Later entries replace earlier ones with the same key. */
  function BindMounts(b: Buildable): (r: Result<map<string, string>, DaemonError>)
    ensures r.Err? <==> b.isolateFromExternalRepos && b.distribution == Other
    ensures r.Ok? ==> EphemeralMountKey(b) in r.value
    ensures r.Ok? && !b.isolateFromExternalRepos ==>
      r.value == map[EphemeralMountKey(b) := DockerEphemeralDir]
    ensures r.Ok? && b.isolateFromExternalRepos ==>
      var (target, source) := RepoMount(b.distribution).value;
      r.value.Keys == {EphemeralMountKey(b), RepoMountKey(target), PackagesMountKey} &&
      r.value[RepoMountKey(target)] == source && r.value[PackagesMountKey] == OSPackagesDir &&
      (EphemeralMountKey(b) != RepoMountKey(target) ==> r.value[EphemeralMountKey(b)] == DockerEphemeralDir)
  {
    var result := map[EphemeralMountKey(b) := DockerEphemeralDir];
    if !b.isolateFromExternalRepos then Ok(result)
    else
      match RepoMount(b.distribution)
      case None => Err(IllegalDistribution)
      case Some((target, source)) =>
        ReadonlyIsNotPackages(b.dockerEphemeralMount);
        ReadonlyIsNotPackages(target);
        Ok(result[RepoMountKey(target) := source][PackagesMountKey := OSPackagesDir])
  }

  /** The table has one entry without isolation; with it, three, unless the docker-ephemeral
      mount point is the repository definition's mount point, whose entry then replaces it. */
  lemma {:induction false} BindMountCount(b: Buildable)
    requires BindMounts(b).Ok?
    ensures var m := BindMounts(b).value;
      (!b.isolateFromExternalRepos ==> |m| == 1) &&
      (b.isolateFromExternalRepos ==>
        var target := RepoMount(b.distribution).value.0;
        |m| == (if b.dockerEphemeralMount == target then 2 else 3))
  {
    var m := BindMounts(b).value;
    if b.isolateFromExternalRepos {
      var target := RepoMount(b.distribution).value.0;
      var e, rk := EphemeralMountKey(b), RepoMountKey(target);
      ReadonlyIsNotPackages(b.dockerEphemeralMount);
      ReadonlyIsNotPackages(target);
      if b.dockerEphemeralMount == target {
        assert m.Keys == {rk, PackagesMountKey};
      } else {
        assert e != rk by {
          assert e[16..] == b.dockerEphemeralMount && rk[16..] == target;
        }
        assert m.Keys == {e, rk, PackagesMountKey};
      }
    }
  }

  /** The order in which a `HashMap` hands out its keys: every key once. */
  predicate Enumerates(order: seq<string>, keys: set<string>)
  {
    (forall k :: k in keys ==> k in order) &&
    (forall i, j :: 0 <= i < j < |order| ==> order[i] != order[j])
  }

  /** The keys of `m` in iteration order. */
  function MountKeys(m: map<string, string>, order: seq<string>): (r: seq<string>)
    ensures forall k :: k in r ==> k in m && k in order
    ensures |r| <= |order|
  {
    if |order| == 0 then []
    else (if order[0] in m then [order[0]] else []) + MountKeys(m, order[1..])
  }

  /** When `order` enumerates the keys, iteration visits every entry exactly once. */
  lemma {:induction false} MountKeysEnumerate(m: map<string, string>, order: seq<string>)
    requires Enumerates(order, m.Keys)
    ensures forall k :: k in MountKeys(m, order) <==> k in m
    ensures forall i, j :: 0 <= i < j < |MountKeys(m, order)| ==> MountKeys(m, order)[i] != MountKeys(m, order)[j]
  {
    if |order| > 0 {
      var rest := order[1..];
      MountKeysEnumerate(m - {order[0]}, rest);
      MountKeysRestrict(m, order[0], rest);
    }
  }

  lemma {:induction false} MountKeysRestrict(m: map<string, string>, first: string, rest: seq<string>)
    requires first !in rest
    ensures MountKeys(m - {first}, rest) == MountKeys(m, rest)
  {
    if |rest| > 0 {
      MountKeysRestrict(m, first, rest[1..]);
    }
  }

  /** One `--mount` flag of a RUN. */
  function MountFlag(key: string, source: string): string
  {
    "--mount=type=bind," + key + ",source=" + source
  }

  function MountFlags(m: map<string, string>, keys: seq<string>): (r: seq<string>)
    requires forall k :: k in keys ==> k in m
    ensures |r| == |keys|
    ensures forall i :: 0 <= i < |keys| ==> r[i] == MountFlag(keys[i], m[keys[i]])
  {
    seq(|keys|, i requires 0 <= i < |keys| => MountFlag(keys[i], m[keys[i]]))
  }

  /** The `--mount` flags of every RUN, separated by spaces, in iteration order. */
  function MountOptions(m: map<string, string>, order: seq<string>): string
  {
    Join(MountFlags(m, MountKeys(m, order)), " ")
  }

  /** With mount points free of spaces, the words of the mount options are the `--mount` flags
      of the entries of the table in iteration order (each entry once, by MountKeysEnumerate). */
  lemma {:induction false} MountOptionsWords(b: Buildable, order: seq<string>)
    requires BindMounts(b).Ok?
    requires EphemeralMountKey(b) in order
    requires ' ' !in b.dockerEphemeralMount
    ensures var m := BindMounts(b).value;
      Split(MountOptions(m, order), ' ') == MountFlags(m, MountKeys(m, order))
  {
    var m := BindMounts(b).value;
    var keys := MountKeys(m, order);
    var flags := MountFlags(m, keys);
    MountKeysContain(m, order, EphemeralMountKey(b));
    forall k | 0 <= k < |flags| ensures ' ' !in flags[k] {
      MountEntrySpaceFree(b, keys[k]);
    }
    SplitJoin(flags, ' ');
  }

  lemma {:induction false} MountKeysContain(m: map<string, string>, order: seq<string>, k: string)
    requires k in m && k in order
    ensures k in MountKeys(m, order)
  {
    if order[0] != k {
      MountKeysContain(m, order[1..], k);
    }
  }

  /** Every directory the table mounts is one of the working directory's fixed ones. */
  lemma {:induction false} BindMountSources(b: Buildable, key: string)
    requires BindMounts(b).Ok? && key in BindMounts(b).value
    ensures BindMounts(b).value[key] in
      [DockerEphemeralDir, RepositoryEphemeralDir + "/sources.list", RepositoryEphemeralDir, OSPackagesDir]
  {
  }

  lemma {:induction false} MountEntrySpaceFree(b: Buildable, key: string)
    requires BindMounts(b).Ok? && key in BindMounts(b).value
    requires ' ' !in b.dockerEphemeralMount
    ensures ' ' !in MountFlag(key, BindMounts(b).value[key])
  {
    var m := BindMounts(b).value;
    BindMountSources(b, key);
    SourcesSpaceFree();
    BindMountKeySpaceFree(b, key);
    MountFlagSpaceFree(key, m[key]);
  }

  lemma {:induction false} SourcesSpaceFree()
    ensures ' ' !in DockerEphemeralDir && ' ' !in RepositoryEphemeralDir + "/sources.list"
    ensures ' ' !in RepositoryEphemeralDir && ' ' !in OSPackagesDir
  {
  }

  lemma {:induction false} BindMountKeySpaceFree(b: Buildable, key: string)
    requires BindMounts(b).Ok? && key in BindMounts(b).value
    requires ' ' !in b.dockerEphemeralMount
    ensures ' ' !in key
  {
    ReadonlyKeySpaceFree(b.dockerEphemeralMount);
    assert EphemeralMountKey(b) == RepoMountKey(b.dockerEphemeralMount);
    if b.isolateFromExternalRepos {
      var target := RepoMount(b.distribution).value.0;
      RepoTargetSpaceFree(b.distribution);
      ReadonlyKeySpaceFree(target);
      PackagesKeySpaceFree();
    }
  }

  lemma {:induction false} ReadonlyKeySpaceFree(target: string)
    requires ' ' !in target
    ensures ' ' !in RepoMountKey(target)
  {
  }

  lemma {:induction false} RepoTargetSpaceFree(d: OSDistribution)
    requires d != Other
    ensures ' ' !in RepoMount(d).value.0
  {
  }

  lemma {:induction false} PackagesKeySpaceFree()
    ensures ' ' !in PackagesMountKey
  {
  }

  lemma {:induction false} MountFlagSpaceFree(key: string, source: string)
    requires ' ' !in key && ' ' !in source
    ensures ' ' !in MountFlag(key, source)
  {
  }

  // ---------------------------------------------------------------- rendering

  /** `workingDir.relativize(getContextDir().resolve(layer))` for a plain relative layer path:
      resolving the empty path gives the context directory itself. */
  function ContextPath(layer: string): (r: string)
    ensures ContextDir <= r
    ensures layer == "" <==> r == ContextDir
  {
    if layer == "" then ContextDir else ContextDir + "/" + layer
  }

  /** `instructionAsDockerFileInstruction` without its effect on the current user: the text of
      one instruction. `Install` has no text of its own (it is expanded first), and neither has
      an unsupported kind. */
  function RenderOne(b: Buildable, order: seq<string>, i: Instruction): (r: Result<string, DaemonError>)
    ensures r.Err? <==>
      (i.Install? || i.Unsupported? || (i.Run? && BindMounts(b).Err?))
    ensures r.Err? && !i.Run? ==> r.error == UnsupportedInstruction(i)
    ensures i.RepoConfigRun? ==> (r == Ok("") <==> b.isolateFromExternalRepos)
    ensures i.RepoConfigRun? && !b.isolateFromExternalRepos ==>
      r == Ok("RUN " + Join(i.commands, DockerfileText.RunCommandSeparator))
    ensures i.Run? && BindMounts(b).Ok? ==>
      r == Ok("RUN " + MountOptions(BindMounts(b).value, order) + "\\\n " +
              Join(i.commands, DockerfileText.RunCommandSeparator))
  {
    match i
    case From(reference) => Ok("FROM " + reference)
    case FromLocalImageBuild(otherProjectPath, tag, _) =>
      Ok("# " + otherProjectPath + "\n" + "FROM " + tag)
    case Copy(layer, owner) =>
      Ok("COPY " + DockerfileText.ChownFlag(owner) + ContextPath(layer) + " /")
    case Run(commands) =>
      (match BindMounts(b)
       case Err(e) => Err(e)
       case Ok(m) =>
         Ok("RUN " + MountOptions(m, order) + "\\\n " + Join(commands, DockerfileText.RunCommandSeparator)))
    case RepoConfigRun(commands) =>
      if b.isolateFromExternalRepos then Ok("")
      else Ok("RUN " + Join(commands, DockerfileText.RunCommandSeparator))
    case CreateUser(username, userId, group, groupId) =>
      Ok(DockerfileText.CreateUserScript(username, userId, group, groupId))
    case SetUser(username) => Ok("USER " + username)
    case Env(key, value) => Ok("ENV " + key + "=" + value)
    case HealthCheck(check) => Ok("HEALTHCHECK " + DockerfileText.HealthcheckInstruction(check))
    case Install(_) => Err(UnsupportedInstruction(i))
    case Unsupported(_) => Err(UnsupportedInstruction(i))
  }

  /** The user after an instruction has been rendered: only `SetUser` changes it. */
  function UserAfter(user: string, i: Instruction): (u: string)
    ensures i.SetUser? ==> u == i.username
    ensures !i.SetUser? ==> u == user
  {
    if i.SetUser? then i.username else user
  }

  // ---------------------------------------------------------------- companion files

  /** The fixed header of every generated Dockerfile. */
  function Header(b: Buildable, uuid: string): string
  {
    "##########################################################\n" +
    "#                                                        #\n" +
    "#                Auto generated Dockerfile               #\n" +
    "#                                                        #\n" +
    "##########################################################\n" +
    "# syntax = docker/dockerfile:1.3\n" +
    "# Internal UUID: " + uuid + "\n" +
    "# Building " + b.description + "\n\n"
  }

  /** The URL of the local package directory, as `java.net.URL` prints `file:///...`. */
  const PackagesUrl: string := "file:/var/packages-from-gradle"
  const RepoName: string := "gradle-configuration"

  /** `generateEphemeralRepositories`: the name and the lines of the repository definition written
      into the repositories directory, pointing the package manager at the local packages. */
  function RepoFile(d: OSDistribution): (r: Result<(string, seq<string>), DaemonError>)
    ensures r.Err? <==> d == Other
  {
    match d
    case Centos =>
      Ok((RepoName + ".repo",
          ["[" + RepoName + "]", "name=" + RepoName, "baseurl=" + PackagesUrl, "enabled=1", "gpgcheck=0"]))
    case Ubuntu => Ok(("sources.list", ["deb [trusted=yes] " + PackagesUrl + " /"]))
    case Debian => Ok(("sources.list", ["deb [trusted=yes] " + PackagesUrl + " /"]))
    case Other => Err(IllegalDistribution)
  }

  /** With isolation, the repository definition that is written is the one that is mounted: apt
      gets the file itself at `/etc/apt/sources.list`, yum gets the directory holding the
      `.repo` file at `/etc/yum.repos.d`; and the local packages are mounted read-write. */
  lemma {:induction false} RepoFileIsMounted(b: Buildable)
    requires b.isolateFromExternalRepos && b.distribution != Other
    ensures var name := RepoFile(b.distribution).value.0;
      var m := BindMounts(b).value;
      var target := RepoMount(b.distribution).value.0;
      var source := RepoMount(b.distribution).value.1;
      RepoMountKey(target) in m && m[RepoMountKey(target)] == source &&
      PackagesMountKey in m && m[PackagesMountKey] == OSPackagesDir &&
      (b.distribution.UsesApt() ==> source == RepositoryEphemeralDir + "/" + name && target == "/etc/apt/sources.list") &&
      (b.distribution == Centos ==> source == RepositoryEphemeralDir && target == "/etc/yum.repos.d" &&
                                    name == RepoName + ".repo")
  {
    var m := BindMounts(b).value;
    var target := RepoMount(b.distribution).value.0;
    assert RepoMountKey(target) in m.Keys;
  }

  /** The repository definition names the URL of the mount point of the local packages: the
      `baseurl` line for yum, the one `deb` line for apt. */
  lemma {:induction false} RepoFileNamesPackages(d: OSDistribution)
    requires d != Other
    ensures var lines := RepoFile(d).value.1;
      "file:" + PackagesMountTarget == PackagesUrl &&
      (d == Centos ==> |lines| == 5 && lines[2] == "baseurl=" + PackagesUrl) &&
      (d.UsesApt() ==> |lines| == 1 && Contains(lines[0], PackagesUrl))
  {
    PackagesUrlNamesMount();
    if d != Centos {
      ContainsMiddle("deb [trusted=yes] ", PackagesUrl, " /");
    }
  }

  lemma {:induction false} PackagesUrlNamesMount()
    ensures "file:" + PackagesMountTarget == PackagesUrl
  {
  }

  lemma {:induction false} ContainsMiddle(p: string, t: string, q: string)
    ensures Contains(p + t + q, t)
  {
    assert (p + t + q)[|p|..|p| + |t|] == t;
    ContainsAt(p + t + q, t, |p|);
  }

  /** The directories mounted for the given keys, each as an exception line of `.dockerignore`. */
  function IgnoreExceptions(m: map<string, string>, keys: seq<string>): (r: seq<string>)
    requires forall k :: k in keys ==> k in m
    ensures |r| == |keys|
    ensures forall i :: 0 <= i < |keys| ==> r[i] == "!" + m[keys[i]]
  {
    seq(|keys|, i requires 0 <= i < |keys| => "!" + m[keys[i]])
  }

  /** The text of `.dockerignore`: ignore everything but the context directory and the mounted
      directories (in iteration order). */
  function IgnoreManifest(m: map<string, string>, order: seq<string>): string
  {
    "**\n" + Join(["!" + ContextDir] + IgnoreExceptions(m, MountKeys(m, order)), "\n")
  }

  /** The lines of `.dockerignore`: `**`, `!context`, then one exception per mounted
      directory, in iteration order (none of the mounted directories has a line break, by
      BindMountSources). */
  lemma {:induction false} IgnoreManifestLines(m: map<string, string>, order: seq<string>)
    requires forall k :: k in m ==> '\n' !in m[k]
    ensures Split(IgnoreManifest(m, order), '\n') == ["**", "!context"] + IgnoreExceptions(m, MountKeys(m, order))
  {
    var keys := MountKeys(m, order);
    var exceptions := IgnoreExceptions(m, keys);
    var parts := ["!" + ContextDir] + exceptions;
    forall k | 0 <= k < |parts| ensures '\n' !in parts[k] {
      if k > 0 {
        assert parts[k] == exceptions[k - 1];
      }
    }
    IgnoreLines(parts);
    assert "!" + ContextDir == "!context";
    assert parts == ["!context"] + exceptions;
    assert ["**"] + (["!context"] + exceptions) == ["**", "!context"] + exceptions;
  }

  lemma {:induction false} IgnoreLines(parts: seq<string>)
    requires |parts| > 0
    requires forall k :: 0 <= k < |parts| ==> '\n' !in parts[k]
    ensures Split("**\n" + Join(parts, "\n"), '\n') == ["**"] + parts
  {
    SplitJoin(parts, '\n');
    SplitAtSeparator("**", '\n', Join(parts, ['\n']));
    assert "**\n" + Join(parts, "\n") == "**" + ['\n'] + Join(parts, ['\n']);
  }
}

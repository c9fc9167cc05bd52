/** The legacy Dockerfile compiler (`buildSrc`): a list of instructions rendered one block each
    after a fixed banner, install commands for yum, apt and apk, and the workaround installer
    `CONFIG` whose "packages" are shell commands. */
module LegacyDaemon {
  import opened Wrappers
  import opened Text
  import DockerfileText

  // ---------------------------------------------------------------- install commands

  /** The package managers an `Install` instruction names. */
  datatype Installer = Yum | Apt | Apk

  datatype Package = Package(name: string, version: string)

  /** How yum pins a package: `name-version`. */
  function YumItem(p: Package): string { p.name + "-" + p.version }

  /** How apt and apk pin a package: `name=version`. */
  function PinItem(p: Package): string { p.name + "=" + p.version }

  function YumItems(packages: seq<Package>): (r: seq<string>)
    ensures |r| == |packages|
    ensures forall k :: 0 <= k < |r| ==> r[k] == YumItem(packages[k])
  {
    seq(|packages|, k requires 0 <= k < |packages| => YumItem(packages[k]))
  }

  function PinItems(packages: seq<Package>): (r: seq<string>)
    ensures |r| == |packages|
    ensures forall k :: 0 <= k < |r| ==> r[k] == PinItem(packages[k])
  {
    seq(|packages|, k requires 0 <= k < |packages| => PinItem(packages[k]))
  }

  const YumInstallWords: seq<string> := ["yum", "install", "-y"]
  const AptInstallWords: seq<string> := ["apt-get", "install", "-y"]
  const ApkInstallWords: seq<string> := ["apk", "add"]

  /** The words that start the command installing the packages. */
  function InstallWords(installer: Installer): seq<string>
  {
    match installer
    case Yum => YumInstallWords
    case Apt => AptInstallWords
    case Apk => ApkInstallWords
  }

  /** The pinned items of the packages, in the form the installer expects. */
  function Items(installer: Installer, packages: seq<Package>): seq<string>
  {
    if installer == Yum then YumItems(packages) else PinItems(packages)
  }

  /** The new `installCommands`: update (apt, apk), install the pinned packages in list order,
      then clean caches: three commands for yum and apk, five for apt. */
  function InstallCommands(installer: Installer, packages: seq<Package>): (r: seq<string>)
    ensures |r| == (if installer == Apt then 5 else 3)
    ensures installer == Yum ==> r[0] == "yum install -y " + Join(YumItems(packages), " ")
    ensures installer == Apt ==> r[2] == "apt-get install -y " + Join(PinItems(packages), " ")
    ensures installer == Apk ==> r[1] == "apk add " + Join(PinItems(packages), " ")
  {
    match installer
    case Yum => [
      "yum install -y " + Join(YumItems(packages), " "),
      "yum clean all",
      "rm -rf /var/cache/yum"]
    case Apt => [
      "export DEBIAN_FRONTEND=noninteractive",
      "apt-get update",
      "apt-get install -y " + Join(PinItems(packages), " "),
      "apt-get clean",
      "rm -rf /var/lib/apt/lists/* /tmp/* /var/tmp/*"]
    case Apk => [
      "apk update",
      "apk add " + Join(PinItems(packages), " "),
      "rm -rf /var/cache/apk/*"]
  }

  /** The position of the install command among the commands. */
  function InstallIndex(installer: Installer): nat
  {
    match installer
    case Yum => 0
    case Apt => 2
    case Apk => 1
  }

  lemma {:induction false} YumPrefix()
    ensures DockerfileText.SpaceTerminated(YumInstallWords) == "yum install -y "
  {
    DockerfileText.SpaceTerminatedCons("-y", []);
    assert ["-y"] + [] == ["-y"];
    DockerfileText.SpaceTerminatedCons("install", ["-y"]);
    DockerfileText.SpaceTerminatedCons("yum", ["install", "-y"]);
    assert ["yum"] + ["install", "-y"] == YumInstallWords;
  }

  lemma {:induction false} AptPrefix()
    ensures DockerfileText.SpaceTerminated(AptInstallWords) == "apt-get install -y "
  {
    DockerfileText.SpaceTerminatedCons("-y", []);
    assert ["-y"] + [] == ["-y"];
    DockerfileText.SpaceTerminatedCons("install", ["-y"]);
    DockerfileText.SpaceTerminatedCons("apt-get", ["install", "-y"]);
    assert ["apt-get"] + ["install", "-y"] == AptInstallWords;
  }

  lemma {:induction false} ApkPrefix()
    ensures DockerfileText.SpaceTerminated(ApkInstallWords) == "apk add "
  {
    DockerfileText.SpaceTerminatedCons("add", []);
    assert ["add"] + [] == ["add"];
    DockerfileText.SpaceTerminatedCons("apk", ["add"]);
    assert ["apk"] + ["add"] == ApkInstallWords;
  }

  /** The install command is the installer's words, each followed by a space, then the items. */
  lemma {:induction false} InstallCommandLayout(installer: Installer, packages: seq<Package>)
    ensures InstallCommands(installer, packages)[InstallIndex(installer)] ==
      DockerfileText.SpaceTerminated(InstallWords(installer)) + Join(Items(installer, packages), " ")
  {
    match installer {
      case Yum => YumPrefix();
      case Apt => AptPrefix();
      case Apk => ApkPrefix();
    }
  }

  /** When no name or version holds a space, the words of the install command are the
      installer's words followed by one pinned item per package, in list order. */
  lemma {:induction false} InstallCommandWords(installer: Installer, packages: seq<Package>)
    requires |packages| > 0
    requires forall k :: 0 <= k < |packages| ==> ' ' !in packages[k].name && ' ' !in packages[k].version
    ensures Split(InstallCommands(installer, packages)[InstallIndex(installer)], ' ') ==
      InstallWords(installer) + Items(installer, packages)
  {
    InstallCommandLayout(installer, packages);
    var items := Items(installer, packages);
    var words := InstallWords(installer);
    assert forall k :: 0 <= k < |items| ==> ' ' !in items[k] by {
      forall k | 0 <= k < |items| ensures ' ' !in items[k] {
        var p := packages[k];
        assert items[k] == p.name + (if installer == Yum then "-" else "=") + p.version;
      }
    }
    assert forall k :: 0 <= k < |words| ==> ' ' !in words[k];
    DockerfileText.SplitSpaceTerminated(words, Join(items, " "));
    SplitJoin(items, ' ');
  }

  /** An apt or apk pin splits at `=` into the name and the version when neither holds `=`. */
  lemma {:induction false} PinItemParts(p: Package)
    requires '=' !in p.name && '=' !in p.version
    ensures Split(PinItem(p), '=') == [p.name, p.version]
  {
    SplitAtSeparator(p.name, '=', p.version);
    SplitNoSeparator(p.version, '=');
    assert PinItem(p) == p.name + ['='] + p.version;
  }

  /** A yum pin starts with the name; when the name holds no hyphen, the first piece between
      hyphens is the name and the rest are the pieces of the version. */
  lemma {:induction false} YumItemParts(p: Package)
    requires '-' !in p.name
    ensures Split(YumItem(p), '-') == [p.name] + Split(p.version, '-')
  {
    SplitAtSeparator(p.name, '-', p.version);
    assert YumItem(p) == p.name + ['-'] + p.version;
  }

  // ---------------------------------------------------------------- the legacy installer

  /** The installers the older package DSL offers: `CONFIG` is the workaround whose package
      names are run verbatim as commands. */
  datatype LegacyInstaller = Config | LegacyYum | LegacyApt | LegacyApk

  datatype LegacyPackage = LegacyPackage(name: string, version: string)

  function ToInstaller(installer: LegacyInstaller): Installer
    requires installer != Config
  {
    match installer
    case LegacyYum => Yum
    case LegacyApt => Apt
    case LegacyApk => Apk
  }

  /** Each legacy package as a `(name, version)` package of the `Install` instruction. */
  function Converted(packages: seq<LegacyPackage>): (r: seq<Package>)
    ensures |r| == |packages|
    ensures forall k :: 0 <= k < |r| ==> r[k] == Package(packages[k].name, packages[k].version)
  {
    seq(|packages|, k requires 0 <= k < |packages| => Package(packages[k].name, packages[k].version))
  }

  /** The commands of a legacy package set: the names for `CONFIG`, otherwise the new
      installer's commands for the same names and versions. */
  function LegacyCommands(installer: LegacyInstaller, packages: seq<LegacyPackage>): (r: seq<string>)
    ensures installer == Config ==>
      |r| == |packages| && forall k :: 0 <= k < |r| ==> r[k] == packages[k].name
    ensures installer != Config ==> |r| == (if installer == LegacyApt then 5 else 3)
  {
    if installer == Config
    then seq(|packages|, k requires 0 <= k < |packages| => packages[k].name)
    else InstallCommands(ToInstaller(installer), Converted(packages))
  }

  /** The legacy `installCommands`: collects into a fresh list either the package names or the
      commands of the matching new installer. */
  method LegacyInstallCommands(installer: LegacyInstaller, packages: seq<LegacyPackage>) returns (result: seq<string>)
    ensures installer == Config ==>
      |result| == |packages| && forall k :: 0 <= k < |packages| ==> result[k] == packages[k].name
    ensures installer != Config ==> result == InstallCommands(ToInstaller(installer), Converted(packages))
    ensures result == LegacyCommands(installer, packages)
  {
    result := [];
    match installer {
      case Config =>
        var names: seq<string> := [];
        for k := 0 to |packages|
          invariant |names| == k
          invariant forall j :: 0 <= j < k ==> names[j] == packages[j].name
        {
          names := names + [packages[k].name];
        }
        result := result + names;
      case LegacyYum =>
        result := result + InstallCommands(Yum, Converted(packages));
      case LegacyApt =>
        result := result + InstallCommands(Apt, Converted(packages));
      case LegacyApk =>
        result := result + InstallCommands(Apk, Converted(packages));
    }
  }

  // ---------------------------------------------------------------- instructions

  /** An image reference: `image:version`, pinned to a digest when `sha` is present. */
  datatype Image = Image(image: string, version: string, sha: Option<string>)

  datatype Instruction =
    | From(from: Image)
    /** An image built by another project, rendered as the `From` its `toFrom()` gives. */
    | FromDockerBuildContext(target: Image)
    | Copy(layer: string, owner: Option<string>)
    | Run(commands: seq<string>)
    | CreateUser(username: string, userId: int, group: string, groupId: int)
    | SetUser(username: string)
    | Install(installer: Installer, packages: seq<Package>)
    | Env(key: string, value: string)
    | HealthCheck(check: DockerfileText.HealthCheck)
    /** Any other kind of instruction, which the daemon build rejects. */
    | Unsupported(description: string)

  datatype LegacyError = UnsupportedInstruction(instruction: Instruction)

  /** The ephemeral configuration: whether its file exists, and its file name. */
  datatype Ephemeral = Ephemeral(present: bool, fileName: string)

  const EphemeralMount: string := "/mnt/dockerEphemeral"

  /** The bind mount of the ephemeral configuration, only when the file exists. */
  function MountDependencies(e: Ephemeral): string
  {
    if e.present then "--mount=type=bind,target=" + EphemeralMount + ",source=" + e.fileName else ""
  }

  function FromLine(f: Image): string
  {
    "FROM " + f.image + ":" + f.version + (match f.sha case Some(s) => "@" + s case None => "")
  }

  /** A RUN of commands, behind the mount prefix and one space (two spaces when there is no
      mount). */
  function RunLine(e: Ephemeral, commands: seq<string>): string
  {
    "RUN " + MountDependencies(e) + " " + Join(commands, DockerfileText.RunCommandSeparator)
  }

  /** `instructionAsDockerFileInstruction`: the Dockerfile text of one instruction, or the error
      for a kind it does not support. */
  function Render(i: Instruction, e: Ephemeral): (r: Result<string, LegacyError>)
    decreases if i.FromDockerBuildContext? then 1 else 0
    ensures r.Err? <==> i.Unsupported?
    ensures r.Err? ==> r.error == UnsupportedInstruction(i)
    ensures i.From? ==> r == Ok(FromLine(i.from))
    ensures i.FromDockerBuildContext? ==> r == Ok(FromLine(i.target))
    ensures i.Install? ==> r == Ok(RunLine(e, InstallCommands(i.installer, i.packages)))
    ensures i.Run? ==> r == Ok(RunLine(e, i.commands))
  {
    match i
    case From(f) => Ok(FromLine(f))
    case FromDockerBuildContext(f) => Render(From(f), e)
    case Copy(layer, owner) => Ok("COPY " + DockerfileText.ChownFlag(owner) + layer + " /")
    case Run(commands) => Ok(RunLine(e, commands))
    case CreateUser(username, userId, group, groupId) =>
      Ok(DockerfileText.CreateUserScript(username, userId, group, groupId))
    case SetUser(username) => Ok("USER " + username)
    case Install(installer, packages) => Ok(RunLine(e, InstallCommands(installer, packages)))
    case Env(key, value) => Ok("ENV " + key + "=" + value)
    case HealthCheck(h) => Ok("HEALTHCHECK " + DockerfileText.HealthcheckInstruction(h))
    case Unsupported(_) => Err(UnsupportedInstruction(i))
  }

  /** The digest appears, after an `@`, exactly when the reference has one: the rendered line
      splits at `@` into the unpinned line and, when present, the digest. */
  lemma {:induction false} FromLineParts(f: Image)
    requires '@' !in f.image && '@' !in f.version
    requires f.sha.Some? ==> '@' !in f.sha.value
    ensures Split(FromLine(f), '@') ==
      ["FROM " + f.image + ":" + f.version] + (if f.sha.Some? then [f.sha.value] else [])
  {
    var unpinned := "FROM " + f.image + ":" + f.version;
    assert '@' !in unpinned by {
      assert unpinned == "FROM " + (f.image + ":" + f.version);
      assert forall k :: 0 <= k < |"FROM "| ==> "FROM "[k] != '@';
    }
    if f.sha.Some? {
      assert FromLine(f) == unpinned + ['@'] + f.sha.value;
      SplitAtSeparator(unpinned, '@', f.sha.value);
      SplitNoSeparator(f.sha.value, '@');
    } else {
      assert FromLine(f) == unpinned;
      SplitNoSeparator(unpinned, '@');
    }
  }

  lemma {:induction false} MountSpaceFree(e: Ephemeral)
    requires ' ' !in e.fileName
    ensures ' ' !in MountDependencies(e)
  {
    if e.present {
      assert ' ' !in "--mount=type=bind,target=" + EphemeralMount + ",source=";
    }
  }

  /** The words of a RUN: `RUN`, then the mount (the empty word when the ephemeral file does not
      exist), then the words of the joined commands. */
  lemma {:induction false} RunLineWords(e: Ephemeral, commands: seq<string>)
    requires ' ' !in e.fileName
    ensures Split(RunLine(e, commands), ' ') ==
      ["RUN", MountDependencies(e)] + Split(Join(commands, DockerfileText.RunCommandSeparator), ' ')
  {
    var mount := MountDependencies(e);
    var body := Join(commands, DockerfileText.RunCommandSeparator);
    MountSpaceFree(e);
    assert RunLine(e, commands) == "RUN" + [' '] + (mount + [' '] + body);
    SplitAtSeparator("RUN", ' ', mount + [' '] + body);
    SplitAtSeparator(mount, ' ', body);
  }

  // ---------------------------------------------------------------- the Dockerfile

  const Banner: string :=
    "#############################\n" +
    "#                           #\n" +
    "# Auto generated Dockerfile #\n" +
    "#                           #\n" +
    "#############################\n\n"

  const SyntaxLine: string := "# syntax = docker/dockerfile:experimental"

  /** The reduction `reduce("", (acc, value) -> acc + "\n\n" + value)` over the rendered
      instructions; the first unsupported instruction aborts it. */
  function Blocks(instrs: seq<Instruction>, e: Ephemeral): (r: Result<string, LegacyError>)
  {
    if |instrs| == 0 then Ok("")
    else
      match Blocks(instrs[..|instrs| - 1], e)
      case Err(err) => Err(err)
      case Ok(acc) =>
        match Render(instrs[|instrs| - 1], e)
        case Err(err) => Err(err)
        case Ok(value) => Ok(acc + "\n\n" + value)
  }

  /** `dockerFileFromInstructions`: the banner, the syntax line, then every instruction behind a
      blank line. */
  function DockerFileFromInstructions(instrs: seq<Instruction>, e: Ephemeral): (r: Result<string, LegacyError>)
    ensures r.Ok? ==> Banner + SyntaxLine <= r.value
  {
    match Blocks(instrs, e)
    case Err(err) => Err(err)
    case Ok(blocks) => Ok(Banner + SyntaxLine + blocks)
  }

  predicate AllSupported(instrs: seq<Instruction>)
  {
    forall k :: 0 <= k < |instrs| ==> !instrs[k].Unsupported?
  }

  /** The rendering of every instruction, in order (meaningful when all are supported). */
  function Rendered(instrs: seq<Instruction>, e: Ephemeral): (r: seq<string>)
    requires AllSupported(instrs)
    ensures |r| == |instrs|
    ensures forall k :: 0 <= k < |r| ==> Render(instrs[k], e) == Ok(r[k])
  {
    seq(|instrs|, k requires 0 <= k < |instrs| && AllSupported(instrs) => Render(instrs[k], e).value)
  }

  lemma {:induction false} AllSupportedSnoc(instrs: seq<Instruction>)
    requires |instrs| > 0
    ensures AllSupported(instrs) <==>
      AllSupported(instrs[..|instrs| - 1]) && !instrs[|instrs| - 1].Unsupported?
  {
    var front := instrs[..|instrs| - 1];
    if AllSupported(front) && !instrs[|instrs| - 1].Unsupported? {
      forall k | 0 <= k < |instrs| ensures !instrs[k].Unsupported? {
        if k < |front| { assert instrs[k] == front[k]; }
      }
    }
  }

  /** The blocks fail exactly when some instruction is unsupported. */
  lemma {:induction false} BlocksSucceed(instrs: seq<Instruction>, e: Ephemeral)
    ensures Blocks(instrs, e).Ok? <==> AllSupported(instrs)
  {
    if |instrs| > 0 {
      BlocksSucceed(instrs[..|instrs| - 1], e);
      AllSupportedSnoc(instrs);
    }
  }

  /** One more supported instruction adds its rendering behind a blank line. */
  lemma {:induction false} BlocksSnoc(front: seq<Instruction>, last: Instruction, e: Ephemeral)
    requires Blocks(front, e).Ok? && !last.Unsupported?
    ensures Blocks(front + [last], e) == Ok(Blocks(front, e).value + "\n\n" + Render(last, e).value)
  {
    var whole := front + [last];
    assert whole[..|whole| - 1] == front;
    assert whole[|whole| - 1] == last;
  }

  /** Without unsupported instructions the blocks are the renderings, each behind a blank
      line. */
  lemma {:induction false} BlocksAreRendered(instrs: seq<Instruction>, e: Ephemeral)
    requires AllSupported(instrs) && |instrs| > 0
    ensures Blocks(instrs, e) == Ok("\n\n" + Join(Rendered(instrs, e), "\n\n"))
  {
    var front := instrs[..|instrs| - 1];
    var last := instrs[|instrs| - 1];
    var r := Rendered(instrs, e);
    var v := r[|r| - 1];
    AllSupportedSnoc(instrs);
    assert instrs == front + [last];
    if |front| > 0 {
      BlocksAreRendered(front, e);
      BlocksSnoc(front, last, e);
      var rf := Rendered(front, e);
      assert r == rf + [v];
      JoinSnoc(rf, v, "\n\n");
      assert "\n\n" + Join(rf, "\n\n") + "\n\n" + v == "\n\n" + (Join(rf, "\n\n") + "\n\n" + v);
    } else {
      assert Blocks(front, e) == Ok("");
      BlocksSnoc(front, last, e);
      assert r == [v];
      assert "" + "\n\n" + v == "\n\n" + v;
    }
  }

  /** With unsupported instructions, the error names the first of them. */
  lemma {:induction false} BlocksFailOnFirst(instrs: seq<Instruction>, e: Ephemeral)
    requires !AllSupported(instrs)
    ensures Blocks(instrs, e).Err?
    ensures exists k :: (0 <= k < |instrs| && instrs[k].Unsupported? &&
      AllSupported(instrs[..k]) && Blocks(instrs, e).error == UnsupportedInstruction(instrs[k]))
  {
    BlocksSucceed(instrs, e);
    var front := instrs[..|instrs| - 1];
    AllSupportedSnoc(instrs);
    if !AllSupported(front) {
      BlocksFailOnFirst(front, e);
      var k :| 0 <= k < |front| && front[k].Unsupported? && AllSupported(front[..k]) &&
        Blocks(front, e).error == UnsupportedInstruction(front[k]);
      assert instrs[..k] == front[..k];
      assert instrs[k] == front[k];
    } else {
      BlocksSucceed(front, e);
      assert instrs[..|front|] == front;
    }
  }

  /** The layout of the Dockerfile: the banner and the syntax line, then each rendering behind a
      blank line, in input order; without instructions, the banner and syntax line alone. */
  lemma {:induction false} DockerFileLayout(instrs: seq<Instruction>, e: Ephemeral)
    requires AllSupported(instrs)
    ensures DockerFileFromInstructions(instrs, e).Ok?
    ensures |instrs| == 0 ==> DockerFileFromInstructions(instrs, e).value == Banner + SyntaxLine
    ensures |instrs| > 0 ==>
      DockerFileFromInstructions(instrs, e).value == Banner + SyntaxLine + "\n\n" + Join(Rendered(instrs, e), "\n\n")
  {
    BlocksSucceed(instrs, e);
    if |instrs| > 0 {
      BlocksAreRendered(instrs, e);
    }
  }
}

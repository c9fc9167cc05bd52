# Dockerfile compilers, package pins and xUnit import: a Dafny model

This project models the deterministic core of a Gradle plugin suite that builds container images.

- **The current Dockerfile compiler** is the base-image plugin's `DockerDaemonActions`. It expands every `Install` instruction into a switch to root, a package-manager RUN and a switch back to the user in effect. It renders every instruction as Dockerfile text, and a rendered `USER` overwrites the compiler's mutable `user` field. It also builds the bind-mount table, the repository definition that points the package manager at the local packages, and the `.dockerignore` text.
- **The legacy compiler** is the `buildSrc` `DockerDaemonActions`. It renders an instruction list after a fixed banner, and it has two `installCommands` overloads: yum, apt and apk, plus the `CONFIG` passthrough. Its `generateDockerFile` is a fixed sequence of writes driven by the settings of the `docker` extension.
- **The daemon version check** is shared by both compilers. It trims the `docker version` output, strips its quotes and requires a major version of at least 19.
- **Package pins** come from `UnchangingPackage.getPackageName`, which writes `name-version-release.arch` for yum and `name=version[-release]` for apt.
- **The xUnit import** is `ExternalTestExecuter.execute`. It turns parsed suites and test cases into started, output, failure and completed events for a result processor, with ids drawn from one shared generator.

Modules:

- `Wrappers`: `Option` for Java's `null`, and `Result` for exceptions.
- `Seqs`: concatenating blocks, which is what `flatMap` and nested `forEach` loops do.
- `Text`: the JDK string behaviour the code relies on: `String.join`, `split`, `trim`, `replaceAll` of one character, `Integer.parseInt` and `Integer.toString`.
- `OSDistributions`: the distribution enumeration.
- `DockerfileText`: Dockerfile fragments that both compilers render the same way.
- `DockerVersion`: the version check.
- `UnchangingPackages`: package pins.
- `BaseImageRendering`, `BaseImageDaemon`: the current compiler.
- `LegacyDaemon`, `LegacyExtension`: the legacy compiler.
- `XUnitImport`: the xUnit import.

How the model takes the source's form:

- Where the source updates state, the model does too:
  - the compiler's `user` field is a field of the class `DaemonActions`;
  - `getBindMounts` fills a map in a method;
  - `generateDockerFile` appends to the log of a `Writer` class;
  - the legacy `installCommands` appends to a list;
  - the xUnit import drives an `IdGenerator` counter and a `ResultProcessor` event log through nested loops.
- Each such method is proved equal to a specification function. The properties are then proved about those functions.
- For the current compiler, the specification `CompileAll` folds the instructions one at a time, as the sequential stream does, so a later `Install` reads the user that earlier renderings left. `ExpandAll` followed by `RenderEach` is an independent reference: it expands everything first, taking the restored user from the original instructions. `CompileMatchesReference` proves that the two agree.

Inputs where the source calls out or reads its environment:

- the output of `docker version`;
- the `whoami` output of the base image;
- the exit status of `docker image build`;
- the build UUID;
- the existence of the legacy ephemeral configuration;
- the iteration order of the bind-mount `HashMap`, as a sequence of keys;
- the existence of each xUnit input file;
- the first id the generator hands out.

Where the source's behaviour is easy to misread, the model follows the source:

- The bind-mount table has one entry without isolation and three with it. When the docker-ephemeral mount point equals the repository's mount point, the second `HashMap` put replaces the first entry and two entries remain (`BindMountCount`).
- A failed or erroneous test gets no completed event.
- A Java `null` in a string concatenation or `String.format` prints as `null`. For example, the `user` field before `build` sets it appears as the text `null`, and a null pin field prints as `null`.
- `new URL("file:///var/packages-from-gradle")` prints as `file:/var/packages-from-gradle`.

## Model

| member | source | states |
|---|---|---|
| Text.Trim | plugins/docker/base-image/src/main/java/co/elastic/gradle/dockerbase/DockerDaemonActions.java:73 | `String.trim()`: the result neither starts nor ends with a character at or below the space (the first half of what `TrimIsMiddle` completes) |
| Text.TrimIsMiddle | plugins/docker/base-image/src/main/java/co/elastic/gradle/dockerbase/DockerDaemonActions.java:73 | `String.trim()` keeps a contiguous middle piece of the input, and everything before and after that piece is a character at or below the space; with `Trim`'s own ensures that piece is exactly what `trim` returns |
| Text.RemoveChar | plugins/docker/base-image/src/main/java/co/elastic/gradle/dockerbase/DockerDaemonActions.java:74 | `replaceAll("'", "")`: no quote is left; text without a quote is unchanged |
| Text.RemoveCharContents | plugins/docker/base-image/src/main/java/co/elastic/gradle/dockerbase/DockerDaemonActions.java:74 | every character other than the quote is kept, exactly as often as it occurs |
| Text.RemoveCharAppend | plugins/docker/base-image/src/main/java/co/elastic/gradle/dockerbase/DockerDaemonActions.java:74 | removal distributes over concatenation, so the kept characters stay in their order |
| Text.TakeUntil | plugins/docker/base-image/src/main/java/co/elastic/gradle/dockerbase/DockerDaemonActions.java:75 | `split("\\.")[0]`: a prefix of the input without the separator, followed by the separator when shorter than the input |
| Text.ParseInt | buildSrc/src/main/java/co/elastic/cloud/gradle/docker/action/DockerDaemonActions.java:282 | `Integer.parseInt`: `None` (the `NumberFormatException`) for the empty string, a lone sign and any non-digit after the optional sign; for an optional sign and digits, a value exactly when the signed value lies in the 32-bit range, and then that value |
| Text.ParseIntRejects | buildSrc/src/main/java/co/elastic/cloud/gradle/docker/action/DockerDaemonActions.java:282 | concrete inputs the JDK refuses: `""`, `-`, `+`, `1a`, `-+1`, ` 1` |
| Text.ParseIntRange | buildSrc/src/main/java/co/elastic/cloud/gradle/docker/action/DockerDaemonActions.java:282 | a plus sign is accepted; a magnitude above 2147483647 is refused unsigned or with `+`, and one above 2147483648 with `-` |
| Text.ParseIntDecimal | buildSrc/src/main/java/co/elastic/cloud/gradle/docker/action/DockerDaemonActions.java:282 | parsing the decimal form of any 32-bit integer gives it back |
| DockerVersion.MajorPart | plugins/docker/base-image/src/main/java/co/elastic/gradle/dockerbase/DockerDaemonActions.java:75 | the major part is the prefix of the version up to, and not including, its first dot (the whole version when it has none) |
| DockerVersion.CheckVersion | buildSrc/src/main/java/co/elastic/cloud/gradle/docker/action/DockerDaemonActions.java:280-285 | succeeds exactly when the part before the first dot of the trimmed, unquoted output parses to at least 19, and the result is then that parsed number, within 32 bits; an unparseable major part gives `Unparseable` with the version read, and a parsed major below 19 gives `TooOld` with the message naming the version read |
| DockerVersion.QuotedLine | plugins/docker/base-image/src/main/java/co/elastic/gradle/dockerbase/DockerDaemonActions.java:72-74 | a single-quoted version line loses its newline and its quotes |
| DockerVersion.MajorOfVersion | plugins/docker/base-image/src/main/java/co/elastic/gradle/dockerbase/DockerDaemonActions.java:75 | the major part of `major.rest` is the decimal major number |
| DockerVersion.CheckVersionOfDaemonOutput | plugins/docker/base-image/src/main/java/co/elastic/gradle/dockerbase/DockerDaemonActions.java:72-78 | for the output `'major.rest'` plus a newline, the check returns the major version when it is at least 19, and otherwise the error naming `major.rest` |
| UnchangingPackages.AptReleaseSuffix | plugins/docker/base-image/src/main/java/co/elastic/gradle/dockerbase/lockfile/UnchangingPackage.java:77 | the suffix is empty exactly when the release is null or empty |
| UnchangingPackages.GetPackageName | plugins/docker/base-image/src/main/java/co/elastic/gradle/dockerbase/lockfile/UnchangingPackage.java:67-82 | fails (the `IllegalArgumentException`) exactly for a distribution other than CentOS, Ubuntu and Debian |
| UnchangingPackages.AptDistributionsAgree | plugins/docker/base-image/src/main/java/co/elastic/gradle/dockerbase/lockfile/UnchangingPackage.java:71-78 | Ubuntu and Debian pin every package identically |
| UnchangingPackages.AptIgnoresArchitecture | plugins/docker/base-image/src/main/java/co/elastic/gradle/dockerbase/lockfile/UnchangingPackage.java:72-78 | changing the architecture never changes an Ubuntu or Debian pin |
| UnchangingPackages.AptWithoutRelease | plugins/docker/base-image/src/main/java/co/elastic/gradle/dockerbase/lockfile/UnchangingPackage.java:77 | a null or empty release gives exactly `name=version`, with no trailing hyphen |
| UnchangingPackages.AptPinParts | plugins/docker/base-image/src/main/java/co/elastic/gradle/dockerbase/lockfile/UnchangingPackage.java:73-78 | an apt pin with a release splits at `=` into the name and `version-release`, and that splits at `-` into the version and the release's pieces |
| UnchangingPackages.CentosPinParts | plugins/docker/base-image/src/main/java/co/elastic/gradle/dockerbase/lockfile/UnchangingPackage.java:69-70 | a yum pin starts with `name-` and its last dot-separated piece is the architecture |
| UnchangingPackages.CentosPinWords | plugins/docker/base-image/src/main/java/co/elastic/gradle/dockerbase/lockfile/UnchangingPackage.java:69-70 | when no field has a hyphen, a yum pin splits at `-` into the name, the version, and `release.architecture` |
| DockerfileText.HealthcheckLayout | buildSrc/src/main/java/co/elastic/cloud/gradle/docker/action/DockerDaemonActions.java:225-231 | the HEALTHCHECK text is the words of the non-null options in the order interval, timeout, start period, retries, each followed by a space, then `CMD ` and the command |
| DockerfileText.HealthcheckWords | buildSrc/src/main/java/co/elastic/cloud/gradle/docker/action/DockerDaemonActions.java:225-231 | with space-free option values, the words of the HEALTHCHECK text are the options, then `CMD`, then the command's words |
| DockerfileText.OptionPresent | buildSrc/src/main/java/co/elastic/cloud/gradle/docker/action/DockerDaemonActions.java:341-347 | the option `--name=v` is rendered exactly when that field is non-null with value `v` (retries in decimal) |
| BaseImageRendering.PackagesToInstall | plugins/docker/base-image/src/main/java/co/elastic/gradle/dockerbase/DockerDaemonActions.java:144-146 | keeps no more packages than given, only packages that were given, and none containing `__META__` |
| BaseImageRendering.PackagesToInstallMembers | plugins/docker/base-image/src/main/java/co/elastic/gradle/dockerbase/DockerDaemonActions.java:144-146 | a package is kept if and only if it was given and does not contain `__META__` |
| BaseImageRendering.PackagesToInstallAppend | plugins/docker/base-image/src/main/java/co/elastic/gradle/dockerbase/DockerDaemonActions.java:144-146 | the filter keeps list order: filtering distributes over concatenation |
| BaseImageRendering.InstallCommand | plugins/docker/base-image/src/main/java/co/elastic/gradle/dockerbase/DockerDaemonActions.java:147-159 | fails (the `IllegalArgumentException`) exactly for a distribution without an installer |
| BaseImageRendering.InstallCommandLayout | plugins/docker/base-image/src/main/java/co/elastic/gradle/dockerbase/DockerDaemonActions.java:151-155 | the install command is the installer's words, each followed by a space, then the kept packages joined by spaces |
| BaseImageRendering.InstallCommandWords | plugins/docker/base-image/src/main/java/co/elastic/gradle/dockerbase/DockerDaemonActions.java:144-156 | the words of the install command are `apt-get install -y` (Ubuntu, Debian) or `yum install --setopt=skip_missing_names_on_install=False -y` (CentOS), then exactly the kept packages in input order |
| BaseImageRendering.WrapInstallCommand | plugins/docker/base-image/src/main/java/co/elastic/gradle/dockerbase/DockerDaemonActions.java:96-135 | the exact command list for apt and yum, isolating or not; fails exactly for any other distribution |
| BaseImageRendering.AptInstallIsNotUpdate | plugins/docker/base-image/src/main/java/co/elastic/gradle/dockerbase/DockerDaemonActions.java:151 | an apt install command is never `apt-get update` |
| BaseImageRendering.AptInstallRun | plugins/docker/base-image/src/main/java/co/elastic/gradle/dockerbase/DockerDaemonActions.java:103-116 | `apt-get update` occurs exactly once in the install RUN of an apt distribution, isolating or not |
| BaseImageRendering.Expand | plugins/docker/base-image/src/main/java/co/elastic/gradle/dockerbase/DockerDaemonActions.java:141-171 | any other instruction is kept, unchanged, as the only element; an `Install` fails exactly for a distribution without an installer and otherwise becomes `SetUser("root")`, the wrapped install RUN, and `SetUser` of the current user |
| BaseImageRendering.RepoMount | plugins/docker/base-image/src/main/java/co/elastic/gradle/dockerbase/DockerDaemonActions.java:244-267 | a repository mount exists exactly for the apt and yum distributions |
| BaseImageRendering.BindMounts | plugins/docker/base-image/src/main/java/co/elastic/gradle/dockerbase/DockerDaemonActions.java:237-272 | the docker-ephemeral mount is always present; without isolation it is the only entry; with isolation the keys are exactly the ephemeral, repository and packages mounts, with their sources; fails exactly when isolating for a distribution without a repository layout |
| BaseImageRendering.BindMountCount | plugins/docker/base-image/src/main/java/co/elastic/gradle/dockerbase/DockerDaemonActions.java:238-270 | one entry without isolation; with it three, or two when the ephemeral mount point equals the repository's, whose put replaces it |
| BaseImageRendering.MountKeys | plugins/docker/base-image/src/main/java/co/elastic/gradle/dockerbase/DockerDaemonActions.java:188 | the iterated keys are keys of the table, taken from the given iteration order |
| BaseImageRendering.MountKeysEnumerate | plugins/docker/base-image/src/main/java/co/elastic/gradle/dockerbase/DockerDaemonActions.java:188-193 | when the order enumerates the keys, iteration visits every entry exactly once |
| BaseImageRendering.MountOptionsWords | plugins/docker/base-image/src/main/java/co/elastic/gradle/dockerbase/DockerDaemonActions.java:188-193 | with a space-free ephemeral mount point, the words of the mount options are the flags, in iteration order |
| BaseImageRendering.BindMountSources | plugins/docker/base-image/src/main/java/co/elastic/gradle/dockerbase/DockerDaemonActions.java:278-288 | every mounted directory is one of the working directory's fixed ephemeral directories |
| BaseImageRendering.RenderOne | plugins/docker/base-image/src/main/java/co/elastic/gradle/dockerbase/DockerDaemonActions.java:174-235 | fails exactly for an `Install`, an unsupported kind (both with the unsupported-instruction error), or a RUN whose bind mounts fail; a `RepoConfigRun` is empty when isolating and otherwise `RUN ` then its commands joined by the RUN separator; a RUN is `RUN `, the mount options, a backslash line break and a space, then its commands joined by the RUN separator |
| BaseImageRendering.RepoFile | plugins/docker/base-image/src/main/java/co/elastic/gradle/dockerbase/DockerDaemonActions.java:303-333 | a repository definition exists exactly for the apt and yum distributions |
| BaseImageRendering.RepoFileIsMounted | plugins/docker/base-image/src/main/java/co/elastic/gradle/dockerbase/DockerDaemonActions.java:243-269 | with isolation, the written repository definition is the one mounted: apt's `sources.list` at `/etc/apt/sources.list`, yum's directory with `gradle-configuration.repo` at `/etc/yum.repos.d`; the packages are mounted read-write |
| BaseImageRendering.RepoFileNamesPackages | plugins/docker/base-image/src/main/java/co/elastic/gradle/dockerbase/DockerDaemonActions.java:299-330 | the definition names `file:/var/packages-from-gradle`, the packages' mount point: the yum `baseurl` line, the single apt `deb` line |
| BaseImageRendering.IgnoreManifestLines | plugins/docker/base-image/src/main/java/co/elastic/gradle/dockerbase/DockerDaemonActions.java:370-381 | the lines of `.dockerignore` are `**`, `!context`, then one exception per mounted directory in iteration order |
| BaseImageDaemon.LastSetUserIsLast | plugins/docker/base-image/src/main/java/co/elastic/gradle/dockerbase/DockerDaemonActions.java:220-222 | without a `SetUser` the user is the initial one; otherwise it is the user of the last `SetUser` |
| BaseImageDaemon.LastSetUserAppend | plugins/docker/base-image/src/main/java/co/elastic/gradle/dockerbase/DockerDaemonActions.java:220-222 | the user after a concatenation is the user after the second part, started from the user of the first |
| BaseImageDaemon.RenderEachBlocks | plugins/docker/base-image/src/main/java/co/elastic/gradle/dockerbase/DockerDaemonActions.java:90-93 | the reference rendering succeeds exactly when every instruction renders, and then holds each instruction's block at its position |
| BaseImageDaemon.RenderEachAppend | plugins/docker/base-image/src/main/java/co/elastic/gradle/dockerbase/DockerDaemonActions.java:90-93 | rendering distributes over concatenation, and fails when either part fails |
| BaseImageDaemon.ExpandAllFails | plugins/docker/base-image/src/main/java/co/elastic/gradle/dockerbase/DockerDaemonActions.java:141-159 | expansion fails exactly when the distribution has no installer and some instruction is an `Install` |
| BaseImageDaemon.ExpandAllAppend | plugins/docker/base-image/src/main/java/co/elastic/gradle/dockerbase/DockerDaemonActions.java:90-91 | expansion is compositional: the second part is expanded with the user the first part leaves |
| BaseImageDaemon.ExpandAllAt | plugins/docker/base-image/src/main/java/co/elastic/gradle/dockerbase/DockerDaemonActions.java:160-169 | each instruction's own expansion, made with the user of the instructions before it, sits right after the expansion of those instructions |
| BaseImageDaemon.RenderAllOk | plugins/docker/base-image/src/main/java/co/elastic/gradle/dockerbase/DockerDaemonActions.java:92 | rendering in sequence stops exactly when the reference fails, and otherwise appends the reference blocks and ends with the last `SetUser`'s user |
| BaseImageDaemon.RenderAllStopped | plugins/docker/base-image/src/main/java/co/elastic/gradle/dockerbase/DockerDaemonActions.java:90-93 | once rendering has thrown, further instructions change nothing |
| BaseImageDaemon.ExpandKeepsUser | plugins/docker/base-image/src/main/java/co/elastic/gradle/dockerbase/DockerDaemonActions.java:160-169 | rendering an expansion leaves the user the original instruction leaves: the switch to root is always undone |
| BaseImageDaemon.CompileMatchesReference | plugins/docker/base-image/src/main/java/co/elastic/gradle/dockerbase/DockerDaemonActions.java:81-94 | the sequential compilation with its mutable user renders exactly the reference expansion, block by block, and ends with the last `SetUser`'s user; it fails exactly when the reference fails |
| BaseImageDaemon.DockerFileLayout | plugins/docker/base-image/src/main/java/co/elastic/gradle/dockerbase/DockerDaemonActions.java:81-94 | the Dockerfile is the header, then the rendered blocks of the expanded instructions joined by newlines; it fails exactly when expansion or rendering fails |
| BaseImageDaemon.UnsupportedFails | plugins/docker/base-image/src/main/java/co/elastic/gradle/dockerbase/DockerDaemonActions.java:232-234 | an instruction of an unsupported kind anywhere fails the whole Dockerfile |
| BaseImageDaemon.UnsupportedIsExpandedToItself | plugins/docker/base-image/src/main/java/co/elastic/gradle/dockerbase/DockerDaemonActions.java:171 | an unsupported instruction survives expansion unchanged |
| BaseImageDaemon.ExpandInstallX | plugins/docker/base-image/src/main/java/co/elastic/gradle/dockerbase/DockerDaemonActions.java:141-171 | an apt install of one package is the switch to root, the install RUN, and the switch back to the given user |
| BaseImageDaemon.SwitchBackExpansion | plugins/docker/base-image/src/main/java/co/elastic/gradle/dockerbase/DockerDaemonActions.java:160-169 | `SetUser(alice)`, `Install`, `Run` expands so that the install is bracketed by `root` and a switch back to `alice` |
| BaseImageDaemon.SwitchBackRenders | plugins/docker/base-image/src/main/java/co/elastic/gradle/dockerbase/DockerDaemonActions.java:220-222 | those five instructions render without failure to `USER alice`, `USER root`, the RUN, `USER alice`, the RUN |
| BaseImageDaemon.SwitchBackAfterInstall | plugins/docker/base-image/src/main/java/co/elastic/gradle/dockerbase/DockerDaemonActions.java:160-169 | compiled sequentially, the same scenario restores `alice` after the injected `USER root` |
| BaseImageDaemon.BaseImage | plugins/docker/base-image/src/main/java/co/elastic/gradle/dockerbase/DockerDaemonActions.java:351-355 | no base image exactly when no instruction names an image; otherwise the reference of the first instruction that names one |
| BaseImageDaemon.BuildResult | plugins/docker/base-image/src/main/java/co/elastic/gradle/dockerbase/DockerDaemonActions.java:344-411 | a failed version check gives its error; with a known distribution and no image reference the error is `NoBaseImage`; with a known distribution, a base image and a compiled Dockerfile the build succeeds exactly when `docker image build` exits 0, and otherwise fails with that exit code; a successful build holds the first image reference, the UUID tag, the Dockerfile compiled from the trimmed `whoami` user, the `.dockerignore` text of the bind mounts and the distribution's repository file |
| BaseImageDaemon.DaemonActions.constructor | plugins/docker/base-image/src/main/java/co/elastic/gradle/dockerbase/DockerDaemonActions.java:48-56 | the buildable and UUID are stored, and the user field starts as null |
| BaseImageDaemon.DaemonActions.GetBindMounts | plugins/docker/base-image/src/main/java/co/elastic/gradle/dockerbase/DockerDaemonActions.java:237-272 | the table filled one entry at a time is the bind-mount table |
| BaseImageDaemon.DaemonActions.ConvertInstallToRun | plugins/docker/base-image/src/main/java/co/elastic/gradle/dockerbase/DockerDaemonActions.java:141-172 | expands with the current value of the user field |
| BaseImageDaemon.DaemonActions.InstructionAsDockerFileInstruction | plugins/docker/base-image/src/main/java/co/elastic/gradle/dockerbase/DockerDaemonActions.java:174-235 | renders the instruction; a rendered `SetUser` overwrites the user field, nothing else changes it |
| BaseImageDaemon.DaemonActions.RenderExpansion | plugins/docker/base-image/src/main/java/co/elastic/gradle/dockerbase/DockerDaemonActions.java:90-92 | rendering an expansion in order gives the blocks and user of the sequential specification, or its first error |
| BaseImageDaemon.DaemonActions.CompileInstruction | plugins/docker/base-image/src/main/java/co/elastic/gradle/dockerbase/DockerDaemonActions.java:90-92 | one original instruction: expanded with the current user, then rendered, as one step of the specification |
| BaseImageDaemon.DaemonActions.DockerFileFromInstructions | plugins/docker/base-image/src/main/java/co/elastic/gradle/dockerbase/DockerDaemonActions.java:81-94 | the Dockerfile text (or the first error) of the specification, and the user field it leaves |
| BaseImageDaemon.DaemonActions.Build | plugins/docker/base-image/src/main/java/co/elastic/gradle/dockerbase/DockerDaemonActions.java:344-411 | the build's outcome, and the user field: set to the trimmed `whoami` output, then updated by rendering |
| LegacyDaemon.InstallCommands | buildSrc/src/main/java/co/elastic/cloud/gradle/docker/action/DockerDaemonActions.java:353-392 | three commands for yum and apk, five for apt; the yum install is the first, apt's the third, apk's the second, each listing the pinned items joined by spaces |
| LegacyDaemon.InstallCommandLayout | buildSrc/src/main/java/co/elastic/cloud/gradle/docker/action/DockerDaemonActions.java:362-388 | the install command is the installer's words, each followed by a space, then the items |
| LegacyDaemon.InstallCommandWords | buildSrc/src/main/java/co/elastic/cloud/gradle/docker/action/DockerDaemonActions.java:353-388 | with space-free names and versions, the words of the install command are the installer's words, then one pinned item per package, in order |
| LegacyDaemon.PinItemParts | buildSrc/src/main/java/co/elastic/cloud/gradle/docker/action/DockerDaemonActions.java:377 | an apt or apk pin splits at `=` into the name and the version |
| LegacyDaemon.YumItemParts | buildSrc/src/main/java/co/elastic/cloud/gradle/docker/action/DockerDaemonActions.java:363 | a yum pin splits at `-` into the name, then the pieces of the version |
| LegacyDaemon.LegacyCommands | buildSrc/src/main/java/co/elastic/cloud/gradle/docker/action/DockerDaemonActions.java:233-259 | `CONFIG` gives the package names verbatim, one per package; any other installer gives five commands for apt and three for yum and apk |
| LegacyDaemon.LegacyInstallCommands | buildSrc/src/main/java/co/elastic/cloud/gradle/docker/action/DockerDaemonActions.java:233-259 | `CONFIG` gives the names verbatim; yum, apt and apk give exactly the new `installCommands` of the converted packages |
| LegacyDaemon.Render | buildSrc/src/main/java/co/elastic/cloud/gradle/docker/action/DockerDaemonActions.java:304-351 | fails exactly for an unsupported kind, with the error naming it; `From` is `FROM image:version` with the digest when present; `FromDockerBuildContext` renders as its `From`; RUN and `Install` are `RUN`, the mount, a space, and the commands |
| LegacyDaemon.FromLineParts | buildSrc/src/main/java/co/elastic/cloud/gradle/docker/action/DockerDaemonActions.java:311 | the rendered FROM splits at `@` into the unpinned line and, exactly when present, the digest |
| LegacyDaemon.RunLineWords | buildSrc/src/main/java/co/elastic/cloud/gradle/docker/action/DockerDaemonActions.java:318 | the words of a RUN are `RUN`, the mount (empty when the ephemeral file is absent), then the words of the joined commands |
| LegacyDaemon.DockerFileFromInstructions | buildSrc/src/main/java/co/elastic/cloud/gradle/docker/action/DockerDaemonActions.java:289-300 | a produced Dockerfile starts with the banner and the syntax line |
| LegacyDaemon.BlocksSucceed | buildSrc/src/main/java/co/elastic/cloud/gradle/docker/action/DockerDaemonActions.java:297-299 | the reduction succeeds exactly when no instruction is unsupported |
| LegacyDaemon.BlocksSnoc | buildSrc/src/main/java/co/elastic/cloud/gradle/docker/action/DockerDaemonActions.java:299 | one more instruction adds its rendering behind a blank line |
| LegacyDaemon.BlocksAreRendered | buildSrc/src/main/java/co/elastic/cloud/gradle/docker/action/DockerDaemonActions.java:297-299 | the reduction is each rendering behind a blank line, in input order |
| LegacyDaemon.BlocksFailOnFirst | buildSrc/src/main/java/co/elastic/cloud/gradle/docker/action/DockerDaemonActions.java:348-350 | with unsupported instructions, the error names the first of them |
| LegacyDaemon.DockerFileLayout | buildSrc/src/main/java/co/elastic/cloud/gradle/docker/action/DockerDaemonActions.java:289-300 | the Dockerfile is the banner and syntax line, then each rendering behind `\n\n`, in input order |
| LegacyExtension.EnvText | buildSrc/src/main/java/co/elastic/cloud/gradle/docker/action/DockerDaemonActions.java:158-160 | the environment text is empty or ends with a line break |
| LegacyExtension.LayerWrites | buildSrc/src/main/java/co/elastic/cloud/gradle/docker/action/DockerDaemonActions.java:165-180 | one write per layer, the write of the layer at the same position |
| LegacyExtension.LayerWritesPrefix | buildSrc/src/main/java/co/elastic/cloud/gradle/docker/action/DockerDaemonActions.java:165-180 | writing one more layer appends its write |
| LegacyExtension.LabelWrites | buildSrc/src/main/java/co/elastic/cloud/gradle/docker/action/DockerDaemonActions.java:198-200 | one `LABEL key=value` line per label, the line of the label at the same position |
| LegacyExtension.WritePreamble | buildSrc/src/main/java/co/elastic/cloud/gradle/docker/action/DockerDaemonActions.java:109-114 | the banner and syntax line are appended, in order |
| LegacyExtension.WriteMaintainerAndUser | buildSrc/src/main/java/co/elastic/cloud/gradle/docker/action/DockerDaemonActions.java:126-144 | the maintainer label and the user-creation script are appended exactly when set |
| LegacyExtension.WritePackages | buildSrc/src/main/java/co/elastic/cloud/gradle/docker/action/DockerDaemonActions.java:148-156 | the package section is appended exactly when there are packages |
| LegacyExtension.WriteSetup | buildSrc/src/main/java/co/elastic/cloud/gradle/docker/action/DockerDaemonActions.java:109-160 | everything up to the environment is appended, in order |
| LegacyExtension.WriteHead | buildSrc/src/main/java/co/elastic/cloud/gradle/docker/action/DockerDaemonActions.java:109-163 | the setup, then the two layer comments |
| LegacyExtension.WriteLayers | buildSrc/src/main/java/co/elastic/cloud/gradle/docker/action/DockerDaemonActions.java:165-180 | one write per layer, in declaration order |
| LegacyExtension.WriteLabels | buildSrc/src/main/java/co/elastic/cloud/gradle/docker/action/DockerDaemonActions.java:198-203 | one `LABEL` line per label, then a blank line when there was any |
| LegacyExtension.WriteCommandLines | buildSrc/src/main/java/co/elastic/cloud/gradle/docker/action/DockerDaemonActions.java:183-192 | `USER` when the run user is set and non-empty, then `ENTRYPOINT` and `CMD` when non-empty |
| LegacyExtension.WriteHealthcheck | buildSrc/src/main/java/co/elastic/cloud/gradle/docker/action/DockerDaemonActions.java:194-196 | the HEALTHCHECK line exactly when a health check is set |
| LegacyExtension.WriteSettings | buildSrc/src/main/java/co/elastic/cloud/gradle/docker/action/DockerDaemonActions.java:205-221 | `WORKDIR` when set, then `EXPOSE` when some port is exposed |
| LegacyExtension.WriteTail | buildSrc/src/main/java/co/elastic/cloud/gradle/docker/action/DockerDaemonActions.java:181-221 | a blank line, then the command lines, health check, labels and settings, in order |
| LegacyExtension.GenerateDockerFile | buildSrc/src/main/java/co/elastic/cloud/gradle/docker/action/DockerDaemonActions.java:104-223 | the writer receives exactly the writes of every section, in order |
| LegacyExtension.DockerFileStartsWithFrom | buildSrc/src/main/java/co/elastic/cloud/gradle/docker/action/DockerDaemonActions.java:109-124 | the file opens with the banner and syntax line, then the base image |
| LegacyExtension.CommentsBeforeLayers | buildSrc/src/main/java/co/elastic/cloud/gradle/docker/action/DockerDaemonActions.java:162-163 | the two layer comments come right before the layers |
| LegacyExtension.LayersInOrder | buildSrc/src/main/java/co/elastic/cloud/gradle/docker/action/DockerDaemonActions.java:165-180 | the layers are written one after the other, in declaration order, right after the head |
| LegacyExtension.PackageCommandsAppend | buildSrc/src/main/java/co/elastic/cloud/gradle/docker/action/DockerDaemonActions.java:150-153 | the package entries contribute their commands entry after entry |
| LegacyExtension.EnvLines | buildSrc/src/main/java/co/elastic/cloud/gradle/docker/action/DockerDaemonActions.java:158-160 | with keys and values free of line breaks, the environment text is one `ENV key=value` line per entry, in order |
| LegacyExtension.ExposeWords | buildSrc/src/main/java/co/elastic/cloud/gradle/docker/action/DockerDaemonActions.java:209-221 | with space-free ports, the EXPOSE line is one write whose words are `EXPOSE`, the TCP ports, then the UDP ports |
| XUnitImport.IdGenerator.GenerateId | plugins/build-scan-xunit/src/main/java/co/elastic/gradle/buildscan/xunit/ExternalTestExecuter.java:59 | returns the next id and advances the counter by one |
| XUnitImport.ResultProcessor.Started | plugins/build-scan-xunit/src/main/java/co/elastic/gradle/buildscan/xunit/ExternalTestExecuter.java:67 | appends one start event |
| XUnitImport.ResultProcessor.Output | plugins/build-scan-xunit/src/main/java/co/elastic/gradle/buildscan/xunit/ExternalTestExecuter.java:81-88 | appends one output event |
| XUnitImport.ResultProcessor.Failure | plugins/build-scan-xunit/src/main/java/co/elastic/gradle/buildscan/xunit/ExternalTestExecuter.java:98-107 | appends one failure event |
| XUnitImport.ResultProcessor.Completed | plugins/build-scan-xunit/src/main/java/co/elastic/gradle/buildscan/xunit/ExternalTestExecuter.java:89-95 | appends one completed event |
| XUnitImport.ImportCase | plugins/build-scan-xunit/src/main/java/co/elastic/gradle/buildscan/xunit/ExternalTestExecuter.java:69-131 | a test takes one fresh id, starts under its suite, then gets its status's events |
| XUnitImport.ImportSuite | plugins/build-scan-xunit/src/main/java/co/elastic/gradle/buildscan/xunit/ExternalTestExecuter.java:64-132 | a suite takes one id and one per test, and contributes its start, its tests in order, its completion |
| XUnitImport.ImportSuites | plugins/build-scan-xunit/src/main/java/co/elastic/gradle/buildscan/xunit/ExternalTestExecuter.java:61-133 | the suites of a file, in order, from the shared generator |
| XUnitImport.ImportFiles | plugins/build-scan-xunit/src/main/java/co/elastic/gradle/buildscan/xunit/ExternalTestExecuter.java:61-133 | the suites of every file, file after file |
| XUnitImport.MissingFiles | plugins/build-scan-xunit/src/main/java/co/elastic/gradle/buildscan/xunit/ExternalTestExecuter.java:51-54 | the paths of the absent files, in order |
| XUnitImport.Execute | plugins/build-scan-xunit/src/main/java/co/elastic/gradle/buildscan/xunit/ExternalTestExecuter.java:50-134 | with a missing file: the error listing all missing paths, and no event; otherwise every event of every suite, ids from the first one |
| XUnitImport.MissingPaths | plugins/build-scan-xunit/src/main/java/co/elastic/gradle/buildscan/xunit/ExternalTestExecuter.java:51-54 | a path is reported exactly when some input file with that path is absent |
| XUnitImport.NoneMissing | plugins/build-scan-xunit/src/main/java/co/elastic/gradle/buildscan/xunit/ExternalTestExecuter.java:55-57 | the import goes ahead exactly when every input file exists |
| XUnitImport.StatusEventsAbout | plugins/build-scan-xunit/src/main/java/co/elastic/gradle/buildscan/xunit/ExternalTestExecuter.java:79-130 | every event after a test's start is about that test, and none starts anything |
| XUnitImport.StatusOutcome | plugins/build-scan-xunit/src/main/java/co/elastic/gradle/buildscan/xunit/ExternalTestExecuter.java:79-130 | a test is completed exactly when it succeeded or was skipped, last and with that result; it gets a failure event exactly when it failed or is in error, then as its only event; a skip has an output exactly when it has a message |
| XUnitImport.HeaderHasNoNewline | plugins/build-scan-xunit/src/main/java/co/elastic/gradle/buildscan/xunit/ExternalTestExecuter.java:102 | the report header has no line break when the kind and message have none |
| XUnitImport.FailureReportLine | plugins/build-scan-xunit/src/main/java/co/elastic/gradle/buildscan/xunit/ExternalTestExecuter.java:102-104 | a failure report is the header, a space, then the description or nothing; it is one line when no part has a line break |
| XUnitImport.ErrorReportLines | plugins/build-scan-xunit/src/main/java/co/elastic/gradle/buildscan/xunit/ExternalTestExecuter.java:114-116 | an error report is the header line, then the description's lines only when it is present |
| XUnitImport.CaseStarted | plugins/build-scan-xunit/src/main/java/co/elastic/gradle/buildscan/xunit/ExternalTestExecuter.java:71-76 | a test starts exactly one id, its own |
| XUnitImport.SuiteStarted | plugins/build-scan-xunit/src/main/java/co/elastic/gradle/buildscan/xunit/ExternalTestExecuter.java:65-76 | a suite starts its own id, then one consecutive id per test |
| XUnitImport.SuitesStarted | plugins/build-scan-xunit/src/main/java/co/elastic/gradle/buildscan/xunit/ExternalTestExecuter.java:61-76 | the suites of a file start consecutive ids, as many as suites plus tests |
| XUnitImport.FilesStarted | plugins/build-scan-xunit/src/main/java/co/elastic/gradle/buildscan/xunit/ExternalTestExecuter.java:59-76 | every suite and test of every file gets its own fresh id, consecutive from the first one, in event order |
| XUnitImport.CaseInSuite | plugins/build-scan-xunit/src/main/java/co/elastic/gradle/buildscan/xunit/ExternalTestExecuter.java:71-76 | every event of a test is about one of its suite's tests, and its start names the suite as class and parent |
| XUnitImport.SuiteShape | plugins/build-scan-xunit/src/main/java/co/elastic/gradle/buildscan/xunit/ExternalTestExecuter.java:65-132 | a suite opens with its own start, without a parent, closes with its own completion, without a result, and everything between is about its tests |

## Left out

- Subprocess calls: `docker version`, `docker run ... whoami`, `docker image build`, `inspect`, `load`, `image rm` and `pull`. Their outputs and exit codes are parameters. The legacy `build`, `internalBuild`, `loadArchive`, `clean`, `pull` and `execute` are only such calls and file writes.
- The retry policy of `pull`: `RetryUtils` is not part of this model.
- File-system effects: `synchronizeFiles`, directory creation, the `Files.write*` calls and the existence checks. What is written is modelled; the existence checks are boolean inputs.
- Environment and randomness: `UUID.randomUUID`, `System.getProperty` (the cache switch of `docker image build`) and `System.getenv`. These are parameters or left out.
- `HashMap` and `Set<File>` iteration order: rendering follows a given order. The lemmas about the mount options and `.dockerignore` hold for any order that lists every key once.
- Unicode digits: `Text.ParseInt` accepts ASCII digits only, whereas `Integer.parseInt` also accepts other Unicode decimal digits.
- Closed enumerations: the installer enumerations are closed. The `default: throw` branches of the installer switches cannot be reached there, so they are not modelled. Any distribution the switches do not name is the constructor `Other`, which takes every `default: throw` branch.
- xUnit timing and parsing: timestamps and the `XUnitXmlParser` are not part of this model. Suites arrive already parsed, and the events carry no times.
- Logging: the `logger.lifecycle("Loading results from {}", file)` call made before each file is parsed is not modelled; it changes no state that the model states.
- `LongIdGenerator`: its starting value is not shown, so it is the parameter `firstId`.
- XUnitImport.ResultProcessor.Failure: the failure event carries the report string, not the `TestFailure` object wrapping an `ExternalTestFailureException`.
- XUnitImport.ImportCase: a success's stdout and stderr are taken as non-null, since `Optional.of` throws on a null.
- Legacy extension fields: `getFromProject`, `getContext().contextPath().toFile().getName()` and the other extension accessors are plain fields of an `Extension` value. Maps are given as their entries in iteration order.
- The legacy `FromDockerBuildContext`: it is modelled by the image its `toFrom()` yields; that class is not part of this model.
- BaseImageDaemon.DockerFile: has no contract of its own; `DockerFileLayout` states what it produces.
- Lockfile resolution and `JibBuildTask` are not part of this model.
- Copied directory paths: `BaseImageRendering.ContextPath` models `relativize(resolve(layer))` for a plain relative layer path, including the empty path, which resolves to `context` itself. `Path` normalisation of `.` and `..` segments, repeated or trailing slashes and absolute layer paths is not modelled; for such layers the model's COPY line can differ from the one Java renders.
- `writer.newLine()`: it is `"\n"`, the line separator of a Unix build host.
- `UnchangingPackage` accessors: they are the datatype's field selectors, which return the constructor arguments by definition.

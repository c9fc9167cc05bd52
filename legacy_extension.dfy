/** The Dockerfile the legacy `docker` extension generates: a fixed sequence of writes to a
    buffered writer, one section per extension setting, sections for unset settings left out. */
module LegacyExtension {
  import opened Wrappers
  import opened Text
  import opened Seqs
  import DockerfileText
  import LegacyDaemon

  /** Another project whose image is the base: its path, and the tag of its build. */
  datatype OtherProject = OtherProject(path: string, tag: string)

  datatype UserSpec = UserSpec(user: string, uid: int, group: string, gid: int)

  /** A layer of the DSL, in declaration order: a RUN of commands, or a COPY of the layer
      directory with that ordinal. */
  datatype Layer =
    | RunLayer(ordinal: int, commands: seq<string>)
    | CopyLayer(ordinal: int, owner: Option<string>)

  /** The settings of the extension that the Dockerfile shows; maps are given as their entries
      in iteration order. */
  datatype Extension = Extension(
    fromProject: Option<OtherProject>,
    from: string,
    maintainer: Option<string>,
    user: Option<UserSpec>,
    dockerEphemeral: string,
    packages: seq<(LegacyDaemon.LegacyInstaller, seq<LegacyDaemon.LegacyPackage>)>,
    env: seq<(string, string)>,
    contextName: string,
    layers: seq<Layer>,
    runUser: Option<string>,
    entryPoint: seq<string>,
    cmd: seq<string>,
    healthcheck: Option<DockerfileText.HealthCheck>,
    labels: seq<(string, string)>,
    workDir: Option<string>,
    exposeTcp: seq<string>,
    exposeUdp: seq<string>)

  // ---------------------------------------------------------------- the sections

  const Preamble: seq<string> := [
    "#############################\n",
    "#                           #\n",
    "# Auto generated Dockerfile #\n",
    "#                           #\n",
    "#############################\n\n",
    "# syntax = docker/dockerfile:experimental\n\n"]

  /** The base image: another project's image, behind a comment naming the project, or the
      configured reference. */
  function FromWrite(e: Extension): string
  {
    match e.fromProject
    case Some(p) => "# " + p.path + " (a.k.a " + p.tag + ")\n" + "FROM " + p.tag + "\n\n"
    case None => "FROM " + e.from + "\n\n"
  }

  function MaintainerWrites(e: Extension): seq<string>
  {
    match e.maintainer
    case Some(m) => ["LABEL maintainer=\"" + m + "\"\n\n"]
    case None => []
  }

  function UserWrites(e: Extension): seq<string>
  {
    match e.user
    case Some(u) => [DockerfileText.CreateUserScript(u.user, u.uid, u.group, u.gid) + " \n\n"]
    case None => []
  }

  /** The bind mount of the ephemeral directory, with the space that follows it. */
  function Mount(e: Extension): string
  {
    "--mount=type=bind,target=" + e.dockerEphemeral + ",source=dockerEphemeral "
  }

  /** The commands of each package entry. */
  function PackageBlocks(packages: seq<(LegacyDaemon.LegacyInstaller, seq<LegacyDaemon.LegacyPackage>)>): (r: seq<seq<string>>)
    ensures |r| == |packages|
  {
    seq(|packages|, k requires 0 <= k < |packages| => LegacyDaemon.LegacyCommands(packages[k].0, packages[k].1))
  }

  /** The commands of every package entry, entry after entry (the `flatMap` over the entries). */
  function PackageCommands(packages: seq<(LegacyDaemon.LegacyInstaller, seq<LegacyDaemon.LegacyPackage>)>): seq<string>
  {
    Concat(PackageBlocks(packages))
  }

  const PackagesSeparator: string := " && \\ \n \t"

  function PackagesWrites(e: Extension): seq<string>
  {
    if |e.packages| == 0 then []
    else [
      "# Packages installation\n",
      "RUN " + Mount(e) + Join(PackageCommands(e.packages), PackagesSeparator) + "\n",
      "\n"]
  }

  function EnvLine(entry: (string, string)): string
  {
    "ENV " + entry.0 + "=" + entry.1
  }

  /** The environment as one piece of text: one `ENV` line per entry. */
  function EnvText(env: seq<(string, string)>): (r: string)
    ensures |r| == 0 || r[|r| - 1] == '\n'
  {
    if |env| == 0 then "" else EnvText(env[..|env| - 1]) + EnvLine(env[|env| - 1]) + "\n"
  }

  const LayerComments: seq<string> := [
    "# FS hierarchy is set up in Gradle, so we just copy it in\n",
    "# COPY and RUN commands are kept consistent with the DSL\n"]

  /** The base image and the settings of the image: everything before the layer comments. */
  function Setup(e: Extension): seq<string>
  {
    Preamble + ([FromWrite(e)] + (MaintainerWrites(e) + UserWrites(e) + (PackagesWrites(e) + [EnvText(e.env)])))
  }

  /** Everything written before the layers. */
  function Head(e: Extension): seq<string>
  {
    Setup(e) + LayerComments
  }

  const LayerSeparator: string := " && \\\n    "

  function LayerWrite(e: Extension, layer: Layer): string
  {
    match layer
    case RunLayer(_, commands) => "RUN " + Mount(e) + Join(commands, LayerSeparator) + "\n"
    case CopyLayer(ordinal, owner) =>
      "COPY " + DockerfileText.ChownFlag(owner) + e.contextName + "/" + "layer" + IntToDecimal(ordinal) + " /\n"
  }

  function LayerWrites(e: Extension, layers: seq<Layer>): (r: seq<string>)
    ensures |r| == |layers|
    ensures forall k :: 0 <= k < |layers| ==> r[k] == LayerWrite(e, layers[k])
  {
    if |layers| == 0 then [] else LayerWrites(e, layers[..|layers| - 1]) + [LayerWrite(e, layers[|layers| - 1])]
  }

  lemma {:induction false} LayerWritesPrefix(e: Extension, layers: seq<Layer>, k: nat)
    requires k < |layers|
    ensures LayerWrites(e, layers[..k + 1]) == LayerWrites(e, layers[..k]) + [LayerWrite(e, layers[k])]
  {
    assert layers[..k + 1][..k] == layers[..k];
  }

  function RunUserWrites(e: Extension): seq<string>
  {
    if e.runUser.Some? && e.runUser.value != "" then ["USER " + e.runUser.value + "\n"] else []
  }

  /** The exec form of a command line: `["a", "b"]`. */
  function ExecForm(items: seq<string>): string
  {
    "[" + Join(seq(|items|, k requires 0 <= k < |items| => "\"" + items[k] + "\""), ", ") + "]"
  }

  function EntryPointWrites(e: Extension): seq<string>
  {
    if |e.entryPoint| == 0 then [] else ["ENTRYPOINT " + ExecForm(e.entryPoint) + "\n\n"]
  }

  function CmdWrites(e: Extension): seq<string>
  {
    if |e.cmd| == 0 then [] else ["CMD " + ExecForm(e.cmd) + "\n\n"]
  }

  function HealthcheckWrites(e: Extension): seq<string>
  {
    match e.healthcheck
    case Some(h) => ["HEALTHCHECK " + DockerfileText.HealthcheckInstruction(h) + "\n"]
    case None => []
  }

  /** The `LABEL key=value` line of one label. */
  function LabelWrite(entry: (string, string)): string
  {
    "LABEL " + entry.0 + "=" + entry.1 + "\n"
  }

  function LabelWrites(labels: seq<(string, string)>): (r: seq<string>)
    ensures |r| == |labels|
    ensures forall k :: 0 <= k < |labels| ==> r[k] == LabelWrite(labels[k])
  {
    if |labels| == 0 then [] else LabelWrites(labels[..|labels| - 1]) + [LabelWrite(labels[|labels| - 1])]
  }

  /** One `LABEL` line per label, then a blank line when there was any. */
  function LabelSection(labels: seq<(string, string)>): seq<string>
  {
    LabelWrites(labels) + (if |labels| == 0 then [] else ["\n"])
  }

  function WorkDirWrites(e: Extension): seq<string>
  {
    match e.workDir
    case Some(d) => ["WORKDIR " + d + "\n"]
    case None => []
  }

  /** The exposed ports: the TCP ones tagged `/tcp`, then the UDP ones tagged `/udp`. */
  function ExposeItems(e: Extension): (r: seq<string>)
    ensures |r| == |e.exposeTcp| + |e.exposeUdp|
    ensures forall k :: 0 <= k < |e.exposeTcp| ==> r[k] == e.exposeTcp[k] + "/tcp"
    ensures forall k :: 0 <= k < |e.exposeUdp| ==> r[|e.exposeTcp| + k] == e.exposeUdp[k] + "/udp"
  {
    seq(|e.exposeTcp|, k requires 0 <= k < |e.exposeTcp| => e.exposeTcp[k] + "/tcp") +
    seq(|e.exposeUdp|, k requires 0 <= k < |e.exposeUdp| => e.exposeUdp[k] + "/udp")
  }

  function ExposeWrites(e: Extension): seq<string>
  {
    if |e.exposeTcp| == 0 && |e.exposeUdp| == 0 then []
    else ["EXPOSE " + Join(ExposeItems(e), " ") + "\n"]
  }

  /** The user the container runs as, then its entry point and command. */
  function CommandLines(e: Extension): seq<string>
  {
    RunUserWrites(e) + (EntryPointWrites(e) + CmdWrites(e))
  }

  function Settings(e: Extension): seq<string>
  {
    WorkDirWrites(e) + ExposeWrites(e)
  }

  /** Everything written after the layers. */
  function Tail(e: Extension): seq<string>
  {
    ["\n"] + (CommandLines(e) + (HealthcheckWrites(e) + (LabelSection(e.labels) + Settings(e))))
  }

  /** The writes of `generateDockerFile`, in order. */
  function DockerFileWrites(e: Extension): seq<string>
  {
    Head(e) + LayerWrites(e, e.layers) + Tail(e)
  }

  // ---------------------------------------------------------------- the writer

  /** The buffered writer of the Dockerfile: each `write` appends one piece of text. */
  class Writer {
    var written: seq<string>

    constructor()
      ensures written == []
    {
      written := [];
    }

    method Write(text: string)
      modifies this
      ensures written == old(written) + [text]
    {
      written := written + [text];
    }
  }

  method WritePreamble(writer: Writer)
    modifies writer
    ensures writer.written == old(writer.written) + Preamble
  {
    writer.Write(Preamble[0]);
    writer.Write(Preamble[1]);
    writer.Write(Preamble[2]);
    writer.Write(Preamble[3]);
    writer.Write(Preamble[4]);
    writer.Write(Preamble[5]);
  }

  method WriteMaintainerAndUser(e: Extension, writer: Writer)
    modifies writer
    ensures writer.written == old(writer.written) + (MaintainerWrites(e) + UserWrites(e))
  {
    ghost var w0 := writer.written;
    if e.maintainer.Some? {
      writer.Write("LABEL maintainer=\"" + e.maintainer.value + "\"\n\n");
    }
    ghost var w1 := writer.written;
    if e.user.Some? {
      var u := e.user.value;
      writer.Write(DockerfileText.CreateUserScript(u.user, u.uid, u.group, u.gid) + " \n\n");
    }
    assert writer.written == w1 + UserWrites(e);
    assert w1 == w0 + MaintainerWrites(e);
    AppendAssoc(w0, MaintainerWrites(e), UserWrites(e));
  }

  method WritePackages(e: Extension, writer: Writer)
    modifies writer
    ensures writer.written == old(writer.written) + PackagesWrites(e)
  {
    if |e.packages| > 0 {
      writer.Write("# Packages installation\n");
      writer.Write("RUN " + Mount(e) + Join(PackageCommands(e.packages), PackagesSeparator) + "\n");
      writer.Write("\n");
    }
  }

  method WriteSetup(e: Extension, writer: Writer)
    modifies writer
    ensures writer.written == old(writer.written) + Setup(e)
  {
    ghost var w0 := writer.written;
    WritePreamble(writer);
    ghost var w1 := writer.written;
    writer.Write(FromWrite(e));
    ghost var w2 := writer.written;
    WriteMaintainerAndUser(e, writer);
    ghost var w3 := writer.written;
    WritePackages(e, writer);
    ghost var w4 := writer.written;
    writer.Write(EnvText(e.env));
    AppendAssoc(w3, PackagesWrites(e), [EnvText(e.env)]);
    ghost var packages := PackagesWrites(e) + [EnvText(e.env)];
    AppendAssoc(w2, MaintainerWrites(e) + UserWrites(e), packages);
    ghost var personal := MaintainerWrites(e) + UserWrites(e) + packages;
    AppendAssoc(w1, [FromWrite(e)], personal);
    AppendAssoc(w0, Preamble, [FromWrite(e)] + personal);
  }

  method WriteHead(e: Extension, writer: Writer)
    modifies writer
    ensures writer.written == old(writer.written) + Head(e)
  {
    ghost var w0 := writer.written;
    WriteSetup(e, writer);
    ghost var w1 := writer.written;
    writer.Write(LayerComments[0]);
    writer.Write(LayerComments[1]);
    assert writer.written == w1 + LayerComments;
    AppendAssoc(w0, Setup(e), LayerComments);
  }

  /** `forEachCopyAndRunLayer`: one write per layer, in declaration order. */
  method WriteLayers(e: Extension, writer: Writer)
    modifies writer
    ensures writer.written == old(writer.written) + LayerWrites(e, e.layers)
  {
    ghost var start := writer.written;
    for k := 0 to |e.layers|
      invariant writer.written == start + LayerWrites(e, e.layers[..k])
    {
      LayerWritesPrefix(e, e.layers, k);
      writer.Write(LayerWrite(e, e.layers[k]));
    }
    assert e.layers[..|e.layers|] == e.layers;
  }

  method WriteLabels(labels: seq<(string, string)>, writer: Writer)
    modifies writer
    ensures writer.written == old(writer.written) + LabelSection(labels)
  {
    ghost var start := writer.written;
    for k := 0 to |labels|
      invariant writer.written == start + LabelWrites(labels[..k])
    {
      assert labels[..k + 1][..k] == labels[..k];
      writer.Write(LabelWrite(labels[k]));
    }
    assert labels[..|labels|] == labels;
    if |labels| > 0 {
      writer.Write("\n");
    }
  }

  method WriteCommandLines(e: Extension, writer: Writer)
    modifies writer
    ensures writer.written == old(writer.written) + CommandLines(e)
  {
    ghost var w0 := writer.written;
    if e.runUser.Some? && e.runUser.value != "" {
      writer.Write("USER " + e.runUser.value + "\n");
    }
    ghost var w1 := writer.written;
    if |e.entryPoint| > 0 {
      writer.Write("ENTRYPOINT " + ExecForm(e.entryPoint) + "\n\n");
    }
    ghost var w2 := writer.written;
    if |e.cmd| > 0 {
      writer.Write("CMD " + ExecForm(e.cmd) + "\n\n");
    }
    assert writer.written == w2 + CmdWrites(e);
    assert w2 == w1 + EntryPointWrites(e);
    AppendAssoc(w1, EntryPointWrites(e), CmdWrites(e));
    assert w1 == w0 + RunUserWrites(e);
    AppendAssoc(w0, RunUserWrites(e), EntryPointWrites(e) + CmdWrites(e));
  }

  method WriteSettings(e: Extension, writer: Writer)
    modifies writer
    ensures writer.written == old(writer.written) + Settings(e)
  {
    ghost var w0 := writer.written;
    if e.workDir.Some? {
      writer.Write("WORKDIR " + e.workDir.value + "\n");
    }
    ghost var w1 := writer.written;
    if |e.exposeTcp| > 0 || |e.exposeUdp| > 0 {
      writer.Write("EXPOSE " + Join(ExposeItems(e), " ") + "\n");
    }
    assert writer.written == w1 + ExposeWrites(e);
    assert w1 == w0 + WorkDirWrites(e);
    AppendAssoc(w0, WorkDirWrites(e), ExposeWrites(e));
  }

  method WriteHealthcheck(e: Extension, writer: Writer)
    modifies writer
    ensures writer.written == old(writer.written) + HealthcheckWrites(e)
  {
    if e.healthcheck.Some? {
      writer.Write("HEALTHCHECK " + DockerfileText.HealthcheckInstruction(e.healthcheck.value) + "\n");
    }
  }

  method WriteTail(e: Extension, writer: Writer)
    modifies writer
    ensures writer.written == old(writer.written) + Tail(e)
  {
    ghost var w0 := writer.written;
    writer.Write("\n");
    ghost var w1 := writer.written;
    WriteCommandLines(e, writer);
    ghost var w2 := writer.written;
    WriteHealthcheck(e, writer);
    ghost var w3 := writer.written;
    WriteLabels(e.labels, writer);
    ghost var w4 := writer.written;
    WriteSettings(e, writer);
    AppendAssoc(w3, LabelSection(e.labels), Settings(e));
    ghost var checks := LabelSection(e.labels) + Settings(e);
    AppendAssoc(w2, HealthcheckWrites(e), checks);
    ghost var closing := HealthcheckWrites(e) + checks;
    AppendAssoc(w1, CommandLines(e), closing);
    AppendAssoc(w0, ["\n"], CommandLines(e) + closing);
  }

  /** `generateDockerFile`: the writes of every section, in order. */
  method GenerateDockerFile(e: Extension, writer: Writer)
    modifies writer
    ensures writer.written == old(writer.written) + DockerFileWrites(e)
  {
    ghost var start := writer.written;
    WriteHead(e, writer);
    WriteLayers(e, writer);
    WriteTail(e, writer);
    AppendAssoc(start, Head(e), LayerWrites(e, e.layers));
    AppendAssoc(start, Head(e) + LayerWrites(e, e.layers), Tail(e));
  }

  // ---------------------------------------------------------------- properties

  /** Something put after a sequence keeps its prefix and the element after the prefix. */
  lemma {:induction false} KeepsStart(p: seq<string>, x: string, a: seq<string>, b: seq<string>)
    requires |a| > |p| && a[..|p|] == p && a[|p|] == x
    ensures |a + b| > |p| && (a + b)[..|p|] == p && (a + b)[|p|] == x
  {
    assert (a + b)[..|p|] == a[..|p|];
  }

  /** The file opens with the banner and the syntax line, then the base image. */
  lemma {:induction false} DockerFileStartsWithFrom(e: Extension)
    ensures |DockerFileWrites(e)| > |Preamble|
    ensures DockerFileWrites(e)[..|Preamble|] == Preamble
    ensures DockerFileWrites(e)[|Preamble|] == FromWrite(e)
  {
    var rest := MaintainerWrites(e) + UserWrites(e) + (PackagesWrites(e) + [EnvText(e.env)]);
    var setup := Preamble + ([FromWrite(e)] + rest);
    assert setup == Setup(e);
    assert setup[..|Preamble|] == Preamble;
    KeepsStart(Preamble, FromWrite(e), setup, LayerComments);
    KeepsStart(Preamble, FromWrite(e), Head(e), LayerWrites(e, e.layers));
    KeepsStart(Preamble, FromWrite(e), Head(e) + LayerWrites(e, e.layers), Tail(e));
  }

  /** The pieces of `a + s + l + t` at the positions of `s` and of `l`. */
  lemma {:induction false} Middle(a: seq<string>, s: seq<string>, l: seq<string>, t: seq<string>)
    ensures var w := a + s + l + t;
      |a| + |s| + |l| <= |w| && w[|a|..|a| + |s|] == s &&
      forall k :: 0 <= k < |l| ==> w[|a| + |s| + k] == l[k]
  {
  }

  /** The head closes with the two comments about the layers. */
  lemma {:induction false} CommentsBeforeLayers(e: Extension)
    ensures var w := DockerFileWrites(e);
      var at := |Head(e)|;
      2 <= at <= |w| && w[at - 2..at] == LayerComments
  {
    Middle(Setup(e), LayerComments, LayerWrites(e, e.layers), Tail(e));
  }

  /** The layers are written one after the other, in declaration order, right after the head
      (`LayerWrites` holds one write per layer, the write of the layer at the same position). */
  lemma {:induction false} LayersInOrder(e: Extension)
    ensures var w := DockerFileWrites(e);
      var at := |Head(e)|;
      at + |e.layers| <= |w| && w[at..at + |e.layers|] == LayerWrites(e, e.layers)
  {
    Middle(Head(e), LayerWrites(e, e.layers), [], Tail(e));
  }

  /** Package entries contribute their commands entry after entry. */
  lemma {:induction false} PackageCommandsAppend(
    a: seq<(LegacyDaemon.LegacyInstaller, seq<LegacyDaemon.LegacyPackage>)>,
    b: seq<(LegacyDaemon.LegacyInstaller, seq<LegacyDaemon.LegacyPackage>)>)
    ensures PackageCommands(a + b) == PackageCommands(a) + PackageCommands(b)
  {
    assert PackageBlocks(a + b) == PackageBlocks(a) + PackageBlocks(b) by {
      forall k | 0 <= k < |a| + |b|
        ensures PackageBlocks(a + b)[k] == (PackageBlocks(a) + PackageBlocks(b))[k]
      {
        if k < |a| {
          assert (a + b)[k] == a[k];
        } else {
          assert (a + b)[k] == b[k - |a|];
        }
      }
    }
    ConcatAppend(PackageBlocks(a), PackageBlocks(b));
  }

  /** When no key or value holds a line break, the environment text is one `ENV` line per
      entry, in order, each ended by a line break. */
  lemma {:induction false} EnvLines(env: seq<(string, string)>)
    requires forall k :: 0 <= k < |env| ==> '\n' !in env[k].0 && '\n' !in env[k].1
    ensures Split(EnvText(env), '\n') ==
      seq(|env|, k requires 0 <= k < |env| => EnvLine(env[k])) + [""]
  {
    var lines := seq(|env|, k requires 0 <= k < |env| => EnvLine(env[k]));
    if |env| > 0 {
      var front := env[..|env| - 1];
      var last := EnvLine(env[|env| - 1]);
      EnvLines(front);
      var frontLines := seq(|front|, k requires 0 <= k < |front| => EnvLine(front[k]));
      assert '\n' !in last by {
        assert last == "ENV " + env[|env| - 1].0 + "=" + env[|env| - 1].1;
      }
      SplitSnocLine(EnvText(front), frontLines, last);
      assert lines == frontLines + [last];
    }
  }

  /** One more line at the end of text whose pieces end with the empty one. */
  lemma {:induction false} SplitSnocLine(t: string, pieces: seq<string>, last: string)
    requires |t| == 0 || t[|t| - 1] == '\n'
    requires Split(t, '\n') == pieces + [""]
    requires '\n' !in last
    ensures Split(t + last + "\n", '\n') == pieces + [last, ""]
  {
    SplitAtSeparator(last, '\n', "");
    assert Split(last + "\n", '\n') == [last, ""] by {
      assert last + "\n" == last + ['\n'] + "";
    }
    if |t| == 0 {
      assert |Split(t, '\n')| == 1;
      assert pieces == [];
      assert t + last + "\n" == last + "\n";
    } else {
      assert t + last + "\n" == t + (last + "\n");
      SplitConcatEnd(t, last + "\n");
      assert Split(t, '\n')[..|Split(t, '\n')| - 1] == pieces;
    }
  }

  /** Text ending with a line break: the pieces of what follows replace its empty last piece. */
  lemma {:induction false} SplitConcatEnd(t: string, u: string)
    requires |t| == 0 || t[|t| - 1] == '\n'
    ensures |t| > 0 ==> Split(t + u, '\n') == Split(t, '\n')[..|Split(t, '\n')| - 1] + Split(u, '\n')
  {
    if |t| > 0 {
      var x := t[..|t| - 1];
      assert t == x + ['\n'] + "";
      SplitConcat(x, '\n', "");
      assert t + u == x + ['\n'] + u;
      SplitConcat(x, '\n', u);
      assert Split("", '\n') == [""];
      assert Split(t, '\n') == Split(x, '\n') + [""];
    }
  }

  /** When no port holds a space, the words of the EXPOSE line are `EXPOSE`, then the TCP ports,
      then the UDP ports, each with its protocol. */
  lemma {:induction false} ExposeWords(e: Extension)
    requires |e.exposeTcp| + |e.exposeUdp| > 0
    requires forall k :: 0 <= k < |e.exposeTcp| ==> ' ' !in e.exposeTcp[k]
    requires forall k :: 0 <= k < |e.exposeUdp| ==> ' ' !in e.exposeUdp[k]
    ensures |ExposeWrites(e)| == 1
    ensures Split("EXPOSE " + Join(ExposeItems(e), " "), ' ') == ["EXPOSE"] + ExposeItems(e)
  {
    var items := ExposeItems(e);
    forall k | 0 <= k < |items| ensures ' ' !in items[k] {
      if k < |e.exposeTcp| {
        assert items[k] == e.exposeTcp[k] + "/tcp";
      } else {
        assert items[k] == e.exposeUdp[k - |e.exposeTcp|] + "/udp";
      }
    }
    SplitJoin(items, ' ');
    assert "EXPOSE " + Join(items, " ") == "EXPOSE" + [' '] + Join(items, " ");
    SplitAtSeparator("EXPOSE", ' ', Join(items, " "));
  }
}

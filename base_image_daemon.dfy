/** The current (base-image) Dockerfile compiler as a whole: `dockerFileFromInstructions`
    expands each `Install` and renders every resulting instruction in order, while rendering a
    `SetUser` overwrites the compiler's `user` field, which the expansion of a later `Install`
    reads to restore the user after installing as root.

    The specification folds the instructions from the left, one at a time (`CompileAll`), the
    way the sequential stream evaluates them; `ExpandAll` and `RenderEach` are an independent
    reference that first expands everything, with the restored user computed from the original
    instructions, and then renders each result on its own. `CompileMatchesReference` proves
    the two agree. */
module BaseImageDaemon {
  import opened Wrappers
  import opened Text
  import opened Seqs
  import opened OSDistributions
  import opened BaseImageRendering
  import DockerVersion

  /** Where rendering stands: the blocks rendered so far, the current user, and the exception
      that stopped it, if one did. */
  datatype Progress = Progress(blocks: seq<string>, user: string, failure: Option<DaemonError>)

  /** Render one instruction, unless rendering has already stopped. */
  function RenderStep(b: Buildable, order: seq<string>, p: Progress, i: Instruction): Progress
  {
    if p.failure.Some? then p
    else match RenderOne(b, order, i)
      case Err(e) => p.(failure := Some(e))
      case Ok(text) => Progress(p.blocks + [text], UserAfter(p.user, i), None)
  }

  function RenderAll(b: Buildable, order: seq<string>, p: Progress, xs: seq<Instruction>): Progress
  {
    if |xs| == 0 then p else RenderStep(b, order, RenderAll(b, order, p, xs[..|xs| - 1]), xs[|xs| - 1])
  }

  /** Expand one original instruction with the current user and render what it expands to. */
  function CompileStep(b: Buildable, order: seq<string>, p: Progress, i: Instruction): Progress
  {
    if p.failure.Some? then p
    else match Expand(b, i, p.user)
      case Err(e) => p.(failure := Some(e))
      case Ok(xs) => RenderAll(b, order, p, xs)
  }

  /** The stream of `dockerFileFromInstructions`, starting from the user `user0`. */
  function CompileAll(b: Buildable, order: seq<string>, instrs: seq<Instruction>, user0: string): Progress
  {
    if |instrs| == 0 then Progress([], user0, None)
    else CompileStep(b, order, CompileAll(b, order, instrs[..|instrs| - 1], user0), instrs[|instrs| - 1])
  }

  /** `dockerFileFromInstructions`: the header, then the rendered blocks separated by newlines. */
  function DockerFile(b: Buildable, uuid: string, order: seq<string>, user0: string): Result<string, DaemonError>
  {
    var p := CompileAll(b, order, b.actualInstructions, user0);
    if p.failure.Some? then Err(p.failure.value) else Ok(Header(b, uuid) + Join(p.blocks, "\n"))
  }

  // ---------------------------------------------------------------- reference

  /** The user in effect after the given instructions: the last `SetUser`'s, or `user0`. */
  function LastSetUser(instrs: seq<Instruction>, user0: string): string
  {
    if |instrs| == 0 then user0 else UserAfter(LastSetUser(instrs[..|instrs| - 1], user0), instrs[|instrs| - 1])
  }

  /** Without any `SetUser` the user is the initial one; otherwise it is the last `SetUser`'s. */
  lemma {:induction false} LastSetUserIsLast(instrs: seq<Instruction>, user0: string)
    ensures (forall k :: 0 <= k < |instrs| ==> !instrs[k].SetUser?) ==> LastSetUser(instrs, user0) == user0
    ensures forall j :: (0 <= j < |instrs| && instrs[j].SetUser? &&
                         (forall k :: j < k < |instrs| ==> !instrs[k].SetUser?)) ==>
      LastSetUser(instrs, user0) == instrs[j].username
  {
    if |instrs| > 0 {
      var front := instrs[..|instrs| - 1];
      LastSetUserIsLast(front, user0);
      assert forall k :: 0 <= k < |front| ==> front[k] == instrs[k];
    }
  }

  lemma {:induction false} LastSetUserAppend(a: seq<Instruction>, c: seq<Instruction>, user0: string)
    ensures LastSetUser(a + c, user0) == LastSetUser(c, LastSetUser(a, user0))
  {
    if |c| > 0 {
      LastSetUserAppend(a, c[..|c| - 1], user0);
      assert (a + c)[..|a + c| - 1] == a + c[..|c| - 1];
    } else {
      assert a + c == a;
    }
  }

  /** Each instruction rendered on its own; an error if any of them cannot be rendered. */
  function RenderEach(b: Buildable, order: seq<string>, xs: seq<Instruction>): Result<seq<string>, DaemonError>
  {
    if |xs| == 0 then Ok([])
    else
      var front := xs[..|xs| - 1];
      match RenderEach(b, order, front)
      case Err(e) => Err(e)
      case Ok(texts) =>
        match RenderOne(b, order, xs[|xs| - 1])
        case Err(e) => Err(e)
        case Ok(text) => Ok(texts + [text])
  }

  /** The reference rendering succeeds exactly when every instruction renders, and then holds
      each instruction's block at its position. */
  lemma {:induction false} RenderEachBlocks(b: Buildable, order: seq<string>, xs: seq<Instruction>)
    ensures RenderEach(b, order, xs).Ok? <==> forall k :: 0 <= k < |xs| ==> RenderOne(b, order, xs[k]).Ok?
    ensures RenderEach(b, order, xs).Ok? ==>
      |RenderEach(b, order, xs).value| == |xs| &&
      forall k :: 0 <= k < |xs| ==> RenderOne(b, order, xs[k]) == Ok(RenderEach(b, order, xs).value[k])
  {
    if |xs| > 0 {
      var n := |xs| - 1;
      var front := xs[..n];
      RenderEachBlocks(b, order, front);
      assert forall k :: 0 <= k < n ==> front[k] == xs[k];
    }
  }

  lemma {:induction false} RenderEachAppend(b: Buildable, order: seq<string>, xs: seq<Instruction>, ys: seq<Instruction>)
    ensures RenderEach(b, order, xs + ys).Ok? <==> RenderEach(b, order, xs).Ok? && RenderEach(b, order, ys).Ok?
    ensures RenderEach(b, order, xs + ys).Ok? ==>
      RenderEach(b, order, xs + ys).value == RenderEach(b, order, xs).value + RenderEach(b, order, ys).value
  {
    if |ys| == 0 {
      assert xs + ys == xs;
    } else {
      var n := |ys| - 1;
      var ys' := ys[..n];
      RenderEachAppend(b, order, xs, ys');
      assert (xs + ys)[..|xs + ys| - 1] == xs + ys';
      assert (xs + ys)[|xs + ys| - 1] == ys[n];
      var r1, r2 := RenderEach(b, order, xs), RenderEach(b, order, ys');
      if r1.Ok? && r2.Ok? && RenderOne(b, order, ys[n]).Ok? {
        AppendAssoc(r1.value, r2.value, [RenderOne(b, order, ys[n]).value]);
      }
    }
  }


  /** Two expansions one after the other, or the first error. */
  function Then(r: Result<seq<Instruction>, DaemonError>, s: Result<seq<Instruction>, DaemonError>): Result<seq<Instruction>, DaemonError>
  {
    if r.Err? then r else if s.Err? then s else Ok(r.value + s.value)
  }

  lemma {:induction false} ThenAssoc(x: Result<seq<Instruction>, DaemonError>, y: Result<seq<Instruction>, DaemonError>, z: Result<seq<Instruction>, DaemonError>)
    ensures Then(Then(x, y), z) == Then(x, Then(y, z))
  {
    if x.Ok? && y.Ok? && z.Ok? {
      assert x.value + y.value + z.value == x.value + (y.value + z.value);
    }
  }

  /** Every original instruction expanded with the user its original predecessors leave in
      effect, concatenated in order. */
  function ExpandAll(b: Buildable, instrs: seq<Instruction>, user0: string): Result<seq<Instruction>, DaemonError>
  {
    if |instrs| == 0 then Ok([])
    else
      var front := instrs[..|instrs| - 1];
      Then(ExpandAll(b, front, user0), Expand(b, instrs[|instrs| - 1], LastSetUser(front, user0)))
  }

  /** Expansion fails only for a distribution without an installer, and then exactly when
      there is an `Install` to expand. */
  lemma {:induction false} ExpandAllFails(b: Buildable, instrs: seq<Instruction>, user0: string)
    ensures ExpandAll(b, instrs, user0).Err? <==>
      b.distribution == Other && exists k :: 0 <= k < |instrs| && instrs[k].Install?
  {
    if |instrs| > 0 {
      var n := |instrs| - 1;
      var front := instrs[..n];
      ExpandAllFails(b, front, user0);
      assert forall k :: 0 <= k < n ==> front[k] == instrs[k];
      if b.distribution == Other && instrs[n].Install? {
        assert Expand(b, instrs[n], LastSetUser(front, user0)).Err?;
      }
    }
  }

  /** Expansion is compositional: the expansion of a concatenation is the expansion of the first
      part followed by that of the second, started from the user the first part leaves; it fails
      when either part fails. */
  lemma {:induction false} ExpandAllAppend(b: Buildable, a: seq<Instruction>, c: seq<Instruction>, user0: string)
    ensures ExpandAll(b, a + c, user0) == Then(ExpandAll(b, a, user0), ExpandAll(b, c, LastSetUser(a, user0)))
  {
    var u := LastSetUser(a, user0);
    if |c| == 0 {
      assert a + c == a;
      var e := ExpandAll(b, a, user0);
      if e.Ok? {
        assert e.value + [] == e.value;
      }
    } else {
      var c' := c[..|c| - 1];
      ExpandAllAppend(b, a, c', user0);
      assert (a + c)[..|a + c| - 1] == a + c';
      assert (a + c)[|a + c| - 1] == c[|c| - 1];
      LastSetUserAppend(a, c', user0);
      var here := Expand(b, c[|c| - 1], LastSetUser(c', u));
      assert ExpandAll(b, a + c, user0) == Then(ExpandAll(b, a + c', user0), here);
      assert ExpandAll(b, c, u) == Then(ExpandAll(b, c', u), here);
      ThenAssoc(ExpandAll(b, a, user0), ExpandAll(b, c', u), here);
    }
  }

  /** Each original instruction's expansion appears in place in the whole expansion: the
      instructions before it expand to a prefix, and then comes its own expansion with the user
      the instructions before it leave (an `Install` therefore restores the user of the last
      `SetUser` before it, by LastSetUserIsLast, whatever `SetUser("root")` was injected). */
  lemma {:induction false} ExpandAllAt(b: Buildable, instrs: seq<Instruction>, k: nat, user0: string)
    requires k < |instrs| && ExpandAll(b, instrs, user0).Ok?
    ensures var whole := ExpandAll(b, instrs, user0).value;
      var prefix := ExpandAll(b, instrs[..k], user0);
      var here := Expand(b, instrs[k], LastSetUser(instrs[..k], user0));
      prefix.Ok? && here.Ok? && |prefix.value| + |here.value| <= |whole| &&
      whole[..|prefix.value|] == prefix.value &&
      whole[|prefix.value|..|prefix.value| + |here.value|] == here.value
  {
    var a, x, c := instrs[..k], instrs[k], instrs[k + 1..];
    var u := LastSetUser(a, user0);
    assert instrs == (a + [x]) + c;
    ExpandAllAppend(b, a + [x], c, user0);
    ExpandAllAppend(b, a, [x], user0);
    ExpandAllOne(b, x, u);
    var rest := ExpandAll(b, c, LastSetUser(a + [x], user0));
    InstructionsSlices(ExpandAll(b, a, user0).value, Expand(b, x, u).value, rest.value);
  }

  lemma {:induction false} ExpandAllOne(b: Buildable, x: Instruction, user: string)
    ensures ExpandAll(b, [x], user) == Expand(b, x, user)
  {
    assert [x][..0] == [];
    var e := Expand(b, x, user);
    if e.Ok? {
      assert [] + e.value == e.value;
    }
  }

  lemma {:induction false} InstructionsSlices(p: seq<Instruction>, h: seq<Instruction>, r: seq<Instruction>)
    ensures var w := p + h + r;
      |p| + |h| <= |w| && w[..|p|] == p && w[|p|..|p| + |h|] == h
  {
  }

  // ---------------------------------------------------------------- fold = reference

  lemma {:induction false} RenderAllOk(b: Buildable, order: seq<string>, p: Progress, xs: seq<Instruction>)
    requires p.failure.None?
    ensures RenderAll(b, order, p, xs).failure.None? <==> RenderEach(b, order, xs).Ok?
    ensures RenderEach(b, order, xs).Ok? ==>
      RenderAll(b, order, p, xs) == Progress(p.blocks + RenderEach(b, order, xs).value, LastSetUser(xs, p.user), None)
  {
    if |xs| > 0 {
      var front := xs[..|xs| - 1];
      RenderAllOk(b, order, p, front);
      if RenderEach(b, order, front).Ok? && RenderEach(b, order, xs).Ok? {
        assert p.blocks + RenderEach(b, order, front).value + [RenderOne(b, order, xs[|xs| - 1]).value]
          == p.blocks + RenderEach(b, order, xs).value;
      }
    }
  }

  /** Once rendering has stopped, nothing changes any more. */
  lemma {:induction false} RenderAllStopped(b: Buildable, order: seq<string>, p: Progress, xs: seq<Instruction>)
    requires p.failure.Some?
    ensures RenderAll(b, order, p, xs) == p
  {
    if |xs| > 0 {
      RenderAllStopped(b, order, p, xs[..|xs| - 1]);
    }
  }

  lemma {:induction false} RenderAllPrefixStopped(b: Buildable, order: seq<string>, p: Progress, xs: seq<Instruction>, j: nat)
    requires j <= |xs| && RenderAll(b, order, p, xs[..j]).failure.Some?
    ensures RenderAll(b, order, p, xs) == RenderAll(b, order, p, xs[..j])
    decreases |xs| - j
  {
    if j < |xs| {
      assert xs[..j + 1][..j] == xs[..j];
      RenderAllPrefixStopped(b, order, p, xs, j + 1);
    } else {
      assert xs[..j] == xs;
    }
  }

  lemma {:induction false} CompileAllNext(b: Buildable, order: seq<string>, instrs: seq<Instruction>, k: nat, user0: string)
    requires k < |instrs|
    ensures CompileAll(b, order, instrs[..k + 1], user0) ==
      CompileStep(b, order, CompileAll(b, order, instrs[..k], user0), instrs[k])
  {
    assert instrs[..k + 1][..k] == instrs[..k];
  }

  lemma {:induction false} CompileAllPrefixStopped(b: Buildable, order: seq<string>, instrs: seq<Instruction>, j: nat, user0: string)
    requires j <= |instrs| && CompileAll(b, order, instrs[..j], user0).failure.Some?
    ensures CompileAll(b, order, instrs, user0) == CompileAll(b, order, instrs[..j], user0)
    decreases |instrs| - j
  {
    if j < |instrs| {
      assert instrs[..j + 1][..j] == instrs[..j];
      CompileAllPrefixStopped(b, order, instrs, j + 1, user0);
    } else {
      assert instrs[..j] == instrs;
    }
  }

  /** The user an expansion leaves in effect is the user the original instruction leaves: the
      injected switch to root is always undone. */
  lemma {:induction false} ExpandKeepsUser(b: Buildable, i: Instruction, user: string)
    requires Expand(b, i, user).Ok?
    ensures LastSetUser(Expand(b, i, user).value, user) == UserAfter(user, i)
  {
    var xs := Expand(b, i, user).value;
    if i.Install? {
      assert xs[..2][..1] == [SetUser("root")];
      assert xs[..2][..1][..0] == [];
    } else {
      assert xs[..0] == [];
    }
  }

  /** The sequential compilation, with its mutable current user, renders exactly the reference
      expansion, block by block, and ends with the user of the last `SetUser`; it fails exactly
      when the reference fails. */
  lemma {:induction false} CompileMatchesReference(b: Buildable, order: seq<string>, instrs: seq<Instruction>, user0: string)
    ensures var p := CompileAll(b, order, instrs, user0);
      var expanded := ExpandAll(b, instrs, user0);
      (p.failure.None? <==> expanded.Ok? && RenderEach(b, order, expanded.value).Ok?) &&
      (p.failure.None? ==> p.blocks == RenderEach(b, order, expanded.value).value && p.user == LastSetUser(instrs, user0))
  {
    if |instrs| > 0 {
      var front := instrs[..|instrs| - 1];
      var x := instrs[|instrs| - 1];
      CompileMatchesReference(b, order, front, user0);
      var p := CompileAll(b, order, front, user0);
      var ef := ExpandAll(b, front, user0);
      if ef.Ok? {
        var u := LastSetUser(front, user0);
        var ex := Expand(b, x, u);
        if ex.Ok? {
          RenderEachAppend(b, order, ef.value, ex.value);
          if p.failure.None? {
            RenderAllOk(b, order, p, ex.value);
            ExpandKeepsUser(b, x, u);
          }
        }
      }
    }
  }

  /** The Dockerfile is the header followed by the reference expansion rendered block by
      block, separated by newlines; an instruction of an unsupported kind fails the whole. */
  lemma {:induction false} DockerFileLayout(b: Buildable, uuid: string, order: seq<string>, user0: string)
    ensures var expanded := ExpandAll(b, b.actualInstructions, user0);
      var r := DockerFile(b, uuid, order, user0);
      (r.Ok? <==> expanded.Ok? && RenderEach(b, order, expanded.value).Ok?) &&
      (r.Ok? ==> r.value == Header(b, uuid) + Join(RenderEach(b, order, expanded.value).value, "\n"))
  {
    CompileMatchesReference(b, order, b.actualInstructions, user0);
    DockerFileOfProgress(b, uuid, order, user0);
  }

  lemma {:induction false} DockerFileOfProgress(b: Buildable, uuid: string, order: seq<string>, user0: string)
    ensures var p := CompileAll(b, order, b.actualInstructions, user0);
      DockerFile(b, uuid, order, user0) ==
        if p.failure.Some? then Err(p.failure.value) else Ok(Header(b, uuid) + Join(p.blocks, "\n"))
  {
  }

  lemma {:induction false} UnsupportedFails(b: Buildable, uuid: string, order: seq<string>, user0: string, k: nat)
    requires k < |b.actualInstructions| && b.actualInstructions[k].Unsupported?
    ensures DockerFile(b, uuid, order, user0).Err?
  {
    var instrs := b.actualInstructions;
    CompileMatchesReference(b, order, instrs, user0);
    var expanded := ExpandAll(b, instrs, user0);
    if expanded.Ok? {
      UnsupportedIsExpandedToItself(b, instrs, k, user0);
      var at :| 0 <= at < |expanded.value| && expanded.value[at] == instrs[k];
      RenderEachBlocks(b, order, expanded.value);
      assert RenderOne(b, order, expanded.value[at]).Err?;
    }
  }

  lemma {:induction false} UnsupportedIsExpandedToItself(b: Buildable, instrs: seq<Instruction>, k: nat, user0: string)
    requires k < |instrs| && instrs[k].Unsupported? && ExpandAll(b, instrs, user0).Ok?
    ensures exists at :: 0 <= at < |ExpandAll(b, instrs, user0).value| && ExpandAll(b, instrs, user0).value[at] == instrs[k]
  {
    ExpandAllAt(b, instrs, k, user0);
    var whole := ExpandAll(b, instrs, user0).value;
    var at := |ExpandAll(b, instrs[..k], user0).value|;
    assert Expand(b, instrs[k], LastSetUser(instrs[..k], user0)).value == [instrs[k]];
    SliceElement(whole, at, instrs[k]);
  }

  lemma {:induction false} SliceElement(w: seq<Instruction>, at: nat, x: Instruction)
    requires at + 1 <= |w| && w[at..at + 1] == [x]
    ensures 0 <= at < |w| && w[at] == x
  {
    assert w[at..at + 1][0] == w[at];
  }

  /** The commands an apt install of the single package `x` runs, not isolating. */
  function InstallX(): seq<string>
  {
    WrapInstallCommand(Ubuntu, false, "apt-get install -y x").value
  }

  lemma {:induction false} ExpandInstallX(b: Buildable, user: string)
    requires b.distribution == Ubuntu && !b.isolateFromExternalRepos
    ensures Expand(b, Install(["x"]), user) == Ok([SetUser("root"), Run(InstallX()), SetUser(user)])
  {
    assert PackagesToInstall(["x"]) == ["x"] by {
      assert !Contains("x", MetaMarker);
      assert ["x"][1..] == [];
    }
    assert Join(["x"], " ") == "x";
    assert "apt-get install -y " + "x" == "apt-get install -y x";
    assert InstallCommand(Ubuntu, ["x"]) == Ok("apt-get install -y x");
  }

  /** The expansion of a user switch, an install and a RUN (apt, not isolating): the install is
      bracketed by a switch to root and a switch back to `alice`. */
  lemma {:induction false} SwitchBackExpansion(b: Buildable, user0: string)
    requires b.distribution == Ubuntu && !b.isolateFromExternalRepos
    ensures ExpandAll(b, [SetUser("alice"), Install(["x"]), Run(["echo hi"])], user0) ==
      Ok([SetUser("alice"), SetUser("root"), Run(InstallX()), SetUser("alice"), Run(["echo hi"])])
  {
    var instrs := [SetUser("alice"), Install(["x"]), Run(["echo hi"])];
    var one := instrs[..1];
    var two := instrs[..2];
    assert one[..0] == [] && one[0] == SetUser("alice");
    assert ExpandAll(b, [], user0) == Ok([]);
    assert ExpandAll(b, one, user0).value == [] + [SetUser("alice")];
    assert [] + [SetUser("alice")] == [SetUser("alice")];
    assert ExpandAll(b, one, user0) == Ok([SetUser("alice")]);
    assert LastSetUser(one, user0) == "alice";
    ExpandInstallX(b, "alice");
    assert two[..1] == one && two[1] == Install(["x"]);
    var four := [SetUser("alice"), SetUser("root"), Run(InstallX()), SetUser("alice")];
    assert [SetUser("alice")] + [SetUser("root"), Run(InstallX()), SetUser("alice")] == four;
    assert ExpandAll(b, two, user0) == Ok(four);
    assert LastSetUser(two, user0) == "alice";
    assert instrs[..2] == two && instrs[2] == Run(["echo hi"]);
    assert four + [Run(["echo hi"])] ==
      [SetUser("alice"), SetUser("root"), Run(InstallX()), SetUser("alice"), Run(["echo hi"])];
  }

  /** The same scenario rendered: `USER alice`, `USER root`, the install RUN, `USER alice`, then
      the user's own RUN, with no failure. */
  lemma {:induction false} SwitchBackAfterInstall(b: Buildable, order: seq<string>, user0: string)
    requires b.distribution == Ubuntu && !b.isolateFromExternalRepos
    ensures var c := CompileAll(b, order, [SetUser("alice"), Install(["x"]), Run(["echo hi"])], user0);
      c.failure.None? && |c.blocks| == 5 &&
      c.blocks[0] == "USER alice" && c.blocks[1] == "USER root" && c.blocks[3] == "USER alice"
  {
    var instrs := [SetUser("alice"), Install(["x"]), Run(["echo hi"])];
    SwitchBackExpansion(b, user0);
    CompileMatchesReference(b, order, instrs, user0);
    SwitchBackRenders(b, order);
  }

  lemma {:induction false} SwitchBackRenders(b: Buildable, order: seq<string>)
    requires !b.isolateFromExternalRepos
    ensures var r := RenderEach(b, order, [SetUser("alice"), SetUser("root"), Run(InstallX()), SetUser("alice"), Run(["echo hi"])]);
      r.Ok? && |r.value| == 5 && r.value[0] == "USER alice" && r.value[1] == "USER root" && r.value[3] == "USER alice"
  {
    var expanded := [SetUser("alice"), SetUser("root"), Run(InstallX()), SetUser("alice"), Run(["echo hi"])];
    assert forall k :: 0 <= k < |expanded| ==> RenderOne(b, order, expanded[k]).Ok?;
    RenderEachBlocks(b, order, expanded);
    var blocks := RenderEach(b, order, expanded).value;
    assert RenderOne(b, order, expanded[0]) == Ok(blocks[0]);
    assert RenderOne(b, order, expanded[1]) == Ok(blocks[1]);
    assert RenderOne(b, order, expanded[3]) == Ok(blocks[3]);
  }

  // ---------------------------------------------------------------- the build

  /** What a successful build leaves behind: the Dockerfile, the `.dockerignore`, the repository
      definition (file name and lines), the image whose `whoami` gave the initial user, and the
      tag the image is built under. */
  datatype BuildOutput = BuildOutput(
    dockerFile: string,
    dockerIgnore: string,
    repoFileName: string,
    repoLines: seq<string>,
    baseImage: string,
    imageTag: string)

  predicate IsImageReference(i: Instruction) { i.From? || i.FromLocalImageBuild? }

  function ImageReference(i: Instruction): string
    requires IsImageReference(i)
  {
    if i.From? then i.reference else i.tag
  }

  /** The first instruction that names an image: the base image. */
  function BaseImage(instrs: seq<Instruction>): (r: Option<string>)
    ensures r.None? <==> forall k :: 0 <= k < |instrs| ==> !IsImageReference(instrs[k])
    ensures r.Some? ==>
      exists k :: 0 <= k < |instrs| && IsImageReference(instrs[k]) &&
        ImageReference(instrs[k]) == r.value && (forall j :: 0 <= j < k ==> !IsImageReference(instrs[j]))
  {
    if |instrs| == 0 then None
    else if IsImageReference(instrs[0]) then Some(ImageReference(instrs[0]))
    else
      var rest := BaseImage(instrs[1..]);
      assert forall k :: 1 <= k < |instrs| ==> instrs[k] == instrs[1..][k - 1];
      if rest.Some? then
        ghost var k :| 0 <= k < |instrs[1..]| && IsImageReference(instrs[1..][k]) &&
          ImageReference(instrs[1..][k]) == rest.value && forall j :: 0 <= j < k ==> !IsImageReference(instrs[1..][j]);
        assert IsImageReference(instrs[k + 1]);
        rest
      else rest
  }

  /** `build`, from the outputs of the commands it runs: the `docker version` output, the
      `whoami` output of the base image, and the exit status of `docker image build`. */
  function BuildResult(b: Buildable, uuid: string, order: seq<string>,
                       versionOutput: string, whoamiOutput: string, exitCode: int): (r: Result<BuildOutput, DaemonError>)
    ensures r.Ok? ==> DockerVersion.CheckVersion(versionOutput).Ok? && exitCode == 0 && b.distribution != Other
    ensures r.Ok? ==> BaseImage(b.actualInstructions) == Some(r.value.baseImage) && r.value.imageTag == uuid
    ensures r.Ok? ==> DockerFile(b, uuid, order, Trim(whoamiOutput)) == Ok(r.value.dockerFile)
    ensures r.Ok? ==> BindMounts(b).Ok? && r.value.dockerIgnore == IgnoreManifest(BindMounts(b).value, order)
    ensures r.Ok? ==> RepoFile(b.distribution) == Ok((r.value.repoFileName, r.value.repoLines))
    ensures DockerVersion.CheckVersion(versionOutput).Err? ==>
      r == Err(DaemonVersion(DockerVersion.CheckVersion(versionOutput).error))
    ensures (DockerVersion.CheckVersion(versionOutput).Ok? && b.distribution != Other &&
             BaseImage(b.actualInstructions).None?) ==>
      r == Err(NoBaseImage)
    ensures (DockerVersion.CheckVersion(versionOutput).Ok? && b.distribution != Other &&
             BaseImage(b.actualInstructions).Some? && DockerFile(b, uuid, order, Trim(whoamiOutput)).Ok?) ==>
      (exitCode == 0 ==> r.Ok?) && (exitCode != 0 ==> r == Err(ImageBuildFailed(exitCode)))
  {
    match DockerVersion.CheckVersion(versionOutput)
    case Err(e) => Err(DaemonVersion(e))
    case Ok(_) =>
      match RepoFile(b.distribution)
      case Err(e) => Err(e)
      case Ok((repoFileName, repoLines)) =>
        match BaseImage(b.actualInstructions)
        case None => Err(NoBaseImage)
        case Some(baseImage) =>
          match DockerFile(b, uuid, order, Trim(whoamiOutput))
          case Err(e) => Err(e)
          case Ok(dockerFile) =>
            match BindMounts(b)
            case Err(e) => Err(e)
            case Ok(mounts) =>
              if exitCode != 0 then Err(ImageBuildFailed(exitCode))
              else Ok(BuildOutput(dockerFile, IgnoreManifest(mounts, order), repoFileName, repoLines, baseImage, uuid))
  }

  /** The `user` field once `build` has finished or thrown. */
  function UserAfterBuild(b: Buildable, order: seq<string>, versionOutput: string, whoamiOutput: string, user: string): string
  {
    if DockerVersion.CheckVersion(versionOutput).Err? || RepoFile(b.distribution).Err? || BaseImage(b.actualInstructions).None?
    then user
    else CompileAll(b, order, b.actualInstructions, Trim(whoamiOutput)).user
  }

  /** The compiler object: the buildable it was made for, the build's random UUID, the order in
      which its bind-mount `HashMap` is iterated, and the mutable current user (`null`, which
      prints as `null`, until `build` sets it). */
  class DaemonActions {
    const buildable: Buildable
    const uuid: string
    const mountOrder: seq<string>
    var user: string

    constructor (buildable: Buildable, uuid: string, mountOrder: seq<string>)
      ensures this.buildable == buildable && this.uuid == uuid && this.mountOrder == mountOrder
      ensures user == "null"
    {
      this.buildable := buildable;
      this.uuid := uuid;
      this.mountOrder := mountOrder;
      user := "null";
    }

    /** `getBindMounts`: fills the table one entry at a time. */
    method GetBindMounts() returns (r: Result<map<string, string>, DaemonError>)
      ensures r == BindMounts(buildable)
    {
      var result: map<string, string> := map[];
      result := result[EphemeralMountKey(buildable) := DockerEphemeralDir];
      if buildable.isolateFromExternalRepos {
        var destPath: string;
        var sourcePath: string;
        match buildable.distribution {
          case Ubuntu =>
            destPath, sourcePath := "/etc/apt/sources.list", RepositoryEphemeralDir + "/sources.list";
          case Debian =>
            destPath, sourcePath := "/etc/apt/sources.list", RepositoryEphemeralDir + "/sources.list";
          case Centos =>
            destPath, sourcePath := "/etc/yum.repos.d", RepositoryEphemeralDir;
          case Other =>
            return Err(IllegalDistribution);
        }
        result := result[RepoMountKey(destPath) := sourcePath];
        result := result[PackagesMountKey := OSPackagesDir];
      }
      return Ok(result);
    }

    /** `convertInstallToRun`: reads the current user for the switch back. */
    method ConvertInstallToRun(i: Instruction) returns (r: Result<seq<Instruction>, DaemonError>)
      ensures r == Expand(buildable, i, user)
    {
      if !i.Install? {
        return Ok([i]);
      }
      var installCommand := InstallCommand(buildable.distribution, i.packages);
      if installCommand.Err? {
        return Err(installCommand.error);
      }
      var run := WrapInstallCommand(buildable.distribution, buildable.isolateFromExternalRepos, installCommand.value);
      return Ok([SetUser("root"), Run(run.value), SetUser(user)]);
    }

    /** `instructionAsDockerFileInstruction`: renders one instruction; a `SetUser` also becomes
        the current user. */
    method InstructionAsDockerFileInstruction(i: Instruction) returns (r: Result<string, DaemonError>)
      modifies this
      ensures r == RenderOne(buildable, mountOrder, i)
      ensures user == if r.Ok? then UserAfter(old(user), i) else old(user)
    {
      if i.SetUser? {
        user := i.username;
        return Ok("USER " + user);
      } else if i.Run? {
        var mounts := GetBindMounts();
        if mounts.Err? {
          return Err(mounts.error);
        }
        return Ok("RUN " + MountOptions(mounts.value, mountOrder) + "\\\n " +
                  Join(i.commands, DockerfileText.RunCommandSeparator));
      } else {
        return RenderOne(buildable, mountOrder, i);
      }
    }

    /** Renders what one instruction expanded to, in order, after the blocks already rendered;
        stops at the first instruction that cannot be rendered. */
    method RenderExpansion(blocks: seq<string>, xs: seq<Instruction>) returns (r: Result<seq<string>, DaemonError>)
      modifies this
      ensures var p := RenderAll(buildable, mountOrder, Progress(blocks, old(user), None), xs);
        user == p.user && (r.Ok? <==> p.failure.None?) &&
        (r.Ok? ==> r.value == p.blocks) && (r.Err? ==> p.failure == Some(r.error))
    {
      ghost var before := Progress(blocks, user, None);
      var done := blocks;
      var j := 0;
      while j < |xs|
        invariant 0 <= j <= |xs|
        invariant RenderAll(buildable, mountOrder, before, xs[..j]) == Progress(done, user, None)
      {
        assert xs[..j + 1][..j] == xs[..j];
        var text := InstructionAsDockerFileInstruction(xs[j]);
        if text.Err? {
          RenderAllPrefixStopped(buildable, mountOrder, before, xs, j + 1);
          return Err(text.error);
        }
        done := done + [text.value];
        j := j + 1;
      }
      assert xs[..j] == xs;
      return Ok(done);
    }

    /** One original instruction: expanded with the current user, then what it expands to is
        rendered after the blocks already rendered. */
    method CompileInstruction(blocks: seq<string>, i: Instruction) returns (r: Result<seq<string>, DaemonError>)
      modifies this
      ensures var p := CompileStep(buildable, mountOrder, Progress(blocks, old(user), None), i);
        user == p.user && (r.Ok? <==> p.failure.None?) &&
        (r.Ok? ==> r.value == p.blocks) && (r.Err? ==> p.failure == Some(r.error))
    {
      var expanded := ConvertInstallToRun(i);
      if expanded.Err? {
        return Err(expanded.error);
      }
      r := RenderExpansion(blocks, expanded.value);
    }

    /** `dockerFileFromInstructions`: each instruction is expanded with the user in effect at that
        point, and what it expands to is rendered before the next one is expanded. */
    method DockerFileFromInstructions() returns (r: Result<string, DaemonError>)
      modifies this
      ensures r == DockerFile(buildable, uuid, mountOrder, old(user))
      ensures user == CompileAll(buildable, mountOrder, buildable.actualInstructions, old(user)).user
    {
      var instrs := buildable.actualInstructions;
      ghost var user0 := user;
      var blocks: seq<string> := [];
      var k := 0;
      while k < |instrs|
        invariant 0 <= k <= |instrs|
        invariant CompileAll(buildable, mountOrder, instrs[..k], user0) == Progress(blocks, user, None)
      {
        CompileAllNext(buildable, mountOrder, instrs, k, user0);
        var rendered := CompileInstruction(blocks, instrs[k]);
        if rendered.Err? {
          CompileAllPrefixStopped(buildable, mountOrder, instrs, k + 1, user0);
          return Err(rendered.error);
        }
        blocks := rendered.value;
        k := k + 1;
      }
      assert instrs[..k] == instrs;
      return Ok(Header(buildable, uuid) + Join(blocks, "\n"));
    }

    /** `build`: checks the daemon, writes the repository definition, runs `whoami` in the base
        image to fix the initial user, generates the Dockerfile and `.dockerignore`, and builds. */
    method Build(versionOutput: string, whoamiOutput: string, exitCode: int) returns (r: Result<BuildOutput, DaemonError>)
      modifies this
      ensures r == BuildResult(buildable, uuid, mountOrder, versionOutput, whoamiOutput, exitCode)
      ensures user == UserAfterBuild(buildable, mountOrder, versionOutput, whoamiOutput, old(user))
    {
      var version := DockerVersion.CheckVersion(versionOutput);
      if version.Err? {
        return Err(DaemonVersion(version.error));
      }
      var repoFile := RepoFile(buildable.distribution);
      if repoFile.Err? {
        return Err(repoFile.error);
      }
      var baseImage := BaseImage(buildable.actualInstructions);
      if baseImage.None? {
        return Err(NoBaseImage);
      }
      user := Trim(whoamiOutput);
      var dockerFile := DockerFileFromInstructions();
      if dockerFile.Err? {
        return Err(dockerFile.error);
      }
      var mounts := GetBindMounts();
      if exitCode != 0 {
        return Err(ImageBuildFailed(exitCode));
      }
      return Ok(BuildOutput(dockerFile.value, IgnoreManifest(mounts.value, mountOrder),
                            repoFile.value.0, repoFile.value.1, baseImage.value, uuid));
    }
  }
}

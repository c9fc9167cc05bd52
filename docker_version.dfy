/** The Docker daemon version gate that both compilers run before building: the output of
    `docker version --format='{{.Server.Version}}'` is an input string here. */
module DockerVersion {
  import opened Wrappers
  import opened Text

  const MinimumMajorVersion: int := 19

  datatype VersionError =
    /** `Integer.parseInt` (or the index into the split result) threw on the major part. */
    | Unparseable(version: string)
    /** The `IllegalStateException` for a daemon older than the minimum major version. */
    | TooOld(message: string)

  /** The command output with surrounding white space trimmed and every single quote removed. */
  function ServerVersion(output: string): string
  {
    RemoveChar(Trim(output), '\'')
  }

  /** The text before the first dot of the version: what `split("\\.")[0]` yields. */
  function MajorPart(version: string): (r: string)
    ensures '.' !in r && r <= version
    ensures |r| < |version| ==> version[|r|] == '.'
  {
    TakeUntil(version, '.')
  }

  /** `checkVersion`: the major version when it is at least 19, otherwise the error that aborts
      the build. */
  function CheckVersion(output: string): (r: Result<int, VersionError>)
    ensures r.Ok? <==>
      (ParseInt(MajorPart(ServerVersion(output))).Some? &&
       ParseInt(MajorPart(ServerVersion(output))).value >= MinimumMajorVersion)
    ensures r.Ok? ==> r.value >= MinimumMajorVersion && r.value <= MaxInt32
    ensures r.Ok? ==> r.value == ParseInt(MajorPart(ServerVersion(output))).value
    ensures ParseInt(MajorPart(ServerVersion(output))).None? ==>
      r == Err(Unparseable(ServerVersion(output)))
    ensures ParseInt(MajorPart(ServerVersion(output))).Some? &&
            ParseInt(MajorPart(ServerVersion(output))).value < MinimumMajorVersion ==>
      r == Err(TooOld("Docker daemon version must be 19 and above. Currently " + ServerVersion(output)))
  {
    var version := ServerVersion(output);
    match ParseInt(MajorPart(version))
    case None => Err(Unparseable(version))
    case Some(major) =>
      if major < MinimumMajorVersion
      then Err(TooOld("Docker daemon version must be 19 and above. Currently " + version))
      else Ok(major)
  }

  lemma {:induction false} TakeUntilFirst(x: string, c: char, rest: string)
    requires c !in x
    ensures TakeUntil(x + [c] + rest, c) == x
  {
    if |x| > 0 {
      TakeUntilFirst(x[1..], c, rest);
      assert (x + [c] + rest)[1..] == x[1..] + [c] + rest;
      assert [x[0]] + x[1..] == x;
    } else {
      assert x + [c] + rest == [c] + rest;
    }
  }

  lemma {:induction false} DecimalHasNoDot(n: nat)
    ensures '.' !in NatToDecimal(n)
  {
    var d := NatToDecimal(n);
    assert forall k :: 0 <= k < |d| ==> IsDigit(d[k]);
  }

  lemma {:induction false} TrimQuotedLine(quoted: string)
    requires |quoted| > 0 && quoted[0] == '\'' && quoted[|quoted| - 1] == '\''
    ensures Trim(quoted + "\n") == quoted
  {
    var output := quoted + "\n";
    assert TrimStart(output) == output;
    assert output[..|output| - 1] == quoted;
    assert TrimEnd(quoted) == quoted;
  }

  lemma {:induction false} UnquoteQuoted(version: string)
    requires '\'' !in version
    ensures RemoveChar("'" + version + "'", '\'') == version
  {
    RemoveCharAppend("'" + version, "'", '\'');
    RemoveCharAppend("'", version, '\'');
    assert RemoveChar("'", '\'') == "" + RemoveChar("", '\'');
  }

  /** A single-quoted line loses its newline to `trim` and its quotes to `replaceAll`. */
  lemma {:induction false} QuotedLine(version: string)
    requires '\'' !in version
    ensures ServerVersion("'" + version + "'\n") == version
  {
    var quoted := "'" + version + "'";
    TrimQuotedLine(quoted);
    UnquoteQuoted(version);
    assert "'" + version + "'\n" == quoted + "\n";
  }

  lemma {:induction false} MajorOfVersion(major: nat, rest: string)
    ensures MajorPart(NatToDecimal(major) + "." + rest) == NatToDecimal(major)
  {
    DecimalHasNoDot(major);
    TakeUntilFirst(NatToDecimal(major), '.', rest);
  }

  /** For the daemon's usual answer, a quoted `major.rest` line, the check accepts exactly the
      major versions from 19 on and reports the version it read otherwise. */
  lemma {:induction false} CheckVersionOfDaemonOutput(major: nat, rest: string)
    requires major <= MaxInt32
    requires '\'' !in rest
    ensures var version := NatToDecimal(major) + "." + rest;
      CheckVersion("'" + version + "'\n") ==
        if major >= MinimumMajorVersion then Ok(major)
        else Err(TooOld("Docker daemon version must be 19 and above. Currently " + version))
  {
    var digits := NatToDecimal(major);
    var version := digits + "." + rest;
    assert '\'' !in digits by {
      assert forall k :: 0 <= k < |digits| ==> IsDigit(digits[k]);
    }
    assert '\'' !in version;
    QuotedLine(version);
    MajorOfVersion(major, rest);
    ParseIntDecimal(major);
    assert IntToDecimal(major) == digits;
  }
}

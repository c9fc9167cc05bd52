/** Dockerfile fragments that both compilers render the same way: the HEALTHCHECK options,
    the user-creation script, the `--chown` flag of COPY and the separator between the
    commands of one RUN. */
module DockerfileText {
  import opened Wrappers
  import opened Text
  import opened Seqs

  /** A container health check: the command is required, the rest may be null. */
  datatype HealthCheck = HealthCheck(
    cmd: string,
    interval: Option<string>,
    timeout: Option<string>,
    startPeriod: Option<string>,
    retries: Option<int>)

  /** `Optional.ofNullable(v).map(v -> "--" + name + "=" + v + " ").orElse("")` */
  function OptionFlag(name: string, value: Option<string>): string
  {
    match value
    case Some(v) => "--" + name + "=" + v + " "
    case None => ""
  }

  /** The text after `HEALTHCHECK `: one option per non-null field, in a fixed order, then the
      command. */
  function HealthcheckInstruction(h: HealthCheck): string
  {
    OptionFlag("interval", h.interval) +
    OptionFlag("timeout", h.timeout) +
    OptionFlag("start-period", h.startPeriod) +
    OptionFlag("retries", RetriesText(h.retries)) +
    "CMD " + h.cmd
  }

  /** The option `OptionFlag` renders, as a word, when the value is present. */
  function OptionWords(name: string, value: Option<string>): seq<string>
  {
    match value
    case Some(v) => ["--" + name + "=" + v]
    case None => []
  }

  function RetriesText(retries: Option<int>): Option<string>
  {
    match retries
    case Some(n) => Some(IntToDecimal(n))
    case None => None
  }

  /** The options a health check carries, as words, in the order they are rendered. */
  function HealthcheckOptions(h: HealthCheck): seq<string>
  {
    OptionWords("interval", h.interval) +
    OptionWords("timeout", h.timeout) +
    OptionWords("start-period", h.startPeriod) +
    OptionWords("retries", RetriesText(h.retries))
  }

  /** Each word followed by one space. */
  function SpaceTerminated(words: seq<string>): string
  {
    if |words| == 0 then "" else words[0] + " " + SpaceTerminated(words[1..])
  }

  lemma {:induction false} SpaceTerminatedAppend(a: seq<string>, b: seq<string>)
    ensures SpaceTerminated(a + b) == SpaceTerminated(a) + SpaceTerminated(b)
  {
    if |a| > 0 {
      SpaceTerminatedAppend(a[1..], b);
      assert (a + b)[1..] == a[1..] + b;
    } else {
      assert a + b == b;
    }
  }

  lemma {:induction false} SpaceTerminatedCons(w: string, ws: seq<string>)
    ensures SpaceTerminated([w] + ws) == w + " " + SpaceTerminated(ws)
  {
    assert ([w] + ws)[1..] == ws;
  }

  /** Splitting space-terminated words at spaces gives the words back, then the rest. */
  lemma {:induction false} SplitSpaceTerminated(words: seq<string>, rest: string)
    requires forall k :: 0 <= k < |words| ==> ' ' !in words[k]
    ensures Split(SpaceTerminated(words) + rest, ' ') == words + Split(rest, ' ')
  {
    if |words| > 0 {
      var w, ws := words[0], words[1..];
      var after := SpaceTerminated(ws) + rest;
      SplitSpaceTerminated(ws, rest);
      assert SpaceTerminated(words) == w + " " + SpaceTerminated(ws);
      assert SpaceTerminated(words) + rest == w + [' '] + after;
      SplitAtSeparator(w, ' ', after);
      AppendAssoc([w], ws, Split(rest, ' '));
      assert [w] + ws == words;
    } else {
      assert SpaceTerminated(words) + rest == rest;
    }
  }

  predicate SpaceFree(o: Option<string>) { o.None? || ' ' !in o.value }

  lemma {:induction false} OptionWordsFlag(name: string, value: Option<string>)
    ensures SpaceTerminated(OptionWords(name, value)) == OptionFlag(name, value)
  {
    if value.Some? {
      var w := "--" + name + "=" + value.value;
      assert SpaceTerminated([w]) == w + " " + SpaceTerminated([w][1..]);
    }
  }

  /** The rendered health check is exactly: the options of the non-null fields, each followed by
      a space, in the order interval, timeout, start period, retries; then `CMD ` and the
      command. */
  lemma {:induction false} HealthcheckLayout(h: HealthCheck)
    ensures HealthcheckInstruction(h) == SpaceTerminated(HealthcheckOptions(h)) + "CMD " + h.cmd
  {
    var i := OptionWords("interval", h.interval);
    var t := OptionWords("timeout", h.timeout);
    var s := OptionWords("start-period", h.startPeriod);
    var r := OptionWords("retries", RetriesText(h.retries));
    SpaceTerminatedAppend(i + t + s, r);
    SpaceTerminatedAppend(i + t, s);
    SpaceTerminatedAppend(i, t);
    OptionWordsFlag("interval", h.interval);
    OptionWordsFlag("timeout", h.timeout);
    OptionWordsFlag("start-period", h.startPeriod);
    OptionWordsFlag("retries", RetriesText(h.retries));
  }

  lemma {:induction false} OptionsSpaceFree(h: HealthCheck)
    requires SpaceFree(h.interval) && SpaceFree(h.timeout) && SpaceFree(h.startPeriod)
    ensures forall k :: 0 <= k < |HealthcheckOptions(h)| ==> ' ' !in HealthcheckOptions(h)[k]
  {
    if h.retries.Some? {
      DecimalHasNoSpace(h.retries.value);
    }
  }

  /** When no option value contains a space, the words of a rendered health check are its
      options (each present iff its field is non-null), then `CMD`, then the command's words. */
  lemma {:induction false} HealthcheckWords(h: HealthCheck)
    requires SpaceFree(h.interval) && SpaceFree(h.timeout) && SpaceFree(h.startPeriod)
    ensures Split(HealthcheckInstruction(h), ' ') == HealthcheckOptions(h) + ["CMD"] + Split(h.cmd, ' ')
  {
    HealthcheckLayout(h);
    OptionsSpaceFree(h);
    SplitOptionsCommand(HealthcheckOptions(h), h.cmd);
  }

  lemma {:induction false} SplitOptionsCommand(opts: seq<string>, cmd: string)
    requires forall k :: 0 <= k < |opts| ==> ' ' !in opts[k]
    ensures Split(SpaceTerminated(opts) + "CMD " + cmd, ' ') == opts + ["CMD"] + Split(cmd, ' ')
  {
    var tail := "CMD" + [' '] + cmd;
    assert SpaceTerminated(opts) + "CMD " + cmd == SpaceTerminated(opts) + tail;
    SplitSpaceTerminated(opts, tail);
    SplitAtSeparator("CMD", ' ', cmd);
    AppendAssoc(opts, ["CMD"], Split(cmd, ' '));
  }

  /** The value a health check gives the option of that name (`retries` in decimal). */
  function OptionValue(h: HealthCheck, name: string): Option<string>
  {
    if name == "interval" then h.interval
    else if name == "timeout" then h.timeout
    else if name == "start-period" then h.startPeriod
    else RetriesText(h.retries)
  }

  function Flag(name: string, v: string): string { "--" + name + "=" + v }

  lemma {:induction false} FlagsDiffer(n1: string, v1: string, n2: string, v2: string)
    requires |n1| > 0 && |n2| > 0 && n1[0] != n2[0]
    ensures Flag(n1, v1) != Flag(n2, v2)
  {
    assert Flag(n1, v1)[2] == n1[0];
    assert Flag(n2, v2)[2] == n2[0];
  }

  lemma {:induction false} FlagValue(n: string, v1: string, v2: string)
    requires Flag(n, v1) == Flag(n, v2)
    ensures v1 == v2
  {
    var p := "--" + n + "=";
    assert Flag(n, v1) == p + v1 && Flag(n, v2) == p + v2;
    assert (p + v1)[|p|..] == v1;
    assert (p + v2)[|p|..] == v2;
  }

  lemma {:induction false} OptionWordsHold(name: string, value: Option<string>, other: string, v: string)
    requires |name| > 0 && |other| > 0
    ensures Flag(other, v) in OptionWords(name, value) <==>
      value.Some? && Flag(other, v) == Flag(name, value.value)
  {
    if value.Some? {
      assert OptionWords(name, value) == [Flag(name, value.value)];
    }
  }

  lemma {:induction false} OptionWordIn(name: string, value: Option<string>, other: string, v: string)
    requires |name| > 0 && |other| > 0
    ensures Flag(other, v) in OptionWords(name, value) <==>
      (name[0] == other[0] && value.Some? && Flag(other, v) == Flag(name, value.value))
  {
    OptionWordsHold(name, value, other, v);
    if value.Some? && name[0] != other[0] {
      FlagsDiffer(other, v, name, value.value);
    }
  }

  /** Each option appears among the rendered options exactly when its field is set, and then
      with that field's value. */
  lemma {:induction false} OptionPresent(h: HealthCheck, name: string, v: string)
    requires name == "interval" || name == "timeout" || name == "start-period" || name == "retries"
    ensures Flag(name, v) in HealthcheckOptions(h) <==> OptionValue(h, name) == Some(v)
  {
    var w := Flag(name, v);
    var i := OptionWords("interval", h.interval);
    var t := OptionWords("timeout", h.timeout);
    var s := OptionWords("start-period", h.startPeriod);
    var r := OptionWords("retries", RetriesText(h.retries));
    assert HealthcheckOptions(h) == i + t + s + r;
    assert w in i + t + s + r <==> w in i || w in t || w in s || w in r;
    OptionWordIn("interval", h.interval, name, v);
    OptionWordIn("timeout", h.timeout, name, v);
    OptionWordIn("start-period", h.startPeriod, name, v);
    OptionWordIn("retries", RetriesText(h.retries), name, v);
    var value := OptionValue(h, name);
    if value.Some? && w == Flag(name, value.value) {
      FlagValue(name, v, value.value);
    }
  }

  lemma {:induction false} DecimalHasNoSpace(i: int)
    ensures ' ' !in "--retries=" + IntToDecimal(i)
  {
    var d := IntToDecimal(i);
    assert forall k :: 0 <= k < |d| ==> d[k] != ' ' by {
      if i >= 0 {
        assert AllDigits(d);
      } else {
        assert AllDigits(d[1..]);
        assert forall k :: 1 <= k < |d| ==> d[k] == d[1..][k - 1];
      }
    }
  }

  /** `Optional.ofNullable(owner).map(s -> "--chown=" + s + " ").orElse("")` */
  function ChownFlag(owner: Option<string>): string
  {
    match owner
    case Some(o) => "--chown=" + o + " "
    case None => ""
  }

  /** What joins the commands of one RUN instruction: `&&`, a line continuation and a tab. */
  const RunCommandSeparator: string := " && \\ \n\t"

  /** The RUN instruction that creates a group and a system user, with a branch for
      BusyBox-based images (Alpine) that lack `groupadd` and `useradd`. */
  function CreateUserScript(username: string, userId: int, group: string, groupId: int): string
  {
    var uid := IntToDecimal(userId);
    var gid := IntToDecimal(groupId);
    "RUN if ! command -v busybox &> /dev/null; then \\ \n" +
    "       groupadd -g " + gid + " " + group + " ; \\ \n" +
    "       useradd -r -s /bin/false -g " + gid + " --uid " + uid + " " + username + " ; \\ \n" +
    "   else \\ \n" +
    "       addgroup --gid " + gid + " " + group + " ; \\ \n" +
    "       adduser -S -s /bin/false --ingroup " + group + " -H -D -u " + uid + " " + username + " ; \\ \n" +
    "   fi"
  }
}

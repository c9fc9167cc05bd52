/** The import of xUnit results as Gradle test events (`ExternalTestExecuter.execute`): the
    suites and cases parsed from the input files become started, output, failure and completed
    events for a result processor, with ids drawn from one shared generator. Timestamps are not
    part of the model. */
module XUnitImport {
  import opened Wrappers
  import opened Text
  import opened Seqs

  // ---------------------------------------------------------------- parsed results

  /** The status of a test case: one of the four status classes, or a status that is none of
      them (such as a missing one), which the chain of type tests lets through without events. */
  datatype Status =
    | CaseSuccess(stdout: string, stderr: string)
    | CaseFailure(message: Option<string>, kind: Option<string>, description: Option<string>)
    | CaseError(message: Option<string>, kind: Option<string>, description: Option<string>)
    | CaseSkipped(skipMessage: Option<string>)
    | NoStatus

  datatype TestCase = TestCase(name: string, status: Status)

  datatype TestSuite = TestSuite(name: string, tests: seq<TestCase>)

  /** An input file: its absolute path, whether it exists, and the suites the parser reads
      from it. */
  datatype InputFile = InputFile(path: string, present: bool, suites: seq<TestSuite>)

  // ---------------------------------------------------------------- events

  datatype Descriptor =
    | ClassDescriptor(id: int, className: string)
    | MethodDescriptor(id: int, className: string, methodName: string)

  datatype Destination = StdOut | StdErr

  datatype ResultType = SuccessResult | SkippedResult

  /** What the processor receives. A completed suite carries no result type. */
  datatype Event =
    | StartEvent(descriptor: Descriptor, parent: Option<int>)
    | OutputEvent(outputId: int, destination: Destination, text: string)
    | FailureEvent(failureId: int, report: string)
    | CompleteEvent(completedId: int, result: Option<ResultType>)

  /** The id of the descriptor an event is about. */
  function EventId(e: Event): int
  {
    match e
    case StartEvent(d, _) => d.id
    case OutputEvent(id, _, _) => id
    case FailureEvent(id, _) => id
    case CompleteEvent(id, _) => id
  }

  // ---------------------------------------------------------------- failure reports

  function FailedPrefix(kind: Option<string>): string
  {
    "Test case being imported failed (" + kind.GetOr("Untyped") + "): "
  }

  /** The message of a failed case: the description always follows a space, even when absent. */
  function FailureReport(message: Option<string>, kind: Option<string>, description: Option<string>): string
  {
    FailedPrefix(kind) + message.GetOr("") + " " + description.GetOr("")
  }

  /** The message of a case in error: a description, when present, starts a line of its own. */
  function ErrorReport(message: Option<string>, kind: Option<string>, description: Option<string>): string
  {
    FailedPrefix(kind) + message.GetOr("") + (if description.Some? then "\n" + description.value else "")
  }

  // ---------------------------------------------------------------- the specification

  /** The events that follow the start of a test, by its status. */
  function StatusEvents(status: Status, id: int): seq<Event>
  {
    match status
    case CaseSuccess(out, err) =>
      [OutputEvent(id, StdOut, out), OutputEvent(id, StdErr, err), CompleteEvent(id, Some(SuccessResult))]
    case CaseFailure(m, k, d) => [FailureEvent(id, FailureReport(m, k, d))]
    case CaseError(m, k, d) => [FailureEvent(id, ErrorReport(m, k, d))]
    case CaseSkipped(m) =>
      (if m.Some? then [OutputEvent(id, StdOut, m.value)] else []) + [CompleteEvent(id, Some(SkippedResult))]
    case NoStatus => []
  }

  /** The events of one test with id `id` in the suite `suiteName` with id `suiteId`. */
  function CaseEvents(suiteName: string, suiteId: int, c: TestCase, id: int): seq<Event>
  {
    [StartEvent(MethodDescriptor(id, suiteName, c.name), Some(suiteId))] + StatusEvents(c.status, id)
  }

  /** The events of each test of a suite, the tests taking ids from `firstId` on. */
  function CaseBlocks(suiteName: string, suiteId: int, cases: seq<TestCase>, firstId: int): (r: seq<seq<Event>>)
    ensures |r| == |cases|
  {
    seq(|cases|, k requires 0 <= k < |cases| => CaseEvents(suiteName, suiteId, cases[k], firstId + k))
  }

  /** The events of a suite with id `id`: its start, its tests, its completion. */
  function SuiteEvents(s: TestSuite, id: int): seq<Event>
  {
    [StartEvent(ClassDescriptor(id, s.name), None)] + Concat(CaseBlocks(s.name, id, s.tests, id + 1)) +
    [CompleteEvent(id, None)]
  }

  /** The number of ids the suites take: one per suite and one per test. */
  function IdsUsed(suites: seq<TestSuite>): nat
  {
    if |suites| == 0 then 0 else IdsUsed(suites[..|suites| - 1]) + 1 + |suites[|suites| - 1].tests|
  }

  /** The events of each suite, the ids taken from `firstId` on. */
  function SuiteBlocks(suites: seq<TestSuite>, firstId: int): (r: seq<seq<Event>>)
    ensures |r| == |suites|
  {
    seq(|suites|, k requires 0 <= k < |suites| => SuiteEvents(suites[k], firstId + IdsUsed(suites[..k])))
  }

  /** The events of the suites in order. */
  function SuitesEvents(suites: seq<TestSuite>, firstId: int): seq<Event>
  {
    Concat(SuiteBlocks(suites, firstId))
  }

  /** The number of ids the suites of the files take. */
  function FileIds(files: seq<InputFile>): nat
  {
    if |files| == 0 then 0 else FileIds(files[..|files| - 1]) + IdsUsed(files[|files| - 1].suites)
  }

  /** The events of the suites of each file, the ids taken from `firstId` on. */
  function FileBlocks(files: seq<InputFile>, firstId: int): (r: seq<seq<Event>>)
    ensures |r| == |files|
  {
    seq(|files|, k requires 0 <= k < |files| => SuitesEvents(files[k].suites, firstId + FileIds(files[..k])))
  }

  /** The events of every suite of every file, file after file. */
  function FilesEvents(files: seq<InputFile>, firstId: int): seq<Event>
  {
    Concat(FileBlocks(files, firstId))
  }

  /** The paths of the files that do not exist, in order. */
  function Missing(files: seq<InputFile>): seq<string>
  {
    if |files| == 0 then []
    else Missing(files[..|files| - 1]) + (if files[|files| - 1].present then [] else [files[|files| - 1].path])
  }

  function MissingFilesMessage(missing: seq<string>): string
  {
    "Can't find input files " + Join(missing, " ")
  }

  // ---------------------------------------------------------------- the executer

  /** `LongIdGenerator`: hands out consecutive ids. */
  class IdGenerator {
    var next: int

    constructor(first: int)
      ensures next == first
    {
      next := first;
    }

    method GenerateId() returns (id: int)
      modifies this
      ensures id == old(next) && next == old(next) + 1
    {
      id := next;
      next := next + 1;
    }
  }

  /** The `TestResultProcessor`, as the log of the events it received. */
  class ResultProcessor {
    var events: seq<Event>

    constructor()
      ensures events == []
    {
      events := [];
    }

    method Started(descriptor: Descriptor, parent: Option<int>)
      modifies this
      ensures events == old(events) + [StartEvent(descriptor, parent)]
    {
      events := events + [StartEvent(descriptor, parent)];
    }

    method Output(id: int, destination: Destination, text: string)
      modifies this
      ensures events == old(events) + [OutputEvent(id, destination, text)]
    {
      events := events + [OutputEvent(id, destination, text)];
    }

    method Failure(id: int, report: string)
      modifies this
      ensures events == old(events) + [FailureEvent(id, report)]
    {
      events := events + [FailureEvent(id, report)];
    }

    method Completed(id: int, result: Option<ResultType>)
      modifies this
      ensures events == old(events) + [CompleteEvent(id, result)]
    {
      events := events + [CompleteEvent(id, result)];
    }
  }

  /** One test: a fresh id, its start under the suite, then the events of its status. */
  method ImportCase(suiteName: string, suiteId: int, c: TestCase, ids: IdGenerator, processor: ResultProcessor)
    modifies ids, processor
    ensures processor.events == old(processor.events) + CaseEvents(suiteName, suiteId, c, old(ids.next))
    ensures ids.next == old(ids.next) + 1
  {
    var id := ids.GenerateId();
    processor.Started(MethodDescriptor(id, suiteName, c.name), Some(suiteId));
    match c.status {
      case CaseSuccess(out, err) =>
        processor.Output(id, StdOut, out);
        processor.Output(id, StdErr, err);
        processor.Completed(id, Some(SuccessResult));
      case CaseFailure(m, k, d) =>
        processor.Failure(id, FailureReport(m, k, d));
      case CaseError(m, k, d) =>
        processor.Failure(id, ErrorReport(m, k, d));
      case CaseSkipped(m) =>
        if m.Some? {
          processor.Output(id, StdOut, m.value);
        }
        processor.Completed(id, Some(SkippedResult));
      case NoStatus =>
    }
  }


  /** One suite: a fresh id, its start, its tests in order, its completion. */
  method ImportSuite(s: TestSuite, ids: IdGenerator, processor: ResultProcessor)
    modifies ids, processor
    ensures processor.events == old(processor.events) + SuiteEvents(s, old(ids.next))
    ensures ids.next == old(ids.next) + 1 + |s.tests|
  {
    ghost var before := processor.events;
    var suiteId := ids.GenerateId();
    processor.Started(ClassDescriptor(suiteId, s.name), None);
    ghost var start := processor.events;
    ghost var blocks := CaseBlocks(s.name, suiteId, s.tests, suiteId + 1);
    for k := 0 to |s.tests|
      invariant processor.events == start + Concat(blocks[..k])
      invariant ids.next == suiteId + 1 + k
    {
      ConcatPrefix(blocks, k);
      ImportCase(s.name, suiteId, s.tests[k], ids, processor);
      AppendAssoc(start, Concat(blocks[..k]), blocks[k]);
    }
    assert blocks[..|s.tests|] == blocks;
    processor.Completed(suiteId, None);
    ghost var suiteStart := [StartEvent(ClassDescriptor(suiteId, s.name), None)];
    AppendAssoc(before, suiteStart, Concat(blocks));
    AppendAssoc(before, suiteStart + Concat(blocks), [CompleteEvent(suiteId, None)]);
  }

  lemma {:induction false} IdsUsedPrefix(suites: seq<TestSuite>, j: nat)
    requires j < |suites|
    ensures IdsUsed(suites[..j + 1]) == IdsUsed(suites[..j]) + 1 + |suites[j].tests|
  {
    assert suites[..j + 1][..j] == suites[..j];
  }

  /** The suites of one file, in order. */
  method ImportSuites(suites: seq<TestSuite>, ids: IdGenerator, processor: ResultProcessor)
    modifies ids, processor
    ensures processor.events == old(processor.events) + SuitesEvents(suites, old(ids.next))
    ensures ids.next == old(ids.next) + IdsUsed(suites)
  {
    ghost var start := processor.events;
    ghost var firstId := ids.next;
    ghost var blocks := SuiteBlocks(suites, firstId);
    for j := 0 to |suites|
      invariant processor.events == start + Concat(blocks[..j])
      invariant ids.next == firstId + IdsUsed(suites[..j])
    {
      ConcatPrefix(blocks, j);
      IdsUsedPrefix(suites, j);
      ImportSuite(suites[j], ids, processor);
      AppendAssoc(start, Concat(blocks[..j]), blocks[j]);
    }
    assert blocks[..|suites|] == blocks;
    assert suites[..|suites|] == suites;
  }

  lemma {:induction false} FileIdsPrefix(files: seq<InputFile>, i: nat)
    requires i < |files|
    ensures FileIds(files[..i + 1]) == FileIds(files[..i]) + IdsUsed(files[i].suites)
  {
    assert files[..i + 1][..i] == files[..i];
  }

  /** The absolute paths of the input files that do not exist, in order. */
  method MissingFiles(files: seq<InputFile>) returns (missing: seq<string>)
    ensures missing == Missing(files)
  {
    missing := [];
    for i := 0 to |files|
      invariant missing == Missing(files[..i])
    {
      assert files[..i + 1][..i] == files[..i];
      if !files[i].present {
        missing := missing + [files[i].path];
      }
    }
    assert files[..|files|] == files;
  }

  /** The suites of every file, file after file, with ids from one generator. */
  method ImportFiles(files: seq<InputFile>, ids: IdGenerator, processor: ResultProcessor)
    modifies ids, processor
    ensures processor.events == old(processor.events) + FilesEvents(files, old(ids.next))
  {
    ghost var start := processor.events;
    ghost var firstId := ids.next;
    ghost var blocks := FileBlocks(files, firstId);
    for i := 0 to |files|
      invariant processor.events == start + Concat(blocks[..i])
      invariant ids.next == firstId + FileIds(files[..i])
    {
      ConcatPrefix(blocks, i);
      FileIdsPrefix(files, i);
      ImportSuites(files[i].suites, ids, processor);
      AppendAssoc(start, Concat(blocks[..i]), blocks[i]);
    }
    assert blocks[..|files|] == blocks;
  }

  /** `execute`: fails, before any event, when an input file is missing, naming every missing
      file; otherwise imports every suite of every file, ids counted from `firstId`. */
  method Execute(files: seq<InputFile>, firstId: int, processor: ResultProcessor) returns (r: Result<(), string>)
    modifies processor
    ensures |Missing(files)| > 0 ==>
      r == Err(MissingFilesMessage(Missing(files))) && processor.events == old(processor.events)
    ensures |Missing(files)| == 0 ==>
      r == Ok(()) && processor.events == old(processor.events) + FilesEvents(files, firstId)
  {
    var missing := MissingFiles(files);
    if |missing| > 0 {
      return Err("Can't find input files " + Join(missing, " "));
    }
    var ids := new IdGenerator(firstId);
    ImportFiles(files, ids, processor);
    return Ok(());
  }

  // ---------------------------------------------------------------- missing files

  /** A path is reported missing exactly when some input file with that path does not exist. */
  lemma {:induction false} MissingPaths(files: seq<InputFile>, p: string)
    ensures p in Missing(files) <==> exists k :: 0 <= k < |files| && !files[k].present && files[k].path == p
  {
    if |files| > 0 {
      var n := |files| - 1;
      var front := files[..n];
      MissingPaths(front, p);
      if p in Missing(front) {
        var k :| 0 <= k < n && !front[k].present && front[k].path == p;
        assert files[k] == front[k];
      }
      if exists k :: 0 <= k < |files| && !files[k].present && files[k].path == p {
        var k :| 0 <= k < |files| && !files[k].present && files[k].path == p;
        if k < n {
          assert front[k] == files[k];
        }
      }
    }
  }

  /** The import goes ahead exactly when every input file exists. */
  lemma {:induction false} NoneMissing(files: seq<InputFile>)
    ensures |Missing(files)| == 0 <==> forall k :: 0 <= k < |files| ==> files[k].present
  {
    if |Missing(files)| > 0 {
      MissingPaths(files, Missing(files)[0]);
    }
    forall k | 0 <= k < |files| && !files[k].present
      ensures |Missing(files)| > 0
    {
      MissingPaths(files, files[k].path);
    }
  }

  // ---------------------------------------------------------------- the events of one test

  /** Every event that follows the start of a test is about that test, and none starts anything. */
  lemma {:induction false} StatusEventsAbout(status: Status, id: int)
    ensures forall e :: e in StatusEvents(status, id) ==> EventId(e) == id && !e.StartEvent?
  {
  }

  /** A test is completed exactly when it succeeded or was skipped, last and with that result,
      and is reported failed, by a single event and without a completion, exactly when it failed
      or is in error. A skip has an output event exactly when it has a message. */
  lemma {:induction false} StatusOutcome(status: Status, id: int)
    ensures var ev := StatusEvents(status, id);
      ((exists e :: e in ev && e.CompleteEvent?) <==> status.CaseSuccess? || status.CaseSkipped?) &&
      ((exists e :: e in ev && e.FailureEvent?) <==> status.CaseFailure? || status.CaseError?) &&
      (status.CaseSuccess? ==> ev[|ev| - 1] == CompleteEvent(id, Some(SuccessResult))) &&
      (status.CaseSkipped? ==> ev[|ev| - 1] == CompleteEvent(id, Some(SkippedResult))) &&
      (status.CaseSkipped? ==> (|ev| == 2 <==> status.skipMessage.Some?)) &&
      (status.CaseFailure? || status.CaseError? ==> |ev| == 1) &&
      (status.NoStatus? ==> ev == [])
  {
    var ev := StatusEvents(status, id);
    match status {
      case CaseSuccess(_, _) =>
        assert ev[2] in ev;
      case CaseSkipped(_) =>
        assert ev[|ev| - 1] in ev;
      case CaseFailure(_, _, _) =>
        assert ev[0] in ev;
      case CaseError(_, _, _) =>
        assert ev[0] in ev;
      case NoStatus =>
    }
  }

  /** The header of a failure report: the kind, or "Untyped", and the message. */
  function ReportHeader(message: Option<string>, kind: Option<string>): string
  {
    FailedPrefix(kind) + message.GetOr("")
  }

  lemma {:induction false} HeaderHasNoNewline(message: Option<string>, kind: Option<string>)
    requires '\n' !in kind.GetOr("Untyped") && '\n' !in message.GetOr("")
    ensures '\n' !in ReportHeader(message, kind)
  {
    var lead := "Test case being imported failed (";
    assert forall i :: 0 <= i < |lead| ==> lead[i] != '\n';
    assert FailedPrefix(kind) == lead + kind.GetOr("Untyped") + "): ";
  }

  /** The report of a case in error is its header on the first line, then the lines of the
      description, when there is one. */
  lemma {:induction false} ErrorReportLines(message: Option<string>, kind: Option<string>, description: Option<string>)
    requires '\n' !in kind.GetOr("Untyped") && '\n' !in message.GetOr("")
    ensures Split(ErrorReport(message, kind, description), '\n') ==
      [ReportHeader(message, kind)] + (if description.Some? then Split(description.value, '\n') else [])
  {
    var header := ReportHeader(message, kind);
    HeaderHasNoNewline(message, kind);
    if description.Some? {
      assert ErrorReport(message, kind, description) == header + ['\n'] + description.value;
      SplitAtSeparator(header, '\n', description.value);
    } else {
      assert ErrorReport(message, kind, description) == header;
      SplitNoSeparator(header, '\n');
    }
  }

  /** The report of a failed case has the same header, then a space and the description, so
      that, without newlines in its parts, it is a single line. */
  lemma {:induction false} FailureReportLine(message: Option<string>, kind: Option<string>, description: Option<string>)
    requires '\n' !in kind.GetOr("Untyped") && '\n' !in message.GetOr("") && '\n' !in description.GetOr("")
    ensures FailureReport(message, kind, description) == ReportHeader(message, kind) + " " + description.GetOr("")
    ensures Split(FailureReport(message, kind, description), '\n') == [FailureReport(message, kind, description)]
  {
    var r := FailureReport(message, kind, description);
    var header := ReportHeader(message, kind);
    HeaderHasNoNewline(message, kind);
    assert r == header + " " + description.GetOr("");
    assert forall i :: 0 <= i < |r| ==> r[i] != '\n' by {
      forall i | 0 <= i < |r|
        ensures r[i] != '\n'
      {
        if i < |header| {
          assert r[i] == header[i];
        } else if i > |header| {
          assert r[i] == description.GetOr("")[i - |header| - 1];
        }
      }
    }
    SplitNoSeparator(r, '\n');
  }

  // ---------------------------------------------------------------- ids

  /** The ids of the started tests and suites, in order. */
  function StartedIds(events: seq<Event>): seq<int>
  {
    if |events| == 0 then []
    else
      StartedIds(events[..|events| - 1]) +
      (if events[|events| - 1].StartEvent? then [events[|events| - 1].descriptor.id] else [])
  }

  /** `count` consecutive ids from `first` on. */
  function Range(first: int, count: nat): seq<int>
  {
    seq(count, k => first + k)
  }

  lemma {:induction false} StartedIdsAppend(a: seq<Event>, b: seq<Event>)
    ensures StartedIds(a + b) == StartedIds(a) + StartedIds(b)
  {
    if |b| == 0 {
      assert a + b == a;
    } else {
      var n := |b| - 1;
      StartedIdsAppend(a, b[..n]);
      assert (a + b)[..|a| + n] == a + b[..n];
      assert (a + b)[|a| + n] == b[n];
    }
  }

  lemma {:induction false} NoStarts(events: seq<Event>)
    requires forall e :: e in events ==> !e.StartEvent?
    ensures StartedIds(events) == []
  {
    if |events| > 0 {
      var n := |events| - 1;
      assert forall e :: e in events[..n] ==> e in events;
      NoStarts(events[..n]);
    }
  }

  lemma {:induction false} StartedOne(e: Event)
    requires e.StartEvent?
    ensures StartedIds([e]) == [e.descriptor.id]
  {
    assert [e][..0] == [];
  }

  lemma {:induction false} RangeAppend(first: int, a: nat, b: nat)
    ensures Range(first, a) + Range(first + a, b) == Range(first, a + b)
  {
    var r := Range(first, a) + Range(first + a, b);
    assert forall k :: 0 <= k < a + b ==> r[k] == first + k;
    assert r == Range(first, a + b);
  }

  /** One more block whose started ids follow those of the blocks before it. */
  lemma {:induction false} StartedStep(blocks: seq<seq<Event>>, j: nat, first: int, a: nat, b: nat)
    requires j < |blocks|
    requires StartedIds(Concat(blocks[..j])) == Range(first, a)
    requires StartedIds(blocks[j]) == Range(first + a, b)
    ensures StartedIds(Concat(blocks[..j + 1])) == Range(first, a + b)
  {
    ConcatPrefix(blocks, j);
    StartedIdsAppend(Concat(blocks[..j]), blocks[j]);
    RangeAppend(first, a, b);
  }

  /** A test starts exactly one id, its own. */
  lemma {:induction false} CaseStarted(suiteName: string, suiteId: int, c: TestCase, id: int)
    ensures StartedIds(CaseEvents(suiteName, suiteId, c, id)) == [id]
  {
    var start := StartEvent(MethodDescriptor(id, suiteName, c.name), Some(suiteId));
    StartedIdsAppend([start], StatusEvents(c.status, id));
    StartedOne(start);
    StatusEventsAbout(c.status, id);
    NoStarts(StatusEvents(c.status, id));
  }

  lemma {:induction false} CaseBlocksStep(suiteName: string, suiteId: int, cases: seq<TestCase>, firstId: int, j: nat)
    requires j < |cases|
    requires StartedIds(Concat(CaseBlocks(suiteName, suiteId, cases, firstId)[..j])) == Range(firstId, j)
    ensures StartedIds(Concat(CaseBlocks(suiteName, suiteId, cases, firstId)[..j + 1])) == Range(firstId, j + 1)
  {
    CaseStarted(suiteName, suiteId, cases[j], firstId + j);
    assert Range(firstId + j, 1) == [firstId + j];
    StartedStep(CaseBlocks(suiteName, suiteId, cases, firstId), j, firstId, j, 1);
  }

  lemma {:induction false} CaseBlocksStarted(suiteName: string, suiteId: int, cases: seq<TestCase>, firstId: int, j: nat)
    requires j <= |cases|
    ensures StartedIds(Concat(CaseBlocks(suiteName, suiteId, cases, firstId)[..j])) == Range(firstId, j)
  {
    var blocks := CaseBlocks(suiteName, suiteId, cases, firstId);
    if j == 0 {
      assert blocks[..0] == [];
      assert Range(firstId, 0) == [];
    } else {
      CaseBlocksStarted(suiteName, suiteId, cases, firstId, j - 1);
      CaseBlocksStep(suiteName, suiteId, cases, firstId, j - 1);
    }
  }

  /** A suite starts its own id, then one consecutive id per test. */
  lemma {:induction false} SuiteStarted(s: TestSuite, id: int)
    ensures StartedIds(SuiteEvents(s, id)) == Range(id, 1 + |s.tests|)
  {
    var start := StartEvent(ClassDescriptor(id, s.name), None);
    var blocks := CaseBlocks(s.name, id, s.tests, id + 1);
    var done := CompleteEvent(id, None);
    StartedIdsAppend([start] + Concat(blocks), [done]);
    StartedIdsAppend([start], Concat(blocks));
    StartedOne(start);
    NoStarts([done]);
    CaseBlocksStarted(s.name, id, s.tests, id + 1, |s.tests|);
    assert blocks[..|s.tests|] == blocks;
    assert Range(id, 1) == [id];
    RangeAppend(id, 1, |s.tests|);
  }

  lemma {:induction false} SuiteBlockStarted(suites: seq<TestSuite>, firstId: int, k: nat)
    requires k < |suites|
    ensures StartedIds(SuiteBlocks(suites, firstId)[k]) == Range(firstId + IdsUsed(suites[..k]), 1 + |suites[k].tests|)
  {
    SuiteStarted(suites[k], firstId + IdsUsed(suites[..k]));
  }

  lemma {:induction false} SuiteBlocksStep(suites: seq<TestSuite>, firstId: int, j: nat)
    requires j < |suites|
    requires StartedIds(Concat(SuiteBlocks(suites, firstId)[..j])) == Range(firstId, IdsUsed(suites[..j]))
    ensures StartedIds(Concat(SuiteBlocks(suites, firstId)[..j + 1])) == Range(firstId, IdsUsed(suites[..j + 1]))
  {
    IdsUsedPrefix(suites, j);
    SuiteBlockStarted(suites, firstId, j);
    StartedStep(SuiteBlocks(suites, firstId), j, firstId, IdsUsed(suites[..j]), 1 + |suites[j].tests|);
  }

  lemma {:induction false} SuiteBlocksStarted(suites: seq<TestSuite>, firstId: int, j: nat)
    requires j <= |suites|
    ensures StartedIds(Concat(SuiteBlocks(suites, firstId)[..j])) == Range(firstId, IdsUsed(suites[..j]))
  {
    var blocks := SuiteBlocks(suites, firstId);
    if j == 0 {
      assert blocks[..0] == [];
      assert Range(firstId, 0) == [];
    } else {
      SuiteBlocksStarted(suites, firstId, j - 1);
      SuiteBlocksStep(suites, firstId, j - 1);
    }
  }

  /** The suites of a file start consecutive ids from `firstId` on, as many as they use. */
  lemma {:induction false} SuitesStarted(suites: seq<TestSuite>, firstId: int)
    ensures StartedIds(SuitesEvents(suites, firstId)) == Range(firstId, IdsUsed(suites))
  {
    SuiteBlocksStarted(suites, firstId, |suites|);
    assert SuiteBlocks(suites, firstId)[..|suites|] == SuiteBlocks(suites, firstId);
    assert suites[..|suites|] == suites;
  }

  lemma {:induction false} FileBlockStarted(files: seq<InputFile>, firstId: int, k: nat)
    requires k < |files|
    ensures StartedIds(FileBlocks(files, firstId)[k]) == Range(firstId + FileIds(files[..k]), IdsUsed(files[k].suites))
  {
    SuitesStarted(files[k].suites, firstId + FileIds(files[..k]));
  }

  lemma {:induction false} FileBlocksStep(files: seq<InputFile>, firstId: int, i: nat)
    requires i < |files|
    requires StartedIds(Concat(FileBlocks(files, firstId)[..i])) == Range(firstId, FileIds(files[..i]))
    ensures StartedIds(Concat(FileBlocks(files, firstId)[..i + 1])) == Range(firstId, FileIds(files[..i + 1]))
  {
    FileIdsPrefix(files, i);
    FileBlockStarted(files, firstId, i);
    StartedStep(FileBlocks(files, firstId), i, firstId, FileIds(files[..i]), IdsUsed(files[i].suites));
  }

  lemma {:induction false} FileBlocksStarted(files: seq<InputFile>, firstId: int, i: nat)
    requires i <= |files|
    ensures StartedIds(Concat(FileBlocks(files, firstId)[..i])) == Range(firstId, FileIds(files[..i]))
  {
    var blocks := FileBlocks(files, firstId);
    if i == 0 {
      assert blocks[..0] == [];
      assert Range(firstId, 0) == [];
    } else {
      FileBlocksStarted(files, firstId, i - 1);
      FileBlocksStep(files, firstId, i - 1);
    }
  }

  /** Every suite and every test of every file gets its own id: the ids started by an import
      are consecutive from the generator's first value on, one per suite and one per test. */
  lemma {:induction false} FilesStarted(files: seq<InputFile>, firstId: int)
    ensures StartedIds(FilesEvents(files, firstId)) == Range(firstId, FileIds(files))
  {
    FileBlocksStarted(files, firstId, |files|);
    assert FileBlocks(files, firstId)[..|files|] == FileBlocks(files, firstId);
    assert files[..|files|] == files;
  }

  // ---------------------------------------------------------------- the shape of a suite

  /** An event about one of the `count` tests whose ids follow `id`, the id of the suite named
      `name`; the start of such a test names the suite as its class and its parent. */
  predicate InSuite(e: Event, name: string, id: int, count: nat)
  {
    id < EventId(e) <= id + count &&
    (e.StartEvent? ==> e.parent == Some(id) && e.descriptor.MethodDescriptor? && e.descriptor.className == name)
  }

  lemma {:induction false} CaseInSuite(name: string, suiteId: int, c: TestCase, id: int, count: nat)
    requires suiteId < id <= suiteId + count
    ensures forall e :: e in CaseEvents(name, suiteId, c, id) ==> InSuite(e, name, suiteId, count)
  {
    StatusEventsAbout(c.status, id);
  }

  /** A suite opens with its own start, without a parent, and closes with its own completion,
      without a result; every event between is about one of its tests, and every test starts
      under the suite, with the suite's name as its class. */
  lemma {:induction false} SuiteShape(s: TestSuite, id: int)
    ensures var ev := SuiteEvents(s, id);
      2 <= |ev| &&
      ev[0] == StartEvent(ClassDescriptor(id, s.name), None) &&
      ev[|ev| - 1] == CompleteEvent(id, None) &&
      forall i :: 0 < i < |ev| - 1 ==> InSuite(ev[i], s.name, id, |s.tests|)
  {
    var ev := SuiteEvents(s, id);
    var blocks := CaseBlocks(s.name, id, s.tests, id + 1);
    var inner := Concat(blocks);
    forall k, i | 0 <= k < |blocks| && 0 <= i < |blocks[k]|
      ensures InSuite(blocks[k][i], s.name, id, |s.tests|)
    {
      CaseInSuite(s.name, id, s.tests[k], id + 1 + k, |s.tests|);
      assert blocks[k][i] in CaseEvents(s.name, id, s.tests[k], id + 1 + k);
    }
    ConcatAll(blocks, e => InSuite(e, s.name, id, |s.tests|));
    assert ev == [ev[0]] + inner + [ev[|ev| - 1]];
    forall i | 0 < i < |ev| - 1
      ensures InSuite(ev[i], s.name, id, |s.tests|)
    {
      assert ev[i] == inner[i - 1];
    }
  }
}

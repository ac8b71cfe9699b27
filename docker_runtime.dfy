/** The stateful parts of lib/docker.js: the process-wide registry of running containers and
    build streams with the interrupt handler that stops them, the detach-key detector of an
    interactive sandbox, the pull-progress table, the build-output transform and the poll that
    waits for an exec to finish. Engine calls are replaced by their outcomes. */
module DockerRuntime {
  import opened Wrappers
  import Strings
  import JsObject

  // ---------------------------------------------------------------------------------------
  // The registry of containers and build streams.

  /** A registry entry: a container id, a build stream (which has `destroy`), or the missing
      stream (`undefined`) a build callback that failed receives; the handler's `destroy` test
      throws on it and the `catch` skips it. */
  datatype Entry = ContainerId(id: string) | BuildStream(stream: nat) | NoStream

  /** The registry is a `Set`: no entry twice, iterated in insertion order. */
  predicate NoDup<T(==)>(s: seq<T>)
  {
    forall i, j :: 0 <= i < j < |s| ==> s[i] != s[j]
  }

  /** `set.add(e)` */
  function SetAdd(s: seq<Entry>, e: Entry): (r: seq<Entry>)
    ensures forall x :: x in r <==> x in s || x == e
    ensures NoDup(s) ==> NoDup(r)
  {
    if e in s then s else s + [e]
  }

  /** `set.delete(e)` */
  function SetDelete(s: seq<Entry>, e: Entry): (r: seq<Entry>)
    ensures forall x :: x in r <==> x in s && x != e
    ensures |r| <= |s|
    ensures NoDup(s) ==> NoDup(r)
  {
    if s == [] then []
    else
      var rest := SetDelete(s[1..], e);
      assert NoDup(s) ==> s[0] !in s[1..];
      if s[0] == e then rest else [s[0]] + rest
  }

  /** Adding an entry the set does not hold and deleting it again restores the set. */
  lemma {:induction false} AddDeleteFresh(s: seq<Entry>, e: Entry)
    requires e !in s
    ensures SetDelete(SetAdd(s, e), e) == s
  {
    DeleteAbsent(s, e);
    DeleteLast(s, e);
  }

  lemma {:induction false} DeleteAbsent(s: seq<Entry>, e: Entry)
    requires e !in s
    ensures SetDelete(s, e) == s
  {
    if s != [] {
      assert e !in s[1..];
      DeleteAbsent(s[1..], e);
    }
  }

  lemma {:induction false} DeleteLast(s: seq<Entry>, e: Entry)
    ensures SetDelete(s + [e], e) == SetDelete(s, e)
  {
    if s == [] {
      assert [e][1..] == [];
    } else {
      assert (s + [e])[1..] == s[1..] + [e];
      DeleteLast(s[1..], e);
    }
  }

  /** The ids a stop job is made for: ids, in registry order, whose inspection succeeds. */
  function StopJobs(entries: seq<Entry>, inspectable: set<string>): (r: seq<string>)
    ensures forall x :: x in r <==> ContainerId(x) in entries && x in inspectable
    ensures |r| <= |entries|
  {
    if entries == [] then []
    else
      var init := entries[..|entries| - 1];
      var last := entries[|entries| - 1];
      assert entries == init + [last];
      StopJobs(init, inspectable) + (if last.ContainerId? && last.id in inspectable then [last.id] else [])
  }

  /** The build streams the handler destroys, in registry order. */
  function Streams(entries: seq<Entry>): (r: seq<nat>)
    ensures forall n :: n in r <==> BuildStream(n) in entries
    ensures |r| <= |entries|
  {
    if entries == [] then []
    else
      var init := entries[..|entries| - 1];
      var last := entries[|entries| - 1];
      assert entries == init + [last];
      Streams(init) + (if last.BuildStream? then [last.stream] else [])
  }

  /** The missing stream of a failed build is neither destroyed nor stopped by the handler,
      though it keeps the registry non-empty. */
  lemma NoStreamSkipped(entries: seq<Entry>, inspectable: set<string>)
    ensures StopJobs(entries + [NoStream], inspectable) == StopJobs(entries, inspectable)
    ensures Streams(entries + [NoStream]) == Streams(entries)
    ensures entries + [NoStream] != []
  {
    var e := entries + [NoStream];
    assert e[..|e| - 1] == entries;
    assert StopJobs(entries, inspectable) + [] == StopJobs(entries, inspectable);
    assert Streams(entries) + [] == Streams(entries);
  }

  /** The process state the container functions and the interrupt handler share. */
  class Session {
    var containers: seq<Entry>
    var stopping: bool
    var stdinDestroyed: bool

    ghost predicate Valid()
      reads this
    {
      NoDup(containers)
    }

    constructor ()
      ensures Valid() && containers == [] && !stopping && !stdinDestroyed
    {
      containers := [];
      stopping := false;
      stdinDestroyed := false;
    }

    method Add(e: Entry)
      requires Valid()
      modifies this
      ensures Valid() && containers == SetAdd(old(containers), e)
      ensures stopping == old(stopping) && stdinDestroyed == old(stdinDestroyed)
    {
      containers := SetAdd(containers, e);
    }

    method Delete(e: Entry)
      requires Valid()
      modifies this
      ensures Valid() && containers == SetDelete(old(containers), e)
      ensures stopping == old(stopping) && stdinDestroyed == old(stdinDestroyed)
    {
      containers := SetDelete(containers, e);
    }

    /** `run`: the container is registered only once it has started, and removed once
        `wait` returns. A failure before the start registers nothing; a failing `wait`
        leaves the id registered. */
    method Run(id: string, started: bool, waited: bool)
      requires Valid()
      modifies this
      ensures Valid() && stopping == old(stopping) && stdinDestroyed == old(stdinDestroyed)
      ensures containers == if !started then old(containers)
                            else if waited then SetDelete(SetAdd(old(containers), ContainerId(id)), ContainerId(id))
                            else SetAdd(old(containers), ContainerId(id))
    {
      if !started {
        return;
      }
      Add(ContainerId(id));
      if waited {
        Delete(ContainerId(id));
      }
    }

    /** `startContainer`: registered once created, whether or not the start succeeds. */
    method StartContainer(id: string, created: bool)
      requires Valid()
      modifies this
      ensures Valid() && stopping == old(stopping) && stdinDestroyed == old(stdinDestroyed)
      ensures containers == if created then SetAdd(old(containers), ContainerId(id)) else old(containers)
    {
      if created {
        Add(ContainerId(id));
      }
    }

    /** The `stop` of a started container: removed once the engine has stopped it. */
    method StopContainer(id: string, stopped: bool)
      requires Valid()
      modifies this
      ensures Valid() && stopping == old(stopping) && stdinDestroyed == old(stdinDestroyed)
      ensures containers == if stopped then SetDelete(old(containers), ContainerId(id)) else old(containers)
    {
      if stopped {
        Delete(ContainerId(id));
      }
    }

    /** `startSboxContainer`: registered once created, removed after `wait` and the cleanup
        (`completed`); a failure in between leaves it registered. */
    method StartSboxContainer(id: string, created: bool, completed: bool)
      requires Valid()
      modifies this
      ensures Valid() && stopping == old(stopping) && stdinDestroyed == old(stdinDestroyed)
      ensures containers == if !created then old(containers)
                            else if completed then SetDelete(SetAdd(old(containers), ContainerId(id)), ContainerId(id))
                            else SetAdd(old(containers), ContainerId(id))
    {
      if !created {
        return;
      }
      Add(ContainerId(id));
      if completed {
        Delete(ContainerId(id));
      }
    }

    /** `buildImage`: whatever the callback receives as its stream is registered as soon as
        the engine answers. With an error that is no stream, which stays registered; otherwise
        it is the build stream, removed when the output fails or ends. */
    method BuildImage(stream: nat, callbackError: bool, finished: bool)
      requires Valid()
      modifies this
      ensures Valid() && stopping == old(stopping) && stdinDestroyed == old(stdinDestroyed)
      ensures containers == if callbackError then SetAdd(old(containers), NoStream)
                            else if finished
                            then SetDelete(SetAdd(old(containers), BuildStream(stream)), BuildStream(stream))
                            else SetAdd(old(containers), BuildStream(stream))
    {
      if callbackError {
        Add(NoStream);
        return;
      }
      Add(BuildStream(stream));
      if finished {
        Delete(BuildStream(stream));
      }
    }

    /** The `SIGINT` handler. A signal while stopping does nothing. Otherwise stdin is
        destroyed; with an empty registry the handler returns without setting `stopping`;
        else it sets `stopping`, destroys every build stream and makes a stop job for every
        container id whose inspection succeeds (`inspectable`), skipping the others and the
        missing stream of a failed build. The
        registry itself is left as it is. Returns the stop jobs and the destroyed streams. */
    method OnSigint(inspectable: set<string>) returns (stopJobs: seq<string>, destroyed: seq<nat>)
      requires Valid()
      modifies this
      ensures Valid() && containers == old(containers)
      ensures old(stopping) ==> stopping && stdinDestroyed == old(stdinDestroyed) && stopJobs == [] && destroyed == []
      ensures !old(stopping) ==> stdinDestroyed && (stopping <==> old(containers) != [])
      ensures !old(stopping) ==> stopJobs == StopJobs(old(containers), inspectable) && destroyed == Streams(old(containers))
    {
      stopJobs := [];
      destroyed := [];
      if stopping {
        return;
      }
      stdinDestroyed := true;
      if |containers| == 0 {
        return;
      }
      stopping := true;
      var i := 0;
      while i < |containers|
        invariant 0 <= i <= |containers|
        invariant stopJobs == StopJobs(containers[..i], inspectable)
        invariant destroyed == Streams(containers[..i])
      {
        var prefix := containers[..i + 1];
        assert prefix[..|prefix| - 1] == containers[..i];
        match containers[i] {
          case BuildStream(n) =>
            destroyed := destroyed + [n];
          case ContainerId(id) =>
            if id in inspectable {
              stopJobs := stopJobs + [id];
            }
          case NoStream =>
            // Reading `destroy` of `undefined` throws; the `catch` moves on.
        }
        i := i + 1;
      }
      assert containers[..i] == containers;
    }
  }

  // ---------------------------------------------------------------------------------------
  // Detaching from an interactive sandbox.

  const CTRL_P: string := [16 as char]
  const CTRL_Q: string := [17 as char]

  /** The stdin listener of an interactive sandbox: Ctrl-P followed by Ctrl-Q stops it. */
  class DetachDetector {
    var previousKey: Option<string>

    constructor ()
      ensures previousKey.None?
    {
      previousKey := None;
    }

    /** One stdin chunk (as ASCII text): whether the container is stopped now. The chunk
        always becomes the previous key. */
    method OnData(key: string) returns (stop: bool)
      modifies this
      ensures stop <==> old(previousKey) == Some(CTRL_P) && key == CTRL_Q
      ensures previousKey == Some(key)
    {
      stop := previousKey == Some(CTRL_P) && key == CTRL_Q;
      previousKey := Some(key);
    }
  }

  // ---------------------------------------------------------------------------------------
  // Pull progress.

  /** A progress event; an absent `progress` or `id` is the empty string. */
  datatype ProgressEvent = ProgressEvent(status: string, progress: string, id: string)

  /** The status shown for an event: its progress after the status when there is one. */
  function StatusText(event: ProgressEvent): (r: string)
    ensures event.progress == "" ==> r == event.status
    ensures event.progress != "" ==> r == event.status + " " + event.progress
  {
    if event.progress != "" then event.status + " " + event.progress else event.status
  }

  /** The line of one layer. */
  function StatusLine(entry: (string, string)): string
  {
    entry.0 + ": " + entry.1 + "\n"
  }

  /** One `key: status` line per layer, in the order the layers first appeared. */
  function RenderStatuses(statuses: JsObject.Obj<string>): string
  {
    if statuses == [] then ""
    else RenderStatuses(statuses[..|statuses| - 1]) + StatusLine(statuses[|statuses| - 1])
  }

  /** When no id or status holds a line break, the table has exactly one line per layer. */
  lemma {:induction false} RenderStatusesLines(statuses: JsObject.Obj<string>)
    requires forall i :: 0 <= i < |statuses| ==> '\n' !in statuses[i].0 && '\n' !in statuses[i].1
    ensures Strings.Count(RenderStatuses(statuses), '\n') == |statuses|
  {
    if statuses != [] {
      var init := statuses[..|statuses| - 1];
      var last := statuses[|statuses| - 1];
      assert forall i :: 0 <= i < |init| ==> init[i] == statuses[i];
      RenderStatusesLines(init);
      StatusLineCount(last);
      CountAppend(RenderStatuses(init), StatusLine(last), '\n');
    }
  }

  lemma StatusLineCount(entry: (string, string))
    requires '\n' !in entry.0 && '\n' !in entry.1
    ensures Strings.Count(StatusLine(entry), '\n') == 1
  {
    var sep := ": ";
    var nl := "\n";
    CountAbsent(entry.0, '\n');
    CountAbsent(entry.1, '\n');
    CountAbsent(sep, '\n');
    assert Strings.Count(nl, '\n') == 1 by { assert nl[1..] == []; }
    CountAppend(entry.0, sep, '\n');
    CountAppend(entry.0 + sep, entry.1, '\n');
    CountAppend(entry.0 + sep + entry.1, nl, '\n');
  }

  lemma {:induction false} CountAbsent(s: string, c: char)
    requires c !in s
    ensures Strings.Count(s, c) == 0
  {
    if s != [] {
      assert c !in s[1..];
      CountAbsent(s[1..], c);
    }
  }

  lemma {:induction false} CountAppend(s: string, t: string, c: char)
    ensures Strings.Count(s + t, c) == Strings.Count(s, c) + Strings.Count(t, c)
  {
    if s == [] {
      assert s + t == t;
    } else {
      assert (s + t)[1..] == s[1..] + t;
      CountAppend(s[1..], t, c);
    }
  }

  /** The `statuses` table of one `pullImage` call. */
  class ProgressTable {
    var statuses: JsObject.Obj<string>

    ghost predicate Valid()
      reads this
    {
      JsObject.UniqueKeys(statuses)
    }

    constructor ()
      ensures Valid() && statuses == []
    {
      statuses := [];
    }

    /** `onProgress`: an event with an id sets that layer's status; the output is the whole
        table, followed by the event's own status when it has no id. */
    method OnProgress(event: ProgressEvent) returns (output: string)
      requires Valid()
      modifies this
      ensures Valid()
      ensures statuses == if event.id != "" then JsObject.Put(old(statuses), event.id, StatusText(event)) else old(statuses)
      ensures output == RenderStatuses(statuses) + (if event.id == "" then event.status + "\n" else "")
    {
      var status := StatusText(event);
      if event.id != "" {
        JsObject.PutKeepsUnique(statuses, event.id, status);
        statuses := JsObject.Put(statuses, event.id, status);
      }
      output := RenderTable(statuses);
      if event.id == "" {
        output := output + event.status + "\n";
      }
    }
  }

  /** The loop of `onProgress` that prints the table. */
  method RenderTable(statuses: JsObject.Obj<string>) returns (output: string)
    ensures output == RenderStatuses(statuses)
  {
    output := "";
    var i := 0;
    while i < |statuses|
      invariant 0 <= i <= |statuses|
      invariant output == RenderStatuses(statuses[..i])
    {
      var prefix := statuses[..i + 1];
      assert prefix[..|prefix| - 1] == statuses[..i];
      output := output + statuses[i].0 + ": " + statuses[i].1 + "\n";
      i := i + 1;
    }
    assert statuses[..i] == statuses;
  }

  // ---------------------------------------------------------------------------------------
  // Build output.

  /** A line of build output as `JSON.parse` sees it: not parseable (or not an object), or a
      record with its `error` and `stream` texts (empty when absent or falsy) and `aux.ID`. */
  datatype BuildRecord = Unparseable | Record(error: string, stream: string, auxId: Option<string>)

  /** The lines of a chunk: the trimmed text split at line breaks. */
  function Lines(chunk: string): (r: seq<string>)
    ensures |r| >= 1
  {
    Strings.Split(Strings.Trim(chunk), '\n')
  }

  /** What one line pushes downstream, if anything: nothing for an error, the stream text,
      the image id and a line break, or the line itself. */
  function LinePush(line: string, rec: BuildRecord): Option<string>
  {
    match rec
    case Unparseable => Some(line)
    case Record(error, stream, auxId) =>
      if error != "" then None
      else if stream != "" then Some(stream)
      else if auxId.Some? then Some(auxId.value + "\n")
      else Some(line)
  }

  /** The texts pushed for `lines`, in order. */
  function Pushes(lines: seq<string>, parse: string -> BuildRecord): seq<string>
  {
    if lines == [] then []
    else
      var last := lines[|lines| - 1];
      Pushes(lines[..|lines| - 1], parse) + (match LinePush(last, parse(last)) case Some(t) => [t] case None => [])
  }

  /** The errors `done` is called with for `lines`, in order. */
  function Failures(lines: seq<string>, parse: string -> BuildRecord): seq<string>
  {
    if lines == [] then []
    else
      var last := lines[|lines| - 1];
      var rec := parse(last);
      Failures(lines[..|lines| - 1], parse) + (if rec.Record? && rec.error != "" then [rec.error] else [])
  }

  /** Every line either pushes one text or reports one error. */
  lemma {:induction false} PushesFailuresCount(lines: seq<string>, parse: string -> BuildRecord)
    ensures |Pushes(lines, parse)| + |Failures(lines, parse)| == |lines|
  {
    if lines != [] {
      PushesFailuresCount(lines[..|lines| - 1], parse);
    }
  }

  /** The errors reported are the `error` texts of the error records, and they do not stop
      the lines after them from being pushed. */
  lemma {:induction false} FailuresAreErrors(lines: seq<string>, parse: string -> BuildRecord)
    ensures forall e :: e in Failures(lines, parse) <==>
      exists i :: 0 <= i < |lines| && parse(lines[i]).Record? && parse(lines[i]).error == e && e != ""
  {
    if lines != [] {
      var init := lines[..|lines| - 1];
      FailuresAreErrors(init, parse);
      forall e
        ensures e in Failures(lines, parse) <==>
          exists i :: 0 <= i < |lines| && parse(lines[i]).Record? && parse(lines[i]).error == e && e != ""
      {
        if e in Failures(init, parse) {
          var i :| 0 <= i < |init| && parse(init[i]).Record? && parse(init[i]).error == e && e != "";
          assert lines[i] == init[i];
        }
        if exists i :: 0 <= i < |lines| && parse(lines[i]).Record? && parse(lines[i]).error == e && e != "" {
          var i :| 0 <= i < |lines| && parse(lines[i]).Record? && parse(lines[i]).error == e && e != "";
          if i < |init| {
            assert init[i] == lines[i];
          }
        }
      }
    }
  }

  /** A chunk of records none of which is an error pushes one text per line. */
  lemma {:induction false} PushesWithoutErrors(lines: seq<string>, parse: string -> BuildRecord)
    requires forall i :: 0 <= i < |lines| ==> !(parse(lines[i]).Record? && parse(lines[i]).error != "")
    ensures |Pushes(lines, parse)| == |lines| && Failures(lines, parse) == []
  {
    if lines != [] {
      PushesWithoutErrors(lines[..|lines| - 1], parse);
    }
  }

  /** The `BuildTransform` stream: what it has pushed and the `done` calls it has made
      (`None` for a call without an error). */
  class BuildTransform {
    var pushed: seq<string>
    var doneCalls: seq<Option<string>>

    constructor ()
      ensures pushed == [] && doneCalls == []
    {
      pushed := [];
      doneCalls := [];
    }

    /** `_transform` of one chunk: every line is handled, an error record calls `done` with
        its error and the loop goes on, and `done()` is called once more at the end. */
    method Transform(chunk: string, parse: string -> BuildRecord)
      modifies this
      ensures pushed == old(pushed) + Pushes(Lines(chunk), parse)
      ensures doneCalls == old(doneCalls) + Errors(Failures(Lines(chunk), parse)) + [None]
    {
      var lines := Lines(chunk);
      var i := 0;
      var pushedHere: seq<string> := [];
      var failedHere: seq<string> := [];
      while i < |lines|
        invariant 0 <= i <= |lines|
        invariant pushedHere == Pushes(lines[..i], parse) && failedHere == Failures(lines[..i], parse)
        invariant pushed == old(pushed) + pushedHere
        invariant doneCalls == old(doneCalls) + Errors(failedHere)
      {
        var line := lines[i];
        var prefix := lines[..i + 1];
        assert prefix[..|prefix| - 1] == lines[..i] && prefix[|prefix| - 1] == line;
        var rec := parse(line);
        if rec.Record? && rec.error != "" {
          ErrorsSnoc(failedHere, rec.error);
          doneCalls := doneCalls + [Some(rec.error)];
          failedHere := failedHere + [rec.error];
        } else {
          var text := LinePush(line, rec).value;
          pushed := pushed + [text];
          pushedHere := pushedHere + [text];
        }
        i := i + 1;
      }
      assert lines[..i] == lines;
      doneCalls := doneCalls + [None];
    }
  }

  /** `done(error)` calls for a list of errors. */
  function Errors(errors: seq<string>): (r: seq<Option<string>>)
    ensures |r| == |errors| && forall i :: 0 <= i < |r| ==> r[i] == Some(errors[i])
  {
    seq(|errors|, i requires 0 <= i < |errors| => Some(errors[i]))
  }

  lemma ErrorsSnoc(errors: seq<string>, e: string)
    ensures Errors(errors + [e]) == Errors(errors) + [Some(e)]
  {
  }

  // ---------------------------------------------------------------------------------------
  // Waiting for an exec.

  /** What an exec inspection reports: whether it still runs, its exit code (`None` for
      `null`) and its entry point. */
  datatype ExecState = ExecState(running: bool, exitCode: Option<int>, entrypoint: string)

  /** One answer of `exec.inspect`: an error and the data, either possibly absent. */
  datatype InspectReply = InspectReply(err: Option<string>, data: Option<ExecState>)

  /** How the wait ends: with the exit code, rejected with a reason, with a `TypeError` in
      the callback when the data is missing (the promise never settles), or still polling
      when the replies run out. */
  datatype ExecOutcome = Resolved(code: int) | Rejected(reason: string) | Crashed | Polling

  predicate StillRunning(reply: InspectReply)
  {
    reply.data.Some? && reply.data.value.running
  }

  /** An exit code as a template string writes it. */
  function RenderExitCode(exitCode: Option<int>): string
  {
    match exitCode case Some(n) => Strings.IntToString(n) case None => "null"
  }

  /** The decision on a reply that is not running: reading `Running` of missing data throws;
      an error rejects; a non-zero or `null` exit code rejects with a message naming the
      entry point; exit code 0 resolves. */
  function Decide(reply: InspectReply): (r: ExecOutcome)
    requires !StillRunning(reply)
    ensures r.Resolved? ==> r.code == 0
    ensures r.Crashed? <==> reply.data.None?
    ensures reply.data.Some? && reply.err.Some? ==> r == Rejected(reply.err.value)
    ensures reply.data.Some? && reply.err.None? && reply.data.value.exitCode != Some(0) ==>
      r == Rejected(reply.data.value.entrypoint + " exited with code " + RenderExitCode(reply.data.value.exitCode))
    ensures reply.data.Some? && reply.err.None? && reply.data.value.exitCode == Some(0) ==> r == Resolved(0)
  {
    match reply.data
    case None => Crashed
    case Some(data) =>
      if reply.err.Some? then Rejected(reply.err.value)
      else if data.exitCode != Some(0) then
        Rejected(data.entrypoint + " exited with code " + RenderExitCode(data.exitCode))
      else Resolved(0)
  }

  /** The outcome of polling through `replies`: running replies are skipped, the first other
      one decides. */
  function PollOutcome(replies: seq<InspectReply>): ExecOutcome
  {
    if replies == [] then Polling
    else if StillRunning(replies[0]) then PollOutcome(replies[1..])
    else Decide(replies[0])
  }

  /** The first reply that is not running decides the outcome, whatever follows it; an error
      reported together with a running state is ignored. */
  lemma {:induction false} FirstSettledDecides(replies: seq<InspectReply>, i: nat)
    requires i < |replies| && !StillRunning(replies[i])
    requires forall j :: 0 <= j < i ==> StillRunning(replies[j])
    ensures PollOutcome(replies) == Decide(replies[i])
  {
    if i > 0 {
      assert StillRunning(replies[0]);
      FirstSettledDecides(replies[1..], i - 1);
    }
  }

  /** `waitContainerExec`: inspect, and inspect again while the exec runs. */
  method WaitContainerExec(replies: seq<InspectReply>) returns (outcome: ExecOutcome)
    ensures outcome == PollOutcome(replies)
  {
    var i := 0;
    while i < |replies| && StillRunning(replies[i])
      invariant 0 <= i <= |replies|
      invariant PollOutcome(replies[i..]) == PollOutcome(replies)
    {
      assert replies[i..][1..] == replies[i + 1..];
      i := i + 1;
    }
    if i == |replies| {
      outcome := Polling;
    } else {
      outcome := Decide(replies[i]);
    }
  }
}

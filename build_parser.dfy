/** lib/build/parser.js: the `env` attribute rendering, the fun.yml to Funfile translation
    (taking the runtime and task list the fun.yml loader produced) and the Funfile to
    Dockerfile rewrite (taking the instructions the Dockerfile parser produced). */
module BuildParser {
  import opened Wrappers
  import Strings
  import JsObject
  import DockerOpts

  // ---------------------------------------------------------------------------------------
  // resolveEnv

  /** A task's `env` attribute: absent (or null), a string, or a map from names to values. */
  datatype EnvAttr = NoEnv | EnvText(text: string) | EnvMap(entries: JsObject.Obj<string>)

  const ENV_NOT_MAP: string := "fun.yml env property must be a map"
  const PATH_KEY: string := "PATH"
  const LIBRARY_PATH_KEY: string := "LD_LIBRARY_PATH"

  /** The two variables whose old value is kept after the new one. */
  predicate Appends(k: string)
  {
    k == PATH_KEY || k == LIBRARY_PATH_KEY
  }

  /** One `NAME=value` word; `PATH` and `LD_LIBRARY_PATH` keep their old value after a `:`. */
  function EnvLine(k: string, v: string): string
  {
    if Appends(k) then k + "=" + v + ":$" + k else k + "=" + v
  }

  /** A line splits back at its first `=` into the name and the value the shell assigns:
      the given value, followed by `:$NAME` for the two appended variables. */
  lemma EnvLineKeyValue(k: string, v: string)
    requires '=' !in k
    ensures var line := EnvLine(k, v);
      Strings.IndexOf(line, "=") == |k| && line[..|k|] == k &&
      line[|k| + 1..] == (if Appends(k) then v + ":$" + k else v)
  {
    var line := EnvLine(k, v);
    var value := if Appends(k) then v + ":$" + k else v;
    assert line == k + "=" + value;
    assert Strings.OccursAt(line, "=", |k|);
    forall i | 0 <= i < |k| ensures !Strings.OccursAt(line, "=", i) {
      assert line[i] == k[i];
      assert line[i..i + 1] == [k[i]];
    }
  }

  /** `resolveEnv`: a string is refused, an absent attribute gives no line, and a map gives
      one line per entry, in order. */
  function ResolveEnv(envs: EnvAttr): (r: Result<seq<string>, string>)
    ensures r.Err? <==> envs.EnvText?
    ensures r.Err? ==> r.error == ENV_NOT_MAP
    ensures envs.NoEnv? ==> r == Ok([])
    ensures envs.EnvMap? ==> (|r.value| == |envs.entries| &&
      forall i :: 0 <= i < |envs.entries| ==> r.value[i] == EnvLine(envs.entries[i].0, envs.entries[i].1))
  {
    match envs
    case NoEnv => Ok([])
    case EnvText(_) => Err(ENV_NOT_MAP)
    case EnvMap(entries) => Ok(seq(|entries|, i requires 0 <= i < |entries| => EnvLine(entries[i].0, entries[i].1)))
  }

  // ---------------------------------------------------------------------------------------
  // funymlToFunfile

  datatype TaskKind = Pip | Apt | Shell | OtherTask(name: string)

  /** The attributes a task uses, already rendered to text; an absent `target` or `cwd` is
      the empty string. */
  datatype TaskAttrs = TaskAttrs(env: EnvAttr, target: string, cwd: string, local: bool,
                                 pip: string, apt: string, shell: string)

  datatype Task = Task(kind: TaskKind, attrs: TaskAttrs)

  /** The three lines every Funfile begins with. */
  function Header(runtime: string): seq<string>
  {
    ["RUNTIME " + runtime, "COPY . /code", "WORKDIR /code"]
  }

  /** The joined env words, with a leading space when there are any. */
  function EnvWords(lines: seq<string>): string
  {
    var env := Strings.Join(lines, " ");
    if env == [] then [] else " " + env
  }

  function TargetParameter(target: string): string
  {
    if target != [] then " -t " + target else ""
  }

  function CwdCommand(cwd: string): string
  {
    if cwd != [] then " cd " + cwd + " &&" else ""
  }

  /** The line of a pip or apt task: through `fun-install` with the target when local,
      the plain command without a target otherwise. */
  function PackageLine(run: string, command: string, packages: string, local: bool, targetParameter: string): string
  {
    if local then run + " fun-install " + command + " " + packages + targetParameter
    else run + " " + command + " " + packages
  }

  /** The commands of a shell script that are not empty. */
  function NonEmpty(commands: seq<string>): (r: seq<string>)
    ensures |r| <= |commands|
    ensures forall c :: c in r <==> c in commands && c != []
  {
    if commands == [] then []
    else
      var init := commands[..|commands| - 1];
      var last := commands[|commands| - 1];
      assert commands == init + [last];
      NonEmpty(init) + (if last != [] then [last] else [])
  }

  /** The lines of a shell task, built as the loop builds them: the first command on the
      `RUN` line; each later one continues the previous line with ` \` and adds its own. */
  function ShellBlock(run: string, env: string, commands: seq<string>): (r: seq<string>)
    ensures |r| == |commands|
  {
    if commands == [] then []
    else if |commands| == 1 then [run + " " + commands[0]]
    else
      var block := ShellBlock(run, env, commands[..|commands| - 1]);
      block[..|block| - 1] + [block[|block| - 1] + " \\", " " + env + " " + commands[|commands| - 1]]
  }

  /** Line `i` of a shell block in closed form: the first command after `run`, every later one
      after ` <env> `, and every line but the last continued with ` \`. */
  function ShellLine(run: string, env: string, commands: seq<string>, i: nat): string
    requires i < |commands|
  {
    (if i == 0 then run + " " + commands[0] else " " + env + " " + commands[i]) +
    (if i < |commands| - 1 then " \\" else "")
  }

  lemma {:induction false} ShellBlockLines(run: string, env: string, commands: seq<string>)
    ensures forall i :: 0 <= i < |commands| ==> ShellBlock(run, env, commands)[i] == ShellLine(run, env, commands, i)
    decreases |commands|
  {
    var n := |commands|;
    if n > 1 {
      var init := commands[..n - 1];
      ShellBlockLines(run, env, init);
      var block := ShellBlock(run, env, init);
      forall i | 0 <= i < n ensures ShellBlock(run, env, commands)[i] == ShellLine(run, env, commands, i) {
        if i < n - 2 {
          assert ShellBlock(run, env, commands)[i] == block[i] == ShellLine(run, env, init, i);
          assert init[i] == commands[i];
        } else if i == n - 2 {
          assert ShellBlock(run, env, commands)[i] == block[i] + " \\";
          assert init[i] == commands[i];
        }
      }
    }
  }

  /** The lines one task adds, or the `resolveEnv` error; a task of another type adds none. */
  function TaskLines(t: Task): Result<seq<string>, string>
  {
    match ResolveEnv(t.attrs.env)
    case Err(e) => Err(e)
    case Ok(envLines) =>
      var env := EnvWords(envLines);
      var run := "RUN" + CwdCommand(t.attrs.cwd) + env;
      var targetParameter := TargetParameter(t.attrs.target);
      match t.kind
      case Pip => Ok([PackageLine(run, "pip install", t.attrs.pip, t.attrs.local, targetParameter)])
      case Apt => Ok([PackageLine(run, "apt-get install", t.attrs.apt, t.attrs.local, targetParameter)])
      case Shell => Ok(ShellBlock(run, env, NonEmpty(Strings.Split(t.attrs.shell, '\n'))))
      case OtherTask(_) => Ok([])
  }

  /** The Funfile lines: the header, then the lines of each task in order; the first task
      whose `env` is a string stops the translation. */
  function FunfileLines(runtime: string, tasks: seq<Task>): Result<seq<string>, string>
  {
    if tasks == [] then Ok(Header(runtime))
    else match FunfileLines(runtime, tasks[..|tasks| - 1])
      case Err(e) => Err(e)
      case Ok(content) =>
        match TaskLines(tasks[|tasks| - 1])
        case Err(e) => Err(e)
        case Ok(lines) => Ok(content + lines)
  }

  /** A translation that succeeds begins with the three header lines. */
  lemma {:induction false} FunfileStartsWithHeader(runtime: string, tasks: seq<Task>)
    requires FunfileLines(runtime, tasks).Ok?
    ensures |FunfileLines(runtime, tasks).value| >= 3
    ensures FunfileLines(runtime, tasks).value[..3] == Header(runtime)
    decreases |tasks|
  {
    if tasks != [] {
      FunfileStartsWithHeader(runtime, tasks[..|tasks| - 1]);
      var content := FunfileLines(runtime, tasks[..|tasks| - 1]).value;
      var lines := TaskLines(tasks[|tasks| - 1]).value;
      assert (content + lines)[..3] == content[..3];
    }
  }

  /** The translation fails exactly when some task's `env` is a string. */
  lemma {:induction false} FunfileErrIffTextEnv(runtime: string, tasks: seq<Task>)
    ensures FunfileLines(runtime, tasks).Err? <==> exists i :: 0 <= i < |tasks| && tasks[i].attrs.env.EnvText?
    ensures FunfileLines(runtime, tasks).Err? ==> FunfileLines(runtime, tasks).error == ENV_NOT_MAP
    decreases |tasks|
  {
    if tasks != [] {
      var init := tasks[..|tasks| - 1];
      FunfileErrIffTextEnv(runtime, init);
      if exists i :: 0 <= i < |init| && init[i].attrs.env.EnvText? {
        var i :| 0 <= i < |init| && init[i].attrs.env.EnvText?;
        assert tasks[i] == init[i];
      }
      if exists i :: 0 <= i < |tasks| && tasks[i].attrs.env.EnvText? {
        var i :| 0 <= i < |tasks| && tasks[i].attrs.env.EnvText?;
        if i < |init| {
          assert init[i] == tasks[i];
        }
      }
    }
  }

  /** A pip or apt task adds one line, a shell task one line per non-empty command, a task of
      another type none. */
  lemma TaskLineCount(t: Task)
    requires !t.attrs.env.EnvText?
    ensures TaskLines(t).Ok?
    ensures (t.kind.Pip? || t.kind.Apt?) ==> |TaskLines(t).value| == 1
    ensures t.kind.Shell? ==> |TaskLines(t).value| == |NonEmpty(Strings.Split(t.attrs.shell, '\n'))|
    ensures t.kind.OtherTask? ==> TaskLines(t).value == []
  {
  }

  /** Only a local pip or apt task names its target: the line of a task that is not local is
      the same whatever the target, and the line of a local one ends with ` -t <target>`. */
  lemma PackageTaskTarget(t: Task, target': string)
    requires (t.kind.Pip? || t.kind.Apt?) && !t.attrs.env.EnvText?
    ensures !t.attrs.local ==> TaskLines(t) == TaskLines(t.(attrs := t.attrs.(target := target')))
    ensures t.attrs.local ==> Strings.EndsWith(TaskLines(t).value[0], TargetParameter(t.attrs.target))
  {
    if t.attrs.local {
      var line := TaskLines(t).value[0];
      var tp := TargetParameter(t.attrs.target);
      assert line[|line| - |tp|..] == tp;
    }
  }

  /** The first command of a shell block goes on the `RUN` line. */
  lemma ShellStart(content: seq<string>, run: string, env: string, command: string)
    ensures content + [run + " " + command] == content + ShellBlock(run, env, [] + [command])
  {
    assert [] + [command] == [command];
  }

  /** A later command continues the block's last line with ` \` and adds its own line. */
  lemma ShellContinue(content: seq<string>, run: string, env: string, done: seq<string>, command: string, r: seq<string>)
    requires r == content + ShellBlock(run, env, done) && done != []
    ensures r[..|r| - 1] + [r[|r| - 1] + " \\", " " + env + " " + command] == content + ShellBlock(run, env, done + [command])
  {
    var all := done + [command];
    assert all[..|all| - 1] == done && all[|all| - 1] == command;
    var block := ShellBlock(run, env, done);
    assert r[|r| - 1] == block[|block| - 1] && r[..|r| - 1] == content + block[..|block| - 1];
  }

  lemma NonEmptySnoc(done: seq<string>, command: string)
    ensures NonEmpty(done + [command]) == NonEmpty(done) + (if command != [] then [command] else [])
  {
    var all := done + [command];
    assert all[..|all| - 1] == done && all[|all| - 1] == command;
  }

  /** Appending the shell loop's lines to `content`: the first non-empty command is pushed,
      each later one pops the previous line and pushes it back continued, then its own. */
  method PushShellCommands(content: seq<string>, run: string, env: string, commands: seq<string>)
    returns (r: seq<string>)
    ensures r == content + ShellBlock(run, env, NonEmpty(commands))
  {
    r := content;
    var first := true;
    ghost var done: seq<string> := [];
    var j := 0;
    while j < |commands|
      invariant 0 <= j <= |commands|
      invariant done == NonEmpty(commands[..j])
      invariant r == content + ShellBlock(run, env, done)
      invariant first <==> done == []
    {
      var command := commands[j];
      assert commands[..j + 1] == commands[..j] + [command];
      NonEmptySnoc(commands[..j], command);
      if command != [] {
        if first {
          ShellStart(r, run, env, command);
          r := r + [run + " " + command];
          first := false;
        } else {
          ShellContinue(content, run, env, done, command, r);
          var lastCommand := r[|r| - 1];
          r := r[..|r| - 1] + [lastCommand + " \\", " " + env + " " + command];
        }
        done := done + [command];
      } else {
        assert done + [] == done;
      }
      j := j + 1;
    }
    assert commands[..j] == commands;
  }

  /** `funymlToFunfile` after loading: the Funfile text, or the first `resolveEnv` error. */
  method FunymlToFunfile(runtime: string, tasks: seq<Task>) returns (r: Result<string, string>)
    ensures FunfileLines(runtime, tasks).Err? ==> r == Err(FunfileLines(runtime, tasks).error)
    ensures FunfileLines(runtime, tasks).Ok? ==> r == Ok(Strings.Join(FunfileLines(runtime, tasks).value, "\n"))
  {
    var content := ["RUNTIME " + runtime];
    content := content + ["COPY . /code"];
    content := content + ["WORKDIR /code"];
    var i := 0;
    assert tasks[..0] == [] && content == Header(runtime);
    while i < |tasks|
      invariant 0 <= i <= |tasks|
      invariant FunfileLines(runtime, tasks[..i]) == Ok(content)
    {
      var t := tasks[i];
      var prefix := tasks[..i + 1];
      assert prefix[..|prefix| - 1] == tasks[..i] && prefix[|prefix| - 1] == t;
      var envLines := ResolveEnv(t.attrs.env);
      if envLines.Err? {
        FunfileErrPrefix(runtime, tasks, i + 1);
        return Err(envLines.error);
      }
      var env := EnvWords(envLines.value);
      var targetParameter := TargetParameter(t.attrs.target);
      var cwdCmd := CwdCommand(t.attrs.cwd);
      var run := "RUN" + cwdCmd + env;
      match t.kind {
        case Pip =>
          content := content + [PackageLine(run, "pip install", t.attrs.pip, t.attrs.local, targetParameter)];
        case Apt =>
          content := content + [PackageLine(run, "apt-get install", t.attrs.apt, t.attrs.local, targetParameter)];
        case Shell =>
          var commands := Strings.Split(t.attrs.shell, '\n');
          content := PushShellCommands(content, run, env, commands);
        case OtherTask(_) =>
          assert content + [] == content;
      }
      i := i + 1;
    }
    assert tasks[..i] == tasks;
    return Ok(Strings.Join(content, "\n"));
  }

  /** A failure of a prefix of the tasks is the failure of all of them. */
  lemma {:induction false} FunfileErrPrefix(runtime: string, tasks: seq<Task>, i: nat)
    requires i <= |tasks| && FunfileLines(runtime, tasks[..i]).Err?
    ensures FunfileLines(runtime, tasks) == FunfileLines(runtime, tasks[..i])
    decreases |tasks| - i
  {
    if i < |tasks| {
      assert tasks[..i + 1][..i] == tasks[..i];
      FunfileErrPrefix(runtime, tasks, i + 1);
    } else {
      assert tasks[..i] == tasks;
    }
  }

  // ---------------------------------------------------------------------------------------
  // funfileToDockerfile

  /** A parsed Funfile instruction: its keyword as written, its arguments and its source text. */
  datatype Instruction = Instruction(keyword: string, args: seq<string>, text: string)

  /** The instructions a Funfile may not use, as the source lists them. */
  const RESERVED_AS_WRITTEN: seq<string> := ["FROM", "Add", "ONBUILD", "ARG", "CMD", "ENTRYPOINT", "VOLUME", "STOPSIGNAL"]

  /** The same list with the Dockerfile keyword `ADD` spelled as Docker spells it. */
  const RESERVED_DOCKER_CMD: seq<string> := ["FROM", "ADD", "ONBUILD", "ARG", "CMD", "ENTRYPOINT", "VOLUME", "STOPSIGNAL"]

  const RUNTIME_KEYWORD: string := "RUNTIME"
  const INVALID_RUNTIME: string := "invalid RUNTIME for Funfile"

  function ReservedMessage(keyword: string): string
  {
    "Currently, Funfile does not support the semantics of '" + keyword + "'. \n" +
    "If you have a requirement, you can submit the issue at https://github.com/alibaba/funcraft/issues."
  }

  /** The reserved test as written: an exact, case-sensitive lookup in the source's list. */
  predicate IsReservedAsWritten(keyword: string)
  {
    keyword in RESERVED_AS_WRITTEN
  }

  /** The reserved test as intended: the keyword, in any case, is a reserved Dockerfile keyword. */
  predicate IsReserved(keyword: string)
  {
    Strings.ToUpper(keyword) in RESERVED_DOCKER_CMD
  }

  /** `ADD` and `from` get past the check as written, though both are reserved Dockerfile
      keywords; `Add` is refused by both tests. */
  lemma ReservedAsWrittenMisses(add: string, from: string, mixed: string)
    requires add == "ADD" && from == "from" && mixed == "Add"
    ensures !IsReservedAsWritten(add) && !IsReservedAsWritten(from) && IsReservedAsWritten(mixed)
    ensures IsReserved(add) && IsReserved(from) && IsReserved(mixed)
  {
    assert Strings.ToUpper(add) == RESERVED_DOCKER_CMD[1];
    assert Strings.ToUpper(from) == RESERVED_DOCKER_CMD[0];
    assert Strings.ToUpper(mixed) == RESERVED_DOCKER_CMD[1];
    assert mixed == RESERVED_AS_WRITTEN[1];
  }

  /** The `RUNTIME` rewrite: exactly one argument, which `resolve` turns into the build image. */
  function RuntimeLine(ins: Instruction, resolve: string -> Result<string, string>): Result<string, string>
  {
    if |ins.args| != 1 then Err(INVALID_RUNTIME)
    else
      match resolve(ins.args[0])
      case Err(e) => Err(e)
      case Ok(image) => Ok("FROM " + image)
  }

  /** The Dockerfile line of one instruction as intended: a reserved keyword in any case is
      refused; `RUNTIME`, in any case, becomes `FROM` the runtime's build image, found among the
      table's own runtimes; any other instruction is copied as written. */
  function DockerfileLine(ins: Instruction, probe: DockerOpts.Probe): Result<string, string>
  {
    if IsReserved(ins.keyword) then Err(ReservedMessage(ins.keyword))
    else if Strings.ToUpper(ins.keyword) == RUNTIME_KEYWORD then
      RuntimeLine(ins, runtime => DockerOpts.ResolveRuntimeToDockerImage(runtime, true, probe))
    else Ok(ins.text)
  }

  /** The Dockerfile line of one instruction as written: the keyword exactly as written is
      looked up in the source's list, and the runtime with the lookup that also sees the
      object prototype. */
  function DockerfileLineAsWritten(ins: Instruction, probe: DockerOpts.Probe): Result<string, string>
  {
    if IsReservedAsWritten(ins.keyword) then Err(ReservedMessage(ins.keyword))
    else if Strings.ToUpper(ins.keyword) == RUNTIME_KEYWORD then
      RuntimeLine(ins, runtime => DockerOpts.ResolveRuntimeToDockerImageAsWritten(runtime, true, probe))
    else Ok(ins.text)
  }

  /** Every reserved keyword is refused in whatever case it is written. */
  lemma ReservedAnyCase(ins: Instruction, probe: DockerOpts.Probe, k: nat)
    requires k < |RESERVED_DOCKER_CMD| && Strings.ToUpper(ins.keyword) == RESERVED_DOCKER_CMD[k]
    ensures DockerfileLine(ins, probe) == Err(ReservedMessage(ins.keyword))
  {
    assert RESERVED_DOCKER_CMD[k] in RESERVED_DOCKER_CMD;
    assert IsReserved(ins.keyword);
  }

  /** A `RUNTIME` instruction, in any case, with one known runtime becomes `FROM` its build
      image; another argument count or an unknown runtime is refused. */
  lemma RuntimeInstruction(ins: Instruction, probe: DockerOpts.Probe)
    requires !IsReserved(ins.keyword) && Strings.ToUpper(ins.keyword) == RUNTIME_KEYWORD
    ensures |ins.args| != 1 ==> DockerfileLine(ins, probe) == Err(INVALID_RUNTIME)
    ensures |ins.args| == 1 && DockerOpts.RuntimeImage(ins.args[0]).None? ==>
      DockerfileLine(ins, probe) == Err("invalid runtime name " + ins.args[0])
    ensures |ins.args| == 1 && DockerOpts.RuntimeImage(ins.args[0]).Some? ==>
      DockerfileLine(ins, probe) ==
        Ok("FROM " + DockerOpts.ResolveRuntimeToDockerImage(ins.args[0], true, probe).value)
  {
  }

  /** Any other instruction is copied as written. */
  lemma OtherInstructionCopied(ins: Instruction, probe: DockerOpts.Probe)
    requires !IsReserved(ins.keyword) && Strings.ToUpper(ins.keyword) != RUNTIME_KEYWORD
    ensures DockerfileLine(ins, probe) == Ok(ins.text)
  {
  }

  /** The rewrite of one instruction, as intended. */
  function LineOf(probe: DockerOpts.Probe): Instruction -> Result<string, string>
  {
    ins => DockerfileLine(ins, probe)
  }

  /** The rewrite of one instruction, as written. */
  function LineOfAsWritten(probe: DockerOpts.Probe): Instruction -> Result<string, string>
  {
    ins => DockerfileLineAsWritten(ins, probe)
  }

  /** The Dockerfile lines, one per instruction; the first refused instruction stops it. */
  function DockerfileLines(instructions: seq<Instruction>, line: Instruction -> Result<string, string>): (r: Result<seq<string>, string>)
    ensures r.Ok? ==> (|r.value| == |instructions| &&
      forall i :: 0 <= i < |instructions| ==> line(instructions[i]) == Ok(r.value[i]))
  {
    if instructions == [] then Ok([])
    else
      var init := instructions[..|instructions| - 1];
      match DockerfileLines(init, line)
      case Err(e) => Err(e)
      case Ok(lines) =>
        match line(instructions[|instructions| - 1])
        case Err(e) => Err(e)
        case Ok(next) =>
          assert forall i :: 0 <= i < |init| ==> instructions[i] == init[i];
          Ok(lines + [next])
  }

  /** The rewrite fails exactly when some instruction is refused. */
  lemma {:induction false} DockerfileLinesErr(instructions: seq<Instruction>, line: Instruction -> Result<string, string>)
    ensures DockerfileLines(instructions, line).Err? <==>
      exists i :: 0 <= i < |instructions| && line(instructions[i]).Err?
    decreases |instructions|
  {
    if instructions != [] {
      var init := instructions[..|instructions| - 1];
      DockerfileLinesErr(init, line);
      if exists i :: 0 <= i < |instructions| && line(instructions[i]).Err? {
        var i :| 0 <= i < |instructions| && line(instructions[i]).Err?;
        if i < |init| {
          assert init[i] == instructions[i];
        }
      }
    }
  }

  /** The loop of `funfileToDockerfile` over the instructions, turning each into its line. */
  method DockerfileLoop(instructions: seq<Instruction>, line: Instruction -> Result<string, string>) returns (r: Result<string, string>)
    ensures DockerfileLines(instructions, line).Err? ==> r == Err(DockerfileLines(instructions, line).error)
    ensures DockerfileLines(instructions, line).Ok? ==> r == Ok(Strings.Join(DockerfileLines(instructions, line).value, "\n"))
  {
    var dockerfile: seq<string> := [];
    var i := 0;
    while i < |instructions|
      invariant 0 <= i <= |instructions|
      invariant DockerfileLines(instructions[..i], line) == Ok(dockerfile)
    {
      var instruction := instructions[i];
      var prefix := instructions[..i + 1];
      assert prefix[..|prefix| - 1] == instructions[..i] && prefix[|prefix| - 1] == instruction;
      var out := line(instruction);
      if out.Err? {
        DockerfileErrPrefix(instructions, line, i + 1);
        return Err(out.error);
      }
      dockerfile := dockerfile + [out.value];
      i := i + 1;
    }
    assert instructions[..i] == instructions;
    return Ok(Strings.Join(dockerfile, "\n"));
  }

  /** `funfileToDockerfile` after parsing, with the reserved list as intended. */
  method FunfileToDockerfile(instructions: seq<Instruction>, probe: DockerOpts.Probe) returns (r: Result<string, string>)
    ensures DockerfileLines(instructions, LineOf(probe)).Err? ==>
      r == Err(DockerfileLines(instructions, LineOf(probe)).error)
    ensures DockerfileLines(instructions, LineOf(probe)).Ok? ==>
      r == Ok(Strings.Join(DockerfileLines(instructions, LineOf(probe)).value, "\n"))
  {
    r := DockerfileLoop(instructions, LineOf(probe));
  }

  /** `funfileToDockerfile` as written, with the source's case-sensitive list and its runtime lookup. */
  method FunfileToDockerfileAsWritten(instructions: seq<Instruction>, probe: DockerOpts.Probe) returns (r: Result<string, string>)
    ensures DockerfileLines(instructions, LineOfAsWritten(probe)).Err? ==>
      r == Err(DockerfileLines(instructions, LineOfAsWritten(probe)).error)
    ensures DockerfileLines(instructions, LineOfAsWritten(probe)).Ok? ==>
      r == Ok(Strings.Join(DockerfileLines(instructions, LineOfAsWritten(probe)).value, "\n"))
  {
    r := DockerfileLoop(instructions, LineOfAsWritten(probe));
  }

  /** As written, `ADD` and `from` instructions are copied and `Add` is refused; as intended,
      `ADD` and `Add` are both refused. */
  lemma AsWrittenLines(add: Instruction, from: Instruction, mixed: Instruction, probe: DockerOpts.Probe)
    requires add.keyword == "ADD" && from.keyword == "from" && mixed.keyword == "Add"
    ensures DockerfileLineAsWritten(add, probe) == Ok(add.text)
    ensures DockerfileLineAsWritten(from, probe) == Ok(from.text)
    ensures DockerfileLineAsWritten(mixed, probe) == Err(ReservedMessage(mixed.keyword))
    ensures DockerfileLine(add, probe) == Err(ReservedMessage(add.keyword))
    ensures DockerfileLine(mixed, probe) == Err(ReservedMessage(mixed.keyword))
  {
    ReservedAsWrittenMisses(add.keyword, from.keyword, mixed.keyword);
    assert Strings.ToUpper(add.keyword)[0] != RUNTIME_KEYWORD[0];
    assert Strings.ToUpper(from.keyword)[0] != RUNTIME_KEYWORD[0];
  }

  /** Two instructions whose lines succeed give those two lines. */
  lemma DockerfileLinesTwo(a: Instruction, b: Instruction, line: Instruction -> Result<string, string>)
    requires line(a).Ok? && line(b).Ok?
    ensures DockerfileLines([a, b], line) == Ok([line(a).value, line(b).value])
  {
    var one := [a];
    assert one[..|one| - 1] == [] && one[|one| - 1] == a;
    assert DockerfileLines([], line) == Ok([]);
    var none: seq<string> := [];
    assert none + [line(a).value] == [line(a).value];
    assert DockerfileLines(one, line) == Ok([line(a).value]);
    var pair := [a, b];
    assert pair[..|pair| - 1] == one && pair[|pair| - 1] == b;
    assert [line(a).value] + [line(b).value] == [line(a).value, line(b).value];
  }

  /** A first instruction that is refused refuses the Funfile. */
  lemma DockerfileLinesFirstErr(a: Instruction, rest: seq<Instruction>, line: Instruction -> Result<string, string>)
    requires line(a).Err?
    ensures DockerfileLines([a] + rest, line) == Err(line(a).error)
  {
    var one := [a];
    assert one[..|one| - 1] == [];
    assert DockerfileLines(one, line) == Err(line(a).error);
    assert ([a] + rest)[..1] == one;
    DockerfileErrPrefix([a] + rest, line, 1);
  }

  /** As written, a Funfile `ADD …` then `from …` is copied line for line into the Dockerfile,
      where the intended rewrite refuses the `ADD`; a Funfile starting with `Add` is refused by
      both. */
  lemma AsWrittenCopiesAddAndFrom(add: Instruction, from: Instruction, mixed: Instruction,
                                  rest: seq<Instruction>, probe: DockerOpts.Probe)
    requires add.keyword == "ADD" && from.keyword == "from" && mixed.keyword == "Add"
    ensures DockerfileLines([add, from], LineOfAsWritten(probe)) == Ok([add.text, from.text])
    ensures Strings.Join([add.text, from.text], "\n") == add.text + "\n" + from.text
    ensures DockerfileLines([add, from], LineOf(probe)) == Err(ReservedMessage(add.keyword))
    ensures DockerfileLines([mixed] + rest, LineOfAsWritten(probe)) == Err(ReservedMessage(mixed.keyword))
    ensures DockerfileLines([mixed] + rest, LineOf(probe)) == Err(ReservedMessage(mixed.keyword))
  {
    AsWrittenLines(add, from, mixed, probe);
    DockerfileLinesTwo(add, from, LineOfAsWritten(probe));
    DockerfileLinesFirstErr(add, [from], LineOf(probe));
    assert [add] + [from] == [add, from];
    DockerfileLinesFirstErr(mixed, rest, LineOfAsWritten(probe));
    DockerfileLinesFirstErr(mixed, rest, LineOf(probe));
    var two := [add.text, from.text];
    assert two[1..] == [from.text];
  }

  lemma {:induction false} DockerfileErrPrefix(instructions: seq<Instruction>, line: Instruction -> Result<string, string>, i: nat)
    requires i <= |instructions| && DockerfileLines(instructions[..i], line).Err?
    ensures DockerfileLines(instructions, line) == DockerfileLines(instructions[..i], line)
    decreases |instructions| - i
  {
    if i < |instructions| {
      assert instructions[..i + 1][..i] == instructions[..i];
      DockerfileErrPrefix(instructions, line, i + 1);
    } else {
      assert instructions[..i] == instructions;
    }
  }
}

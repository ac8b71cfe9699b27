# funcraft container-harness core in Dafny

This project models the deterministic decision code of `fun`, the command-line tool for local Function Compute development. It covers the parts that prepare, start and stop the local Docker containers, plus the small text parsers around them. The Docker engine, the terminal, the network and the filesystem are outside the model: whatever they answer is passed in as a parameter.

- `DockerOpts` (lib/docker-opts.js) covers:
  - the runtime-to-image table;
  - registry selection, with the reachability probe as an input;
  - image-name formatting and its parser;
  - `NAME=value` environment formatting;
  - the install, sandbox, build, local-invoke and local-start container option records;
  - the Docker Toolbox path rewrite and the mount transforms.
- `Docker` (pure parts of lib/docker.js) covers:
  - the runtime command vector, with a parser that recovers its inputs;
  - the mount builders;
  - the `uid:gid` choice;
  - the `createContainer` error classification;
  - the Toolbox label parse;
  - the merge order of the container environment;
  - the pull decision, exec options and output sinks.
- `DockerRuntime` (the stateful parts of lib/docker.js) covers:
  - the process-wide running-container set as a `Session` class, with its add/delete discipline in every operation that touches it;
  - the SIGINT handler;
  - the Ctrl-P Ctrl-Q detach detector;
  - the pull-progress status table;
  - the build-output transform;
  - the exec completion poll.
- `DockerSupport` (lib/docker-support.js) covers the Docker for Mac shared-path check.
- `NasPath` (lib/nas/path.js) covers:
  - a hand-written recogniser for the `nas://` URI pattern, with its grammar and a proof that they agree;
  - local-path resolution;
  - the protocol and trailing-slash tests;
  - the resumable-upload filter.
- `BuildParser` (lib/build/parser.js) covers:
  - `env` rendering;
  - the fun.yml → Funfile translation;
  - the Funfile → Dockerfile rewrite.
- `FunInstall` (bin/fun-install.js) covers `-e key=value` conversion and the `sbox` option guard.
- `FunInit` (bin/fun-init.js) covers the `-V key=value` accumulator.

Helper modules:

- `Wrappers` holds the Option and Result types.
- `Strings` covers prefixes, split with a limit, join, replace, case mapping and decimal rendering.
- `Base64` is the encoding of section 4 of RFC 4648, used for the event argument, with its decoder.
- `JsObject` models a JavaScript object as an insertion-ordered list of entries, with `o[k] = v`, `Object.assign` and the split-at-`=` reducer.
- `PosixPath` covers `basename` and `join`.

The source works by changing state in several places, and the model keeps that form:

- The container set, the SIGINT flag, the detach key, the progress table and the build transform are classes whose methods update fields.
- The loops of `findPathsOutofSharedPaths`, `splitFiles`, `funymlToFunfile`, `funfileToDockerfile`, the mount builders and the exec poll are methods with loop invariants.
- Each of those methods is proved against a specification function, and the properties are proved about that specification function.

## Model

| member | source | states |
|---|---|---|
| DockerOpts.RuntimeImageTable | lib/docker-opts.js:21-30 | exactly the eight listed runtimes have an image name; each maps to itself except `python3`, which maps to `python3.6` |
| DockerOpts.ResolveDockerRegistry | lib/docker-opts.js:45-82 | the Aliyun registry is chosen exactly when the probe reports the international endpoint unreachable; otherwise the prefix is empty (through `DockerOpts.DoResolveDockerRegistry`, which gives the empty prefix for Docker Hub and the Aliyun registry otherwise) |
| DockerOpts.ParseFormatImage | lib/docker-opts.js:92-104 | an image name parses back to the registry choice, runtime name and build flag it was formatted from |
| DockerOpts.ParseRepositoryOf | lib/docker-opts.js:92-104 | the repository part `aliyunfc/runtime-<name>:[build-]1.6.0` parses back to its name and build flag |
| DockerOpts.VersionSuffix | lib/docker-opts.js:84-104 | a build image ends with `:build-1.6.0` and any other image ends with `:1.6.0` only; cutting off the suffix gives the name back |
| DockerOpts.FormatSplit | lib/docker-opts.js:96-104 | with the registry, the name is the registry, a `/` and the repository; without it, the name is the repository alone |
| DockerOpts.ResolveRuntimeToDockerImage | lib/docker-opts.js:86-107 | an unknown runtime is an `invalid runtime name <runtime>` error, and only an unknown runtime is |
| DockerOpts.ResolvedImage | lib/docker-opts.js:86-104 | a known runtime resolves to the image of its mapped name, with the build flag and the probe's registry choice |
| DockerOpts.ResolvedImageParts | lib/docker-opts.js:86-104 | the resolved name parses to those parts, and it starts with the registry prefix exactly when the probe says unreachable |
| DockerOpts.RegistryPrefix | lib/docker-opts.js:96-99 | a formatted name starts with `registry.cn-beijing.aliyuncs.com/` exactly when the registry was chosen |
| DockerOpts.Python3Image | lib/docker-opts.js:21-30 | `python3` gives `aliyunfc/runtime-python3.6:1.6.0`, and its build image behind the registry when the probe says unreachable |
| DockerOpts.PrototypeRuntimeAccepted | lib/docker-opts.js:87 | as written, the lookup finds `constructor` on the object prototype and builds an image from the text of `Object`; the corrected lookup refuses it; this is the member `DockerOpts.ResolveRuntimeToDockerImageAsWritten`, the lookup as written |
| DockerOpts.ConstructorNotOwn | lib/docker-opts.js:21-30 | `constructor` is not a runtime of the table |
| DockerOpts.AsWrittenAgreesOffPrototype | lib/docker-opts.js:86-107 | for every runtime name that is not an `Object.prototype` member, the lookup as written and the corrected lookup agree |
| DockerOpts.ResolveDockerEnv | lib/docker-opts.js:32-34 | one `NAME=value` word per entry, in entry order |
| DockerOpts.ResolveDockerEnvRoundTrip | lib/docker-opts.js:32-34 | splitting the words at `=` and storing them into an object gives back the environment, when names and values hold no `=` |
| DockerOpts.PairsOfEnv | lib/docker-opts.js:32-34 | each word splits back into its name and value |
| DockerOpts.AutoRemoveHost | lib/docker-opts.js:117-119 | the host configuration removes the container on exit and mounts exactly the given mounts |
| DockerOpts.GenerateInstallOpts | lib/docker-opts.js:110-121 | the install container: the given image, a TTY, `/bin/bash`, auto-remove, the given mounts and the environment words; no stdin, stdin-once or attach options, and no name, hostname, user, entrypoint or debug options |
| DockerOpts.GenerateSboxOpts | lib/docker-opts.js:123-140 | the sandbox container: the given image and hostname, the environment words, stdin attached and opened exactly when interactive, stdout and stderr attached, TTY as asked, stdin once, the given command or `/bin/bash` when none is given, auto-remove with the given mounts; no name, user, entrypoint or debug options |
| DockerOpts.DebugOf | lib/docker-opts.js:221-223 | debug options are requested exactly when a debug port is set |
| DockerOpts.GenerateContainerBuildOpts | lib/docker-opts.js:173-208 | the build container runs as `0:0` with the given command, name and environment words; stdin open, attached and once, stdout and stderr attached, no TTY; auto-remove with the given mounts; no hostname, entrypoint or debug options; its image is the preferred image when given, else the runtime's build image; an unknown runtime is the `invalid runtime name` error |
| DockerOpts.GenerateLocalInvokeOpts | lib/docker-opts.js:210-252 | the invoke container: the runtime's image, the given name, user, command and environment words; stdin open, attached and once, stdout and stderr attached, no TTY; no hostname or entrypoint; the debug request exactly when a port is set; auto-remove with the given mounts; an unknown runtime is the `invalid runtime name` error |
| DockerOpts.ResolveMockScript | lib/docker-opts.js:254-256 | `/var/fc/runtime/<runtime>/mock.sh`, with the runtime recoverable from between the fixed parts |
| DockerOpts.GenerateLocalStartRunOpts | lib/docker-opts.js:258-290 | the start container: the runtime's image, the mock script as entrypoint, none of the stdin, attach or TTY options and no hostname; user, command, name, environment words and mounts as given; the debug request exactly when a port is set; an unknown runtime is the `invalid runtime name` error |
| DockerOpts.TransformPathProperties | lib/docker-opts.js:142-147 | the rewrite removes every `:`, turns every `\` into `/`, lowercases the first character and prepends `/`, and changes nothing else; stated about `DockerOpts.TransformPathForVirtualBox` |
| DockerOpts.WindowsDrivePath | lib/docker-opts.js:142-147 | `X:\a\b` becomes `/x/a/b` for any drive letter and segments |
| DockerOpts.DriveLowered | lib/docker-opts.js:146 | lowercasing the first character of `X/...` lowercases the drive letter only |
| DockerOpts.DriveColonDropped | lib/docker-opts.js:143 | removing every `:` from `X:\segments` leaves `X\segments` |
| DockerOpts.DriveBackslashesTurned | lib/docker-opts.js:144 | turning every `\` into `/` in `X\a\b` gives `X/a/b` |
| DockerOpts.TransformPathExample | lib/docker-opts.js:142-147 | `C:\Users\image_crawler\code` becomes `/c/Users/image_crawler/code` |
| DockerOpts.TransformSourcePathOfMount | lib/docker-opts.js:162-171 | an empty mount stays empty; for a bind only the source is rewritten and type, target and read-only are kept |
| DockerOpts.TransformMountsForToolbox | lib/docker-opts.js:149-160 | a mount list is rewritten element by element with the same length and order; a single mount is rewritten alone |
| Docker.GenerateDockerCmd | lib/docker.js:199-231 | the command starts `-h <handler>` and has at least one more argument |
| Docker.ParseGenerateDockerCmd | lib/docker.js:199-231 | the command parses back to its handler, its event (base64 decoded) or stdin, the HTTP flag, the initializer when one is set and asked for, and the timeout when set, in that order; stated through `Docker.ParseDockerCmd`, the parser of the command vector |
| Docker.EventRoundTrip | lib/docker.js:203-209 | `--event <base64> --event-decode` or `--stdin` reads back to the event bytes, or to none |
| Docker.FlagRoundTrip | lib/docker.js:211-213 | `--http` is present exactly in HTTP mode |
| Docker.InitializerRoundTrip | lib/docker.js:215-219 | `-i <initializer>` reads back to the initializer, or to none |
| Docker.TimeoutRoundTrip | lib/docker.js:221-226 | `--initializationTimeout <n>` reads back to the decimal value, or to none |
| Docker.GenerateDockerCmdStdin | lib/docker.js:199-231 | a handler with no initializer, no timeout, no event and no HTTP mode gives `-h <handler> --stdin` |
| Docker.ResolveCodeUriToMount | lib/docker.js:141-161 | a bind of the code path, read-only as asked; a directory targets `/code` |
| Docker.CodeFileTarget | lib/docker.js:151 | a file targets `/code/<basename>` |
| Docker.ResolveTmpDirToMount | lib/docker.js:130-138 | an empty path gives `{}`; otherwise a read-write bind of it at `/tmp` |
| Docker.ConventInstallTargetsToMounts | lib/docker.js:163-185 | no targets give no mounts; otherwise one read-write bind per target, host path to container path, in order |
| Docker.ResolveNasConfigToMounts | lib/docker.js:111-128 | one read-write bind per NAS mapping, local directory to remote directory, in order |
| Docker.ParseRenderId | lib/docker.js:510 | a rendered user or group id reads back to the same id |
| Docker.ResolveDockerUserIds | lib/docker.js:491-511 | `uid:gid` has two parts; each is 10003 unless a NAS configuration that is not automatic gives that id as anything but -1, each independently; stated about `Docker.ResolveDockerUser` |
| Docker.DefaultDockerUser | lib/docker.js:491-511 | with no NAS configuration, or an automatic one, the user is `10003:10003` |
| Docker.SharingError | lib/docker.js:520-522 | the file-sharing error names the directories after its fixed message head |
| Docker.ClassifyEngineError | lib/docker.js:530-538 | a mount-config error under Toolbox gives the Toolbox hint; a drive-not-shared error on win32 gives the message and the link; anything else is passed on unchanged |
| Docker.CreateContainerUnshared | lib/docker.js:517-524 | on macOS a mount outside the shared paths fails with the sharing error before the engine is asked |
| Docker.CreateContainerEngine | lib/docker.js:526-541 | when the sharing check passes, the engine's container, or its classified error, is the result; with `Docker.CreateContainerUnshared`, this pins down `Docker.CreateContainer` |
| Docker.IsDockerToolBoxLabels | lib/docker.js:427-436 | Toolbox exactly on win32 with a last `provider` label of `virtualbox`, after labels are split at the first `=`, the value stopping at the next `=` (so `provider=virtualbox=x` counts); stated about `Docker.IsDockerToolBox` |
| Docker.IsDockerToolBoxSecondEquals | lib/docker.js:429-435 | a `provider=virtualbox=…` label on win32 is Toolbox, since the split limit cuts the value at the second `=` |
| Docker.IsDockerToolBoxNoLabels | lib/docker.js:431 | no labels is never Toolbox |
| Docker.IsDockerToolBoxVirtualBox | lib/docker.js:427-436 | the label `provider=virtualbox` on win32 is Toolbox |
| Docker.GenerateFunctionEnvsCopy | lib/docker.js:324-330 | the function's environment variables are copied unchanged |
| Docker.GenerateDockerEnvsGet | lib/docker.js:336-375 | each variable's value under the merge order: the profile keys override the function's variables, which override the java CA flag, which overrides the debug environment, which overrides the library-path environment and `FC_HTTP_PARAMS`; stated about `Docker.GenerateDockerEnvs` |
| Docker.BaseEnvsGet | lib/docker.js:338-362 | the value of each variable after the first four merge steps |
| Docker.ProfileLayer | lib/docker.js:368-372 | the profile step sets `local`, the access key id and the secret, and leaves every other variable alone |
| Docker.ShouldPull | lib/docker.js:377-385 | with pulling of present images switched off, the image is pulled exactly when it is not present |
| Docker.ExecOptionsOf | lib/docker.js:584-593 | an exec runs the command in the working directory (empty by default) with one environment word per entry of what `addEnv` gives for the environment, or for `{}` when none is given; no TTY, no stdin, stdout and stderr attached |
| Docker.ExecSinks | lib/docker.js:605-617 | stdout goes to the given stream, or to the process's, when verbose, and is discarded otherwise; stderr always goes to the given stream or the process's |
| Docker.StartContainerSinks | lib/docker.js:557-576 | logs are followed exactly when some stream is given; a stream that is missing is discarded |
| DockerRuntime.SetAdd | lib/docker.js:478 | adding to the set keeps what was there and adds the entry, without duplicates |
| DockerRuntime.SetDelete | lib/docker.js:486 | deleting from the set removes that entry only |
| DockerRuntime.AddDeleteFresh | lib/docker.js:478-486 | deleting an entry just added to a set without it restores the set |
| DockerRuntime.DeleteAbsent | lib/docker.js:581 | deleting an entry that is not there changes nothing |
| DockerRuntime.DeleteLast | lib/docker.js:486 | deleting the last-added entry is deleting it from the rest |
| DockerRuntime.StopJobs | lib/docker.js:67-83 | the stop jobs are the container ids in the set whose inspect succeeds |
| DockerRuntime.NoStreamSkipped | lib/docker.js:67-83 | the missing stream of a failed build is neither destroyed nor given a stop job, though it keeps the set non-empty |
| DockerRuntime.Streams | lib/docker.js:67-71 | the streams destroyed are exactly the build streams in the set |
| DockerRuntime.Session.constructor | lib/docker.js:29-42 | the set starts empty, not stopping, stdin not destroyed |
| DockerRuntime.Session.Add | lib/docker.js:549 | the set gains the entry, and the flags are unchanged |
| DockerRuntime.Session.Delete | lib/docker.js:581 | the set loses the entry, and the flags are unchanged |
| DockerRuntime.Session.Run | lib/docker.js:438-489 | a container is registered only after it started, and removed again once its wait returns |
| DockerRuntime.Session.StartContainer | lib/docker.js:545-549 | a created container is registered |
| DockerRuntime.Session.StopContainer | lib/docker.js:578-582 | a stopped container is removed |
| DockerRuntime.Session.StartSboxContainer | lib/docker.js:715-822 | the sandbox container is registered when created and removed when it completes |
| DockerRuntime.Session.BuildImage | lib/docker.js:886-916 | what the callback receives as its stream is registered: on a callback error that is no stream, which stays registered; otherwise the build stream, removed when the build finishes |
| DockerRuntime.Session.OnSigint | lib/docker.js:44-92 | a signal while stopping does nothing; otherwise stdin is destroyed, stopping is set only if the set is not empty, the streams are destroyed, and the inspectable ids are stopped; the set is not cleared |
| DockerRuntime.DetachDetector.constructor | lib/docker.js:750 | no previous key |
| DockerRuntime.DetachDetector.OnData | lib/docker.js:750-760 | stop exactly when this chunk is Ctrl-Q and the previous one was Ctrl-P; the previous key becomes this chunk |
| DockerRuntime.StatusText | lib/docker.js:302-305 | the status, followed by a space and the progress when there is one |
| DockerRuntime.ProgressTable.constructor | lib/docker.js:300 | the status table starts empty |
| DockerRuntime.ProgressTable.OnProgress | lib/docker.js:301-319 | an event with an id sets that id's status (a known id keeps its place); the output lists every id with its status, then the status of an event without id |
| DockerRuntime.RenderTable | lib/docker.js:310-314 | the loop renders `id: status` lines in table order |
| DockerRuntime.RenderStatusesLines | lib/docker.js:310-314 | the output holds one line per id |
| DockerRuntime.StatusLineCount | lib/docker.js:313 | each `id: status` entry is one line |
| DockerRuntime.Lines | lib/docker.js:862-863 | a chunk always splits into at least one line |
| DockerRuntime.PushesFailuresCount | lib/docker.js:865-880 | every line either pushes a text or fails the transform with its error, never both; stated about `DockerRuntime.Pushes` and `DockerRuntime.Failures`, the texts pushed and the errors met |
| DockerRuntime.FailuresAreErrors | lib/docker.js:868-869 | the errors passed to `done` are exactly the non-empty `error` fields of the parsed lines |
| DockerRuntime.PushesWithoutErrors | lib/docker.js:865-882 | without error records every line pushes, and `done` is called once, without error |
| DockerRuntime.BuildTransform.constructor | lib/docker.js:855-858 | nothing pushed, `done` not called |
| DockerRuntime.BuildTransform.Transform | lib/docker.js:860-883 | a chunk pushes the text of each line in order: the `stream` text, `aux.ID` and a newline, or the line itself. It calls `done` with each error met, and then `done()` once more |
| DockerRuntime.Errors | lib/docker.js:869 | one `done(error)` per error, in order |
| DockerRuntime.ErrorsSnoc | lib/docker.js:869 | one more error adds one more `done(error)` at the end |
| DockerRuntime.Decide | lib/docker.js:623-639 | a settled inspect rejects with its error, rejects with `<entrypoint> exited with code <n>` for a non-zero code, resolves with 0 otherwise, and fails in the callback when there is no data |
| DockerRuntime.FirstSettledDecides | lib/docker.js:623-643 | the first inspect result that is not running decides the outcome; stated about `DockerRuntime.PollOutcome`, the outcome of a reply sequence |
| DockerRuntime.WaitContainerExec | lib/docker.js:623-643 | the poll loop's outcome is the outcome of the first settled result |
| DockerSupport.SharedPathsOf | lib/docker-support.js:5-24 | the settings' list when it has one, else `/Users`, `/Volumes`, `/private`, `/tmp` |
| DockerSupport.FindPathsOutofSharedPaths | lib/docker-support.js:26-44 | the nested loops compute the report, in mount order, stopping at the error a mount without source raises; the report is `DockerSupport.OutOfShared`, whose properties the rows below state |
| DockerSupport.OutOfSharedBinds | lib/docker-support.js:26-44 | when every mount names a source, the check succeeds, the report is no longer than the mount list, holds exactly the sources of unshared mounts, and is empty when all are shared |
| DockerSupport.OutOfSharedAppend | lib/docker-support.js:26-44 | the report of two mount lists one after the other is the first report followed by the second, and the first error of either is the error of both; so mounts are reported in order, once per occurrence |
| DockerSupport.OutOfSharedSingle | lib/docker-support.js:30-42 | one mount adds its source when no shared path prefixes it, and nothing when one does |
| DockerSupport.OutOfSharedErrExtends | lib/docker-support.js:30-42 | an error in the check of the first mounts is the error of the whole check |
| DockerSupport.OutOfSharedMissingSource | lib/docker-support.js:31-34 | a mount without a source fails the check once there is a shared path to compare |
| DockerSupport.OutOfSharedNoSharedPaths | lib/docker-support.js:29-43 | with no shared path every source is reported, one per mount, in order |
| DockerSupport.PrefixIsShared | lib/docker-support.js:33-37 | a source that a shared path prefixes as a string is not reported |
| DockerSupport.UsersfooIsShared | lib/docker-support.js:5-10 | `/Usersfoo` counts as under `/Users` with the default list |
| NasPath.PathMatchesIsNasPath | lib/nas/path.js:18 | the pattern's path group `(/[^/]+)*/?` matches exactly the empty text and the texts starting with `/` without two `/` in a row |
| NasPath.SegmentLength | lib/nas/path.js:18 | the run of characters other than `/` |
| NasPath.ServiceLength | lib/nas/path.js:18 | the run of characters other than `/` and `:` |
| NasPath.ParseFormatNasUri | lib/nas/path.js:18-45 | every text of the grammar is accepted, with its service name and path |
| NasPath.ParseNasUriSound | lib/nas/path.js:18-45 | every accepted text is one of the grammar, with the parts returned; with `NasPath.ParseFormatNasUri`, this pins down `NasPath.ParseNasUri` |
| NasPath.SplitServiceOf | lib/nas/path.js:18 | the service name ends at the first `/` or `:`, and an optional `:` is dropped |
| NasPath.SplitServiceParts | lib/nas/path.js:18 | the split loses nothing but the `:` separator |
| NasPath.FormatInjective | lib/nas/path.js:18 | a text of the grammar determines its service name and path |
| NasPath.AcceptedPathNoDoubleSlash | lib/nas/path.js:18 | an accepted path never holds `//` |
| NasPath.DoubleSlashRefused | lib/nas/path.js:18-38 | a path starting `//` is refused |
| NasPath.OtherSchemeRefused | lib/nas/path.js:35-38 | any text not starting `nas://` is the `invalid nas path : <text>` error |
| NasPath.PathSegment | lib/nas/path.js:18 | a `/segment` in front of a path of the grammar is again one |
| NasPath.ServiceAndPathExample | lib/nas/path.js:35-45 | `nas://service1/mnt/auto` is service `service1`, path `/mnt/auto` |
| NasPath.RootExample | lib/nas/path.js:35-45 | `nas:///` is the empty service name with path `/` |
| NasPath.ColonExample | lib/nas/path.js:35-45 | `nas://service1:/tmp/` is service `service1`, path `/tmp/` |
| NasPath.EmptyPathExample | lib/nas/path.js:35-45 | `nas://service1:` is accepted with an empty path |
| NasPath.IsNasProtocol | lib/nas/path.js:48-53 | true exactly when the text starts with `nas://` |
| NasPath.EndWithSlash | lib/nas/path.js:55-64 | the empty path is the `Local path could not be Empty` error; otherwise whether the last character is `/` |
| NasPath.ResolveLocalPath | lib/nas/path.js:22-33 | empty is the `local path could not be empty` error; a path under the root is kept; a `~` path has its first `~` replaced by home; anything else is joined to the working directory |
| NasPath.ResolveRelativeName | lib/nas/path.js:31-32 | a plain name lands directly under an absolute working directory |
| NasPath.ResolveHomeFile | lib/nas/path.js:28-29 | `~rest` is home followed by `rest` |
| NasPath.ToUploadMembers | lib/nas/path.js:87-104 | a file is kept exactly when it is one of the files and its basename is not recorded or recorded with another hash |
| NasPath.ToUploadAll | lib/nas/path.js:87-104 | when every file needs uploading all are kept, in order |
| NasPath.ToUploadSnoc | lib/nas/path.js:90-101 | one more file adds itself at the end exactly when it needs uploading |
| NasPath.ToUpload | lib/nas/path.js:87-104 | never more files than given |
| NasPath.NeedsUploadCheck | lib/nas/path.js:91-100 | the loop body's test is the upload condition `NasPath.NeedsUpload`: the basename is not recorded or is recorded with another hash |
| NasPath.SplitFiles | lib/nas/path.js:87-104 | the loop returns the files still to upload, in order |
| BuildParser.EnvLineKeyValue | lib/build/parser.js:20-27 | a line splits at its first `=` into the name, and the value with `:$PATH` or `:$LD_LIBRARY_PATH` after it for those two names |
| BuildParser.ResolveEnv | lib/build/parser.js:15-28 | a string is the `fun.yml env property must be a map` error, and only a string is; no env gives no line; a map gives one line per entry, in order |
| BuildParser.FunfileStartsWithHeader | lib/build/parser.js:37-41 | a Funfile starts with `RUNTIME <runtime>`, `COPY . /code`, `WORKDIR /code` |
| BuildParser.FunfileErrIffTextEnv | lib/build/parser.js:43-44 | the translation fails exactly when some task's env is a string, with that error |
| BuildParser.FunfileErrPrefix | lib/build/parser.js:43-103 | the first failing task decides the failure |
| BuildParser.TaskLineCount | lib/build/parser.js:64-102 | pip and apt tasks add one line, a shell task one line per non-empty command, and any other task none |
| BuildParser.PackageTaskTarget | lib/build/parser.js:49-80 | only a local pip or apt task names its target, at the end of its line |
| BuildParser.NonEmpty | lib/build/parser.js:85-86 | the commands kept are exactly the non-empty ones |
| BuildParser.ShellBlock | lib/build/parser.js:84-96 | one line per kept command |
| BuildParser.ShellBlockLines | lib/build/parser.js:84-96 | the first command goes on the `RUN` line, each later one ends the previous line with ` \` and adds ` <env> <command>` |
| BuildParser.ShellStart | lib/build/parser.js:87-89 | the first command pushes the `RUN` line |
| BuildParser.ShellContinue | lib/build/parser.js:90-93 | a later command pops the last line, pushes it back with ` \` and pushes its own |
| BuildParser.NonEmptySnoc | lib/build/parser.js:86 | one more command adds itself at the end exactly when it is not empty |
| BuildParser.PushShellCommands | lib/build/parser.js:82-96 | the push-and-pop loop appends the shell block of the non-empty commands |
| BuildParser.FunymlToFunfile | lib/build/parser.js:30-106 | the Funfile lines joined by newlines, or the first `resolveEnv` error; the lines are `BuildParser.FunfileLines`, the header and then `BuildParser.TaskLines` of each task |
| BuildParser.ReservedAsWrittenMisses | lib/build/parser.js:10-13 | `ADD` and `from` get past the case-sensitive check as written, though they are reserved Dockerfile keywords, and only the spelling `Add` is caught; the corrected test refuses all three |
| BuildParser.ReservedAnyCase | lib/build/parser.js:120-123 | a reserved keyword in any case is refused with the unsupported-semantics message; stated, like the next two rows, about `BuildParser.DockerfileLine`, the rewrite of one instruction |
| BuildParser.RuntimeInstruction | lib/build/parser.js:125-134 | `RUNTIME` in any case needs exactly one argument and becomes `FROM <build image>`, or the runtime's error |
| BuildParser.OtherInstructionCopied | lib/build/parser.js:135-139 | every other instruction is copied as written |
| BuildParser.DockerfileLines | lib/build/parser.js:116-140 | one output line per instruction, each the instruction's own line |
| BuildParser.DockerfileLinesErr | lib/build/parser.js:116-140 | the rewrite fails exactly when some instruction is refused |
| BuildParser.DockerfileErrPrefix | lib/build/parser.js:116-140 | the first refused instruction decides the failure |
| BuildParser.DockerfileLoop | lib/build/parser.js:114-142 | the loop gives the lines joined by newlines, or the first refusal |
| BuildParser.FunfileToDockerfile | lib/build/parser.js:108-143 | the rewrite with the reserved list as intended |
| BuildParser.FunfileToDockerfileAsWritten | lib/build/parser.js:108-143 | the rewrite with the source's case-sensitive exact-match test and its runtime lookup as written |
| BuildParser.AsWrittenLines | lib/build/parser.js:116-139 | through `BuildParser.DockerfileLineAsWritten`, the one-instruction rewrite as written: `ADD` and `from` are copied and `Add` is refused, while the corrected `BuildParser.DockerfileLine` refuses `ADD` and `Add` |
| BuildParser.DockerfileLinesTwo | lib/build/parser.js:116-140 | two accepted instructions give their two lines, in order |
| BuildParser.DockerfileLinesFirstErr | lib/build/parser.js:116-140 | a refused first instruction is the error of the whole rewrite |
| BuildParser.AsWrittenCopiesAddAndFrom | lib/build/parser.js:108-143 | as written, the Funfile `ADD …` then `from …` becomes those two lines joined by a newline, where the corrected rewrite refuses it; a leading `Add` is refused by both |
| FunInstall.ConvertEnvs | bin/fun-install.js:34-36 | the object has no duplicate keys, and no list gives `{}` |
| FunInstall.ConvertEnvsGet | bin/fun-install.js:34-36 | each key holds the value of the last entry naming it |
| FunInstall.ConvertEnvsTwo | bin/fun-install.js:33-36 | `['A=B','B=C']` gives `{A:'B', B:'C'}` |
| FunInstall.ConvertEnvsOverwrite | bin/fun-install.js:36 | a later entry for the same key overwrites the earlier value |
| FunInstall.ConvertEnvsTruncates | bin/fun-install.js:34 | `A=B=C` gives value `B` |
| FunInstall.ConvertEnvsDropsBare | bin/fun-install.js:35 | an entry without `=` contributes nothing |
| FunInstall.SboxAction | bin/fun-install.js:141-176 | `sbox` is called exactly when a function or runtime and interactive mode or a command are given; otherwise the matching message; the top-level function and runtime override the sub-command's |
| FunInit.MatchVarSound | bin/fun-init.js:39 | a match is a name, `=` and a value without line breaks, at the start of the text; with `FunInit.MatchVarComplete`, this pins down `FunInit.MatchVar`, the match of `/(^[a-zA-Z_][a-zA-Z\d_]*)=(.*)/`: a name that starts with a letter or `_`, then `=`, then the value up to the first line terminator |
| FunInit.MatchVarComplete | bin/fun-init.js:39 | every such text matches, with that name and value |
| FunInit.MatchVarKey | bin/fun-init.js:39 | a text starting with a name and `=` matches with that name |
| FunInit.KeyLength | bin/fun-init.js:39 | the run of name characters |
| FunInit.LineLength | bin/fun-init.js:39 | the run up to the first line break |
| FunInit.Vars.constructor | bin/fun-init.js:40 | a fresh accumulator is empty |
| FunInit.Updated | bin/fun-init.js:40-44 | on a match the name is set to the value and every other name is untouched; otherwise nothing changes |
| FunInit.ParseVars | bin/fun-init.js:33-45 | the accumulator given, or a fresh empty one, updated by the option and returned |
| JsObject.Keys | bin/fun-install.js:36 | one key per entry, in order |
| JsObject.Get | bin/fun-install.js:36 | a key is absent exactly when no entry has it |
| JsObject.GetEntry | bin/fun-install.js:36 | a value found belongs to an entry with that key |
| JsObject.Put | bin/fun-init.js:42 | `o[k] = v`: `k` reads `v`, other keys are unchanged, an existing key keeps its place and a new one goes last |
| JsObject.PutKeepsUnique | bin/fun-init.js:42 | an assignment keeps keys unique |
| JsObject.PutAbsent | bin/fun-install.js:36 | a new key is appended |
| JsObject.AssignGet | lib/docker.js:341-372 | after `Object.assign`, a key reads its last value among the sources, or its old value |
| JsObject.AssignGetUnique | lib/docker.js:364 | with a source of unique keys, a key reads the source's value or its old one |
| JsObject.AssignFresh | lib/docker.js:364 | assigning new keys appends them |
| JsObject.AssignKeepsUnique | lib/docker.js:341-372 | `Object.assign` keeps keys unique |
| JsObject.AssignKeysPrefix | lib/docker.js:341-372 | `Object.assign` keeps the old keys in their places |
| JsObject.PutKeysPrefix | bin/fun-init.js:42 | an assignment keeps the old keys in their places |
| JsObject.LastValueUnique | bin/fun-install.js:36 | with unique keys the last value is the value |
| JsObject.PairOfSpec | bin/fun-install.js:34-35 | an entry has a pair exactly when it has `=`; the key is before the first `=` and the value stops at the second |
| JsObject.PairOfFormat | bin/fun-install.js:34 | `k=v` splits back into `k` and `v` |
| JsObject.Pairs | bin/fun-install.js:34-35 | never more pairs than entries |
| JsObject.EntriesToObjectGet | bin/fun-install.js:34-36 | each key reads the last value given for it, and the keys are unique |
| Base64.DecodeEncode | lib/docker.js:204 | the event's base64 text decodes back to the event bytes |
| Base64.Encode | lib/docker.js:204 | four characters per started group of three bytes |
| Base64.EncodeAlphabet | lib/docker.js:204 | the text uses the base64 alphabet and `=` only |
| Base64.EncodeExample | lib/docker.js:204 | the bytes of `hi` encode to `aGk=` |

## Left out

- I/O is not modelled, and answers from the outside are parameters instead:
  - Docker engine calls: create, start, attach, logs, wait, exec, inspect, resize, image listing, pull and build.
  - Stream piping and demultiplexing, `tar` packing, `copyFromImage` and `zipTo`.
  - The engine's answers: inspect results, whether an image exists, the engine's error message and the daemon's labels.
- `isFromChinaMotherland` is a socket probe with a timer and a module cache, so it is a three-valued parameter. Its `Unreachable` value stands for both the timeout and the error.
- No console, colour or telemetry output is modelled:
  - `red(...)` is left out, so error messages are the plain text.
  - `debug(...)` logging and the visitor events are left out.
  - So are the `single-line-log` redraw, `showDebugIdeTipsForVscode` and `showDebugIdeTipsForPycharm`.
- Terminal handling is left out: raw mode, stdin piping and destroy, `keypress` listeners, terminal resize, and the registration of the SIGINT handler. Only each handler's decision logic is modelled.
- No filesystem access is modelled: `fs.lstat` is an `isDirectory` parameter, and the Docker for Mac `settings.json` read is a parameter.
  - The same holds for `ensureDirSync`, `getFileHash` (a function parameter), `makeTmpDir`, `readDirRecursive` and `FunModule.load`.
  - The Funfile read and its `dockerfile-ast` parse are replaced by a list of instructions, each with a keyword, its arguments and its raw text.
- Some modules outside the model are opaque inputs:
  - lib/debug (`generateDockerDebugOpts`, `generateDebugEnv`);
  - lib/install/env (`addEnv`, `addInstallTargetEnv`, `resolveLibPathsFromLdConf`);
  - `nas.convertNasConfigToNasMappings`, `definition.isNasAutoConfig` and `getProfile`.
  - `Docker.GenerateDockerEnvsGet` therefore stops before the final `addEnv(envs, nasConfig)`, which is not part of this model.
- DockerOpts.ResolveDockerEnv: takes the object that `addEnv` returns, since lib/install/env is not part of this model.
- Docker.ExecOptionsOf: takes `addEnv` as a function parameter, so what `addEnv({})` gives for an exec without an environment is an input, not `{}`.
- Docker.ResolveCodeUriToMount, Docker.CodeFileTarget, NasPath.SplitFiles, NasPath.NeedsUploadCheck: a file's name is the POSIX basename; on win32 the source's `path.basename` also splits at `\`, which is not modelled.
- `generateRamdomContainerName` depends on the clock and `Math.random`, so container names are parameters.
- `startInstallationContainer` is left out: it only composes the Toolbox check, image resolution, mount builders, `pullImageIfNeed` and `addInstallTargetEnv`. Each of those is modelled separately, except the opaque `addInstallTargetEnv`.
- The bodies of `startSboxContainer` and `run` are reduced to their effect on the container set.
  - `Session.Run` and `Session.StartSboxContainer` take whether the engine calls succeeded as inputs.
  - The options assembly and the Windows TTY handling around them are not modelled.
- JavaScript objects are insertion-ordered lists of entries. JavaScript lists integer-like keys first; that ordering is not modelled, and neither are `__proto__` keys.
- `Strings.ToUpper` and `Strings.ToLowerChar` map ASCII letters only, where JavaScript's `toUpperCase` and `toLowerCase` cover all of Unicode.
- `NasPath.ResolveLocalPath`:
  - it does not model the `$`-patterns that `String.prototype.replace` reads in the replacement text;
  - the root is that of a POSIX working directory, so win32 roots and `path.join` semantics are not modelled.
- `Docker.GenerateDockerCmd` takes the event as the bytes `Buffer.from` produces; the UTF-8 encoding of a string event is not modelled.
- fun.yml task attributes are already rendered to text, and an absent `target` or `cwd` is the empty text. So `Task` does not model falsy values other than the empty string.
- Option parsing by `commander` happens before the modelled code, so the command-line actions take the parsed option values.
  - In `FunInstall.SboxAction` an absent text option is the empty text.
- The uploaded-hash object of `splitFiles` is a `map`; its key order is not observable there.
- DockerRuntime.Session.OnSigint: reads the running-container set once, when the signal arrives. The source iterates the live `Set` across each awaited `inspect`, so ids that `run` or `stopContainer` add or delete meanwhile are not captured.
- DockerRuntime.Session.OnSigint, further:
  - returns the stop jobs to issue, rather than awaiting them;
  - takes the inspect outcome of each container as a set of inspectable ids.
- `DockerRuntime.WaitContainerExec`:
  - the 100 ms re-poll timer is left out;
  - the sequence of inspect replies is an input;
  - a sequence that never settles gives `Polling`.

## Findings

| source | as written | input that shows it | evidently intended | confidence | as-written member | corrected member |
|---|---|---|---|---|---|---|
| lib/docker-opts.js:87 | `runtimeImageMap[runtime]` also finds members of `Object.prototype`, so the unknown-runtime check lets them through | runtime `constructor`: the lookup yields the `Object` function and the image name is built from its source text | only the eight listed runtimes resolve; every other name is `invalid runtime name` | not executed | DockerOpts.PrototypeRuntimeAccepted | DockerOpts.ResolveRuntimeToDockerImage |
| lib/build/parser.js:10-13 | the reserved list spells `Add` and the check at line 120 compares case-sensitively, while Dockerfile keywords are case-insensitive | instruction `ADD` or `from`: neither is refused and both are copied into the Dockerfile | every reserved keyword is refused in any case, with `ADD` in the list | not executed | BuildParser.AsWrittenCopiesAddAndFrom | BuildParser.ReservedAnyCase |

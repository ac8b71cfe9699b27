/** The decision code of lib/docker.js that computes values: the argument vector handed to
    the function runtime, the mount builders, the container user, the classification of
    container-creation errors, the Docker Toolbox label check and the environment merge.
    Engine calls, the settings file and the clock are inputs. */
module Docker {
  import opened Wrappers
  import Strings
  import Base64
  import JsObject
  import PosixPath
  import DockerOpts
  import DockerSupport

  // ---------------------------------------------------------------------------------------
  // The invocation command.

  /** The function properties the command reads. An absent property is `None`. */
  datatype FunctionProps = FunctionProps(handler: string, initializer: Option<string>, initializationTimeout: Option<int>)

  /** A JavaScript string value is truthy when it exists and is not empty. */
  predicate TruthyString(s: Option<string>)
  {
    s.Some? && s.value != ""
  }

  /** A JavaScript number is truthy when it exists and is not zero. */
  predicate TruthyInt(n: Option<int>)
  {
    n.Some? && n.value != 0
  }

  /** `generateDockerCmd`. The event is the byte string `Buffer.from(event)` holds; `None`
      is a `null` event. */
  function GenerateDockerCmd(props: FunctionProps, httpMode: bool, invokeInitializer: bool,
                             event: Option<seq<Base64.byte>>): (r: seq<string>)
    ensures |r| >= 3 && r[0] == "-h" && r[1] == props.handler
  {
    var eventArgs := match event
      case Some(b) => ["--event", Base64.Encode(b), "--event-decode"]
      case None => ["--stdin"];
    var httpArgs := if httpMode then ["--http"] else [];
    var initArgs := if TruthyString(props.initializer) && invokeInitializer then ["-i", props.initializer.value] else [];
    var timeoutArgs := if TruthyInt(props.initializationTimeout)
                       then ["--initializationTimeout", Strings.IntToString(props.initializationTimeout.value)]
                       else [];
    ["-h", props.handler] + eventArgs + httpArgs + initArgs + timeoutArgs
  }

  /** What the runtime learns from a command. */
  datatype Invocation = Invocation(handler: string, event: Option<seq<Base64.byte>>, http: bool,
                                   initializer: Option<string>, initializationTimeout: Option<int>)

  /** Reads a command in the layout `generateDockerCmd` writes: `-h <handler>`, the event
      either inline in base64 or on stdin, then `--http`, `-i <initializer>` and
      `--initializationTimeout <n>`, each optional, in that order and nothing else. */
  function ParseDockerCmd(cmd: seq<string>): Option<Invocation>
  {
    if |cmd| < 2 || cmd[0] != "-h" then None
    else match ParseEvent(cmd[2..])
      case None => None
      case Some((event, rest)) =>
        var (http, rest') := ParseFlag(rest, "--http");
        var (init, rest'') := ParseInitializer(rest');
        match ParseTimeout(rest'')
        case None => None
        case Some(timeout) => Some(Invocation(cmd[1], event, http, init, timeout))
  }

  function ParseEvent(args: seq<string>): Option<(Option<seq<Base64.byte>>, seq<string>)>
  {
    if |args| >= 3 && args[0] == "--event" && args[2] == "--event-decode" then
      match Base64.Decode(args[1])
      case Some(b) => Some((Some(b), args[3..]))
      case None => None
    else if |args| >= 1 && args[0] == "--stdin" then Some((None, args[1..]))
    else None
  }

  function ParseFlag(args: seq<string>, flag: string): (bool, seq<string>)
  {
    if |args| >= 1 && args[0] == flag then (true, args[1..]) else (false, args)
  }

  function ParseInitializer(args: seq<string>): (Option<string>, seq<string>)
  {
    if |args| >= 2 && args[0] == "-i" then (Some(args[1]), args[2..]) else (None, args)
  }

  function ParseTimeout(args: seq<string>): Option<Option<int>>
  {
    if args == [] then Some(None)
    else if |args| == 2 && args[0] == "--initializationTimeout" then
      match Strings.ParseInt(args[1])
      case Some(n) => Some(Some(n))
      case None => None
    else None
  }

  /** The runtime reads back from the command exactly what the function properties and the
      call asked for: the handler, the event bytes, the HTTP mode, the initializer when it is
      truthy and to be invoked, and the timeout when it is truthy. */
  lemma ParseGenerateDockerCmd(props: FunctionProps, httpMode: bool, invokeInitializer: bool,
                               event: Option<seq<Base64.byte>>)
    ensures ParseDockerCmd(GenerateDockerCmd(props, httpMode, invokeInitializer, event)) ==
      Some(Invocation(props.handler, event, httpMode,
                      if TruthyString(props.initializer) && invokeInitializer then props.initializer else None,
                      if TruthyInt(props.initializationTimeout) then props.initializationTimeout else None))
  {
    var cmd := GenerateDockerCmd(props, httpMode, invokeInitializer, event);
    var eventArgs := match event
      case Some(b) => ["--event", Base64.Encode(b), "--event-decode"]
      case None => ["--stdin"];
    var httpArgs := if httpMode then ["--http"] else [];
    var init := if TruthyString(props.initializer) && invokeInitializer then props.initializer else None;
    var initArgs := if init.Some? then ["-i", init.value] else [];
    var timeout := if TruthyInt(props.initializationTimeout) then props.initializationTimeout else None;
    var timeoutArgs := if timeout.Some? then ["--initializationTimeout", Strings.IntToString(timeout.value)] else [];
    Concat5(["-h", props.handler], eventArgs, httpArgs, initArgs, timeoutArgs);
    assert cmd == ["-h", props.handler] + eventArgs + httpArgs + initArgs + timeoutArgs;
    assert cmd[2..] == eventArgs + (httpArgs + (initArgs + timeoutArgs));
    EventRoundTrip(event, httpArgs + (initArgs + timeoutArgs));
    FlagRoundTrip(httpMode, initArgs + timeoutArgs);
    InitializerRoundTrip(init, timeoutArgs);
    TimeoutRoundTrip(timeout);
  }

  lemma Concat5<T>(a: seq<T>, b: seq<T>, c: seq<T>, d: seq<T>, e: seq<T>)
    ensures a + b + c + d + e == a + (b + (c + (d + e)))
  {
  }

  lemma EventRoundTrip(event: Option<seq<Base64.byte>>, rest: seq<string>)
    ensures ParseEvent((match event
                        case Some(b) => ["--event", Base64.Encode(b), "--event-decode"]
                        case None => ["--stdin"]) + rest) == Some((event, rest))
  {
    match event
    case Some(b) =>
      var args := ["--event", Base64.Encode(b), "--event-decode"] + rest;
      Base64.DecodeEncode(b);
      assert args[3..] == rest;
    case None =>
      var args := ["--stdin"] + rest;
      assert args[1..] == rest;
  }

  lemma FlagRoundTrip(httpMode: bool, rest: seq<string>)
    requires rest == [] || rest[0] == "-i" || rest[0] == "--initializationTimeout"
    ensures ParseFlag((if httpMode then ["--http"] else []) + rest, "--http") == (httpMode, rest)
  {
    if httpMode {
      assert (["--http"] + rest)[1..] == rest;
    } else {
      assert [] + rest == rest;
    }
  }

  lemma InitializerRoundTrip(init: Option<string>, rest: seq<string>)
    requires rest == [] || (|rest| == 2 && rest[0] == "--initializationTimeout")
    ensures ParseInitializer((if init.Some? then ["-i", init.value] else []) + rest) == (init, rest)
  {
    if init.Some? {
      assert (["-i", init.value] + rest)[2..] == rest;
    } else {
      assert [] + rest == rest;
    }
  }

  lemma TimeoutRoundTrip(timeout: Option<int>)
    ensures ParseTimeout(if timeout.Some? then ["--initializationTimeout", Strings.IntToString(timeout.value)] else [])
            == Some(timeout)
  {
    if timeout.Some? {
      Strings.ParseIntToString(timeout.value);
    }
  }

  /** A function without initializer or timeout, invoked without an event outside HTTP mode,
      gets `-h <handler> --stdin`. */
  lemma GenerateDockerCmdStdin(handler: string, invokeInitializer: bool)
    ensures GenerateDockerCmd(FunctionProps(handler, None, None), false, invokeInitializer, None) == ["-h", handler, "--stdin"]
  {
  }

  // ---------------------------------------------------------------------------------------
  // Mounts.

  /** A read-write bind mount. */
  function RwBind(source: string, target: string): DockerOpts.MountEntry
  {
    DockerOpts.Bind(DockerOpts.Mount("bind", source, target, false))
  }

  /** `resolveCodeUriToMount`; `isDirectory` is what `fs.lstat` reports, and the read-only
      flag defaults to true at the call sites that omit it. */
  function ResolveCodeUriToMount(absCodeUri: string, isDirectory: bool, readOnly: bool): (r: DockerOpts.Mount)
    ensures r.mountType == "bind" && r.source == absCodeUri && r.readOnly == readOnly
    ensures isDirectory ==> r.target == "/code"
  {
    var target := if isDirectory then "/code" else PosixPath.Join("/code", PosixPath.Basename(absCodeUri));
    DockerOpts.Mount("bind", absCodeUri, target, readOnly)
  }

  /** A code file is mounted under `/code` by its own name. */
  lemma CodeFileTarget(absCodeUri: string, readOnly: bool)
    requires PosixPath.PlainSegment(PosixPath.Basename(absCodeUri))
    ensures ResolveCodeUriToMount(absCodeUri, false, readOnly).target == "/code/" + PosixPath.Basename(absCodeUri)
  {
    var name := PosixPath.Basename(absCodeUri);
    var dir := ["code"];
    assert Strings.Join(dir, "/") == "code";
    assert "/" + Strings.Join(dir, "/") == "/code";
    PosixPath.JoinPlain(dir, name);
    assert "/" + Strings.Join(dir, "/") + "/" + name == "/code/" + name;
  }

  /** `resolveTmpDirToMount`: no mount for an absent or empty directory. */
  function ResolveTmpDirToMount(absTmpDir: string): (r: DockerOpts.MountEntry)
    ensures r.EmptyMount? <==> absTmpDir == ""
    ensures r.Bind? ==> r.mount == DockerOpts.Mount("bind", absTmpDir, "/tmp", false)
  {
    if absTmpDir == "" then DockerOpts.EmptyMount else RwBind(absTmpDir, "/tmp")
  }

  /** An install target: a host directory and the path it is mounted at. */
  datatype InstallTarget = InstallTarget(hostPath: string, containerPath: string)

  /** `conventInstallTargetsToMounts`: one read-write bind per target, in order. Creating a
      missing host directory is left to the caller. */
  method ConventInstallTargetsToMounts(installTargets: Option<seq<InstallTarget>>)
    returns (mounts: seq<DockerOpts.MountEntry>)
    ensures installTargets.None? ==> mounts == []
    ensures installTargets.Some? ==> |mounts| == |installTargets.value|
    ensures installTargets.Some? ==> forall i :: 0 <= i < |mounts| ==>
      mounts[i] == RwBind(installTargets.value[i].hostPath, installTargets.value[i].containerPath)
  {
    mounts := [];
    if installTargets.None? {
      return;
    }
    var targets := installTargets.value;
    var i := 0;
    while i < |targets|
      invariant 0 <= i <= |targets| && |mounts| == i
      invariant forall j :: 0 <= j < i ==> mounts[j] == RwBind(targets[j].hostPath, targets[j].containerPath)
    {
      mounts := mounts + [RwBind(targets[i].hostPath, targets[i].containerPath)];
      i := i + 1;
    }
  }

  /** A NAS directory pair as the NAS module lists it. */
  datatype NasMapping = NasMapping(localNasDir: string, remoteNasDir: string)

  /** `resolveNasConfigToMounts` once the NAS mappings are known: one read-write bind of the
      local mock directory per mapping, in order. */
  method ResolveNasConfigToMounts(nasMappings: seq<NasMapping>) returns (mounts: seq<DockerOpts.MountEntry>)
    ensures |mounts| == |nasMappings|
    ensures forall i :: 0 <= i < |mounts| ==>
      mounts[i] == RwBind(nasMappings[i].localNasDir, nasMappings[i].remoteNasDir)
  {
    mounts := [];
    var i := 0;
    while i < |nasMappings|
      invariant 0 <= i <= |nasMappings| && |mounts| == i
      invariant forall j :: 0 <= j < i ==> mounts[j] == RwBind(nasMappings[j].localNasDir, nasMappings[j].remoteNasDir)
    {
      mounts := mounts + [RwBind(nasMappings[i].localNasDir, nasMappings[i].remoteNasDir)];
      i := i + 1;
    }
  }

  // ---------------------------------------------------------------------------------------
  // The container user.

  /** The ids of a NAS configuration; an id the configuration does not name is `undefined`. */
  datatype NasConfig = NasConfig(userId: Option<int>, groupId: Option<int>)

  const DEFAULT_ID: int := 10003

  /** An id as a template string writes it. */
  function RenderId(id: Option<int>): (r: string)
    ensures ':' !in r
  {
    match id
    case Some(n) => IntDigits(n); Strings.IntToString(n)
    case None => "undefined"
  }

  /** Reads an id back. */
  function ParseId(s: string): Option<Option<int>>
  {
    if s == "undefined" then Some(None)
    else match Strings.ParseInt(s)
      case Some(n) => Some(Some(n))
      case None => None
  }

  lemma ParseRenderId(id: Option<int>)
    ensures ParseId(RenderId(id)) == Some(id)
  {
    if id.Some? {
      Strings.ParseIntToString(id.value);
      var s := Strings.IntToString(id.value);
      assert s != "undefined" by {
        assert s[0] == '-' || Strings.IsDigit(s[0]);
      }
    }
  }

  lemma IntDigits(n: int)
    ensures ':' !in Strings.IntToString(n)
  {
    var s := Strings.IntToString(n);
    if n < 0 {
      assert s == "-" + Strings.NatToString(-n);
    }
    assert forall i :: 0 <= i < |s| ==> s[i] == '-' || Strings.IsDigit(s[i]);
  }

  /** `resolveDockerUser`; `isNasAuto` is what `isNasAutoConfig` says of the configuration. */
  function ResolveDockerUser(nasConfig: Option<NasConfig>, isNasAuto: bool): string
  {
    var uid := if nasConfig.Some? && !isNasAuto && nasConfig.value.userId != Some(-1) then nasConfig.value.userId else Some(DEFAULT_ID);
    var gid := if nasConfig.Some? && !isNasAuto && nasConfig.value.groupId != Some(-1) then nasConfig.value.groupId else Some(DEFAULT_ID);
    RenderId(uid) + ":" + RenderId(gid)
  }

  /** The user is `uid:gid`. Each id is 10003 unless a configuration that is not automatic
      gives it a value other than -1, in which case it is that value (possibly `undefined`);
      the two ids are chosen independently. */
  lemma ResolveDockerUserIds(nasConfig: Option<NasConfig>, isNasAuto: bool)
    ensures var parts := Strings.Split(ResolveDockerUser(nasConfig, isNasAuto), ':');
      |parts| == 2 &&
      ParseId(parts[0]) == Some(if nasConfig.Some? && !isNasAuto && nasConfig.value.userId != Some(-1)
                                then nasConfig.value.userId else Some(10003)) &&
      ParseId(parts[1]) == Some(if nasConfig.Some? && !isNasAuto && nasConfig.value.groupId != Some(-1)
                                then nasConfig.value.groupId else Some(10003))
  {
    var uid := if nasConfig.Some? && !isNasAuto && nasConfig.value.userId != Some(-1) then nasConfig.value.userId else Some(DEFAULT_ID);
    var gid := if nasConfig.Some? && !isNasAuto && nasConfig.value.groupId != Some(-1) then nasConfig.value.groupId else Some(DEFAULT_ID);
    Strings.SplitJoin([RenderId(uid), RenderId(gid)], ':');
    assert Strings.Join([RenderId(uid), RenderId(gid)], ":") == ResolveDockerUser(nasConfig, isNasAuto);
    ParseRenderId(uid);
    ParseRenderId(gid);
  }

  /** Without a configuration, or with an automatic one, the user is `10003:10003`. */
  lemma DefaultDockerUser(nasConfig: Option<NasConfig>, isNasAuto: bool)
    requires nasConfig.None? || isNasAuto
    ensures ResolveDockerUser(nasConfig, isNasAuto) == "10003:10003"
  {
    assert Strings.IntToString(10003) == "10003";
  }

  // ---------------------------------------------------------------------------------------
  // Creating a container.

  datatype Platform = Darwin | Win32 | OtherPlatform

  const SHARING_PREFIX: string := "Please add directory '"
  const SHARING_SUFFIX: string := "' to Docker File sharing list, more information please refer to https://github.com/alibaba/funcraft/blob/master/docs/usage/faq-zh.md"
  const TOOLBOX_MOUNT_ERROR: string := "invalid mount config for type"
  const TOOLBOX_HINT: string := "The default host machine path for docker toolbox is under 'C:\\Users', Please make sure your project is in this directory. If you want to mount other disk paths, please refer to https://github.com/alibaba/funcraft/blob/master/docs/usage/faq-zh.md ."
  const DRIVE_NOT_SHARED: string := "drive is not shared"
  const DRIVE_HINT: string := "More information please refer to https://docs.docker.com/docker-for-windows/#shared-drives"

  /** An array in a template string: its elements joined with `,`, `undefined` as empty text. */
  function RenderPaths(paths: seq<Option<string>>): string
  {
    Strings.Join(seq(|paths|, i requires 0 <= i < |paths| => match paths[i] case Some(p) => p case None => ""), ",")
  }

  /** The error for mounts outside Docker's shared paths. */
  function SharingError(paths: seq<Option<string>>): (r: string)
    ensures Strings.StartsWith(r, SHARING_PREFIX)
  {
    var r := SHARING_PREFIX + RenderPaths(paths) + SHARING_SUFFIX;
    assert r[..|SHARING_PREFIX|] == SHARING_PREFIX;
    r
  }

  /** The `catch` of `createContainer`: the engine's message becomes the Toolbox hint when it
      is about an invalid mount and Docker runs in Toolbox, gains a link when it is about an
      unshared drive on Windows, and is rethrown as it is otherwise. */
  function ClassifyEngineError(platform: Platform, message: string, isToolbox: bool): (r: string)
    ensures Strings.Contains(message, TOOLBOX_MOUNT_ERROR) && isToolbox ==> r == TOOLBOX_HINT
    ensures (!(Strings.Contains(message, TOOLBOX_MOUNT_ERROR) && isToolbox) &&
             Strings.Contains(message, DRIVE_NOT_SHARED) && platform == Win32) ==> r == message + DRIVE_HINT
    ensures (!(Strings.Contains(message, TOOLBOX_MOUNT_ERROR) && isToolbox) &&
             !(Strings.Contains(message, DRIVE_NOT_SHARED) && platform == Win32)) ==> r == message
  {
    if Strings.Contains(message, TOOLBOX_MOUNT_ERROR) && isToolbox then TOOLBOX_HINT
    else if Strings.Contains(message, DRIVE_NOT_SHARED) && platform == Win32 then message + DRIVE_HINT
    else message
  }

  /** `createContainer`. `hostMounts` is `opts.HostConfig.Mounts` when the options and their
      host part exist; `sharedPaths` are Docker for Mac's shared paths; `engine` is the
      engine's answer (a container id or an error message); `isToolbox` is what
      `isDockerToolBox` reports. */
  function CreateContainer(platform: Platform, hostMounts: Option<seq<DockerOpts.MountEntry>>, sharedPaths: seq<string>,
                           engine: Result<string, string>, isToolbox: bool): Result<string, string>
  {
    var checked := if platform == Darwin && hostMounts.Some? then DockerSupport.OutOfShared(hostMounts.value, sharedPaths) else Ok([]);
    match checked
    case Err(e) => Err(e)
    case Ok(paths) =>
      if |paths| > 0 then Err(SharingError(paths))
      else match engine
        case Ok(id) => Ok(id)
        case Err(message) => Err(ClassifyEngineError(platform, message, isToolbox))
  }

  /** On macOS a mount outside the shared paths fails the creation before the engine is
      asked, and the message names the unshared sources. */
  lemma CreateContainerUnshared(hostMounts: seq<DockerOpts.MountEntry>, sharedPaths: seq<string>,
                                engine: Result<string, string>, isToolbox: bool, i: nat)
    requires i < |hostMounts| && DockerSupport.Unshared(hostMounts[i], sharedPaths)
    requires forall j :: 0 <= j < |hostMounts| ==> DockerSupport.HasSource(hostMounts[j])
    ensures DockerSupport.OutOfShared(hostMounts, sharedPaths).Ok?
    ensures CreateContainer(Darwin, Some(hostMounts), sharedPaths, engine, isToolbox) ==
            Err(SharingError(DockerSupport.OutOfShared(hostMounts, sharedPaths).value))
  {
    DockerSupport.OutOfSharedBinds(hostMounts, sharedPaths);
    var paths := DockerSupport.OutOfShared(hostMounts, sharedPaths).value;
    assert DockerSupport.SourceOf(hostMounts[i]) in paths;
  }

  /** Off macOS, or with every source shared, the engine decides: its container is returned
      and its error is classified. */
  lemma CreateContainerEngine(platform: Platform, hostMounts: Option<seq<DockerOpts.MountEntry>>, sharedPaths: seq<string>,
                              engine: Result<string, string>, isToolbox: bool)
    requires platform == Darwin && hostMounts.Some? ==>
      (forall j :: 0 <= j < |hostMounts.value| ==> DockerSupport.HasSource(hostMounts.value[j]) &&
                                                     !DockerSupport.Unshared(hostMounts.value[j], sharedPaths))
    ensures CreateContainer(platform, hostMounts, sharedPaths, engine, isToolbox) ==
            match engine
            case Ok(id) => Ok(id)
            case Err(message) => Err(ClassifyEngineError(platform, message, isToolbox))
  {
    if platform == Darwin && hostMounts.Some? {
      DockerSupport.OutOfSharedBinds(hostMounts.value, sharedPaths);
    }
  }

  /** `isDockerToolBox` over the engine's labels (`None` when the engine reports none): Windows,
      and a `provider` label whose last value is `virtualbox`. */
  function IsDockerToolBox(platform: Platform, labels: Option<seq<string>>): bool
  {
    var obj := JsObject.EntriesToObject(match labels case Some(l) => l case None => []);
    platform == Win32 && JsObject.Get(obj, "provider") == Some("virtualbox")
  }

  lemma IsDockerToolBoxLabels(platform: Platform, labels: seq<string>)
    ensures IsDockerToolBox(platform, Some(labels)) <==>
      platform == Win32 && JsObject.LastValue(JsObject.Pairs(labels), "provider") == Some("virtualbox")
  {
    JsObject.EntriesToObjectGet(labels, "provider");
  }

  /** Without labels the engine is never taken for Toolbox. */
  lemma IsDockerToolBoxNoLabels(platform: Platform)
    ensures !IsDockerToolBox(platform, None)
  {
    assert JsObject.EntriesToObject([]) == [];
  }

  /** A single `provider=virtualbox` label on Windows is Toolbox. */
  lemma IsDockerToolBoxVirtualBox(entry: string)
    requires entry == "provider" + "=" + "virtualbox"
    ensures IsDockerToolBox(Win32, Some([entry]))
  {
    JsObject.PairOfFormat("provider", "virtualbox");
    assert JsObject.Pairs([entry]) == [("provider", "virtualbox")];
    IsDockerToolBoxLabels(Win32, [entry]);
  }

  /** The split limit cuts a label's value at its second `=`, so `provider=virtualbox=…`
      on Windows is Toolbox too. */
  lemma IsDockerToolBoxSecondEquals(entry: string, rest: string)
    requires entry == "provider" + "=" + "virtualbox" + "=" + rest
    ensures IsDockerToolBox(Win32, Some([entry]))
  {
    assert entry[8] == '=';
    JsObject.PairOfSpec(entry);
    var (k, v) := JsObject.PairOf(entry).value;
    assert entry[..|k| + 1 + |v|] == k + "=" + v;
    assert entry[|k|] == '=';
    assert forall i :: 0 <= i < 8 ==> entry[i] != '=';
    assert |k| == 8;
    assert k == entry[..8] == "provider";
    assert entry[19] == '=';
    assert forall i :: 9 <= i < 19 ==> entry[i] != '=';
    assert |v| == 10;
    assert v == entry[9..19] == "virtualbox";
    assert [entry][1..] == [];
    assert JsObject.Pairs([entry]) == [(k, v)] + JsObject.Pairs([]);
    IsDockerToolBoxLabels(Win32, [entry]);
  }

  // ---------------------------------------------------------------------------------------
  // Environment variables.

  /** `generateFunctionEnvs`: a copy of the function's variables, or none. */
  function GenerateFunctionEnvs(environmentVariables: Option<JsObject.Obj<string>>): JsObject.Obj<string>
  {
    match environmentVariables
    case Some(vars) => JsObject.Assign([], vars)
    case None => []
  }

  lemma GenerateFunctionEnvsCopy(vars: JsObject.Obj<string>)
    requires JsObject.UniqueKeys(vars)
    ensures GenerateFunctionEnvs(Some(vars)) == vars
  {
    JsObject.AssignFresh([], vars);
    assert [] + vars == vars;
  }

  /** What `generateDockerEnvs` merges. `httpParams` is empty when absent; `confEnv` is what
      `resolveLibPathsFromLdConf` gives; `debugEnv` what `generateDebugEnv` gives for a
      truthy `debugPort` (0 when absent); the access keys come from the profile. Every value
      is the text it renders as (the `local` flag `true` is `"true"`). */
  datatype EnvSources = EnvSources(httpParams: string, confEnv: JsObject.Obj<string>, runtime: string,
                                   debugPort: nat, debugEnv: JsObject.Obj<string>, isHttpTrigger: bool,
                                   environmentVariables: Option<JsObject.Obj<string>>,
                                   accessKeyId: string, accessKeySecret: string)

  /** `generateDockerEnvs` before the final `addEnv`, which lib/install/env performs and which
      is not part of this model. */
  function GenerateDockerEnvs(src: EnvSources): JsObject.Obj<string>
  {
    var e5 := JsObject.Assign(BaseEnvs(src), GenerateFunctionEnvs(src.environmentVariables));
    JsObject.Assign(e5, [("local", "true"), ("FC_ACCESS_KEY_ID", src.accessKeyId), ("FC_ACCESS_KEY_SECRET", src.accessKeySecret)])
  }

  /** The merge up to the function's own variables: the HTTP parameters, the library paths,
      the debug variables and the Java flag, in that order. */
  function BaseEnvs(src: EnvSources): JsObject.Obj<string>
  {
    var e1 := if src.httpParams != "" then JsObject.Assign([], [("FC_HTTP_PARAMS", src.httpParams)]) else [];
    var e2 := JsObject.Assign(e1, src.confEnv);
    var e3 := if src.debugPort != 0 then JsObject.Assign(e2, src.debugEnv) else e2;
    if src.isHttpTrigger && src.runtime == "java8" then JsObject.Put(e3, "fc_enable_new_java_ca", "true") else e3
  }

  /** The value of a variable after the merge: later sources win. The profile's three
      variables beat the function's variables, which beat the Java flag, which beats the
      debug variables, which beat the library paths, which beat the HTTP parameters. */
  lemma GenerateDockerEnvsGet(src: EnvSources, k: string)
    requires JsObject.UniqueKeys(src.confEnv) && JsObject.UniqueKeys(src.debugEnv)
    requires src.environmentVariables.Some? ==> JsObject.UniqueKeys(src.environmentVariables.value)
    ensures JsObject.Get(GenerateDockerEnvs(src), k) ==
      if k == "local" then Some("true")
      else if k == "FC_ACCESS_KEY_ID" then Some(src.accessKeyId)
      else if k == "FC_ACCESS_KEY_SECRET" then Some(src.accessKeySecret)
      else if src.environmentVariables.Some? && JsObject.Get(src.environmentVariables.value, k).Some? then
        JsObject.Get(src.environmentVariables.value, k)
      else if src.isHttpTrigger && src.runtime == "java8" && k == "fc_enable_new_java_ca" then Some("true")
      else if src.debugPort != 0 && JsObject.Get(src.debugEnv, k).Some? then JsObject.Get(src.debugEnv, k)
      else if JsObject.Get(src.confEnv, k).Some? then JsObject.Get(src.confEnv, k)
      else if src.httpParams != "" && k == "FC_HTTP_PARAMS" then Some(src.httpParams)
      else None
  {
    var fn := GenerateFunctionEnvs(src.environmentVariables);
    ProfileLayer(JsObject.Assign(BaseEnvs(src), fn), src.accessKeyId, src.accessKeySecret, k);
    if src.environmentVariables.Some? {
      GenerateFunctionEnvsCopy(src.environmentVariables.value);
    }
    JsObject.AssignGetUnique(BaseEnvs(src), fn, k);
    BaseEnvsGet(src, k);
  }

  lemma BaseEnvsGet(src: EnvSources, k: string)
    requires JsObject.UniqueKeys(src.confEnv) && JsObject.UniqueKeys(src.debugEnv)
    ensures JsObject.Get(BaseEnvs(src), k) ==
      if src.isHttpTrigger && src.runtime == "java8" && k == "fc_enable_new_java_ca" then Some("true")
      else if src.debugPort != 0 && JsObject.Get(src.debugEnv, k).Some? then JsObject.Get(src.debugEnv, k)
      else if JsObject.Get(src.confEnv, k).Some? then JsObject.Get(src.confEnv, k)
      else if src.httpParams != "" && k == "FC_HTTP_PARAMS" then Some(src.httpParams)
      else None
  {
    var e1: JsObject.Obj<string> := if src.httpParams != "" then JsObject.Assign([], [("FC_HTTP_PARAMS", src.httpParams)]) else [];
    var e2 := JsObject.Assign(e1, src.confEnv);
    if src.debugPort != 0 {
      JsObject.AssignGetUnique(e2, src.debugEnv, k);
    }
    JsObject.AssignGetUnique(e1, src.confEnv, k);
    if src.httpParams != "" {
      JsObject.AssignGet([], [("FC_HTTP_PARAMS", src.httpParams)], k);
    }
  }

  lemma ProfileLayer(o: JsObject.Obj<string>, id: string, secret: string, k: string)
    ensures JsObject.Get(JsObject.Assign(o, [("local", "true"), ("FC_ACCESS_KEY_ID", id), ("FC_ACCESS_KEY_SECRET", secret)]), k) ==
      if k == "local" then Some("true")
      else if k == "FC_ACCESS_KEY_ID" then Some(id)
      else if k == "FC_ACCESS_KEY_SECRET" then Some(secret)
      else JsObject.Get(o, k)
  {
    AssignThree(o, "local", "true", "FC_ACCESS_KEY_ID", id, "FC_ACCESS_KEY_SECRET", secret, k);
  }

  lemma AssignThree(o: JsObject.Obj<string>, a: string, va: string, b: string, vb: string, c: string, vc: string, k: string)
    requires a != b && b != c && a != c
    ensures JsObject.Get(JsObject.Assign(o, [(a, va), (b, vb), (c, vc)]), k) ==
      if k == a then Some(va) else if k == b then Some(vb) else if k == c then Some(vc) else JsObject.Get(o, k)
  {
    var p := [(a, va), (b, vb), (c, vc)];
    var o1 := JsObject.Put(o, a, va);
    var o2 := JsObject.Put(o1, b, vb);
    var o3 := JsObject.Put(o2, c, vc);
    var q := [(b, vb), (c, vc)];
    var r := [(c, vc)];
    assert p[0] == (a, va) && p[1..] == q;
    assert q[0] == (b, vb) && q[1..] == r;
    assert r[0] == (c, vc) && r[1..] == [];
    assert JsObject.Assign(o2, r) == JsObject.Assign(o3, []);
    assert JsObject.Assign(o1, q) == JsObject.Assign(o2, r);
    assert JsObject.Assign(o, p) == JsObject.Assign(o1, q);
  }

  // ---------------------------------------------------------------------------------------
  // Images and exec.

  /** Pulling an image that is already present is switched off in this version. */
  const SKIP_PULL_IMAGE: bool := true

  /** `pullImageIfNeed`: whether the image is pulled, given whether it exists locally. */
  function ShouldPull(exist: bool): (r: bool)
    ensures r <==> !exist
  {
    !exist || !SKIP_PULL_IMAGE
  }

  /** The options of an exec in a started container. */
  datatype ExecOptions = ExecOptions(cmd: seq<string>, env: seq<string>, tty: bool, attachStdin: bool,
                                     attachStdout: bool, attachStderr: bool, workingDir: string)

  /** The exec options for `cmd`; an absent `cwd` is the empty directory and an absent `env`
      the empty object. `addEnv` is the lib/install/env step `resolveDockerEnv` applies before
      formatting (lib/install/env is not part of this model), so it is a parameter. */
  function ExecOptionsOf(cmd: seq<string>, cwd: Option<string>, env: Option<JsObject.Obj<string>>,
                         addEnv: JsObject.Obj<string> -> JsObject.Obj<string>): (r: ExecOptions)
    ensures r.cmd == cmd && !r.tty && !r.attachStdin && r.attachStdout && r.attachStderr
    ensures r.workingDir == (if cwd.Some? then cwd.value else "")
    ensures env.None? ==> r.env == DockerOpts.ResolveDockerEnv(addEnv([]))
    ensures env.Some? ==> r.env == DockerOpts.ResolveDockerEnv(addEnv(env.value))
    ensures |r.env| == |addEnv(if env.Some? then env.value else [])|
  {
    var vars := match env case Some(e) => e case None => [];
    var dir := match cwd case Some(c) => c case None => "";
    ExecOptions(cmd, DockerOpts.ResolveDockerEnv(addEnv(vars)), false, false, true, true, dir)
  }

  /** Where a stream's output goes: discarded, the process's own streams, or a stream the
      caller passed (identified by a number). */
  datatype Sink = DevNull | ProcessStdout | ProcessStderr | Given(stream: nat)

  /** The exec's output routing: stdout is discarded unless `verbose`; a missing output or
      error stream falls back to the process's own. */
  function ExecSinks(verbose: bool, outputStream: Option<nat>, errorStream: Option<nat>): (r: (Sink, Sink))
    ensures !verbose ==> r.0 == DevNull
    ensures verbose ==> r.0 == (if outputStream.Some? then Given(outputStream.value) else ProcessStdout)
    ensures r.1 == (if errorStream.Some? then Given(errorStream.value) else ProcessStderr)
  {
    var out := match outputStream case Some(s) => Given(s) case None => ProcessStdout;
    var err := match errorStream case Some(s) => Given(s) case None => ProcessStderr;
    (if verbose then out else DevNull, err)
  }

  /** `startContainer`'s log routing: no logs are followed unless a stream is given, and a
      missing one of the two is discarded. */
  function StartContainerSinks(outputStream: Option<nat>, errorStream: Option<nat>): (r: Option<(Sink, Sink)>)
    ensures r.None? <==> outputStream.None? && errorStream.None?
    ensures r.Some? ==> r.value.0 == (if outputStream.Some? then Given(outputStream.value) else DevNull)
    ensures r.Some? ==> r.value.1 == (if errorStream.Some? then Given(errorStream.value) else DevNull)
  {
    if outputStream.None? && errorStream.None? then None
    else
      var out := match outputStream case Some(s) => Given(s) case None => DevNull;
      var err := match errorStream case Some(s) => Given(s) case None => DevNull;
      Some((out, err))
  }
}

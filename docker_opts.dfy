/** Image naming and the container option records of the local runtime harness
    (lib/docker-opts.js). The reachability probe that picks the registry is an input. */
module DockerOpts {
  import opened Wrappers
  import Strings
  import JsObject

  const ALIYUN_REGISTRY: string := "registry.cn-beijing.aliyuncs.com"
  const IMAGE_VERSION: string := "1.6.0"

  /** The own properties of `runtimeImageMap`: runtime name and image name, in declaration order. */
  const RUNTIME_IMAGES: JsObject.Obj<string> := [
    ("nodejs6", "nodejs6"),
    ("nodejs8", "nodejs8"),
    ("python2.7", "python2.7"),
    ("python3", "python3.6"),
    ("java8", "java8"),
    ("php7.2", "php7.2"),
    ("nodejs10", "nodejs10"),
    ("custom", "custom")
  ]

  /** The image name of a runtime, when the table holds it as an own property. */
  function RuntimeImage(runtime: string): Option<string>
  {
    JsObject.Get(RUNTIME_IMAGES, runtime)
  }

  /** Exactly the eight runtimes of the table have an image; `python3` uses `python3.6`
      and every other runtime keeps its own name. */
  lemma RuntimeImageTable(runtime: string)
    ensures RuntimeImage(runtime).Some? <==>
      runtime in ["nodejs6", "nodejs8", "python2.7", "python3", "java8", "php7.2", "nodejs10", "custom"]
    ensures RuntimeImage(runtime).Some? ==>
      RuntimeImage(runtime).value == if runtime == "python3" then "python3.6" else runtime
  {
  }

  /** What the reachability probe of `google.com:443` reported: a connection means
      outside, an error or a timeout means inside; the probe itself may also throw. */
  datatype Probe = Reachable | Unreachable | ProbeThrew

  /** `doResolveDockerRegistry`: Docker Hub is the empty registry. */
  function DoResolveDockerRegistry(isDockerhubRegistry: bool): string
  {
    if isDockerhubRegistry then "" else ALIYUN_REGISTRY
  }

  /** `resolveDockerRegistry`: the Aliyun registry exactly when the probe says the host
      cannot reach Google; Docker Hub when it can or when the probe throws. */
  function ResolveDockerRegistry(probe: Probe): (r: string)
    ensures r != "" <==> probe == Unreachable
    ensures r == "" || r == ALIYUN_REGISTRY
  {
    match probe
    case Unreachable => DoResolveDockerRegistry(false)
    case Reachable => DoResolveDockerRegistry(true)
    case ProbeThrew => DoResolveDockerRegistry(true)
  }

  /** The parts of an image reference this module builds. */
  datatype ImageRef = ImageRef(aliyun: bool, name: string, isBuild: bool)

  /** `[<registry>/]aliyunfc/runtime-<name>:[build-]<IMAGE_VERSION>` */
  function FormatImage(ref: ImageRef): string
  {
    (if ref.aliyun then ALIYUN_REGISTRY + "/" else "") + "aliyunfc/runtime-" + ref.name + ":" +
    (if ref.isBuild then "build-" else "") + IMAGE_VERSION
  }

  /** Reads an image reference back into its parts: the independent partner of `FormatImage`. */
  function ParseImage(s: string): Option<ImageRef>
  {
    if Strings.StartsWith(s, ALIYUN_REGISTRY + "/") then ParseRepository(true, s[|ALIYUN_REGISTRY| + 1..])
    else ParseRepository(false, s)
  }

  /** Reads `aliyunfc/runtime-<name>:[build-]<IMAGE_VERSION>`. */
  function ParseRepository(aliyun: bool, rest: string): Option<ImageRef>
  {
    if !Strings.StartsWith(rest, "aliyunfc/runtime-") then None
    else
      var body := rest[17..];
      if Strings.EndsWith(body, ":build-" + IMAGE_VERSION) then Some(ImageRef(aliyun, body[..|body| - 12], true))
      else if Strings.EndsWith(body, ":" + IMAGE_VERSION) then Some(ImageRef(aliyun, body[..|body| - 6], false))
      else None
  }

  /** Every image reference reads back as the parts it was built from. */
  lemma ParseFormatImage(ref: ImageRef)
    ensures ParseImage(FormatImage(ref)) == Some(ref)
  {
    var rest := Repository(ref.name, ref.isBuild);
    RegistryPrefix(ref);
    FormatSplit(ref);
    ParseRepositoryOf(ref.aliyun, ref.name, ref.isBuild);
  }

  /** The repository and tag part of an image reference. */
  function Repository(name: string, isBuild: bool): string
  {
    "aliyunfc/runtime-" + name + ":" + (if isBuild then "build-" else "") + IMAGE_VERSION
  }

  lemma FormatSplit(ref: ImageRef)
    ensures ref.aliyun ==> FormatImage(ref)[|ALIYUN_REGISTRY| + 1..] == Repository(ref.name, ref.isBuild)
    ensures !ref.aliyun ==> FormatImage(ref) == Repository(ref.name, ref.isBuild)
  {
    var rest := Repository(ref.name, ref.isBuild);
    assert FormatImage(ref) == (if ref.aliyun then ALIYUN_REGISTRY + "/" else "") + rest;
  }

  lemma ParseRepositoryOf(aliyun: bool, name: string, isBuild: bool)
    ensures ParseRepository(aliyun, Repository(name, isBuild)) == Some(ImageRef(aliyun, name, isBuild))
  {
    var tail := name + ":" + (if isBuild then "build-" else "") + IMAGE_VERSION;
    var rest := Repository(name, isBuild);
    assert rest == "aliyunfc/runtime-" + tail;
    assert rest[..17] == "aliyunfc/runtime-";
    assert rest[17..] == tail;
    VersionSuffix(name, isBuild);
  }

  /** The tag suffix tells a build image from a plain one. */
  lemma VersionSuffix(name: string, isBuild: bool)
    ensures var tail := name + ":" + (if isBuild then "build-" else "") + IMAGE_VERSION;
      if isBuild then Strings.EndsWith(tail, ":build-" + IMAGE_VERSION) && tail[..|tail| - 12] == name
      else !Strings.EndsWith(tail, ":build-" + IMAGE_VERSION) && Strings.EndsWith(tail, ":" + IMAGE_VERSION) &&
           tail[..|tail| - 6] == name
  {
    var tail := name + ":" + (if isBuild then "build-" else "") + IMAGE_VERSION;
    if isBuild {
      assert tail[|tail| - 12..] == ":build-" + IMAGE_VERSION;
      assert tail[..|tail| - 12] == name;
    } else {
      assert tail[|tail| - 6..] == ":" + IMAGE_VERSION;
      assert tail[|tail| - 6] == ':';
      assert !Strings.EndsWith(tail, ":build-" + IMAGE_VERSION) by {
        if |tail| >= 12 { assert tail[|tail| - 12..][6] == tail[|tail| - 6]; }
      }
      assert tail[..|tail| - 6] == name;
    }
  }

  /** `resolveRuntimeToDockerImage(runtime, isBuild)` with the probe outcome as input: an
      unknown runtime fails before the registry is looked at. */
  function ResolveRuntimeToDockerImage(runtime: string, isBuild: bool, probe: Probe): (r: Result<string, string>)
    ensures r.Err? <==> RuntimeImage(runtime).None?
    ensures r.Err? ==> r.error == "invalid runtime name " + runtime
  {
    match RuntimeImage(runtime)
    case None => Err("invalid runtime name " + runtime)
    case Some(name) => Ok(FormatImage(ImageRef(ResolveDockerRegistry(probe) != "", name, isBuild)))
  }

  /** A resolved image names the runtime's image, is a build image iff asked, and carries
      the Aliyun registry prefix iff the probe found Google unreachable. */
  lemma ResolvedImageParts(runtime: string, isBuild: bool, probe: Probe)
    requires RuntimeImage(runtime).Some?
    ensures var r := ResolveRuntimeToDockerImage(runtime, isBuild, probe).value;
      ParseImage(r) == Some(ImageRef(probe == Unreachable, RuntimeImage(runtime).value, isBuild)) &&
      (Strings.StartsWith(r, ALIYUN_REGISTRY + "/") <==> probe == Unreachable)
  {
    var ref := ImageRef(probe == Unreachable, RuntimeImage(runtime).value, isBuild);
    ParseFormatImage(ref);
    RegistryPrefix(ref);
  }

  lemma RegistryPrefix(ref: ImageRef)
    ensures Strings.StartsWith(FormatImage(ref), ALIYUN_REGISTRY + "/") <==> ref.aliyun
  {
    var s := FormatImage(ref);
    if !ref.aliyun {
      assert s[0] == 'a' && (ALIYUN_REGISTRY + "/")[0] == 'r';
    } else {
      assert s[..|ALIYUN_REGISTRY| + 1] == ALIYUN_REGISTRY + "/";
    }
  }

  /** The non-build image of `python3`, outside the mainland, and its build image inside. */
  lemma Python3Image()
    ensures ResolveRuntimeToDockerImage("python3", false, Reachable) == Ok("aliyunfc/runtime-python3.6:1.6.0")
    ensures ResolveRuntimeToDockerImage("python3", true, Unreachable) ==
      Ok(ALIYUN_REGISTRY + "/" + "aliyunfc/runtime-python3.6:build-1.6.0")
  {
    Python3Name();
    ResolvedImage("python3", false, Reachable);
    ResolvedImage("python3", true, Unreachable);
    Python3Plain();
    Python3Build();
  }

  lemma ResolvedImage(runtime: string, isBuild: bool, probe: Probe)
    requires RuntimeImage(runtime).Some?
    ensures ResolveRuntimeToDockerImage(runtime, isBuild, probe) ==
      Ok(FormatImage(ImageRef(probe == Unreachable, RuntimeImage(runtime).value, isBuild)))
  {
  }

  /** The three steps of `Python3Image`: the table entry and the two image names. */
  lemma Python3Name()
    ensures RuntimeImage("python3") == Some("python3.6")
  {
  }

  lemma Python3Plain()
    ensures FormatImage(ImageRef(false, "python3.6", false)) == "aliyunfc/runtime-python3.6:1.6.0"
  {
  }

  lemma Python3Build()
    ensures FormatImage(ImageRef(true, "python3.6", true)) ==
      ALIYUN_REGISTRY + "/" + "aliyunfc/runtime-python3.6:build-1.6.0"
  {
  }

  // ---------------------------------------------------------------------------------------
  // The lookup as written: `runtimeImageMap[runtime]` also finds the members every object
  // inherits from `Object.prototype`, and all of them are truthy.

  /** The members of `Object.prototype` that a property lookup on a plain object finds. */
  const PROTOTYPE_MEMBERS: seq<string> := [
    "constructor", "__defineGetter__", "__defineSetter__", "hasOwnProperty", "__lookupGetter__",
    "__lookupSetter__", "isPrototypeOf", "propertyIsEnumerable", "toString", "valueOf",
    "toLocaleString"
  ]

  /** What a template literal writes for the inherited `Object` constructor. */
  const OBJECT_FUNCTION_TEXT: string := "function Object() { [native code] }"

  /** `${runtimeImageMap[runtime]}` for every truthy lookup result: the own string, or the
      text a template literal writes for an inherited native function or for `__proto__`. */
  function RuntimeImageAsWritten(runtime: string): Option<string>
  {
    match RuntimeImage(runtime)
    case Some(name) => Some(name)
    case None =>
      if runtime == "constructor" then Some(OBJECT_FUNCTION_TEXT)
      else if runtime in PROTOTYPE_MEMBERS then Some("function " + runtime + "() { [native code] }")
      else if runtime == "__proto__" then Some("[object Object]")
      else None
  }

  function ResolveRuntimeToDockerImageAsWritten(runtime: string, isBuild: bool, probe: Probe): Result<string, string>
  {
    match RuntimeImageAsWritten(runtime)
    case None => Err("invalid runtime name " + runtime)
    case Some(name) => Ok(FormatImage(ImageRef(ResolveDockerRegistry(probe) != "", name, isBuild)))
  }

  /** The runtime `constructor` is not rejected as written: it yields an image named after
      the text of the `Object` function, where the own-property lookup reports the error. */
  lemma PrototypeRuntimeAccepted()
    ensures ResolveRuntimeToDockerImageAsWritten("constructor", false, Reachable) ==
      Ok("aliyunfc/runtime-" + OBJECT_FUNCTION_TEXT + ":" + IMAGE_VERSION)
    ensures ResolveRuntimeToDockerImage("constructor", false, Reachable) == Err("invalid runtime name " + "constructor")
  {
    ConstructorNotOwn();
    assert RuntimeImageAsWritten("constructor") == Some(OBJECT_FUNCTION_TEXT);
    var ref := ImageRef(false, OBJECT_FUNCTION_TEXT, false);
    FormatSplit(ref);
    var head := "aliyunfc/runtime-" + OBJECT_FUNCTION_TEXT + ":";
    assert Repository(OBJECT_FUNCTION_TEXT, false) == head + "" + IMAGE_VERSION;
    assert head + "" == head;
  }

  lemma ConstructorNotOwn()
    ensures RuntimeImage("constructor") == None
  {
  }

  /** The two lookups agree on every runtime that is not an `Object.prototype` member. */
  lemma AsWrittenAgreesOffPrototype(runtime: string, isBuild: bool, probe: Probe)
    requires runtime !in PROTOTYPE_MEMBERS && runtime != "__proto__"
    ensures ResolveRuntimeToDockerImageAsWritten(runtime, isBuild, probe) == ResolveRuntimeToDockerImage(runtime, isBuild, probe)
  {
    assert runtime != "constructor" by {
      assert PROTOTYPE_MEMBERS[0] == "constructor";
    }
    assert RuntimeImageAsWritten(runtime) == RuntimeImage(runtime);
  }

  // ---------------------------------------------------------------------------------------
  // Option records.

  /** A bind mount `{Type, Source, Target, ReadOnly}`. */
  datatype Mount = Mount(mountType: string, source: string, target: string, readOnly: bool)

  /** A mount list entry: a mount, or the empty object `{}`. */
  datatype MountEntry = EmptyMount | Bind(mount: Mount)

  datatype HostConfig = HostConfig(autoRemove: bool, mounts: seq<MountEntry>)

  /** The inputs of `generateDockerDebugOpts`, whose options are merged in last. The debug
      module is not part of this model. */
  datatype DebugRequest = DebugRequest(runtime: string, port: nat, ide: string)

  /** A container creation record. `None` is a property the record does not set. */
  datatype ContainerOpts = ContainerOpts(
    image: string,
    name: Option<string>,
    hostname: Option<string>,
    user: Option<string>,
    env: seq<string>,
    cmd: seq<string>,
    entrypoint: Option<seq<string>>,
    tty: Option<bool>,
    openStdin: Option<bool>,
    stdinOnce: Option<bool>,
    attachStdin: Option<bool>,
    attachStdout: Option<bool>,
    attachStderr: Option<bool>,
    hostConfig: HostConfig,
    debug: Option<DebugRequest>)

  /** `resolveDockerEnv`: one `key=value` entry per property, in property order. The argument
      is the object `addEnv` returns (lib/install/env is not part of this model). */
  function ResolveDockerEnv(envs: JsObject.Obj<string>): (r: seq<string>)
    ensures |r| == |envs|
    ensures forall i :: 0 <= i < |r| ==> r[i] == envs[i].0 + "=" + envs[i].1
  {
    if envs == [] then [] else [envs[0].0 + "=" + envs[0].1] + ResolveDockerEnv(envs[1..])
  }

  /** Entries written by `resolveDockerEnv` read back, through the `key=value` parser of
      the install command, as the object they came from when no key or value holds `=`. */
  lemma {:induction false} ResolveDockerEnvRoundTrip(envs: JsObject.Obj<string>)
    requires JsObject.UniqueKeys(envs)
    requires forall i :: 0 <= i < |envs| ==> '=' !in envs[i].0 && '=' !in envs[i].1
    ensures JsObject.EntriesToObject(ResolveDockerEnv(envs)) == envs
  {
    PairsOfEnv(envs);
    JsObject.AssignFresh([], envs);
    assert [] + envs == envs;
  }

  lemma {:induction false} PairsOfEnv(envs: JsObject.Obj<string>)
    requires forall i :: 0 <= i < |envs| ==> '=' !in envs[i].0 && '=' !in envs[i].1
    ensures JsObject.Pairs(ResolveDockerEnv(envs)) == envs
  {
    if envs != [] {
      var e := ResolveDockerEnv(envs);
      JsObject.PairOfFormat(envs[0].0, envs[0].1);
      assert e[1..] == ResolveDockerEnv(envs[1..]);
      PairsOfEnv(envs[1..]);
    }
  }

  /** The host part every record shares: the mounts as given, removed on exit. */
  function AutoRemoveHost(mounts: seq<MountEntry>): (h: HostConfig)
    ensures h.autoRemove && h.mounts == mounts
  {
    HostConfig(true, mounts)
  }

  /** `generateInstallOpts` */
  function GenerateInstallOpts(imageName: string, mounts: seq<MountEntry>, envs: JsObject.Obj<string>): (r: ContainerOpts)
    ensures r.image == imageName && r.tty == Some(true) && r.cmd == ["/bin/bash"]
    ensures r.hostConfig.autoRemove && r.hostConfig.mounts == mounts
    ensures r.env == ResolveDockerEnv(envs)
    ensures r.openStdin.None? && r.attachStdin.None? && r.stdinOnce.None? && r.user.None? && r.debug.None?
    ensures r.attachStdout.None? && r.attachStderr.None?
    ensures r.name.None? && r.hostname.None? && r.entrypoint.None?
  {
    ContainerOpts(imageName, None, None, None, ResolveDockerEnv(envs), ["/bin/bash"], None,
                  Some(true), None, None, None, None, None, AutoRemoveHost(mounts), None)
  }

  /** `generateSboxOpts`; `cmd` defaults to the empty list and an empty list runs a shell. */
  function GenerateSboxOpts(imageName: string, hostname: string, mounts: seq<MountEntry>, envs: JsObject.Obj<string>,
                            cmd: seq<string>, isTty: bool, isInteractive: bool): (r: ContainerOpts)
    ensures r.attachStdin == r.openStdin == Some(isInteractive)
    ensures r.tty == Some(isTty) && r.stdinOnce == Some(true)
    ensures r.attachStdout == r.attachStderr == Some(true)
    ensures r.cmd == if cmd != [] then cmd else ["/bin/bash"]
    ensures r.cmd != []
    ensures r.hostname == Some(hostname) && r.image == imageName
    ensures r.env == ResolveDockerEnv(envs)
    ensures r.name.None? && r.user.None? && r.entrypoint.None? && r.debug.None?
    ensures r.hostConfig.autoRemove && r.hostConfig.mounts == mounts
  {
    ContainerOpts(imageName, None, Some(hostname), None, ResolveDockerEnv(envs),
                  if |cmd| > 0 then cmd else ["/bin/bash"], None,
                  Some(isTty), Some(isInteractive), Some(true), Some(isInteractive), Some(true), Some(true),
                  AutoRemoveHost(mounts), None)
  }

  /** A debug port is given when it is truthy; 0 stands for an absent port too. */
  function DebugOf(runtime: string, debugPort: nat, debugIde: string): (d: Option<DebugRequest>)
    ensures d.Some? <==> debugPort != 0
  {
    if debugPort != 0 then Some(DebugRequest(runtime, debugPort, debugIde)) else None
  }

  /** `generateContainerBuildOpts`: the build image is resolved first, so an unknown runtime
      fails even when a preferred image is given; a preferred image (non-empty) wins. */
  function GenerateContainerBuildOpts(runtime: string, containerName: string, mounts: seq<MountEntry>, cmd: seq<string>,
                                      envs: JsObject.Obj<string>, preferredImage: string, probe: Probe): (r: Result<ContainerOpts, string>)
    ensures r.Err? <==> RuntimeImage(runtime).None?
    ensures r.Err? ==> r.error == "invalid runtime name " + runtime
    ensures r.Ok? ==> r.value.user == Some("0:0") && r.value.cmd == cmd && r.value.name == Some(containerName)
    ensures r.Ok? ==> r.value.image == if preferredImage != "" then preferredImage
                                       else ResolveRuntimeToDockerImage(runtime, true, probe).value
    ensures r.Ok? ==> r.value.openStdin == r.value.attachStdin == r.value.stdinOnce == Some(true) && r.value.tty == Some(false)
    ensures r.Ok? ==> r.value.attachStdout == r.value.attachStderr == Some(true)
    ensures r.Ok? ==> r.value.env == ResolveDockerEnv(envs)
    ensures r.Ok? ==> r.value.hostname.None? && r.value.entrypoint.None? && r.value.debug.None?
    ensures r.Ok? ==> r.value.hostConfig.autoRemove && r.value.hostConfig.mounts == mounts
  {
    match ResolveRuntimeToDockerImage(runtime, true, probe)
    case Err(e) => Err(e)
    case Ok(imageName) =>
      Ok(ContainerOpts(if preferredImage != "" then preferredImage else imageName, Some(containerName), None, Some("0:0"),
                       ResolveDockerEnv(envs), cmd, None,
                       Some(false), Some(true), Some(true), Some(true), Some(true), Some(true),
                       AutoRemoveHost(mounts), None))
  }

  /** `generateLocalInvokeOpts` */
  function GenerateLocalInvokeOpts(runtime: string, containerName: string, mounts: seq<MountEntry>, cmd: seq<string>,
                                   debugPort: nat, envs: JsObject.Obj<string>, dockerUser: string, debugIde: string,
                                   probe: Probe): (r: Result<ContainerOpts, string>)
    ensures r.Err? <==> RuntimeImage(runtime).None?
    ensures r.Err? ==> r.error == "invalid runtime name " + runtime
    ensures r.Ok? ==> r.value.image == ResolveRuntimeToDockerImage(runtime, false, probe).value
    ensures r.Ok? ==> r.value.openStdin == r.value.attachStdin == r.value.stdinOnce == Some(true) && r.value.tty == Some(false)
    ensures r.Ok? ==> r.value.attachStdout == r.value.attachStderr == Some(true)
    ensures r.Ok? ==> r.value.user == Some(dockerUser) && r.value.cmd == cmd && r.value.entrypoint.None?
    ensures r.Ok? ==> r.value.name == Some(containerName) && r.value.hostname.None?
    ensures r.Ok? ==> r.value.env == ResolveDockerEnv(envs)
    ensures r.Ok? ==> r.value.debug == DebugOf(runtime, debugPort, debugIde)
    ensures r.Ok? ==> (r.value.debug.Some? <==> debugPort != 0)
    ensures r.Ok? ==> r.value.hostConfig.autoRemove && r.value.hostConfig.mounts == mounts
  {
    match ResolveRuntimeToDockerImage(runtime, false, probe)
    case Err(e) => Err(e)
    case Ok(imageName) =>
      Ok(ContainerOpts(imageName, Some(containerName), None, Some(dockerUser), ResolveDockerEnv(envs), cmd, None,
                       Some(false), Some(true), Some(true), Some(true), Some(true), Some(true),
                       AutoRemoveHost(mounts), DebugOf(runtime, debugPort, debugIde)))
  }

  /** `resolveMockScript` */
  function ResolveMockScript(runtime: string): (r: string)
    ensures |r| == |runtime| + 24
    ensures Strings.StartsWith(r, "/var/fc/runtime/") && Strings.EndsWith(r, "/mock.sh")
    ensures r[16..|r| - 8] == runtime
  {
    var r := "/var/fc/runtime/" + runtime + "/mock.sh";
    assert r[..16] == "/var/fc/runtime/";
    assert r[|r| - 8..] == "/mock.sh";
    assert r[16..|r| - 8] == runtime;
    r
  }

  /** `generateLocalStartRunOpts`: the mock script is the entry point and no stdin option is set. */
  function GenerateLocalStartRunOpts(runtime: string, name: string, mounts: seq<MountEntry>, cmd: seq<string>,
                                     debugPort: nat, envs: JsObject.Obj<string>, dockerUser: string, debugIde: string,
                                     probe: Probe): (r: Result<ContainerOpts, string>)
    ensures r.Err? <==> RuntimeImage(runtime).None?
    ensures r.Ok? ==> r.value.image == ResolveRuntimeToDockerImage(runtime, false, probe).value
    ensures r.Ok? ==> r.value.entrypoint == Some([ResolveMockScript(runtime)])
    ensures r.Err? ==> r.error == "invalid runtime name " + runtime
    ensures r.Ok? ==> r.value.openStdin.None? && r.value.attachStdin.None? && r.value.stdinOnce.None? && r.value.tty.None?
    ensures r.Ok? ==> r.value.attachStdout.None? && r.value.attachStderr.None? && r.value.hostname.None?
    ensures r.Ok? ==> r.value.user == Some(dockerUser) && r.value.cmd == cmd && r.value.name == Some(name)
    ensures r.Ok? ==> r.value.env == ResolveDockerEnv(envs)
    ensures r.Ok? ==> r.value.debug == DebugOf(runtime, debugPort, debugIde)
    ensures r.Ok? ==> (r.value.debug.Some? <==> debugPort != 0)
    ensures r.Ok? ==> r.value.hostConfig.autoRemove && r.value.hostConfig.mounts == mounts
  {
    match ResolveRuntimeToDockerImage(runtime, false, probe)
    case Err(e) => Err(e)
    case Ok(imageName) =>
      Ok(ContainerOpts(imageName, Some(name), None, Some(dockerUser), ResolveDockerEnv(envs), cmd,
                       Some([ResolveMockScript(runtime)]),
                       None, None, None, None, None, None,
                       AutoRemoveHost(mounts), DebugOf(runtime, debugPort, debugIde)))
  }

  // ---------------------------------------------------------------------------------------
  // Docker Toolbox paths.

  /** A backslash turned into a slash; every other character kept. */
  function Slashed(c: char): char
  {
    if c == '\\' then '/' else c
  }

  /** `transformPathForVirtualBox`: drop every `:`, turn every `\` into `/`, lower-case the
      first character and put `/` in front. */
  function TransformPathForVirtualBox(source: string): (r: string)
  {
    "/" + Strings.LowerFirst(Strings.ReplaceAll(Strings.ReplaceAll(source, ':', ""), '\\', "/"))
  }

  /** The rewrite makes exactly its four changes: with `t` the source without its colons, the
      result is `/` followed by `t` with its backslashes made slashes and its first character
      lower-cased. */
  lemma TransformPathProperties(source: string)
    ensures var t := Strings.Filtered(source, ':'); var r := TransformPathForVirtualBox(source);
      |r| == |t| + 1 && r[0] == '/' &&
      (forall i :: 1 <= i < |t| ==> r[i + 1] == Slashed(t[i])) &&
      (|t| > 0 ==> r[1] == Strings.ToLowerChar(Slashed(t[0])))
    ensures ':' !in TransformPathForVirtualBox(source)
  {
    var t := Strings.Filtered(source, ':');
    Strings.ReplaceAllIsReplaceEach(source, ':', "");
    Strings.RemoveEachProperties(source, ':');
    Strings.ReplaceAllIsReplaceEach(t, '\\', "/");
    Strings.ReplaceEachPointwise(t, '\\', '/');
    var u := Strings.ReplaceEach(t, '\\', "/");
    var r := TransformPathForVirtualBox(source);
    assert r == "/" + Strings.LowerFirst(u);
    forall i | 1 <= i < |t| ensures r[i + 1] == Slashed(t[i]) {
      assert r[i + 1] == Strings.LowerFirst(u)[i] == u[i];
    }
    assert ':' !in u by {
      forall i | 0 <= i < |u| ensures u[i] != ':' { assert t[i] != ':'; }
    }
    assert ':' !in Strings.LowerFirst(u) by {
      if u != [] {
        assert Strings.LowerFirst(u) == [Strings.ToLowerChar(u[0])] + u[1..];
      }
    }
  }

  /** A Windows path `D:\seg\...\seg` becomes `/d/seg/.../seg`. */
  lemma WindowsDrivePath(drive: char, segs: seq<string>)
    requires drive != ':' && drive != '\\'
    requires |segs| >= 1 && forall i :: 0 <= i < |segs| ==> ':' !in segs[i] && '\\' !in segs[i]
    ensures TransformPathForVirtualBox([drive, ':', '\\'] + Strings.Join(segs, "\\")) ==
            ['/', Strings.ToLowerChar(drive), '/'] + Strings.Join(segs, "/")
  {
    DriveColonDropped(drive, segs);
    DriveBackslashesTurned(drive, segs);
    DriveLowered(drive, Strings.Join(segs, "/"));
  }

  lemma DriveLowered(drive: char, rest: string)
    ensures "/" + Strings.LowerFirst([drive] + "/" + rest) == ['/', Strings.ToLowerChar(drive), '/'] + rest
  {
    var u := [drive] + "/" + rest;
    assert u[1..] == "/" + rest;
  }

  lemma DriveColonDropped(drive: char, segs: seq<string>)
    requires drive != ':'
    requires forall i :: 0 <= i < |segs| ==> ':' !in segs[i]
    ensures Strings.ReplaceAll([drive, ':', '\\'] + Strings.Join(segs, "\\"), ':', "") ==
            [drive] + "\\" + Strings.Join(segs, "\\")
  {
    Strings.JoinNotIn(segs, "\\", ':');
    ColonDropped(drive, Strings.Join(segs, "\\"));
  }

  lemma ColonDropped(drive: char, j: string)
    requires drive != ':' && ':' !in j
    ensures Strings.ReplaceAll([drive, ':', '\\'] + j, ':', "") == [drive] + "\\" + j
  {
    var a := [drive];
    var c := [':'];
    var b := ['\\'] + j;
    var s := [drive, ':', '\\'] + j;
    assert s == a + (c + b);
    Strings.ReplaceAllIsReplaceEach(s, ':', "");
    Strings.RemoveEachProperties(s, ':');
    Strings.FilteredAppend(a, c + b, ':');
    Strings.FilteredAppend(c, b, ':');
    Strings.FilteredNone(a, ':');
    Strings.FilteredNone(b, ':');
    assert Strings.Filtered(c, ':') == [];
  }

  lemma DriveBackslashesTurned(drive: char, segs: seq<string>)
    requires drive != '\\'
    requires |segs| >= 1 && forall i :: 0 <= i < |segs| ==> '\\' !in segs[i]
    ensures Strings.ReplaceAll([drive] + "\\" + Strings.Join(segs, "\\"), '\\', "/") ==
            [drive] + "/" + Strings.Join(segs, "/")
  {
    var parts := [[drive]] + segs;
    assert parts[0] == [drive] && parts[1..] == segs;
    assert forall i :: 0 <= i < |parts| ==> '\\' !in parts[i];
    Strings.ReplaceJoin(parts, '\\', "/");
    JoinTwoOrMore(parts, "\\");
    JoinTwoOrMore(parts, "/");
  }

  lemma JoinTwoOrMore(parts: seq<string>, sep: string)
    requires |parts| >= 2
    ensures Strings.Join(parts, sep) == parts[0] + sep + Strings.Join(parts[1..], sep)
  {
  }

  /** The Windows example: `C:\Users\image_crawler\code` becomes `/c/Users/image_crawler/code`. */
  lemma TransformPathExample(segs: seq<string>)
    requires segs == ["Users", "image_crawler", "code"]
    ensures TransformPathForVirtualBox("C:\\" + Strings.Join(segs, "\\")) == "/c/" + Strings.Join(segs, "/")
  {
    WindowsDrivePath('C', segs);
  }

  /** `transformSourcePathOfMount`: `{}` stays `{}`; otherwise a copy whose `Source` is
      rewritten and whose other fields are kept. */
  function TransformSourcePathOfMount(m: MountEntry): (r: MountEntry)
    ensures r.EmptyMount? <==> m.EmptyMount?
    ensures m.Bind? ==> r.mount.source == TransformPathForVirtualBox(m.mount.source) &&
                         r.mount.mountType == m.mount.mountType && r.mount.target == m.mount.target &&
                         r.mount.readOnly == m.mount.readOnly
  {
    match m
    case EmptyMount => EmptyMount
    case Bind(b) => Bind(b.(source := TransformPathForVirtualBox(b.source)))
  }

  /** The argument of `transformMountsForToolbox`: an array of mounts or a single one. */
  datatype Mounts = MountList(entries: seq<MountEntry>) | SingleMount(entry: MountEntry)

  /** `transformMountsForToolbox`: an array is rewritten element by element, keeping its
      length and order; a single mount is rewritten on its own. */
  function TransformMountsForToolbox(mounts: Mounts): (r: Mounts)
    ensures r.MountList? <==> mounts.MountList?
    ensures mounts.MountList? ==> |r.entries| == |mounts.entries|
    ensures mounts.MountList? ==>
              forall i :: 0 <= i < |r.entries| ==> r.entries[i] == TransformSourcePathOfMount(mounts.entries[i])
    ensures mounts.SingleMount? ==> r.entry == TransformSourcePathOfMount(mounts.entry)
  {
    match mounts
    case MountList(es) => MountList(seq(|es|, i requires 0 <= i < |es| => TransformSourcePathOfMount(es[i])))
    case SingleMount(e) => SingleMount(TransformSourcePathOfMount(e))
  }
}

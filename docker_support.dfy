/** The Docker for Mac file-sharing check (lib/docker-support.js): which mount sources lie
    outside every shared path. The shared-path list read from Docker's settings file is an
    input. */
module DockerSupport {
  import opened Wrappers
  import Strings
  import DockerOpts

  /** The shared paths Docker for Mac uses when its settings name none. */
  const DEFAULT_FILE_SHARING_PATHS: seq<string> := ["/Users", "/Volumes", "/private", "/tmp"]

  /** `getSharedPathsOfDockerForMac` once the settings are parsed: the value of
      `defaultFileSharingPaths` when the settings hold that key, otherwise the default list. */
  function SharedPathsOf(defaultFileSharingPaths: Option<seq<string>>): (r: seq<string>)
    ensures defaultFileSharingPaths.Some? ==> r == defaultFileSharingPaths.value
    ensures defaultFileSharingPaths.None? ==> r == ["/Users", "/Volumes", "/private", "/tmp"]
  {
    match defaultFileSharingPaths
    case Some(paths) => paths
    case None => DEFAULT_FILE_SHARING_PATHS
  }

  /** The message of the `TypeError` raised by reading `startsWith` of an undefined `Source`. */
  const MISSING_SOURCE_ERROR: string := "Cannot read property 'startsWith' of undefined"

  /** `mount.Source`: the empty mount `{}` has none. */
  function SourceOf(m: DockerOpts.MountEntry): Option<string>
  {
    match m
    case EmptyMount => None
    case Bind(b) => Some(b.source)
  }

  /** A source is shared when some shared path is a raw string prefix of it. */
  predicate IsShared(source: string, sharedPaths: seq<string>)
  {
    exists j :: 0 <= j < |sharedPaths| && Strings.StartsWith(source, sharedPaths[j])
  }

  /** What the check of one more mount adds to the report: nothing when shared, its source
      when not, `undefined` for a mount without a source when there is no shared path to try,
      and a `TypeError` when there is one. */
  function Checked(m: DockerOpts.MountEntry, sharedPaths: seq<string>): Result<seq<Option<string>>, string>
  {
    match SourceOf(m)
    case None => if |sharedPaths| > 0 then Err(MISSING_SOURCE_ERROR) else Ok([None])
    case Some(s) => if IsShared(s, sharedPaths) then Ok([]) else Ok([Some(s)])
  }

  /** The report for `mounts`, mount by mount; the first error stops it. */
  function OutOfShared(mounts: seq<DockerOpts.MountEntry>, sharedPaths: seq<string>): Result<seq<Option<string>>, string>
  {
    if mounts == [] then Ok([])
    else match OutOfShared(mounts[..|mounts| - 1], sharedPaths)
      case Err(e) => Err(e)
      case Ok(acc) =>
        match Checked(mounts[|mounts| - 1], sharedPaths)
        case Err(e) => Err(e)
        case Ok(more) => Ok(acc + more)
  }

  /** `findPathsOutofSharedPaths`: the outer loop visits the mounts in order, the inner loop
      looks for a shared path that prefixes the source and stops at the first one. */
  method FindPathsOutofSharedPaths(mounts: seq<DockerOpts.MountEntry>, sharedPaths: seq<string>)
    returns (r: Result<seq<Option<string>>, string>)
    ensures r == OutOfShared(mounts, sharedPaths)
  {
    var pathsOutofSharedPaths: seq<Option<string>> := [];
    var i := 0;
    while i < |mounts|
      invariant 0 <= i <= |mounts|
      invariant OutOfShared(mounts[..i], sharedPaths) == Ok(pathsOutofSharedPaths)
    {
      var mountPath := SourceOf(mounts[i]);
      var isMountPathSharedToDocker := false;
      if mountPath.None? {
        // Reading `startsWith` of an undefined source throws on the first inner iteration.
        if |sharedPaths| > 0 {
          assert mounts[..i + 1][..i] == mounts[..i];
          OutOfSharedErrExtends(mounts, i + 1, sharedPaths);
          return Err(MISSING_SOURCE_ERROR);
        }
      } else {
        var j := 0;
        while j < |sharedPaths|
          invariant 0 <= j <= |sharedPaths|
          invariant !isMountPathSharedToDocker
          invariant forall k :: 0 <= k < j ==> !Strings.StartsWith(mountPath.value, sharedPaths[k])
        {
          if Strings.StartsWith(mountPath.value, sharedPaths[j]) {
            isMountPathSharedToDocker := true;
            break;
          }
          j := j + 1;
        }
        assert isMountPathSharedToDocker <==> IsShared(mountPath.value, sharedPaths);
      }
      assert mounts[..i + 1][..i] == mounts[..i];
      var m := mounts[..i + 1];
      assert m[|m| - 1] == mounts[i] && m[..|m| - 1] == mounts[..i];
      assert Checked(mounts[i], sharedPaths) == Ok(if isMountPathSharedToDocker then [] else [mountPath]);
      assert OutOfShared(m, sharedPaths) == Ok(pathsOutofSharedPaths + Checked(mounts[i], sharedPaths).value);
      if !isMountPathSharedToDocker {
        pathsOutofSharedPaths := pathsOutofSharedPaths + [mountPath];
      } else {
        assert pathsOutofSharedPaths + [] == pathsOutofSharedPaths;
      }
      i := i + 1;
    }
    assert mounts[..i] == mounts;
    return Ok(pathsOutofSharedPaths);
  }

  /** An error in the report of a prefix is the error of the whole report. */
  lemma {:induction false} OutOfSharedErrExtends(mounts: seq<DockerOpts.MountEntry>, i: nat, sharedPaths: seq<string>)
    requires i <= |mounts| && OutOfShared(mounts[..i], sharedPaths).Err?
    ensures OutOfShared(mounts, sharedPaths) == OutOfShared(mounts[..i], sharedPaths)
    decreases |mounts| - i
  {
    if i < |mounts| {
      assert mounts[..i + 1][..i] == mounts[..i];
      OutOfSharedErrExtends(mounts, i + 1, sharedPaths);
    } else {
      assert mounts[..i] == mounts;
    }
  }

  /** The report of one mount is what checking that mount adds. */
  lemma OutOfSharedSingle(m: DockerOpts.MountEntry, sharedPaths: seq<string>)
    ensures OutOfShared([m], sharedPaths) == Checked(m, sharedPaths)
    ensures m.Bind? && !IsShared(m.mount.source, sharedPaths) ==> OutOfShared([m], sharedPaths) == Ok([Some(m.mount.source)])
    ensures m.Bind? && IsShared(m.mount.source, sharedPaths) ==> OutOfShared([m], sharedPaths) == Ok([])
  {
    assert [m][..0] == [];
    var none: seq<Option<string>> := [];
    match Checked(m, sharedPaths)
    case Err(e) =>
    case Ok(more) => assert none + more == more;
  }

  /** The report of `a + b` is the report of `a` followed by that of `b`, and the first error
      of either is the error of both: the check keeps the mounts' order and reports each
      unshared occurrence once. */
  lemma {:induction false} OutOfSharedAppend(a: seq<DockerOpts.MountEntry>, b: seq<DockerOpts.MountEntry>, sharedPaths: seq<string>)
    ensures OutOfShared(a, sharedPaths).Err? ==> OutOfShared(a + b, sharedPaths) == OutOfShared(a, sharedPaths)
    ensures OutOfShared(a, sharedPaths).Ok? && OutOfShared(b, sharedPaths).Err? ==>
      OutOfShared(a + b, sharedPaths) == OutOfShared(b, sharedPaths)
    ensures OutOfShared(a, sharedPaths).Ok? && OutOfShared(b, sharedPaths).Ok? ==>
      OutOfShared(a + b, sharedPaths) == Ok(OutOfShared(a, sharedPaths).value + OutOfShared(b, sharedPaths).value)
    decreases |b|
  {
    if b == [] {
      assert a + b == a;
      match OutOfShared(a, sharedPaths)
      case Err(e) =>
      case Ok(x) => assert x + [] == x;
    } else {
      var n := |b| - 1;
      var c := a + b;
      assert c[..|c| - 1] == a + b[..n];
      assert c[|c| - 1] == b[n];
      OutOfSharedAppend(a, b[..n], sharedPaths);
      match OutOfShared(a, sharedPaths)
      case Err(e) =>
      case Ok(x) =>
        match OutOfShared(b[..n], sharedPaths)
        case Err(e) =>
        case Ok(y) =>
          match Checked(b[n], sharedPaths)
          case Err(e) =>
          case Ok(z) => assert x + y + z == x + (y + z);
    }
  }

  /** A mount that names a source. */
  predicate HasSource(m: DockerOpts.MountEntry)
  {
    m.Bind?
  }

  /** A mount whose source no shared path prefixes. */
  predicate Unshared(m: DockerOpts.MountEntry, sharedPaths: seq<string>)
  {
    m.Bind? && !IsShared(m.mount.source, sharedPaths)
  }

  /** When every mount names a source the check succeeds, its report is no longer than the
      mount list, and it holds exactly the sources that no shared path prefixes (order and one
      entry per occurrence follow from `OutOfSharedAppend` and `OutOfSharedSingle`). */
  lemma {:induction false} OutOfSharedBinds(mounts: seq<DockerOpts.MountEntry>, sharedPaths: seq<string>)
    requires forall i :: 0 <= i < |mounts| ==> HasSource(mounts[i])
    ensures OutOfShared(mounts, sharedPaths).Ok?
    ensures |OutOfShared(mounts, sharedPaths).value| <= |mounts|
    ensures forall x :: x in OutOfShared(mounts, sharedPaths).value <==>
      exists i :: 0 <= i < |mounts| && SourceOf(mounts[i]) == x && Unshared(mounts[i], sharedPaths)
    ensures (forall i :: 0 <= i < |mounts| ==> !Unshared(mounts[i], sharedPaths)) ==> OutOfShared(mounts, sharedPaths).value == []
    decreases |mounts|
  {
    if mounts != [] {
      var n := |mounts| - 1;
      var init := mounts[..n];
      OutOfSharedBinds(init, sharedPaths);
      var acc := OutOfShared(init, sharedPaths).value;
      var more := Checked(mounts[n], sharedPaths).value;
      assert OutOfShared(mounts, sharedPaths).value == acc + more;
      forall x
        ensures x in acc + more <==>
          exists i :: 0 <= i < |mounts| && SourceOf(mounts[i]) == x && Unshared(mounts[i], sharedPaths)
      {
        if x in acc {
          var i :| 0 <= i < |init| && SourceOf(init[i]) == x && Unshared(init[i], sharedPaths);
          assert mounts[i] == init[i];
        }
        if exists i :: 0 <= i < |mounts| && SourceOf(mounts[i]) == x && Unshared(mounts[i], sharedPaths) {
          var i :| 0 <= i < |mounts| && SourceOf(mounts[i]) == x && Unshared(mounts[i], sharedPaths);
          if i < n {
            assert init[i] == mounts[i];
          }
        }
      }
    }
  }

  /** A mount without a source makes the check fail as soon as there is a shared path to try. */
  lemma {:induction false} OutOfSharedMissingSource(mounts: seq<DockerOpts.MountEntry>, sharedPaths: seq<string>, i: nat)
    requires i < |mounts| && mounts[i].EmptyMount? && |sharedPaths| > 0
    ensures OutOfShared(mounts, sharedPaths).Err?
  {
    var p := mounts[..i + 1];
    assert p[..|p| - 1] == mounts[..i];
    assert OutOfShared(p, sharedPaths).Err?;
    OutOfSharedErrExtends(mounts, i + 1, sharedPaths);
  }

  /** With no shared path every source is reported, in order, an empty mount as `undefined`. */
  lemma {:induction false} OutOfSharedNoSharedPaths(mounts: seq<DockerOpts.MountEntry>)
    ensures OutOfShared(mounts, []).Ok?
    ensures |OutOfShared(mounts, []).value| == |mounts|
    ensures forall i :: 0 <= i < |mounts| ==> OutOfShared(mounts, []).value[i] == SourceOf(mounts[i])
    decreases |mounts|
  {
    if mounts != [] {
      var n := |mounts| - 1;
      OutOfSharedNoSharedPaths(mounts[..n]);
      assert SourceOf(mounts[n]).None? || !IsShared(SourceOf(mounts[n]).value, []);
    }
  }

  /** The check compares raw string prefixes, not directories: a source is reported as shared
      whenever some shared path is a prefix of its text. */
  lemma PrefixIsShared(mount: DockerOpts.Mount, sharedPaths: seq<string>, j: nat)
    requires j < |sharedPaths| && Strings.StartsWith(mount.source, sharedPaths[j])
    ensures OutOfShared([DockerOpts.Bind(mount)], sharedPaths) == Ok([])
  {
    var ms := [DockerOpts.Bind(mount)];
    assert ms[..|ms| - 1] == [] && ms[|ms| - 1] == DockerOpts.Bind(mount);
    assert IsShared(mount.source, sharedPaths);
    assert Checked(DockerOpts.Bind(mount), sharedPaths) == Ok([]);
    assert OutOfShared(ms[..|ms| - 1], sharedPaths) == Ok([]);
    var none: seq<Option<string>> := [];
    assert none + none == none;
  }

  /** `/Usersfoo` is not under the `/Users` directory, yet the default list counts it as shared. */
  lemma UsersfooIsShared(mount: DockerOpts.Mount)
    requires mount.source == "/Usersfoo"
    ensures OutOfShared([DockerOpts.Bind(mount)], SharedPathsOf(None)) == Ok([])
  {
    assert Strings.StartsWith(mount.source, SharedPathsOf(None)[0]);
    PrefixIsShared(mount, SharedPathsOf(None), 0);
  }
}

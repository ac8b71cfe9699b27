/** lib/nas/path.js: the `nas://` URI parser, the protocol and trailing-slash tests, local
    path resolution and the filter that picks the split files still to upload. The working
    directory, the home directory and the file hash are parameters. */
module NasPath {
  import opened Wrappers
  import Strings
  import PosixPath

  const NAS_SCHEME: string := "nas://"

  /** A parsed NAS URI. */
  datatype NasUri = NasUri(nasPath: string, serviceName: string)

  // ---------------------------------------------------------------------------------------
  // The grammar of a NAS URI: `nas://`, a service name without `/` or `:`, an optional `:`,
  // then zero or more `/segment` parts (segments non-empty, without `/`) and an optional
  // final `/`.

  predicate ServiceChar(c: char)
  {
    c != '/' && c != ':'
  }

  predicate ServiceName(s: string)
  {
    forall i :: 0 <= i < |s| ==> ServiceChar(s[i])
  }

  /** The length of the leading run of characters other than `/`. */
  function SegmentLength(s: string): (k: nat)
    ensures k <= |s| && (forall i :: 0 <= i < k ==> s[i] != '/') && (k < |s| ==> s[k] == '/')
  {
    if s == [] || s[0] == '/' then 0 else 1 + SegmentLength(s[1..])
  }

  /** The path part of the grammar, read left to right as the pattern `(/[^/]+)*` followed
      by `/?`. A segment ends at the next `/` or at the end, so its length is forced. */
  predicate PathMatches(p: string)
    decreases |p|
  {
    p == [] || p == "/" ||
    (p[0] == '/' && SegmentLength(p[1..]) >= 1 && PathMatches(p[1 + SegmentLength(p[1..])..]))
  }

  /** The text the grammar describes for a service name, a separator choice and a path. */
  function FormatNasUri(serviceName: string, colon: bool, nasPath: string): string
  {
    NAS_SCHEME + serviceName + (if colon then ":" else "") + nasPath
  }

  // ---------------------------------------------------------------------------------------
  // The recogniser.

  /** The length of the leading run of service-name characters. */
  function ServiceLength(s: string): (n: nat)
    ensures n <= |s| && ServiceName(s[..n]) && (n < |s| ==> !ServiceChar(s[n]))
  {
    if s == [] || !ServiceChar(s[0]) then 0
    else
      var n := 1 + ServiceLength(s[1..]);
      assert forall i :: 1 <= i < n ==> s[..n][i] == s[1..][..n - 1][i - 1];
      n
  }

  /** No two `/` in a row. */
  predicate NoDoubleSlash(p: string)
  {
    forall i :: 0 <= i < |p| - 1 ==> !(p[i] == '/' && p[i + 1] == '/')
  }

  /** A path the recogniser accepts: empty, or beginning with `/` without two `/` in a row. */
  predicate IsNasPath(p: string)
  {
    p == [] || (p[0] == '/' && NoDoubleSlash(p))
  }

  /** The text after `nas://` cut into the service name and what should be the path: the
      longest run without `/` or `:`, then the rest with one leading `:` skipped. */
  function SplitService(rest: string): (string, string)
  {
    var n := ServiceLength(rest);
    var after := rest[n..];
    (rest[..n], if after != [] && after[0] == ':' then after[1..] else after)
  }

  /** `parseNasUri`: a `nas://` text whose service name is followed by a path. */
  function ParseNasUri(nasUri: string): Result<NasUri, string>
  {
    if !Strings.StartsWith(nasUri, NAS_SCHEME) then Err("invalid nas path : " + nasUri)
    else
      var (service, path) := SplitService(nasUri[|NAS_SCHEME|..]);
      if IsNasPath(path) then Ok(NasUri(path, service)) else Err("invalid nas path : " + nasUri)
  }

  // ---------------------------------------------------------------------------------------
  // The recogniser accepts exactly the grammar.

  /** The recogniser's path test is the grammar's path. */
  lemma {:induction false} PathMatchesIsNasPath(p: string)
    ensures PathMatches(p) <==> IsNasPath(p)
    decreases |p|
  {
    if p != [] && p != "/" && p[0] == '/' {
      var k := SegmentLength(p[1..]);
      var rest := p[1 + k..];
      PathMatchesIsNasPath(rest);
      if k >= 1 {
        assert p[1] != '/';
        if IsNasPath(p) {
          NoDoubleSlashSuffix(p, 1 + k);
          assert rest != [] ==> rest[0] == p[1 + k] == '/';
        }
        if IsNasPath(rest) {
          NoDoubleSlashCompose(p, k);
        }
      } else {
        assert p[1] == '/';
        assert !NoDoubleSlash(p);
      }
    }
  }

  lemma NoDoubleSlashSuffix(p: string, j: nat)
    requires j <= |p| && NoDoubleSlash(p)
    ensures NoDoubleSlash(p[j..])
  {
    forall i | 0 <= i < |p[j..]| - 1 ensures !(p[j..][i] == '/' && p[j..][i + 1] == '/') {
      assert p[j..][i] == p[j + i] && p[j..][i + 1] == p[j + i + 1];
    }
  }

  /** `/`, a segment of length `k`, then a path: no two `/` in a row anywhere. */
  lemma NoDoubleSlashCompose(p: string, k: nat)
    requires |p| >= 1 + k && k >= 1 && p[0] == '/'
    requires forall i :: 0 <= i < k ==> p[1..][i] != '/'
    requires IsNasPath(p[1 + k..])
    ensures NoDoubleSlash(p)
  {
    var rest := p[1 + k..];
    forall i | 0 <= i < |p| - 1 ensures !(p[i] == '/' && p[i + 1] == '/') {
      if i < k {
        assert p[i + 1] == p[1..][i];
      } else if i == k {
        assert p[i] == p[1..][k - 1];
      } else {
        assert p[i] == rest[i - 1 - k] && p[i + 1] == rest[i - k];
      }
    }
  }

  /** After the scheme, a service name, a separator and a text that starts with `/` (or is
      empty) split back into the service name and that text. */
  lemma SplitServiceOf(serviceName: string, colon: bool, nasPath: string)
    requires ServiceName(serviceName) && (nasPath == [] || nasPath[0] == '/')
    ensures SplitService(FormatNasUri(serviceName, colon, nasPath)[|NAS_SCHEME|..]) == (serviceName, nasPath)
  {
    var sep := if colon then ":" else "";
    var rest := serviceName + sep + nasPath;
    assert FormatNasUri(serviceName, colon, nasPath) == NAS_SCHEME + rest;
    assert FormatNasUri(serviceName, colon, nasPath)[|NAS_SCHEME|..] == rest;
    assert rest == serviceName + (sep + nasPath);
    ServiceRun(serviceName, sep + nasPath);
    assert rest[..|serviceName|] == serviceName;
    assert rest[|serviceName|..] == sep + nasPath;
    if colon {
      assert (sep + nasPath)[1..] == nasPath;
    }
  }

  /** Every text the grammar describes is accepted, with its service name and path. */
  lemma ParseFormatNasUri(serviceName: string, colon: bool, nasPath: string)
    requires ServiceName(serviceName) && PathMatches(nasPath)
    ensures ParseNasUri(FormatNasUri(serviceName, colon, nasPath)) == Ok(NasUri(nasPath, serviceName))
  {
    PathMatchesIsNasPath(nasPath);
    SplitServiceOf(serviceName, colon, nasPath);
    assert Strings.StartsWith(FormatNasUri(serviceName, colon, nasPath), NAS_SCHEME);
  }

  /** The service-name run of `name + t` is `name` when `t` does not start with a
      service-name character. */
  lemma {:induction false} ServiceRun(name: string, t: string)
    requires ServiceName(name) && (t == [] || !ServiceChar(t[0]))
    ensures ServiceLength(name + t) == |name|
    decreases |name|
  {
    if name == [] {
      assert name + t == t;
    } else {
      assert (name + t)[1..] == name[1..] + t;
      ServiceRun(name[1..], t);
    }
  }

  /** The split loses nothing but a `:` between the two parts. */
  lemma SplitServiceParts(rest: string)
    ensures var (service, path) := SplitService(rest);
      ServiceName(service) && (rest == service + path || rest == service + ":" + path)
  {
    var n := ServiceLength(rest);
    var service := rest[..n];
    var after := rest[n..];
    assert SplitService(rest).0 == service && ServiceName(service);
    assert rest == service + after;
    if after != [] && after[0] == ':' {
      var path := after[1..];
      assert SplitService(rest).1 == path;
      assert after == ":" + path;
      assert rest == service + (":" + path);
      assert rest == service + ":" + path;
    } else {
      assert SplitService(rest).1 == after;
    }
  }

  /** Every accepted text is one the grammar describes, and the parts are the ones returned. */
  lemma ParseNasUriSound(nasUri: string)
    requires ParseNasUri(nasUri).Ok?
    ensures var u := ParseNasUri(nasUri).value;
      ServiceName(u.serviceName) && PathMatches(u.nasPath) &&
      (nasUri == FormatNasUri(u.serviceName, false, u.nasPath) || nasUri == FormatNasUri(u.serviceName, true, u.nasPath))
  {
    var u := ParseNasUri(nasUri).value;
    var rest := nasUri[|NAS_SCHEME|..];
    assert nasUri == NAS_SCHEME + rest;
    SplitServiceParts(rest);
    PathMatchesIsNasPath(u.nasPath);
    if rest == u.serviceName + u.nasPath {
      assert nasUri == FormatNasUri(u.serviceName, false, u.nasPath);
    } else {
      assert nasUri == FormatNasUri(u.serviceName, true, u.nasPath);
    }
  }

  /** An accepted path never holds two `/` in a row. */
  lemma AcceptedPathNoDoubleSlash(nasUri: string)
    requires ParseNasUri(nasUri).Ok?
    ensures NoDoubleSlash(ParseNasUri(nasUri).value.nasPath)
  {
  }

  /** A path that begins `//` is refused, whatever follows. */
  lemma DoubleSlashRefused(serviceName: string, colon: bool, rest: string)
    requires ServiceName(serviceName)
    ensures ParseNasUri(FormatNasUri(serviceName, colon, "//" + rest)).Err?
  {
    var p := "//" + rest;
    SplitServiceOf(serviceName, colon, p);
    assert p[0] == '/' && p[1] == '/' && !NoDoubleSlash(p);
  }

  /** The grammar is unambiguous: a text determines its service name and its path. */
  lemma FormatInjective(serviceName: string, colon: bool, nasPath: string, serviceName': string, colon': bool, nasPath': string)
    requires ServiceName(serviceName) && PathMatches(nasPath)
    requires ServiceName(serviceName') && PathMatches(nasPath')
    requires FormatNasUri(serviceName, colon, nasPath) == FormatNasUri(serviceName', colon', nasPath')
    ensures serviceName == serviceName' && nasPath == nasPath'
  {
    ParseFormatNasUri(serviceName, colon, nasPath);
    ParseFormatNasUri(serviceName', colon', nasPath');
  }

  /** Any other scheme is refused. */
  lemma OtherSchemeRefused(nasUri: string)
    requires !Strings.StartsWith(nasUri, NAS_SCHEME)
    ensures ParseNasUri(nasUri) == Err("invalid nas path : " + nasUri)
  {
  }

  /** A segment without `/` in front of a path extends the path. */
  lemma PathSegment(segment: string, p: string)
    requires segment != [] && (forall i :: 0 <= i < |segment| ==> segment[i] != '/')
    requires PathMatches(p) && (p == [] || p[0] == '/')
    ensures PathMatches("/" + segment + p)
  {
    var q := "/" + segment + p;
    assert q[1..] == segment + p;
    SegmentRun(segment, p);
    assert q[1 + |segment|..] == p;
  }

  lemma {:induction false} SegmentRun(segment: string, t: string)
    requires (forall i :: 0 <= i < |segment| ==> segment[i] != '/') && (t == [] || t[0] == '/')
    ensures SegmentLength(segment + t) == |segment|
    decreases |segment|
  {
    if segment == [] {
      assert segment + t == t;
    } else {
      assert (segment + t)[1..] == segment[1..] + t;
      SegmentRun(segment[1..], t);
    }
  }

  /** `nas://service1/mnt/auto` is service `service1` with path `/mnt/auto`. */
  lemma ServiceAndPathExample(serviceName: string, dir: string, name: string)
    requires serviceName == "service1" && dir == "mnt" && name == "auto"
    ensures ParseNasUri(NAS_SCHEME + serviceName + "/" + dir + "/" + name) == Ok(NasUri("/" + dir + "/" + name, serviceName))
  {
    PathSegment(name, "");
    assert "/" + name + "" == "/" + name;
    PathSegment(dir, "/" + name);
    assert "/" + dir + ("/" + name) == "/" + dir + "/" + name;
    ParseFormatNasUri(serviceName, false, "/" + dir + "/" + name);
    assert FormatNasUri(serviceName, false, "/" + dir + "/" + name) == NAS_SCHEME + serviceName + "/" + dir + "/" + name;
  }

  /** `nas:///` is the empty service name with path `/`. */
  lemma RootExample()
    ensures ParseNasUri(NAS_SCHEME + "/") == Ok(NasUri("/", ""))
  {
    ParseFormatNasUri("", false, "/");
    assert FormatNasUri("", false, "/") == NAS_SCHEME + "/";
  }

  /** `nas://service1:/tmp/` is service `service1` with path `/tmp/`. */
  lemma ColonExample(serviceName: string, dir: string)
    requires serviceName == "service1" && dir == "tmp"
    ensures ParseNasUri(NAS_SCHEME + serviceName + ":" + "/" + dir + "/") == Ok(NasUri("/" + dir + "/", serviceName))
  {
    PathSegment(dir, "/");
    ParseFormatNasUri(serviceName, true, "/" + dir + "/");
    assert FormatNasUri(serviceName, true, "/" + dir + "/") == NAS_SCHEME + serviceName + ":" + "/" + dir + "/";
  }

  /** `nas://service1:` is accepted with an empty path. */
  lemma EmptyPathExample(serviceName: string)
    requires serviceName == "service1"
    ensures ParseNasUri(NAS_SCHEME + serviceName + ":") == Ok(NasUri("", serviceName))
  {
    ParseFormatNasUri(serviceName, true, "");
    assert FormatNasUri(serviceName, true, "") == NAS_SCHEME + serviceName + ":";
  }

  // ---------------------------------------------------------------------------------------
  // Small tests.

  /** `isNasProtocol`: `nas://` found at position 0. */
  function IsNasProtocol(inputPath: string): (r: bool)
    ensures r <==> Strings.StartsWith(inputPath, NAS_SCHEME)
  {
    assert Strings.StartsWith(inputPath, NAS_SCHEME) <==> Strings.OccursAt(inputPath, NAS_SCHEME, 0);
    Strings.IndexOf(inputPath, NAS_SCHEME) == 0
  }

  /** `endWithSlash`: an error for the empty path, otherwise whether it ends with `/`. */
  function EndWithSlash(inputPath: string): (r: Result<bool, string>)
    ensures r.Err? <==> inputPath == []
    ensures r.Err? ==> r.error == "Local path could not be Empty"
    ensures r.Ok? ==> (r.value <==> inputPath[|inputPath| - 1] == '/')
  {
    if |inputPath| == 0 then Err("Local path could not be Empty")
    else Ok(inputPath[|inputPath| - 1] == '/')
  }

  // ---------------------------------------------------------------------------------------
  // Local paths.

  /** The root `path.parse(cwd)` reports for a POSIX working directory. */
  function RootOf(cwd: string): string
  {
    if cwd != [] && cwd[0] == '/' then "/" else ""
  }

  /** `resolveLocalPath`: an error for an empty path; a path under the working directory's
      root as it is; a leading `~` replaced by the home directory; anything else joined onto
      the working directory. */
  function ResolveLocalPath(localPath: string, cwd: string, home: string): (r: Result<string, string>)
    ensures r.Err? <==> localPath == []
    ensures r.Err? ==> r.error == "local path could not be empty"
    ensures localPath != [] && Strings.StartsWith(localPath, RootOf(cwd)) ==> r == Ok(localPath)
    ensures localPath != [] && !Strings.StartsWith(localPath, RootOf(cwd)) && localPath[0] == '~' ==>
      r == Ok(home + localPath[1..])
    ensures localPath != [] && !Strings.StartsWith(localPath, RootOf(cwd)) && localPath[0] != '~' ==>
      r == Ok(PosixPath.Join(cwd, localPath))
  {
    if localPath == [] then Err("local path could not be empty")
    else if Strings.StartsWith(localPath, RootOf(cwd)) then Ok(localPath)
    else if Strings.StartsWith(localPath, "~") then Ok(home + localPath[1..])
    else Ok(PosixPath.Join(cwd, localPath))
  }

  /** From an absolute working directory, a relative plain name lands directly below it. */
  lemma ResolveRelativeName(dir: seq<string>, name: string, home: string)
    requires |dir| > 0 && forall i :: 0 <= i < |dir| ==> PosixPath.PlainSegment(dir[i])
    requires PosixPath.PlainSegment(name) && name[0] != '~'
    ensures ResolveLocalPath(name, "/" + Strings.Join(dir, "/"), home) == Ok("/" + Strings.Join(dir, "/") + "/" + name)
  {
    PosixPath.JoinPlain(dir, name);
  }

  /** `~/file` resolves to the home directory followed by `/file`. */
  lemma ResolveHomeFile(rest: string, cwd: string, home: string)
    requires cwd != [] && cwd[0] == '/'
    ensures ResolveLocalPath("~" + rest, cwd, home) == Ok(home + rest)
  {
    assert ("~" + rest)[1..] == rest;
  }

  // ---------------------------------------------------------------------------------------
  // Resumable upload.

  /** A split file is uploaded again unless the server records its basename with the same
      hash as the local file. */
  predicate NeedsUpload(uploaded: map<string, string>, hash: string -> string, splitFile: string)
  {
    var name := PosixPath.Basename(splitFile);
    name !in uploaded || uploaded[name] != hash(splitFile)
  }

  /** The split files still to upload, in order. */
  function ToUpload(uploaded: map<string, string>, hash: string -> string, files: seq<string>): (r: seq<string>)
    ensures |r| <= |files|
  {
    if files == [] then []
    else
      var init := files[..|files| - 1];
      var last := files[|files| - 1];
      ToUpload(uploaded, hash, init) + (if NeedsUpload(uploaded, hash, last) then [last] else [])
  }

  /** A file is kept exactly when it is one of the files and needs uploading. */
  lemma {:induction false} ToUploadMembers(uploaded: map<string, string>, hash: string -> string, files: seq<string>)
    ensures forall f :: f in ToUpload(uploaded, hash, files) <==> f in files && NeedsUpload(uploaded, hash, f)
  {
    if files != [] {
      var init := files[..|files| - 1];
      ToUploadMembers(uploaded, hash, init);
      assert files == init + [files[|files| - 1]];
    }
  }

  /** When every file needs uploading, all are kept in order. */
  lemma {:induction false} ToUploadAll(uploaded: map<string, string>, hash: string -> string, files: seq<string>)
    requires forall i :: 0 <= i < |files| ==> NeedsUpload(uploaded, hash, files[i])
    ensures ToUpload(uploaded, hash, files) == files
  {
    if files != [] {
      var init := files[..|files| - 1];
      var last := files[|files| - 1];
      assert forall i :: 0 <= i < |init| ==> init[i] == files[i];
      ToUploadAll(uploaded, hash, init);
      assert NeedsUpload(uploaded, hash, last);
      assert init + [last] == files;
    }
  }

  lemma ToUploadSnoc(uploaded: map<string, string>, hash: string -> string, done: seq<string>, f: string)
    ensures ToUpload(uploaded, hash, done + [f]) ==
      ToUpload(uploaded, hash, done) + (if NeedsUpload(uploaded, hash, f) then [f] else [])
  {
    var all := done + [f];
    assert all[..|all| - 1] == done && all[|all| - 1] == f;
  }

  /** The test inside `splitFiles`: a file whose basename the server records is hashed and
      kept when the hashes differ; a file the server does not know is kept. */
  method NeedsUploadCheck(uploadedSplitFilesHash: map<string, string>, splitFile: string, hash: string -> string)
    returns (keep: bool)
    ensures keep == NeedsUpload(uploadedSplitFilesHash, hash, splitFile)
  {
    var name := PosixPath.Basename(splitFile);
    if name in uploadedSplitFilesHash {
      var localSplitFileHash := hash(splitFile);
      keep := uploadedSplitFilesHash[name] != localSplitFileHash;
    } else {
      keep := true;
    }
  }

  /** `splitFiles`: the loop over the split files, keeping those still to upload. */
  method SplitFiles(uploadedSplitFilesHash: map<string, string>, splitFilePathArr: seq<string>, hash: string -> string)
    returns (res: seq<string>)
    ensures res == ToUpload(uploadedSplitFilesHash, hash, splitFilePathArr)
  {
    res := [];
    var i := 0;
    ghost var done: seq<string> := [];
    while i < |splitFilePathArr|
      invariant 0 <= i <= |splitFilePathArr|
      invariant done == splitFilePathArr[..i]
      invariant res == ToUpload(uploadedSplitFilesHash, hash, done)
    {
      var splitFile := splitFilePathArr[i];
      ToUploadSnoc(uploadedSplitFilesHash, hash, done, splitFile);
      var keep := NeedsUploadCheck(uploadedSplitFilesHash, splitFile, hash);
      if keep {
        res := res + [splitFile];
      } else {
        assert res + [] == res;
      }
      done := done + [splitFile];
      i := i + 1;
    }
    assert done == splitFilePathArr;
  }
}

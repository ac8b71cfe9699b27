/** Node's `path.posix` operations that the core uses: `basename`, `normalize` and `join`.
    A path is split at `/` into segments; `.` and empty segments vanish and `..` removes
    the segment before it. */
module PosixPath {
  import Strings

  /** A segment that `normalize` keeps as it is. */
  predicate PlainSegment(s: string)
  {
    s != "" && s != "." && s != ".." && '/' !in s
  }

  /** One segment applied to the stack of kept segments. Above the root (relative paths)
      a `..` that has nothing to remove is kept; at the root it is dropped. */
  function Step(stack: seq<string>, seg: string, aboveRoot: bool): seq<string>
  {
    if seg == "" || seg == "." then stack
    else if seg == ".." then
      (if |stack| > 0 && stack[|stack| - 1] != ".." then stack[..|stack| - 1]
       else if aboveRoot then stack + [".."]
       else stack)
    else stack + [seg]
  }

  function Resolve(stack: seq<string>, segs: seq<string>, aboveRoot: bool): seq<string>
    decreases |segs|
  {
    if segs == [] then stack else Resolve(Step(stack, segs[0], aboveRoot), segs[1..], aboveRoot)
  }

  /** The segments a normalized path may hold: no empty or `.` segment, and `..` only above the root. */
  predicate Clean(stack: seq<string>, aboveRoot: bool)
  {
    forall i :: 0 <= i < |stack| ==> stack[i] != "" && stack[i] != "." && (stack[i] == ".." ==> aboveRoot)
  }

  lemma {:induction false} ResolveClean(stack: seq<string>, segs: seq<string>, aboveRoot: bool)
    requires Clean(stack, aboveRoot)
    ensures Clean(Resolve(stack, segs, aboveRoot), aboveRoot)
    decreases |segs|
  {
    if segs != [] {
      ResolveClean(Step(stack, segs[0], aboveRoot), segs[1..], aboveRoot);
    }
  }

  /** `path.posix.normalize(p)` */
  function Normalize(p: string): string
  {
    if p == [] then "."
    else Assemble(p[0] == '/', p[|p| - 1] == '/', Strings.Join(Resolve([], Strings.Split(p, '/'), p[0] != '/'), "/"))
  }

  /** The normalized body with its leading and trailing `/` put back. */
  function Assemble(absolute: bool, trailing: bool, body: string): string
  {
    if body == [] then (if absolute then "/" else if trailing then "./" else ".")
    else (if absolute then "/" else "") + body + (if trailing then "/" else "")
  }

  /** `path.posix.join(a, b)`: the non-empty arguments joined with `/`, then normalized. */
  function Join(a: string, b: string): string
  {
    Normalize(if a == [] then b else if b == [] then a else a + "/" + b)
  }

  /** Normalizing an absolute path gives an absolute path without `.`, `..` or empty segments. */
  lemma NormalizeAbsolute(p: string)
    requires |p| > 0 && p[0] == '/'
    ensures |Normalize(p)| > 0 && Normalize(p)[0] == '/'
    ensures Clean(Resolve([], Strings.Split(p, '/'), false), false)
  {
    ResolveClean([], Strings.Split(p, '/'), false);
  }

  /** An absolute path made of plain segments is already normal. */
  lemma NormalizePlainAbsolute(segs: seq<string>)
    requires |segs| > 0 && forall i :: 0 <= i < |segs| ==> PlainSegment(segs[i])
    ensures Normalize("/" + Strings.Join(segs, "/")) == "/" + Strings.Join(segs, "/")
  {
    var j := Strings.Join(segs, "/");
    var p := "/" + j;
    LastOfJoin(segs);
    assert p[|p| - 1] == j[|j| - 1];
    PlainNoSlash(segs);
    Strings.SplitJoin(segs, '/');
    SplitLead(j);
    var split := Strings.Split(p, '/');
    assert split == [""] + segs;
    assert split[1..] == segs;
    ResolvePlain([], segs);
    assert Resolve([], split, false) == Resolve(Step([], split[0], false), split[1..], false);
    assert Resolve([], split, false) == segs;
    assert Normalize(p) == Assemble(true, false, j);
  }

  /** The join of plain segments is non-empty and ends with the last segment's last character. */
  lemma {:induction false} LastOfJoin(segs: seq<string>)
    requires |segs| > 0 && forall i :: 0 <= i < |segs| ==> PlainSegment(segs[i])
    ensures var j := Strings.Join(segs, "/"); |j| > 0 && j[|j| - 1] != '/'
  {
    if |segs| > 1 {
      LastOfJoin(segs[1..]);
    }
  }

  /** Joining a single plain segment onto an absolute directory made of plain segments
      appends it after one `/`. */
  lemma JoinPlain(dir: seq<string>, name: string)
    requires |dir| > 0 && forall i :: 0 <= i < |dir| ==> PlainSegment(dir[i])
    requires PlainSegment(name)
    ensures Join("/" + Strings.Join(dir, "/"), name) == "/" + Strings.Join(dir, "/") + "/" + name
  {
    var d := Strings.Join(dir, "/");
    var j := Strings.Join(dir + [name], "/");
    JoinNonEmpty("/" + d, name);
    SnocPlain(dir, name);
    NormalizePlainAbsolute(dir + [name]);
    JoinSnoc(dir, name);
    Assoc(d, name);
    assert ("/" + d) + "/" + name == "/" + j;
  }

  lemma Assoc(d: string, name: string)
    ensures ("/" + d) + "/" + name == "/" + (d + "/" + name)
  {
  }

  lemma JoinNonEmpty(a: string, b: string)
    requires a != [] && b != []
    ensures Join(a, b) == Normalize(a + "/" + b)
  {
  }

  lemma SnocPlain(dir: seq<string>, name: string)
    requires forall i :: 0 <= i < |dir| ==> PlainSegment(dir[i])
    requires PlainSegment(name)
    ensures forall i :: 0 <= i < |dir + [name]| ==> PlainSegment((dir + [name])[i])
  {
  }

  lemma SplitLead(s: string)
    ensures Strings.Split("/" + s, '/') == [""] + Strings.Split(s, '/')
  {
    assert ("/" + s)[1..] == s;
  }

  lemma {:induction false} JoinSnoc(parts: seq<string>, x: string)
    requires |parts| > 0
    ensures Strings.Join(parts + [x], "/") == Strings.Join(parts, "/") + "/" + x
  {
    if |parts| == 1 {
      assert (parts + [x])[1..] == [x];
    } else {
      JoinSnoc(parts[1..], x);
      assert (parts + [x])[1..] == parts[1..] + [x];
    }
  }

  lemma PlainNoSlash(segs: seq<string>)
    requires forall i :: 0 <= i < |segs| ==> PlainSegment(segs[i])
    ensures forall i :: 0 <= i < |segs| ==> '/' !in segs[i]
  {
  }

  /** Plain segments are all kept, in order. */
  lemma {:induction false} ResolvePlain(stack: seq<string>, segs: seq<string>)
    requires forall i :: 0 <= i < |segs| ==> PlainSegment(segs[i])
    ensures Resolve(stack, segs, false) == stack + segs
    decreases |segs|
  {
    if segs != [] {
      ResolvePlain(stack + [segs[0]], segs[1..]);
      assert stack + [segs[0]] + segs[1..] == stack + segs;
    }
  }

  /** The path with its trailing `/` characters removed. */
  function StripTrailingSlashes(p: string): (r: string)
    ensures |r| <= |p| && r == p[..|r|]
    ensures r == [] || r[|r| - 1] != '/'
  {
    if p == [] || p[|p| - 1] != '/' then p else StripTrailingSlashes(p[..|p| - 1])
  }

  /** The text after the last `/`. */
  function AfterLastSlash(p: string): (r: string)
    ensures '/' !in r && |r| <= |p| && r == p[|p| - |r|..]
  {
    if p == [] || p[|p| - 1] == '/' then [] else AfterLastSlash(p[..|p| - 1]) + [p[|p| - 1]]
  }

  /** `path.posix.basename(p)`: the last segment, ignoring trailing slashes. */
  function Basename(p: string): (r: string)
    ensures '/' !in r
  {
    AfterLastSlash(StripTrailingSlashes(p))
  }

  /** The basename of `dir/name` is `name` when `name` is a non-empty segment. */
  lemma {:induction false} BasenameOfChild(dir: string, name: string)
    requires name != [] && '/' !in name
    ensures Basename(dir + "/" + name) == name
  {
    var p := dir + "/" + name;
    assert StripTrailingSlashes(p) == p by { assert p[|p| - 1] == name[|name| - 1]; }
    AfterLastSlashSuffix(dir + "/", name);
  }

  lemma {:induction false} AfterLastSlashSuffix(d: string, name: string)
    requires |d| > 0 && d[|d| - 1] == '/' && '/' !in name
    ensures AfterLastSlash(d + name) == name
    decreases |name|
  {
    if name == [] {
      assert d + name == d;
    } else {
      var p := d + name;
      AfterLastSlashSuffix(d, name[..|name| - 1]);
      assert p[..|p| - 1] == d + name[..|name| - 1];
      assert name[..|name| - 1] + [name[|name| - 1]] == name;
    }
  }
}

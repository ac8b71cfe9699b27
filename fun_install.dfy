/** bin/fun-install.js: the `-e key=value` list turned into an environment object, and the
    option guard in front of the `sbox` sub-command. Option parsing by the command-line
    library is outside the model: the parsed option values are parameters. */
module FunInstall {
  import opened Wrappers
  import Strings
  import JsObject

  /** `convertEnvs`: each entry split at `=` into at most two pieces, entries without `=`
      dropped, the pairs stored left to right into an empty object; no list gives `{}`. */
  function ConvertEnvs(env: Option<seq<string>>): (r: JsObject.Obj<string>)
    ensures JsObject.UniqueKeys(r)
    ensures env.None? ==> r == []
  {
    var entries := if env.Some? then env.value else [];
    JsObject.EntriesToObjectGet(entries, "");
    JsObject.EntriesToObject(entries)
  }

  /** A key holds the value of the last entry naming it, and only keys some entry names are
      present. */
  lemma ConvertEnvsGet(entries: seq<string>, k: string)
    ensures JsObject.Get(ConvertEnvs(Some(entries)), k) == JsObject.LastValue(JsObject.Pairs(entries), k)
  {
    JsObject.EntriesToObjectGet(entries, k);
  }

  /** Two entries with different keys give the object with both, in order. */
  lemma ConvertEnvsTwo(k1: string, v1: string, k2: string, v2: string)
    requires '=' !in k1 && '=' !in v1 && '=' !in k2 && '=' !in v2 && k1 != k2
    ensures ConvertEnvs(Some([k1 + "=" + v1, k2 + "=" + v2])) == [(k1, v1), (k2, v2)]
  {
    var entries := [k1 + "=" + v1, k2 + "=" + v2];
    JsObject.PairOfFormat(k1, v1);
    JsObject.PairOfFormat(k2, v2);
    assert entries[1..] == [k2 + "=" + v2] && entries[1..][1..] == [];
    var pairs := [(k1, v1), (k2, v2)];
    assert JsObject.Pairs(entries) == pairs;
    var one := JsObject.Put([], k1, v1);
    assert one == [(k1, v1)];
    assert JsObject.Keys(one) == [k1];
    JsObject.PutAbsent(one, k2, v2);
    assert pairs[1..] == [(k2, v2)] && pairs[1..][1..] == [];
    assert JsObject.Assign([], pairs) == JsObject.Assign(one, pairs[1..]);
    assert JsObject.Assign(one, pairs[1..]) == JsObject.Assign(JsObject.Put(one, k2, v2), []);
  }

  /** A later entry with the same key overwrites the earlier value in place. */
  lemma ConvertEnvsOverwrite(k: string, v1: string, v2: string)
    requires '=' !in k && '=' !in v1 && '=' !in v2
    ensures ConvertEnvs(Some([k + "=" + v1, k + "=" + v2])) == [(k, v2)]
  {
    var entries := [k + "=" + v1, k + "=" + v2];
    JsObject.PairOfFormat(k, v1);
    JsObject.PairOfFormat(k, v2);
    assert entries[1..] == [k + "=" + v2] && entries[1..][1..] == [];
    var pairs := [(k, v1), (k, v2)];
    assert JsObject.Pairs(entries) == pairs;
    var one := JsObject.Put([], k, v1);
    assert one == [(k, v1)];
    assert JsObject.Put(one, k, v2) == [(k, v2)];
    assert pairs[1..] == [(k, v2)] && pairs[1..][1..] == [];
    assert JsObject.Assign([], pairs) == JsObject.Assign(one, pairs[1..]);
    assert JsObject.Assign(one, pairs[1..]) == JsObject.Assign(JsObject.Put(one, k, v2), []);
  }

  /** `A=B=C`: the split limit of two keeps `B` as the value and drops the rest. */
  lemma ConvertEnvsTruncates(k: string, v: string, rest: string)
    requires '=' !in k && '=' !in v
    ensures ConvertEnvs(Some([k + "=" + v + "=" + rest])) == [(k, v)]
  {
    var e := k + "=" + v + "=" + rest;
    assert e == k + ['='] + (v + ['='] + rest);
    Strings.SplitAfter(k, '=', v + ['='] + rest);
    Strings.SplitAfter(v, '=', rest);
    assert Strings.Split(e, '=') == [k, v] + Strings.Split(rest, '=');
    assert Strings.SplitLimit(e, '=', 2) == [k, v];
    var entries := [e];
    assert entries[1..] == [];
    assert JsObject.PairOf(e) == Some((k, v));
    assert JsObject.Pairs(entries) == [(k, v)];
    var pairs := [(k, v)];
    assert pairs[1..] == [];
    assert JsObject.Put([], k, v) == [(k, v)];
    assert JsObject.Assign([], pairs) == JsObject.Assign(JsObject.Put([], k, v), []);
  }

  /** An entry without `=` contributes nothing. */
  lemma ConvertEnvsDropsBare(e: string, entries: seq<string>)
    requires '=' !in e
    ensures ConvertEnvs(Some([e] + entries)) == ConvertEnvs(Some(entries))
  {
    JsObject.PairOfSpec(e);
    assert ([e] + entries)[1..] == entries;
  }

  // ---------------------------------------------------------------------------------------
  // The sbox guard.

  const MISSING_TARGET: string := "The `--runtime` or `--function` option is missing."
  const MISSING_MODE: string := "The `--interactive` or `--cmd` option is missing."

  /** What the `sbox` action does: print an error and return, or call `sbox` with options. */
  datatype SboxOutcome =
    | Refused(message: string)
    | RunSbox(functionName: string, runtime: string, interactive: bool, cmd: string, envs: JsObject.Obj<string>)

  /** The `sbox` action after option parsing: the sub-command's own function name, `runtime`,
      `interactive` and `cmd` (an absent text option is empty), and the top-level command's
      `function`, `runtime` and `env`, which override or feed them. */
  function SboxAction(functionName: string, runtime: string, interactive: bool, cmd: string,
                      programFunction: string, programRuntime: string, programEnv: Option<seq<string>>): (r: SboxOutcome)
    ensures r.RunSbox? <==> (functionName != [] || runtime != [] || programFunction != [] || programRuntime != []) &&
                            (interactive || cmd != [])
    ensures r.Refused? ==> r.message == (if functionName == [] && runtime == [] && programFunction == [] && programRuntime == []
                                         then MISSING_TARGET else MISSING_MODE)
    ensures r.RunSbox? ==> r.functionName == (if programFunction != [] then programFunction else functionName) &&
                           r.runtime == (if programRuntime != [] then programRuntime else runtime) &&
                           r.interactive == interactive && r.cmd == cmd && r.envs == ConvertEnvs(programEnv)
  {
    var fn := if programFunction != [] then programFunction else functionName;
    var rt := if programRuntime != [] then programRuntime else runtime;
    if fn == [] && rt == [] then Refused(MISSING_TARGET)
    else if !interactive && cmd == [] then Refused(MISSING_MODE)
    else RunSbox(fn, rt, interactive, cmd, ConvertEnvs(programEnv))
  }
}

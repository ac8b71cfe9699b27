/** bin/fun-init.js: `parseVars`, the `-V key=value` option handler that stores template
    variables into the object it is handed. */
module FunInit {
  import opened Wrappers
  import Strings
  import JsObject

  predicate KeyStart(c: char)
  {
    ('a' <= c <= 'z') || ('A' <= c <= 'Z') || c == '_'
  }

  predicate KeyChar(c: char)
  {
    KeyStart(c) || Strings.IsDigit(c)
  }

  /** A template variable name: a letter or `_`, then letters, digits and `_`. */
  predicate IsKey(k: string)
  {
    k != [] && KeyStart(k[0]) && forall i :: 0 <= i < |k| ==> KeyChar(k[i])
  }

  /** The characters a regular-expression `.` does not match. */
  predicate LineTerminator(c: char)
  {
    c == '\n' || c == '\r' || c as int == 0x2028 || c as int == 0x2029
  }

  predicate NoLineTerminator(s: string)
  {
    forall i :: 0 <= i < |s| ==> !LineTerminator(s[i])
  }

  /** The length of the leading run of name characters. */
  function KeyLength(s: string): (n: nat)
    ensures n <= |s| && (forall i :: 0 <= i < n ==> KeyChar(s[i])) && (n < |s| ==> !KeyChar(s[n]))
  {
    if s == [] || !KeyChar(s[0]) then 0 else 1 + KeyLength(s[1..])
  }

  /** The text up to the first line terminator. */
  function LineLength(s: string): (n: nat)
    ensures n <= |s| && NoLineTerminator(s[..n]) && (n < |s| ==> LineTerminator(s[n]))
  {
    if s == [] || LineTerminator(s[0]) then 0
    else
      var n := 1 + LineLength(s[1..]);
      assert forall i :: 1 <= i < n ==> s[..n][i] == s[1..][..n - 1][i - 1];
      n
  }

  /** The match of `(^[a-zA-Z_][a-zA-Z\d_]*)=(.*)` as groups 1 and 2: the name is the whole
      leading run of name characters and must be followed by `=`; the value runs to the first
      line terminator. */
  function MatchVar(val: string): Option<(string, string)>
  {
    var n := KeyLength(val);
    if n >= 1 && KeyStart(val[0]) && n < |val| && val[n] == '=' then
      var rest := val[n + 1..];
      Some((val[..n], rest[..LineLength(rest)]))
    else None
  }

  /** A match names a variable, and `name=value` starts the option text, with the value ending
      at the end of the text or at a line terminator. */
  lemma MatchVarSound(val: string)
    requires MatchVar(val).Some?
    ensures var (k, v) := MatchVar(val).value;
      IsKey(k) && NoLineTerminator(v) && Strings.StartsWith(val, k + "=" + v) &&
      (|val| == |k| + 1 + |v| || LineTerminator(val[|k| + 1 + |v|]))
  {
    var (k, v) := MatchVar(val).value;
    var n := |k|;
    var rest := val[n + 1..];
    assert val[..n + 1 + |v|] == k + "=" + v;
    if |val| > n + 1 + |v| {
      assert val[n + 1 + |v|] == rest[|v|];
    }
  }

  /** Every option text that starts with a name and `=` matches, with that name; a value without
      line terminator is kept whole. */
  lemma MatchVarComplete(k: string, v: string, rest: string)
    requires IsKey(k) && NoLineTerminator(v) && (rest == [] || LineTerminator(rest[0]))
    ensures MatchVar(k + "=" + v + rest) == Some((k, v))
  {
    var val := k + "=" + v + rest;
    var tail := "=" + v + rest;
    assert val == k + tail;
    assert tail[0] == '=' && tail[1..] == v + rest;
    KeyRun(k, tail);
    assert val[..|k|] == k && val[|k|] == '=' && val[|k| + 1..] == v + rest;
    LineRun(v, rest);
    assert (v + rest)[..|v|] == v;
  }

  lemma {:induction false} KeyRun(k: string, t: string)
    requires (forall i :: 0 <= i < |k| ==> KeyChar(k[i])) && (t == [] || !KeyChar(t[0]))
    ensures KeyLength(k + t) == |k|
    decreases |k|
  {
    if k == [] {
      assert k + t == t;
    } else {
      assert (k + t)[1..] == k[1..] + t;
      KeyRun(k[1..], t);
    }
  }

  lemma {:induction false} LineRun(v: string, t: string)
    requires NoLineTerminator(v) && (t == [] || LineTerminator(t[0]))
    ensures LineLength(v + t) == |v|
    decreases |v|
  {
    if v == [] {
      assert v + t == t;
    } else {
      assert (v + t)[1..] == v[1..] + t;
      LineRun(v[1..], t);
    }
  }

  /** Text that starts with a name and `=` matches with that name, so text that does not
      match starts with no name followed by `=`. */
  lemma MatchVarKey(val: string, k: string)
    requires IsKey(k) && Strings.StartsWith(val, k + "=")
    ensures MatchVar(val).Some? && MatchVar(val).value.0 == k
  {
    var tail := val[|k|..];
    assert val == k + tail && val[..|k|] == k;
    assert tail[0] == '=';
    KeyRun(k, tail);
  }

  /** The object the `-V` handler accumulates into. */
  class Vars {
    var entries: JsObject.Obj<string>

    constructor ()
      ensures entries == []
    {
      entries := [];
    }
  }

  /** The variables after one `-V` option: on a match the name is set to the value (an
      existing name keeps its place), every other name is untouched; otherwise nothing changes. */
  function Updated(before: JsObject.Obj<string>, val: string): (r: JsObject.Obj<string>)
    ensures MatchVar(val).None? ==> r == before
    ensures MatchVar(val).Some? ==>
      JsObject.Get(r, MatchVar(val).value.0) == Some(MatchVar(val).value.1) &&
      (forall k :: k != MatchVar(val).value.0 ==> JsObject.Get(r, k) == JsObject.Get(before, k)) &&
      JsObject.Keys(r) == (if MatchVar(val).value.0 in JsObject.Keys(before) then JsObject.Keys(before)
                           else JsObject.Keys(before) + [MatchVar(val).value.0])
    ensures JsObject.UniqueKeys(before) ==> JsObject.UniqueKeys(r)
  {
    match MatchVar(val)
    case Some((k, v)) =>
      assert JsObject.UniqueKeys(before) ==> JsObject.UniqueKeys(JsObject.Put(before, k, v)) by {
        if JsObject.UniqueKeys(before) {
          JsObject.PutKeepsUnique(before, k, v);
        }
      }
      JsObject.Put(before, k, v)
    case None => before
  }

  /** `parseVars`: with no accumulator yet a fresh empty one is made; the option updates it and
      it is returned. */
  method ParseVars(val: string, vars: Vars?) returns (r: Vars)
    modifies vars
    ensures vars != null ==> r == vars && r.entries == Updated(old(vars.entries), val)
    ensures vars == null ==> fresh(r) && r.entries == Updated([], val)
  {
    var group := MatchVar(val);
    if vars == null {
      r := new Vars();
    } else {
      r := vars;
    }
    if group.Some? {
      r.entries := JsObject.Put(r.entries, group.value.0, group.value.1);
    }
  }
}

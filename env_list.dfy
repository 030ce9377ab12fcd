/** An insertion-ordered `Dict[str, str]` (a parsed env file, or `os.environ`) as a list of
    key/value pairs, with the lookups the scripts perform on it. */
module EnvList {
  import opened PyStr

  type Env = seq<(string, string)>

  predicate DistinctKeys(env: Env)
  {
    forall i, j :: 0 <= i < j < |env| ==> env[i].0 != env[j].0
  }

  function Keys(env: Env): (r: seq<string>)
    ensures |r| == |env|
    ensures forall i :: 0 <= i < |env| ==> r[i] == env[i].0
  {
    if env == [] then [] else [env[0].0] + Keys(env[1..])
  }

  /** `env.get(k)`: the value stored under exactly `k`. */
  function Get(env: Env, k: string): (r: Option<string>)
    ensures r.None? <==> forall i :: 0 <= i < |env| ==> env[i].0 != k
    ensures r.Some? ==> exists i :: 0 <= i < |env| && env[i] == (k, r.value)
  {
    if env == [] then None
    else if env[0].0 == k then Some(env[0].1)
    else
      var r := Get(env[1..], k);
      assert forall i :: 1 <= i < |env| ==> env[i] == env[1..][i - 1];
      r
  }

  /** `env[k] = v`: an existing key keeps its position and takes the new value; a new key goes last. */
  function Put(env: Env, k: string, v: string): (r: Env)
    ensures |r| == if k in Keys(env) then |env| else |env| + 1
  {
    if env == [] then [(k, v)]
    else if env[0].0 == k then [(k, v)] + env[1..]
    else [env[0]] + Put(env[1..], k, v)
  }

  lemma KeysCons(x: (string, string), env: Env)
    ensures Keys([x] + env) == [x.0] + Keys(env)
  {
    assert ([x] + env)[1..] == env;
  }

  /** After `env[k] = v` the key reads back `v`, every other key reads as before. */
  lemma {:induction false} PutGet(env: Env, k: string, v: string, k': string)
    ensures Get(Put(env, k, v), k') == if k' == k then Some(v) else Get(env, k')
  {
    if env != [] && env[0].0 != k {
      PutGet(env[1..], k, v, k');
      assert Put(env, k, v)[1..] == Put(env[1..], k, v);
    } else if env != [] {
      assert Put(env, k, v)[1..] == env[1..];
    }
  }

  /** Assignment keeps the key order and appends a new key at the end. */
  lemma {:induction false} PutKeys(env: Env, k: string, v: string)
    ensures Keys(Put(env, k, v)) == if k in Keys(env) then Keys(env) else Keys(env) + [k]
  {
    if env != [] {
      KeysCons(env[0], env[1..]);
      assert env == [env[0]] + env[1..];
      if env[0].0 == k {
        KeysCons((k, v), env[1..]);
      } else {
        PutKeys(env[1..], k, v);
        KeysCons(env[0], Put(env[1..], k, v));
      }
    }
  }

  lemma PutDistinct(env: Env, k: string, v: string)
    requires DistinctKeys(env)
    ensures DistinctKeys(Put(env, k, v))
  {
    var r := Put(env, k, v);
    PutKeys(env, k, v);
    forall i, j | 0 <= i < j < |r| ensures r[i].0 != r[j].0 {
      assert Keys(r)[i] == r[i].0 && Keys(r)[j] == r[j].0;
      if j < |env| {
        assert Keys(env)[i] == env[i].0 && Keys(env)[j] == env[j].0;
      } else {
        assert Keys(r)[j] == k && k !in Keys(env);
        assert Keys(env)[i] == env[i].0;
      }
    }
  }

  /** The dictionary that `env[key] = val` leaves after running over `entries` in order,
      where `None` stands for a line that assigns nothing. */
  function Assignments(entries: seq<Option<(string, string)>>): (env: Env)
    ensures DistinctKeys(env)
  {
    if entries == [] then []
    else
      var env := Assignments(entries[..|entries| - 1]);
      match entries[|entries| - 1]
      case None => env
      case Some((k, v)) => PutDistinct(env, k, v); Put(env, k, v)
  }

  /** A repeated key keeps the value of its last assignment. */
  lemma {:induction false} LastAssignmentWins(entries: seq<Option<(string, string)>>, i: nat, k: string, v: string)
    requires i < |entries| && entries[i] == Some((k, v))
    requires forall j :: i < j < |entries| ==> entries[j].None? || entries[j].value.0 != k
    ensures Get(Assignments(entries), k) == Some(v)
  {
    var front := entries[..|entries| - 1];
    var env := Assignments(front);
    if i == |entries| - 1 {
      PutGet(env, k, v, k);
    } else {
      assert forall j :: i < j < |front| ==> front[j] == entries[j];
      LastAssignmentWins(front, i, k, v);
      match entries[|entries| - 1]
      case None =>
      case Some((k', v')) => PutGet(env, k', v', k);
    }
  }

  /** A key no entry assigns is absent. */
  lemma {:induction false} NeverAssigned(entries: seq<Option<(string, string)>>, k: string)
    requires forall j :: 0 <= j < |entries| ==> entries[j].None? || entries[j].value.0 != k
    ensures Get(Assignments(entries), k) == None
  {
    if entries != [] {
      var front := entries[..|entries| - 1];
      assert forall j :: 0 <= j < |front| ==> front[j] == entries[j];
      NeverAssigned(front, k);
      match entries[|entries| - 1]
      case None =>
      case Some((k', v')) => PutGet(Assignments(front), k', v', k);
    }
  }

  /** Looking a key up in `{k.lower(): v for k, v in env.items()}`: when several keys agree up
      to case, the one that comes last in the dictionary's order supplies the value. */
  function FoldedGet(env: Env, key: string): (r: Option<string>)
    ensures r.None? <==> forall i :: 0 <= i < |env| ==> Lower(env[i].0) != Lower(key)
  {
    if env == [] then None
    else
      var last := env[|env| - 1];
      if Lower(last.0) == Lower(key) then Some(last.1)
      else FoldedGet(env[..|env| - 1], key)
  }

  /** The value found is that of the last key equal to `key` up to case. */
  lemma {:induction false} FoldedGetIsLastMatch(env: Env, key: string, i: nat)
    requires i < |env| && Lower(env[i].0) == Lower(key)
    requires forall j :: i < j < |env| ==> Lower(env[j].0) != Lower(key)
    ensures FoldedGet(env, key) == Some(env[i].1)
  {
    if i < |env| - 1 {
      var front := env[..|env| - 1];
      assert forall j :: i < j < |front| ==> front[j] == env[j];
      FoldedGetIsLastMatch(front, key, i);
    }
  }

  /** Python truthiness of an optional string: present and non-empty. */
  predicate Filled(v: Option<string>)
  {
    v.Some? && v.value != ""
  }

  /** `get_any(env, candidates)` of both bulk generators: the value of the first candidate
      whose case-insensitive lookup gives a non-empty string. */
  function GetAny(env: Env, candidates: seq<string>): (r: Option<string>)
    ensures r.None? <==> forall i :: 0 <= i < |candidates| ==> !Filled(FoldedGet(env, candidates[i]))
    ensures r.Some? ==> r.value != ""
  {
    if candidates == [] then None
    else
      var v := FoldedGet(env, candidates[0]);
      if Filled(v) then v
      else
        var r := GetAny(env, candidates[1..]);
        assert forall i :: 1 <= i < |candidates| ==> candidates[i] == candidates[1..][i - 1];
        r
  }

  /** The value is that of the first filled candidate. */
  lemma {:induction false} GetAnyIsFirstFilled(env: Env, candidates: seq<string>, i: nat)
    requires i < |candidates| && Filled(FoldedGet(env, candidates[i]))
    requires forall j :: 0 <= j < i ==> !Filled(FoldedGet(env, candidates[j]))
    ensures GetAny(env, candidates) == FoldedGet(env, candidates[i])
  {
    if i > 0 {
      var rest := candidates[1..];
      assert forall j :: 0 <= j < i - 1 ==> rest[j] == candidates[j + 1];
      GetAnyIsFirstFilled(env, rest, i - 1);
    }
  }

  /** Only the first filled candidate matters: anything listed after it is never consulted. */
  lemma GetAnyStopsAtFirst(env: Env, candidates: seq<string>)
    requires candidates != [] && Filled(FoldedGet(env, candidates[0]))
    ensures GetAny(env, candidates) == FoldedGet(env, candidates[0])
  {
  }

  /** When the first candidate is empty or missing, the second one decides if it is filled. */
  lemma GetAnySecond(env: Env, first: string, second: string, third: string)
    requires !Filled(FoldedGet(env, first)) && Filled(FoldedGet(env, second))
    ensures GetAny(env, [first, second, third]) == FoldedGet(env, second)
  {
    var cs := [first, second, third];
    assert cs[1..] == [second, third];
  }

  /** Case does not matter for the keys of the file nor for the candidates. */
  lemma {:induction false} FoldedGetIgnoresCase(env: Env, a: string, b: string)
    requires Lower(a) == Lower(b)
    ensures FoldedGet(env, a) == FoldedGet(env, b)
  {
    if env != [] {
      FoldedGetIgnoresCase(env[..|env| - 1], a, b);
    }
  }

  const TrueWords: set<string> := {"1", "true", "yes", "y", "on"}

  /** `to_bool(s, default)` of both bulk generators. */
  function ToBool(s: Option<string>, default: bool): (b: bool)
    ensures s.None? ==> b == default
    ensures s.Some? ==> (b <==> Lower(Strip(s.value)) in TrueWords)
  {
    if s.None? then default else Lower(Strip(s.value)) in TrueWords
  }
}

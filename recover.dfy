/** The account-recovery listener: where it looks for its env file, how it reads its
    boolean flags and its single proxy, and which string sessions it picks up. The
    process environment is an ordered list of name/value pairs. */
module Recover {
  import opened PyStr
  import opened EnvList
  import opened Ordered
  import opened SessionEnv

  /** The words `strtobool` reads as true. */
  const StrToBoolWords: set<string> := {"1", "true", "t", "yes", "y", "on"}

  /** `strtobool(s, default)`: the generators' `to_bool`, except that `"t"` is also true. */
  function StrToBool(s: Option<string>, default: bool): (b: bool)
    ensures b == (ToBool(s, default) || (s.Some? && Lower(Strip(s.value)) == "t"))
  {
    if s.None? then default else Lower(Strip(s.value)) in StrToBoolWords
  }

  /** `"t"` is where the two readings part: true here, false for the generators. */
  lemma LetterTIsTrueHere()
    ensures StrToBool(Some("t"), false) && !ToBool(Some("t"), false)
  {
    assert Strip("t") == "t" by {
      StripUntrimmed("t");
    }
    assert Lower("t") == "t";
  }

  /** The proxy types `build_proxy_from_env` knows, looked up by `ptype.lower()`. */
  function ProxyKindOf(pType: string): (r: Option<ProxyKind>)
    ensures r.Some? ==> KindOf(Lower(pType)) == r
  {
    var t := Lower(pType);
    if t == "socks5" then Some(Socks5)
    else if t == "socks4" then Some(Socks4)
    else if t == "http" then Some(Http)
    else None
  }

  /** The aliases the bulk generators accept are refused here. */
  lemma AliasesRefused()
    ensures ProxyKindOf("socks5h").None? && KindOf(Lower("socks5h")) == Some(Socks5)
  {
    assert Lower("socks5h") == "socks5h";
  }

  datatype ProxyError = MissingProxySettings | UnsupportedProxyType | PortNotInteger

  /** The proxy, or the error `build_proxy_from_env` raises. */
  datatype ProxyResult = ProxyOk(proxy: Proxy) | ProxyFailed(error: ProxyError)

  /** `build_proxy_from_env`: type, host and port must be set, the type known and the
      port an integer, in that order of checking; the tuple has the credentials only
      when both are set. */
  function BuildProxyFromEnv(env: Env): (r: ProxyResult)
    ensures r.ProxyOk? <==> (Filled(Get(env, "TG_PROXY_TYPE")) && Filled(Get(env, "TG_PROXY_HOST")) &&
      Filled(Get(env, "TG_PROXY_PORT")) && ProxyKindOf(Get(env, "TG_PROXY_TYPE").value).Some? &&
      PyInt(Get(env, "TG_PROXY_PORT").value).Some?)
    ensures !(Filled(Get(env, "TG_PROXY_TYPE")) && Filled(Get(env, "TG_PROXY_HOST")) && Filled(Get(env, "TG_PROXY_PORT")))
      ==> r == ProxyFailed(MissingProxySettings)
    ensures r.ProxyOk? ==> Some(r.proxy.kind) == ProxyKindOf(Get(env, "TG_PROXY_TYPE").value)
    ensures r.ProxyOk? ==> Some(r.proxy.host) == Get(env, "TG_PROXY_HOST") && Some(r.proxy.port) == PyInt(Get(env, "TG_PROXY_PORT").value)
    ensures r.ProxyOk? ==> r.proxy.rdns == StrToBool(Get(env, "TG_PROXY_RDNS"), true)
    ensures r.ProxyOk? ==> (r.proxy.user.Some? <==> Filled(Get(env, "TG_PROXY_USER")) && Filled(Get(env, "TG_PROXY_PASS")))
    ensures r.ProxyOk? ==> (r.proxy.user.Some? <==> r.proxy.password.Some?)
    ensures r.ProxyOk? && r.proxy.user.Some? ==> r.proxy.user == Get(env, "TG_PROXY_USER") && r.proxy.password == Get(env, "TG_PROXY_PASS")
  {
    var pType, host, port := Get(env, "TG_PROXY_TYPE"), Get(env, "TG_PROXY_HOST"), Get(env, "TG_PROXY_PORT");
    var user, pwd := Get(env, "TG_PROXY_USER"), Get(env, "TG_PROXY_PASS");
    var rdns := StrToBool(Get(env, "TG_PROXY_RDNS"), true);
    if !Filled(pType) || !Filled(host) || !Filled(port) then ProxyFailed(MissingProxySettings)
    else
      match ProxyKindOf(pType.value)
      case None => ProxyFailed(UnsupportedProxyType)
      case Some(kind) =>
        match PyInt(port.value)
        case None => ProxyFailed(PortNotInteger)
        case Some(p) =>
          if Filled(user) && Filled(pwd) then ProxyOk(Proxy(kind, host.value, p, rdns, user, pwd))
          else ProxyOk(Proxy(kind, host.value, p, rdns, None, None))
  }

  /** Without `TG_PROXY_RDNS` the proxy resolves names remotely. */
  lemma RecoverRdnsDefaultsOn(env: Env)
    requires BuildProxyFromEnv(env).ProxyOk? && Get(env, "TG_PROXY_RDNS").None?
    ensures BuildProxyFromEnv(env).proxy.rdns
  {
  }

  /** `_add_single(key)`: the stripped value, when there is one. */
  function Single(v: Option<string>): (r: seq<string>)
    ensures |r| <= 1
    ensures forall i :: 0 <= i < |r| ==> r[i] != [] && Strip(r[i]) == r[i]
  {
    if Filled(v) && Strip(v.value) != [] then
      StripIdempotent(v.value);
      [Strip(v.value)]
    else []
  }

  /** The separators of a session block: `[,\n\r]+`. Runs of them only make empty
      parts, which the comprehension drops, so splitting at each one gives the same list. */
  const BlockSeparators: set<char> := {',', '\n', '\r'}

  /** The pieces of a `TG_SESSIONS`-style block. */
  function Block(v: Option<string>): (r: seq<string>)
    ensures forall i :: 0 <= i < |r| ==> r[i] != [] && Strip(r[i]) == r[i] && Avoids(r[i], BlockSeparators)
  {
    if Filled(v) then
      var parts := SplitOn(v.value, BlockSeparators);
      PiecesShape(parts, BlockSeparators);
      Pieces(parts)
    else []
  }

  /** The full match of `TG_(?:STRING_)?SESSION_(\d+)`: the number. */
  function NumberedIndex(key: string): (r: Option<int>)
    ensures r.Some? ==> r.value >= 0
  {
    if |key| > 11 && key[..11] == "TG_SESSION_" && IsDigits(key[11..]) then Some(DigitsValue(key[11..]))
    else if |key| > 18 && key[..18] == "TG_STRING_SESSION_" && IsDigits(key[18..]) then Some(DigitsValue(key[18..]))
    else None
  }

  /** Both spellings of a numbered session key carry their number. */
  lemma NumberedIndexOf(n: nat)
    ensures NumberedIndex("TG_SESSION_" + NatToStr(n)) == Some(n)
    ensures NumberedIndex("TG_STRING_SESSION_" + NatToStr(n)) == Some(n)
  {
    NatToStrRoundTrip(n);
    var d := NatToStr(n);
    assert ("TG_SESSION_" + d)[..11] == "TG_SESSION_" && ("TG_SESSION_" + d)[11..] == d;
    assert ("TG_STRING_SESSION_" + d)[..11] != "TG_SESSION_" by {
      assert ("TG_STRING_SESSION_" + d)[3] == 'S' && ("TG_STRING_SESSION_" + d)[4] == 'T';
    }
    assert ("TG_STRING_SESSION_" + d)[..18] == "TG_STRING_SESSION_" && ("TG_STRING_SESSION_" + d)[18..] == d;
  }

  /** `numbered`: each numbered key's number with its stripped value, in environment order. */
  function NumberedPairs(env: Env): (r: seq<(int, string)>)
    ensures |r| <= |env|
  {
    if env == [] then []
    else
      var front := NumberedPairs(env[..|env| - 1]);
      var (k, v) := env[|env| - 1];
      match NumberedIndex(k)
      case None => front
      case Some(i) => front + [(i, Strip(v))]
  }

  /** The non-empty values of `pairs`, in order. */
  function FilledValues(pairs: seq<(int, string)>): (r: seq<string>)
    ensures forall i :: 0 <= i < |r| ==> r[i] != []
  {
    if pairs == [] then []
    else
      var n := |pairs| - 1;
      var front := FilledValues(pairs[..n]);
      if pairs[n].1 != [] then front + [pairs[n].1] else front
  }

  /** `sessions` before de-duplication: the singles, the blocks, then the numbered values
      by ascending number (keys with one number keep their environment order). */
  function AllSessions(env: Env): (r: seq<string>)
    ensures forall i :: 0 <= i < |r| ==> r[i] != []
  {
    var a, b := Single(Get(env, "TG_SESSION")), Single(Get(env, "TG_STRING_SESSION"));
    var c, d := Block(Get(env, "TG_SESSIONS")), Block(Get(env, "TG_STRING_SESSIONS"));
    var e := FilledValues(StableSortByKey(NumberedPairs(env)));
    NonEmptyConcat(a, b);
    NonEmptyConcat(a + b, c);
    NonEmptyConcat(a + b + c, d);
    NonEmptyConcat(a + b + c + d, e);
    a + b + c + d + e
  }

  lemma NonEmptyConcat(s: seq<string>, t: seq<string>)
    requires forall i :: 0 <= i < |s| ==> s[i] != []
    requires forall i :: 0 <= i < |t| ==> t[i] != []
    ensures forall i :: 0 <= i < |s + t| ==> (s + t)[i] != []
  {
  }

  /** The sessions, or the error raised when there are none. */
  datatype SessionsResult = Sessions(list: seq<string>) | NoSessions

  /** What `read_string_sessions_from_env` returns or raises. */
  function StringSessions(env: Env): (r: SessionsResult)
    ensures r.Sessions? ==> NoDups(r.list) && r.list != []
  {
    var uniq := Dedup(AllSessions(env));
    if uniq == [] then NoSessions else Sessions(uniq)
  }

  /** `read_string_sessions_from_env` */
  method ReadStringSessions(env: Env) returns (r: SessionsResult)
    ensures r == StringSessions(env)
  {
    var sessions := Single(Get(env, "TG_SESSION")) + Single(Get(env, "TG_STRING_SESSION"));
    sessions := sessions + Block(Get(env, "TG_SESSIONS")) + Block(Get(env, "TG_STRING_SESSIONS"));
    var numbered := CollectNumbered(env);
    var ordered := StableSortByKey(numbered);
    sessions := sessions + FilledValues(ordered);
    var uniq := KeepFirst(sessions);
    if uniq == [] {
      return NoSessions;
    }
    return Sessions(uniq);
  }

  /** The scan of the environment for numbered session keys. */
  method CollectNumbered(env: Env) returns (numbered: seq<(int, string)>)
    ensures numbered == NumberedPairs(env)
  {
    numbered := [];
    for j := 0 to |env|
      invariant numbered == NumberedPairs(env[..j])
    {
      assert env[..j + 1][..j] == env[..j];
      var (k, v) := env[j];
      var m := NumberedIndex(k);
      if m.Some? {
        numbered := numbered + [(m.value, Strip(v))];
      }
    }
    assert env[..|env|] == env;
  }

  /** The error is raised exactly when no source holds a non-blank value; every session
      found is non-empty. */
  lemma SessionsShape(env: Env)
    ensures StringSessions(env).NoSessions? <==> AllSessions(env) == []
    ensures StringSessions(env).Sessions? ==> forall i :: 0 <= i < |StringSessions(env).list| ==> StringSessions(env).list[i] != []
  {
    var all := AllSessions(env);
    if all != [] {
      DedupMembers(all, all[0]);
    }
    forall i | 0 <= i < |Dedup(all)| ensures Dedup(all)[i] != [] {
      DedupMembers(all, Dedup(all)[i]);
    }
  }

  /** Every non-blank source value ends up in the list. */
  lemma SessionsMembers(env: Env, x: string)
    requires StringSessions(env).Sessions?
    ensures x in StringSessions(env).list <==> x in AllSessions(env)
  {
    DedupMembers(AllSessions(env), x);
  }

  /** `TG_SESSION`, when set to a non-blank value, is the first session. */
  lemma SessionKeyFirst(env: Env)
    requires Filled(Get(env, "TG_SESSION")) && Strip(Get(env, "TG_SESSION").value) != []
    ensures StringSessions(env).Sessions? && StringSessions(env).list[0] == Strip(Get(env, "TG_SESSION").value)
  {
    var all := AllSessions(env);
    var x := Strip(Get(env, "TG_SESSION").value);
    assert all == [x] + all[1..];
    DedupHead(x, all[1..]);
  }

  /** The directories the search visits: `dir` and its parents, at most `n` of them,
      stopping at the directory that is its own parent. */
  function Ancestors(dir: string, dirname: string -> string, n: nat): (r: seq<string>)
    ensures |r| <= n && (n > 0 ==> |r| > 0 && r[0] == dir)
    decreases n
  {
    if n == 0 then []
    else if dirname(dir) == dir then [dir]
    else [dir] + Ancestors(dirname(dir), dirname, n - 1)
  }

  const EnvNames: seq<string> := ["env.recover", ".env.recover"]

  /** Both file names in each directory, in order. */
  function DirPaths(dirs: seq<string>, join: (string, string) -> string): (r: seq<string>)
    ensures |r| == 2 * |dirs|
  {
    if dirs == [] then []
    else DirPaths(dirs[..|dirs| - 1], join) + [join(dirs[|dirs| - 1], EnvNames[0]), join(dirs[|dirs| - 1], EnvNames[1])]
  }

  /** `paths` before normalisation: the explicit file, the two names in the working
      directory, then the two names in the script's directory and up to three parents. */
  function CandidateList(explicit: Option<string>, abspath: string -> string, base: string,
                         dirname: string -> string, join: (string, string) -> string): (r: seq<string>)
    ensures 2 <= |r| <= 11
    ensures Filled(explicit) ==> r[0] == abspath(explicit.value)
  {
    (if Filled(explicit) then [abspath(explicit.value)] else []) +
    [abspath(EnvNames[0]), abspath(EnvNames[1])] + DirPaths(Ancestors(base, dirname, 4), join)
  }

  function MapSeq(f: string -> string, s: seq<string>): (r: seq<string>)
    ensures |r| == |s| && forall i :: 0 <= i < |s| ==> r[i] == f(s[i])
  {
    seq(|s|, i requires 0 <= i < |s| => f(s[i]))
  }

  /** `_candidate_env_paths`, with the path functions of the operating system as parameters
      and `base` the absolute directory of the script. */
  method CandidateEnvPaths(explicit: Option<string>, abspath: string -> string, base: string,
                           dirname: string -> string, join: (string, string) -> string,
                           normpath: string -> string) returns (uniq: seq<string>)
    ensures uniq == Dedup(MapSeq(normpath, CandidateList(explicit, abspath, base, dirname, join)))
  {
    var paths := (if Filled(explicit) then [abspath(explicit.value)] else []) + [abspath(EnvNames[0]), abspath(EnvNames[1])];
    var walked := WalkUp(base, dirname, join);
    paths := paths + walked;
    uniq := KeepFirst(MapSeq(normpath, paths));
  }

  lemma AncestorsStep(cur: string, dirname: string -> string, m: nat)
    requires 0 < m && dirname(cur) != cur
    ensures Ancestors(cur, dirname, m) == [cur] + Ancestors(dirname(cur), dirname, m - 1)
  {
  }

  lemma DirPathsSnoc(dirs: seq<string>, d: string, join: (string, string) -> string)
    ensures DirPaths(dirs + [d], join) == DirPaths(dirs, join) + [join(d, EnvNames[0]), join(d, EnvNames[1])]
  {
    assert (dirs + [d])[..|dirs|] == dirs;
  }

  /** The loop over the script's directory and up to three parents. */
  method WalkUp(base: string, dirname: string -> string, join: (string, string) -> string) returns (paths: seq<string>)
    ensures paths == DirPaths(Ancestors(base, dirname, 4), join)
  {
    paths := [];
    ghost var visited: seq<string> := [];
    var cur := base;
    for k := 0 to 4
      invariant visited + Ancestors(cur, dirname, 4 - k) == Ancestors(base, dirname, 4)
      invariant paths == DirPaths(visited, join)
    {
      DirPathsSnoc(visited, cur, join);
      paths := paths + [join(cur, EnvNames[0]), join(cur, EnvNames[1])];
      var parent := dirname(cur);
      if parent == cur {
        assert Ancestors(cur, dirname, 4 - k) == [cur];
        visited := visited + [cur];
        assert visited == Ancestors(base, dirname, 4);
        break;
      }
      AncestorsStep(cur, dirname, 4 - k);
      assert visited + Ancestors(cur, dirname, 4 - k) == (visited + [cur]) + Ancestors(parent, dirname, 4 - (k + 1));
      visited := visited + [cur];
      cur := parent;
    }
    assert visited == Ancestors(base, dirname, 4);
  }

  /** The explicit file, when given, is tried first; no path is tried twice. */
  lemma ExplicitPathFirst(explicit: Option<string>, abspath: string -> string, base: string,
                          dirname: string -> string, join: (string, string) -> string, normpath: string -> string)
    requires Filled(explicit)
    ensures var uniq := Dedup(MapSeq(normpath, CandidateList(explicit, abspath, base, dirname, join)));
      NoDups(uniq) && |uniq| > 0 && uniq[0] == normpath(abspath(explicit.value))
  {
    var ps := MapSeq(normpath, CandidateList(explicit, abspath, base, dirname, join));
    assert ps == [ps[0]] + ps[1..];
    DedupHead(ps[0], ps[1..]);
  }
}

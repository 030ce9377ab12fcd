/** The alternative account-recovery listener: accounts are numbered `TG<n>_SESSION` keys,
    each with its own `TG<n>_PROXY_*` proxy; the older un-numbered session keys are read
    only when no numbered session exists. The process environment is an ordered list of
    name/value pairs. */
module RecoverAlt {
  import opened PyStr
  import opened EnvList
  import opened Ordered
  import opened SessionEnv
  import opened Recover

  // ----------------------------------------------------------------------------------------
  // Masking

  const Ellipsis: char := '\U{2026}'

  /** `mask_middle(s, keep)`: the first and last `keep` characters around an ellipsis.
      Python's `s[-0:]` is the whole string, so `keep == 0` keeps everything after it. */
  function MaskMiddle(s: string, keep: nat): (r: string)
    ensures s == [] ==> r == []
    ensures 0 < |s| <= 2 * keep ==> r == s
    ensures |s| > 2 * keep && keep > 0 ==>
      |r| == 2 * keep + 1 && r[..keep] == s[..keep] && r[keep] == Ellipsis && r[keep + 1..] == s[|s| - keep..]
    ensures |s| > 0 && keep == 0 ==> r == [Ellipsis] + s
  {
    if s == [] then []
    else if |s| <= keep * 2 then s
    else s[..keep] + [Ellipsis] + (if keep == 0 then s else s[|s| - keep..])
  }

  /** A masked value masks to itself again. */
  lemma MaskMiddleIdempotent(s: string, keep: nat)
    requires keep > 0
    ensures MaskMiddle(MaskMiddle(s, keep), keep) == MaskMiddle(s, keep)
  {
    var r := MaskMiddle(s, keep);
    if |s| > 2 * keep {
      assert r == r[..keep] + [r[keep]] + r[keep + 1..];
    }
  }

  /** A long value is shortened: only `2 * keep` of its characters survive. */
  lemma MaskMiddleHides(s: string, keep: nat)
    requires keep > 0 && |s| > 2 * keep + 1
    ensures |MaskMiddle(s, keep)| < |s|
    ensures multiset(MaskMiddle(s, keep)) == multiset(s[..keep]) + multiset{Ellipsis} + multiset(s[|s| - keep..])
  {
  }

  // ----------------------------------------------------------------------------------------
  // Proxy

  /** `ProxySpec`: the settings of account `n` as read, the type not yet checked. */
  datatype ProxySpec = ProxySpec(n: int, pType: string, host: string, port: int, rdns: bool,
                                 user: Option<string>, pwd: Option<string>)

  /** What `read_numbered_proxy` raises: a required key missing or empty, or a port that
      `int()` refuses. */
  datatype SpecError = MissingKey(key: string) | PortNotNumber(text: string)

  datatype SpecResult = SpecOk(spec: ProxySpec) | SpecFailed(error: SpecError)

  /** `read_numbered_proxy(n)`: type, host and port are required in that order, the port
      must be an integer, and the name resolution flag defaults to on. */
  function ReadNumberedProxy(env: Env, n: int): (r: SpecResult)
    ensures r.SpecOk? <==> (Filled(Get(env, AccountKey(n, "PROXY_TYPE"))) && Filled(Get(env, AccountKey(n, "PROXY_HOST")))
      && Filled(Get(env, AccountKey(n, "PROXY_PORT"))) && PyInt(Get(env, AccountKey(n, "PROXY_PORT")).value).Some?)
    ensures !Filled(Get(env, AccountKey(n, "PROXY_TYPE"))) ==> r == SpecFailed(MissingKey(AccountKey(n, "PROXY_TYPE")))
    ensures Filled(Get(env, AccountKey(n, "PROXY_TYPE"))) && !Filled(Get(env, AccountKey(n, "PROXY_HOST")))
      ==> r == SpecFailed(MissingKey(AccountKey(n, "PROXY_HOST")))
    ensures (Filled(Get(env, AccountKey(n, "PROXY_TYPE"))) && Filled(Get(env, AccountKey(n, "PROXY_HOST")))
      && !Filled(Get(env, AccountKey(n, "PROXY_PORT")))) ==> r == SpecFailed(MissingKey(AccountKey(n, "PROXY_PORT")))
    ensures r.SpecOk? ==> (r.spec.n == n && Some(r.spec.pType) == Get(env, AccountKey(n, "PROXY_TYPE"))
      && Some(r.spec.host) == Get(env, AccountKey(n, "PROXY_HOST"))
      && Some(r.spec.port) == PyInt(Get(env, AccountKey(n, "PROXY_PORT")).value))
    ensures r.SpecOk? ==> r.spec.user == Get(env, AccountKey(n, "PROXY_USER")) && r.spec.pwd == Get(env, AccountKey(n, "PROXY_PASS"))
    ensures r.SpecOk? ==> r.spec.rdns == StrToBool(Get(env, AccountKey(n, "PROXY_RDNS")), true)
  {
    var pType, host, port := Get(env, AccountKey(n, "PROXY_TYPE")), Get(env, AccountKey(n, "PROXY_HOST")), Get(env, AccountKey(n, "PROXY_PORT"));
    if !Filled(pType) then SpecFailed(MissingKey(AccountKey(n, "PROXY_TYPE")))
    else if !Filled(host) then SpecFailed(MissingKey(AccountKey(n, "PROXY_HOST")))
    else if !Filled(port) then SpecFailed(MissingKey(AccountKey(n, "PROXY_PORT")))
    else
      match PyInt(port.value)
      case None => SpecFailed(PortNotNumber(port.value))
      case Some(p) =>
        SpecOk(ProxySpec(n, pType.value, host.value, p, StrToBool(Get(env, AccountKey(n, "PROXY_RDNS")), true),
                         Get(env, AccountKey(n, "PROXY_USER")), Get(env, AccountKey(n, "PROXY_PASS"))))
  }

  /** Without `TG<n>_PROXY_RDNS` the proxy resolves names remotely. */
  lemma NumberedRdnsDefaultsOn(env: Env, n: int)
    requires ReadNumberedProxy(env, n).SpecOk? && Get(env, AccountKey(n, "PROXY_RDNS")).None?
    ensures ReadNumberedProxy(env, n).spec.rdns
  {
  }

  /** `ProxySpec.to_pysocks()`: `None` where it raises for a type other than socks5, socks4
      or http in any letter case; the credentials are in the tuple only when both are set. */
  function ToPysocks(spec: ProxySpec): (r: Option<Proxy>)
    ensures r.Some? <==> ProxyKindOf(spec.pType).Some?
    ensures r.Some? ==> (Some(r.value.kind) == ProxyKindOf(spec.pType) && r.value.host == spec.host
      && r.value.port == spec.port && r.value.rdns == spec.rdns)
    ensures r.Some? ==> (r.value.user.Some? <==> Filled(spec.user) && Filled(spec.pwd))
    ensures r.Some? ==> (r.value.user.Some? <==> r.value.password.Some?)
    ensures r.Some? && r.value.user.Some? ==> r.value.user == spec.user && r.value.password == spec.pwd
  {
    match ProxyKindOf(spec.pType)
    case None => None
    case Some(kind) =>
      if Filled(spec.user) && Filled(spec.pwd) then Some(Proxy(kind, spec.host, spec.port, spec.rdns, spec.user, spec.pwd))
      else Some(Proxy(kind, spec.host, spec.port, spec.rdns, None, None))
  }

  /** The type name a proxy of `kind` is written with. */
  function KindName(kind: ProxyKind): (s: string)
    ensures ProxyKindOf(s) == Some(kind)
  {
    assert Lower("socks5") == "socks5" && Lower("socks4") == "socks4" && Lower("http") == "http";
    match kind
    case Socks5 => "socks5"
    case Socks4 => "socks4"
    case Http => "http"
  }

  /** The env entries that describe proxy `p` for account `n`. */
  function ProxyEntries(n: nat, p: Proxy): Env
  {
    [(AccountKey(n, "PROXY_TYPE"), KindName(p.kind))] +
    ([(AccountKey(n, "PROXY_HOST"), p.host)] +
    ([(AccountKey(n, "PROXY_PORT"), IntToStr(p.port))] +
    ([(AccountKey(n, "PROXY_RDNS"), if p.rdns then "1" else "0")] +
    (if p.user.Some? then [(AccountKey(n, "PROXY_USER"), p.user.value)] + [(AccountKey(n, "PROXY_PASS"), OrEmpty(p.password))] else []))))
  }

  /** Keys of one account with different suffixes differ. */
  lemma AccountKeysDiffer(n: int, a: string, b: string)
    requires a != b
    ensures AccountKey(n, a) != AccountKey(n, b)
  {
    var p := "TG" + IntToStr(n) + "_";
    assert AccountKey(n, a)[|p|..] == a && AccountKey(n, b)[|p|..] == b;
  }

  lemma GetHead(k: string, v: string, rest: Env)
    ensures Get([(k, v)] + rest, k) == Some(v)
  {
  }

  lemma GetPast(k': string, v: string, rest: Env, k: string)
    requires k' != k
    ensures Get([(k', v)] + rest, k) == Get(rest, k)
  {
    assert ([(k', v)] + rest)[1..] == rest;
  }

  /** The flag written for `rdns` reads back as `rdns`. */
  lemma RdnsFlagReadsBack(rdns: bool)
    ensures StrToBool(Some(if rdns then "1" else "0"), true) == rdns
  {
    var flag := if rdns then "1" else "0";
    StripUntrimmed(flag);
    assert Lower(flag) == flag;
  }

  /** The credentials, read back, are the ones written. */
  lemma CredentialsReadBack(n: nat, p: Proxy, u: string, w: string)
    requires p.user.Some? <==> p.password.Some?
    requires u == AccountKey(n, "PROXY_USER") && w == AccountKey(n, "PROXY_PASS")
    ensures var creds := if p.user.Some? then [(u, p.user.value)] + [(w, OrEmpty(p.password))] else [];
      Get(creds, u) == p.user && Get(creds, w) == p.password
  {
    AccountKeysDiffer(n, "PROXY_USER", "PROXY_PASS");
    if p.user.Some? {
      GetHead(u, p.user.value, [(w, OrEmpty(p.password))]);
      GetPast(u, p.user.value, [(w, OrEmpty(p.password))], w);
      GetHead(w, OrEmpty(p.password), []);
    }
  }

  /** Each key of the written entries looks up its own value. */
  lemma EntriesGet(n: nat, p: Proxy)
    requires p.user.Some? <==> p.password.Some?
    ensures var env := ProxyEntries(n, p);
      Get(env, AccountKey(n, "PROXY_TYPE")) == Some(KindName(p.kind)) && Get(env, AccountKey(n, "PROXY_HOST")) == Some(p.host) &&
      Get(env, AccountKey(n, "PROXY_PORT")) == Some(IntToStr(p.port)) &&
      Get(env, AccountKey(n, "PROXY_RDNS")) == Some(if p.rdns then "1" else "0") &&
      Get(env, AccountKey(n, "PROXY_USER")) == p.user && Get(env, AccountKey(n, "PROXY_PASS")) == p.password
  {
    var t, h, o, d := AccountKey(n, "PROXY_TYPE"), AccountKey(n, "PROXY_HOST"), AccountKey(n, "PROXY_PORT"), AccountKey(n, "PROXY_RDNS");
    var u, w := AccountKey(n, "PROXY_USER"), AccountKey(n, "PROXY_PASS");
    var flag := if p.rdns then "1" else "0";
    var creds := if p.user.Some? then [(u, p.user.value)] + [(w, OrEmpty(p.password))] else [];
    var e3 := [(d, flag)] + creds;
    var e2 := [(o, IntToStr(p.port))] + e3;
    var e1 := [(h, p.host)] + e2;
    var env := [(t, KindName(p.kind))] + e1;
    assert env == ProxyEntries(n, p);
    AccountKeysDiffer(n, "PROXY_TYPE", "PROXY_HOST");
    AccountKeysDiffer(n, "PROXY_TYPE", "PROXY_PORT");
    AccountKeysDiffer(n, "PROXY_HOST", "PROXY_PORT");
    AccountKeysDiffer(n, "PROXY_TYPE", "PROXY_RDNS");
    AccountKeysDiffer(n, "PROXY_HOST", "PROXY_RDNS");
    AccountKeysDiffer(n, "PROXY_PORT", "PROXY_RDNS");
    AccountKeysDiffer(n, "PROXY_TYPE", "PROXY_USER");
    AccountKeysDiffer(n, "PROXY_HOST", "PROXY_USER");
    AccountKeysDiffer(n, "PROXY_PORT", "PROXY_USER");
    AccountKeysDiffer(n, "PROXY_RDNS", "PROXY_USER");
    AccountKeysDiffer(n, "PROXY_TYPE", "PROXY_PASS");
    AccountKeysDiffer(n, "PROXY_HOST", "PROXY_PASS");
    AccountKeysDiffer(n, "PROXY_PORT", "PROXY_PASS");
    AccountKeysDiffer(n, "PROXY_RDNS", "PROXY_PASS");
    GetHead(t, KindName(p.kind), e1);
    GetPast(t, KindName(p.kind), e1, h);
    GetHead(h, p.host, e2);
    GetPast(t, KindName(p.kind), e1, o);
    GetPast(h, p.host, e2, o);
    GetHead(o, IntToStr(p.port), e3);
    GetPast(t, KindName(p.kind), e1, d);
    GetPast(h, p.host, e2, d);
    GetPast(o, IntToStr(p.port), e3, d);
    GetHead(d, flag, creds);
    GetPast(t, KindName(p.kind), e1, u);
    GetPast(h, p.host, e2, u);
    GetPast(o, IntToStr(p.port), e3, u);
    GetPast(d, flag, creds, u);
    GetPast(t, KindName(p.kind), e1, w);
    GetPast(h, p.host, e2, w);
    GetPast(o, IntToStr(p.port), e3, w);
    GetPast(d, flag, creds, w);
    CredentialsReadBack(n, p, u, w);
  }

  /** A proxy written out under the account's keys is read back and converted to itself. */
  lemma ProxyRoundTrip(n: nat, p: Proxy)
    requires p.host != [] && (p.user.Some? <==> p.password.Some?)
    requires p.user.Some? ==> p.user.value != [] && p.password.value != []
    ensures ReadNumberedProxy(ProxyEntries(n, p), n).SpecOk?
    ensures ToPysocks(ReadNumberedProxy(ProxyEntries(n, p), n).spec) == Some(p)
  {
    var env := ProxyEntries(n, p);
    EntriesGet(n, p);
    PyIntRoundTrip(p.port);
    RdnsFlagReadsBack(p.rdns);
    var spec := ReadNumberedProxy(env, n).spec;
    assert spec == ProxySpec(n, KindName(p.kind), p.host, p.port, p.rdns, p.user, p.password);
    ConvertWritten(spec, p);
  }

  /** Settings holding the type name of `p`'s kind and its other fields convert to `p`. */
  lemma ConvertWritten(spec: ProxySpec, p: Proxy)
    requires spec.pType == KindName(p.kind) && spec.host == p.host && spec.port == p.port && spec.rdns == p.rdns
    requires spec.user == p.user && spec.pwd == p.password && (p.user.Some? <==> p.password.Some?)
    requires p.user.Some? ==> p.user.value != [] && p.password.value != []
    ensures ToPysocks(spec) == Some(p)
  {
  }

  // ----------------------------------------------------------------------------------------
  // Numbered sessions

  /** The full match of `TG(\d+)_SESSION`: the number. */
  function SessionNumber(key: string): (r: Option<int>)
    ensures r.Some? ==> r.value >= 0
  {
    if |key| > 10 && key[..2] == "TG" && key[|key| - 8..] == "_SESSION" && IsDigits(key[2..|key| - 8])
    then Some(DigitsValue(key[2..|key| - 8]))
    else None
  }

  /** Every account's session key carries its number. */
  lemma SessionNumberOf(n: nat)
    ensures SessionNumber(AccountKey(n, "SESSION")) == Some(n)
  {
    var d := NatToStr(n);
    var key := AccountKey(n, "SESSION");
    assert key == "TG" + d + "_SESSION";
    assert key[..2] == "TG" && key[|key| - 8..] == "_SESSION" && key[2..|key| - 8] == d;
    NatToStrRoundTrip(n);
  }

  /** Other per-account keys are not session keys. */
  lemma ProxyKeyIsNotSession(n: nat)
    ensures SessionNumber(AccountKey(n, "PROXY_TYPE")).None?
  {
    var key := AccountKey(n, "PROXY_TYPE");
    assert key == ("TG" + NatToStr(n)) + "_PROXY_TYPE";
    assert key[|key| - 8..][7] == 'E';
  }

  /** `out` of `read_numbered_sessions`: each numbered key with a non-blank value sets its
      number to the stripped value, later keys overwriting earlier ones. */
  function NumberedSessions(env: Env): (m: map<int, string>)
    ensures forall k :: k in m ==> k >= 0
  {
    if env == [] then map[]
    else
      var front := NumberedSessions(env[..|env| - 1]);
      var (k, v) := env[|env| - 1];
      match SessionNumber(k)
      case Some(i) =>
        if Strip(v) != [] then front[i := Strip(v)] else front
      case None => front
  }

  /** An entry counts when its key is a numbered session key and its value is not blank. */
  predicate Counts(e: (string, string), i: int)
  {
    SessionNumber(e.0) == Some(i) && Strip(e.1) != []
  }

  /** Every listed session is non-empty and already stripped. */
  lemma {:induction false} NumberedValueTrimmed(env: Env, k: int)
    requires k in NumberedSessions(env)
    ensures NumberedSessions(env)[k] != [] && Strip(NumberedSessions(env)[k]) == NumberedSessions(env)[k]
  {
    var front := env[..|env| - 1];
    var last := env[|env| - 1];
    if Counts(last, k) {
      StripIdempotent(last.1);
    } else {
      assert k in NumberedSessions(front) && NumberedSessions(env)[k] == NumberedSessions(front)[k];
      NumberedValueTrimmed(front, k);
    }
  }

  lemma NumberedStep(env: Env, i: int)
    requires env != []
    ensures i in NumberedSessions(env) <==> i in NumberedSessions(env[..|env| - 1]) || Counts(env[|env| - 1], i)
  {
  }

  /** Number `i` is listed exactly when some entry counts for it. */
  lemma {:induction false} NumberedSessionsExactly(env: Env, i: int)
    ensures i in NumberedSessions(env) <==> exists j :: 0 <= j < |env| && Counts(env[j], i)
  {
    if env != [] {
      var front := env[..|env| - 1];
      NumberedSessionsExactly(front, i);
      NumberedStep(env, i);
      if exists j :: 0 <= j < |front| && Counts(front[j], i) {
        var j :| 0 <= j < |front| && Counts(front[j], i);
        assert env[j] == front[j];
      }
      if exists j :: 0 <= j < |env| && Counts(env[j], i) {
        var j :| 0 <= j < |env| && Counts(env[j], i);
        if j < |front| {
          assert front[j] == env[j];
        }
      }
    }
  }

  /** A listed number holds the value of the last entry that counts for it. */
  lemma {:induction false} NumberedSessionsLastWins(env: Env, i: int, j: nat)
    requires j < |env| && Counts(env[j], i)
    requires forall l :: j < l < |env| ==> !Counts(env[l], i)
    ensures i in NumberedSessions(env) && NumberedSessions(env)[i] == Strip(env[j].1)
  {
    var front := env[..|env| - 1];
    if j < |front| {
      assert front[j] == env[j];
      assert forall l :: j < l < |front| ==> front[l] == env[l];
      NumberedSessionsLastWins(front, i, j);
      assert !Counts(env[|env| - 1], i);
    }
  }

  /** `read_numbered_sessions()`: the sessions by number, and the numbers in ascending
      order as the re-sorted dictionary lists them. */
  method ReadNumberedSessions(env: Env) returns (out: map<int, string>, order: seq<int>)
    ensures out == NumberedSessions(env)
    ensures order == Ascending(out.Keys)
  {
    out := map[];
    for j := 0 to |env|
      invariant out == NumberedSessions(env[..j])
    {
      assert env[..j + 1][..j] == env[..j] && env[..j + 1][j] == env[j];
      var (k, v) := env[j];
      var m := SessionNumber(k);
      if m.Some? && v != [] && Strip(v) != [] {
        out := out[m.value := Strip(v)];
      }
    }
    assert env[..|env|] == env;
    order := Ascending(out.Keys);
  }

  // ----------------------------------------------------------------------------------------
  // Un-numbered sessions

  /** `os.getenv("TG_SESSION") or os.getenv("TG_STRING_SESSION")`, stripped: only one of the
      two, and a blank `TG_SESSION` still hides `TG_STRING_SESSION`. */
  function LegacySingle(env: Env): (r: seq<string>)
    ensures |r| <= 1
    ensures Filled(Get(env, "TG_SESSION")) ==> r == [Strip(Get(env, "TG_SESSION").value)]
    ensures !Filled(Get(env, "TG_SESSION")) && Filled(Get(env, "TG_STRING_SESSION")) ==> r == [Strip(Get(env, "TG_STRING_SESSION").value)]
    ensures !Filled(Get(env, "TG_SESSION")) && !Filled(Get(env, "TG_STRING_SESSION")) ==> r == []
  {
    var single := if Filled(Get(env, "TG_SESSION")) then Get(env, "TG_SESSION") else Get(env, "TG_STRING_SESSION");
    if Filled(single) then [Strip(single.value)] else []
  }

  /** `os.getenv("TG_SESSIONS") or os.getenv("TG_STRING_SESSIONS")`, split into pieces. */
  function LegacyBlock(env: Env): (r: seq<string>)
    ensures Filled(Get(env, "TG_SESSIONS")) ==> r == Block(Get(env, "TG_SESSIONS"))
    ensures !Filled(Get(env, "TG_SESSIONS")) ==> r == Block(Get(env, "TG_STRING_SESSIONS"))
  {
    var multi := if Filled(Get(env, "TG_SESSIONS")) then Get(env, "TG_SESSIONS") else Get(env, "TG_STRING_SESSIONS");
    Block(multi)
  }

  /** `sessions` before de-duplication: the single, the block, then the numbered alternate
      keys by ascending number. */
  function LegacyAll(env: Env): seq<string>
  {
    LegacySingle(env) + LegacyBlock(env) + FilledValues(StableSortByKey(NumberedPairs(env)))
  }

  /** The non-empty strings of `s`, in order. */
  function NonEmpty(s: seq<string>): (r: seq<string>)
    ensures forall x :: x in r <==> x in s && x != []
  {
    if s == [] then []
    else
      var front := NonEmpty(s[..|s| - 1]);
      assert forall x :: x in s <==> x in s[..|s| - 1] || x == s[|s| - 1] by {
        assert s == s[..|s| - 1] + [s[|s| - 1]];
      }
      if s[|s| - 1] != [] then front + [s[|s| - 1]] else front
  }

  /** What `read_legacy_sessions` returns: the non-empty sessions, each once, in order. */
  function LegacySessions(env: Env): (r: seq<string>)
    ensures NoDups(r)
  {
    Dedup(NonEmpty(LegacyAll(env)))
  }

  /** Nothing is lost and nothing is invented; the list may be empty. */
  lemma LegacyMembers(env: Env, x: string)
    ensures x in LegacySessions(env) <==> x in LegacyAll(env) && x != []
  {
    DedupMembers(NonEmpty(LegacyAll(env)), x);
  }

  /** `seen = set(); uniq = []; for s in sessions: if s and s not in seen: ...` */
  method KeepFirstFilled(xs: seq<string>) returns (uniq: seq<string>)
    ensures uniq == Dedup(NonEmpty(xs))
  {
    var seen: set<string> := {};
    uniq := [];
    for j := 0 to |xs|
      invariant uniq == Dedup(NonEmpty(xs[..j]))
      invariant forall x :: x in seen <==> x in uniq
    {
      assert xs[..j + 1][..j] == xs[..j] && xs[..j + 1][j] == xs[j];
      DedupSnoc(NonEmpty(xs[..j]), xs[j]);
      if xs[j] != [] && xs[j] !in seen {
        uniq := uniq + [xs[j]];
        seen := seen + {xs[j]};
      }
    }
    assert xs[..|xs|] == xs;
  }

  /** `read_legacy_sessions()` */
  method ReadLegacySessions(env: Env) returns (uniq: seq<string>)
    ensures uniq == LegacySessions(env)
  {
    var sessions := LegacySingle(env);
    sessions := sessions + LegacyBlock(env);
    var alt := CollectNumbered(env);
    sessions := sessions + FilledValues(StableSortByKey(alt));
    uniq := KeepFirstFilled(sessions);
  }

  /** Where the two listeners part: with both single keys set, the other listener takes
      both values and this one only `TG_SESSION`. */
  lemma OnlyOneSingle(env: Env)
    requires Filled(Get(env, "TG_SESSION")) && Filled(Get(env, "TG_STRING_SESSION"))
    ensures LegacySingle(env) == [Strip(Get(env, "TG_SESSION").value)]
    ensures Single(Get(env, "TG_SESSION")) + Single(Get(env, "TG_STRING_SESSION")) ==
      (if Strip(Get(env, "TG_SESSION").value) != [] then [Strip(Get(env, "TG_SESSION").value)] else []) +
      (if Strip(Get(env, "TG_STRING_SESSION").value) != [] then [Strip(Get(env, "TG_STRING_SESSION").value)] else [])
  {
  }

  /** A blank `TG_SESSION` hides `TG_STRING_SESSION` altogether. */
  lemma BlankSessionHidesString(env: Env)
    requires Get(env, "TG_SESSION") == Some(" ") && Filled(Get(env, "TG_STRING_SESSION"))
    ensures LegacySingle(env) == [""]
  {
    assert Strip(" ") == "" by {
      assert LeadingSpaces(" ") == 1;
    }
  }

  // ----------------------------------------------------------------------------------------
  // Choosing the account

  datatype RunError = NoStringSessions | NumberNotListed(n: int)

  /** Which account `run` connects, or what it still has to ask for:
      `AskMenu` is the interactive menu over the numbered sessions, `AskNumber` the prompt
      for the proxy number when only un-numbered sessions exist. */
  datatype Selection =
    | Picked(n: int, session: string)
    | AskMenu(candidates: map<int, string>)
    | AskNumber(session: string)
    | Refused(error: RunError)

  /** The selection rules of `run`, given the `--n` argument. */
  function SelectAccount(env: Env, argN: Option<int>): (r: Selection)
    ensures var m := NumberedSessions(env);
      m != map[] && argN.Some? ==> (r.Picked? <==> argN.value in m) && (r.Refused? <==> argN.value !in m)
    ensures var m := NumberedSessions(env);
      m != map[] && argN.Some? && argN.value !in m ==> r == Refused(NumberNotListed(argN.value))
    ensures var m := NumberedSessions(env);
      m != map[] && argN.None? && |m| == 1 ==> r.Picked? && m.Keys == {r.n}
    ensures var m := NumberedSessions(env);
      m != map[] && argN.None? && |m| > 1 ==> r == AskMenu(m)
    ensures var m := NumberedSessions(env);
      m != map[] && r.Picked? ==> r.n in m && r.session == m[r.n]
    ensures NumberedSessions(env) == map[] ==> (r == Refused(NoStringSessions) <==> LegacySessions(env) == [])
    ensures NumberedSessions(env) == map[] && LegacySessions(env) != [] ==>
      if argN.Some? then r == Picked(argN.value, LegacySessions(env)[0]) else r == AskNumber(LegacySessions(env)[0])
  {
    var m := NumberedSessions(env);
    if m == map[] then
      var legacy := LegacySessions(env);
      if legacy == [] then Refused(NoStringSessions)
      else if argN.Some? then Picked(argN.value, legacy[0])
      else AskNumber(legacy[0])
    else if argN.Some? then
      if argN.value in m then Picked(argN.value, m[argN.value]) else Refused(NumberNotListed(argN.value))
    else if |m| == 1 then
      var order := Ascending(m.Keys);
      assert order[0] in m.Keys;
      SingletonKeys(m, order[0]);
      Picked(order[0], m[order[0]])
    else AskMenu(m)
  }

  /** A one-entry map has exactly the key it holds. */
  lemma SingletonKeys(m: map<int, string>, k: int)
    requires |m| == 1 && k in m
    ensures m.Keys == {k}
  {
    var rest := m.Keys - {k};
    assert m.Keys == rest + {k};
    assert |rest| == 0;
    assert rest == {};
  }

  /** An environment holding one account's session key lists just that account. */
  lemma OneSessionListed(n: nat, sess: string)
    requires Strip(sess) != []
    ensures NumberedSessions([(AccountKey(n, "SESSION"), sess)]) == map[n := Strip(sess)]
  {
    var env := [(AccountKey(n, "SESSION"), sess)];
    SessionNumberOf(n);
    assert env[..0] == [] && env[0] == (AccountKey(n, "SESSION"), sess);
  }

  /** An account's own session key picks that account, whether `--n` names it or not. */
  lemma ExplicitNumberPicksItsSession(n: nat, sess: string)
    requires Strip(sess) != []
    ensures SelectAccount([(AccountKey(n, "SESSION"), sess)], Some(n)) == Picked(n, Strip(sess))
    ensures SelectAccount([(AccountKey(n, "SESSION"), sess)], None) == Picked(n, Strip(sess))
  {
    var env := [(AccountKey(n, "SESSION"), sess)];
    OneSessionListed(n, sess);
    var m := NumberedSessions(env);
    assert n in m && |m| == 1;
  }

  /** How `run` ends for a chosen account: the proxy it reads and converts, or why it stops. */
  datatype Connection = Connect(n: int, session: string, proxy: Proxy) | ProxySettingsError(error: SpecError) | UnsupportedType(pType: string)

  /** `read_numbered_proxy(n)` followed by `to_pysocks()` inside `listen_once`. */
  function ConnectionFor(env: Env, n: int, session: string): (r: Connection)
    ensures r.Connect? <==> ReadNumberedProxy(env, n).SpecOk? && ToPysocks(ReadNumberedProxy(env, n).spec).Some?
    ensures r.Connect? ==> r.n == n && r.session == session && Some(r.proxy) == ToPysocks(ReadNumberedProxy(env, n).spec)
    ensures r.ProxySettingsError? ==> (ReadNumberedProxy(env, n).SpecFailed? && ReadNumberedProxy(env, n).error == r.error)
  {
    match ReadNumberedProxy(env, n)
    case SpecFailed(e) => ProxySettingsError(e)
    case SpecOk(spec) =>
      match ToPysocks(spec)
      case None => UnsupportedType(spec.pType)
      case Some(p) => Connect(n, session, p)
  }
}

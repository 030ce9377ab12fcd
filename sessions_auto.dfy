/** The auto-start script for string sessions: its plain `KEY=VALUE` reader, the grouping
    of `TG<N>_*` keys into accounts that must each name a SOCKS5 proxy, the proxy tuple,
    the name used in its log, and the summary printed at the end. */
module SessionsAuto {
  import opened PyStr
  import opened EnvList
  import opened Ordered
  import opened SessionEnv

  /** `load_kv_file`'s reading of one line: split at the first `=`, both sides stripped. */
  function KvEntry(raw: string): (r: Option<(string, string)>)
    ensures r.None? <==> Strip(raw) == [] || Strip(raw)[0] == '#' || '=' !in Strip(raw)
    ensures r.Some? ==> r.value.0 == [] || (!IsSpace(r.value.0[0]) && !IsSpace(r.value.0[|r.value.0| - 1]))
    ensures r.Some? ==> r.value.1 == [] || (!IsSpace(r.value.1[0]) && !IsSpace(r.value.1[|r.value.1| - 1]))
  {
    var line := Strip(raw);
    if line == [] || line[0] == '#' || '=' !in line then None
    else
      var i := FirstIndex(line, '=');
      Some((Strip(line[..i]), Strip(line[i + 1..])))
  }

  /** A key never holds `=`: the line is split at its first one. */
  lemma KvKeyHasNoEquals(raw: string)
    requires KvEntry(raw).Some?
    ensures '=' !in KvEntry(raw).value.0
  {
    var line := Strip(raw);
    var i := FirstIndex(line, '=');
    if '=' in Strip(line[..i]) {
      InStripped(line[..i], '=');
    }
  }

  /** A written `KEY=VALUE` line reads back as written, even when the value holds `=`. */
  lemma KvLineReadsBack(k: string, v: string)
    requires k != [] && k[0] != '#' && '=' !in k && !IsSpace(k[0]) && !IsSpace(k[|k| - 1])
    requires v == [] || (!IsSpace(v[0]) && !IsSpace(v[|v| - 1]))
    ensures KvEntry(k + "=" + v) == Some((k, v))
  {
    KvLineSplit(k, v);
    StripUntrimmed(k);
    if v != [] {
      StripUntrimmed(v);
    }
  }

  /** The shape of a written `KEY=VALUE` line: already stripped, first `=` right after the key. */
  lemma KvLineSplit(k: string, v: string)
    requires k != [] && k[0] != '#' && '=' !in k && !IsSpace(k[0]) && !IsSpace(k[|k| - 1])
    requires v == [] || (!IsSpace(v[0]) && !IsSpace(v[|v| - 1]))
    ensures var line := k + "=" + v;
      Strip(line) == line && line != [] && line[0] != '#' && '=' in line &&
      FirstIndex(line, '=') == |k| && line[..|k|] == k && line[|k| + 1..] == v
  {
    var line := k + "=" + v;
    assert line[0] == k[0];
    assert !IsSpace(line[|line| - 1]) by {
      if v == [] { assert line[|line| - 1] == '='; } else { assert line[|line| - 1] == v[|v| - 1]; }
    }
    StripUntrimmed(line);
    assert line[|k|] == '=';
    assert forall j :: 0 <= j < |k| ==> line[j] == k[j];
    assert FirstIndex(line, '=') == |k|;
    assert line[..|k|] == k && line[|k| + 1..] == v;
  }

  function KvEntries(lines: seq<string>): (r: seq<Option<(string, string)>>)
    ensures |r| == |lines| && forall i :: 0 <= i < |lines| ==> r[i] == KvEntry(lines[i])
  {
    seq(|lines|, i requires 0 <= i < |lines| => KvEntry(lines[i]))
  }

  /** The dictionary `load_kv_file` returns for the file's lines. */
  function LoadKv(lines: seq<string>): (env: Env)
    ensures DistinctKeys(env)
  {
    Assignments(KvEntries(lines))
  }

  /** `load_kv_file`, over the file's lines (a missing file reads as no lines). */
  method LoadKvFile(lines: seq<string>) returns (data: Env)
    ensures data == LoadKv(lines)
  {
    data := [];
    ghost var entries := KvEntries(lines);
    for i := 0 to |lines|
      invariant data == Assignments(entries[..i])
    {
      assert entries[..i + 1][..i] == entries[..i];
      var line := Strip(lines[i]);
      if line == [] || line[0] == '#' {
        continue;
      }
      if '=' !in line {
        continue;
      }
      var eq := FirstIndex(line, '=');
      data := Put(data, Strip(line[..eq]), Strip(line[eq + 1..]));
    }
    assert entries[..|lines|] == entries;
  }

  /** A key written on several lines keeps the value of the last of them. */
  lemma KvLastLineWins(lines: seq<string>, i: nat, k: string, v: string)
    requires i < |lines| && KvEntry(lines[i]) == Some((k, v))
    requires forall j :: i < j < |lines| ==> KvEntry(lines[j]).None? || KvEntry(lines[j]).value.0 != k
    ensures Get(LoadKv(lines), k) == Some(v)
  {
    LastAssignmentWins(KvEntries(lines), i, k, v);
  }

  /** The per-account fields `collect_accounts` groups. */
  const SubKeys: set<string> :=
    {"PHONE", "SESSION", "SESSIONS", "PROXY_TYPE", "PROXY_HOST", "PROXY_PORT", "PROXY_USER", "PROXY_PASS", "PROXY_RDNS"}

  /** The full match of `^TG(\d+)_(PHONE|SESSION|...)$` against a key: the number and the field.
      Unlike the bulk generators' prefix, `TG` is matched in capitals only. */
  function GroupKey(key: string): (r: Option<(int, string)>)
    ensures r.Some? ==> r.value.0 >= 0 && r.value.1 in SubKeys
    ensures r.Some? ==> |key| > 2 && key[..2] == "TG"
  {
    if |key| < 2 || key[..2] != "TG" then None
    else
      var rest := key[2..];
      var d := DigitRunLen(rest);
      if d == 0 || d == |rest| || rest[d] != '_' || rest[d + 1..] !in SubKeys then None
      else Some((DigitsValue(rest[..d]), rest[d + 1..]))
  }

  /** Every `TG<n>_<field>` key is grouped under `n` and `field`. */
  lemma GroupKeyOf(n: nat, field: string)
    requires field in SubKeys
    ensures GroupKey("TG" + NatToStr(n) + "_" + field) == Some((n, field))
  {
    var d := NatToStr(n);
    var key := "TG" + d + "_" + field;
    assert key[..2] == "TG";
    assert key[2..] == d + ("_" + field);
    DigitRunOfDigits(d, "_" + field);
    assert key[2..][..|d|] == d;
    assert key[2..][|d| + 1..] == field;
    NatToStrRoundTrip(n);
  }

  type Config = map<string, string>

  /** `groups` after the scan of the dictionary in its order: a later key that names the
      same account and field (`TG01_PHONE` after `TG1_PHONE`) overwrites the earlier value. */
  function Groups(env: Env): (g: map<int, Config>)
    ensures forall i :: i in g ==> i >= 0
  {
    if env == [] then map[]
    else
      var g := Groups(env[..|env| - 1]);
      match GroupKey(env[|env| - 1].0)
      case None => g
      case Some((idx, field)) => g[idx := (if idx in g then g[idx] else map[])[field := env[|env| - 1].1]]
  }

  /** A field of an account holds the value of the last key that names it. */
  lemma {:induction false} GroupsLastWins(env: Env, j: nat, idx: int, field: string)
    requires j < |env| && GroupKey(env[j].0) == Some((idx, field))
    requires forall m :: j < m < |env| ==> GroupKey(env[m].0) != Some((idx, field))
    ensures idx in Groups(env) && field in Groups(env)[idx] && Groups(env)[idx][field] == env[j].1
  {
    var front := env[..|env| - 1];
    if j < |front| {
      assert forall m :: j < m < |front| ==> front[m] == env[m];
      assert front[j] == env[j];
      GroupsLastWins(front, j, idx, field);
    }
  }

  /** A field that no key names is not in its account's group. */
  lemma {:induction false} GroupsOnlyFromKeys(env: Env, idx: int, field: string)
    requires forall m :: 0 <= m < |env| ==> GroupKey(env[m].0) != Some((idx, field))
    ensures idx in Groups(env) ==> field !in Groups(env)[idx]
  {
    if env != [] {
      var front := env[..|env| - 1];
      assert forall m :: 0 <= m < |front| ==> front[m] == env[m];
      GroupsOnlyFromKeys(front, idx, field);
    }
  }

  predicate HasValue(cfg: Config, field: string)
  {
    field in cfg && cfg[field] != ""
  }

  /** The compatibility step: `SESSIONS` stands in for `SESSION` only when no `SESSION` key exists. */
  function WithSessionFallback(cfg: Config): (r: Config)
    ensures forall f :: f != "SESSION" ==> (f in r <==> f in cfg) && (f in cfg ==> r[f] == cfg[f])
    ensures HasValue(r, "SESSION") <==> HasValue(cfg, "SESSION") || ("SESSION" !in cfg && HasValue(cfg, "SESSIONS"))
    ensures "SESSION" in cfg ==> r == cfg
  {
    if "SESSION" !in cfg && HasValue(cfg, "SESSIONS") then cfg["SESSION" := cfg["SESSIONS"]] else cfg
  }

  /** A legacy `SESSIONS` value is the session when no `SESSION` key exists. */
  lemma SessionsStandsIn(cfg: Config)
    requires "SESSION" !in cfg && HasValue(cfg, "SESSIONS")
    ensures WithSessionFallback(cfg)["SESSION"] == cfg["SESSIONS"]
  {
  }

  /** An empty `SESSION` key is not replaced by `SESSIONS`: the account is then dropped. */
  lemma EmptySessionNotReplaced(cfg: Config)
    requires "SESSION" in cfg && cfg["SESSION"] == ""
    ensures !Viable(WithSessionFallback(cfg))
  {
    assert !HasValue(WithSessionFallback(cfg), Required[1]);
  }

  function Fallbacks(g: map<int, Config>): (r: map<int, Config>)
    ensures r.Keys == g.Keys
  {
    map i | i in g :: WithSessionFallback(g[i])
  }

  const Required: seq<string> := ["PHONE", "SESSION", "PROXY_TYPE", "PROXY_HOST", "PROXY_PORT"]

  /** The list `missing`: the required fields absent or empty, in the order they are checked. */
  function Missing(cfg: Config, reqs: seq<string>): (r: seq<string>)
    ensures forall f :: f in r ==> f in reqs && !HasValue(cfg, f)
    ensures r == [] <==> forall k :: 0 <= k < |reqs| ==> HasValue(cfg, reqs[k])
  {
    if reqs == [] then []
    else (if HasValue(cfg, reqs[0]) then [] else [reqs[0]]) + Missing(cfg, reqs[1..])
  }

  /** An account `collect_accounts` keeps: every required field set and a SOCKS5 proxy. */
  predicate Viable(cfg: Config)
  {
    (forall k :: 0 <= k < |Required| ==> HasValue(cfg, Required[k])) &&
    assert HasValue(cfg, Required[2]); Lower(Strip(cfg["PROXY_TYPE"])) == "socks5"
  }

  /** Every pair of `r` is a viable account of `g` under an index of `order`. */
  predicate KeptFrom(r: seq<(int, Config)>, order: seq<int>, g: map<int, Config>)
  {
    forall j :: 0 <= j < |r| ==> r[j].0 in order && r[j].0 in g && r[j].1 == g[r[j].0] && Viable(r[j].1)
  }

  /** The accounts kept from `order`, in that order. */
  function Kept(order: seq<int>, g: map<int, Config>): (r: seq<(int, Config)>)
    requires forall i :: i in order ==> i in g
    ensures KeptFrom(r, order, g)
  {
    if order == [] then []
    else
      var n := |order| - 1;
      var front := Kept(order[..n], g);
      var last := order[n];
      KeptFromSnoc(front, order, g);
      if Viable(g[last]) then front + [(last, g[last])] else front
  }

  /** What is kept from the front of `order` is kept from `order`, and so is the last index's
      account when it is viable. */
  lemma KeptFromSnoc(front: seq<(int, Config)>, order: seq<int>, g: map<int, Config>)
    requires order != [] && order[|order| - 1] in g
    requires KeptFrom(front, order[..|order| - 1], g)
    ensures KeptFrom(front, order, g)
    ensures var last := order[|order| - 1]; Viable(g[last]) ==> KeptFrom(front + [(last, g[last])], order, g)
  {
    var last := order[|order| - 1];
    assert last in order;
    forall j | 0 <= j < |front|
      ensures front[j].0 in order
    {
      assert front[j].0 in order[..|order| - 1];
    }
    if Viable(g[last]) {
      var r := front + [(last, g[last])];
      assert forall j :: 0 <= j < |front| ==> r[j] == front[j];
    }
  }

  /** One more index adds its account at the end when it is viable. */
  lemma KeptStep(order: seq<int>, j: nat, g: map<int, Config>)
    requires j < |order| && forall i :: i in order ==> i in g
    ensures order[j] in g && forall i :: i in order[..j] ==> i in g
    ensures Kept(order[..j + 1], g) == Kept(order[..j], g) + if Viable(g[order[j]]) then [(order[j], g[order[j]])] else []
  {
    assert order[..j + 1][..j] == order[..j] && order[..j + 1][j] == order[j];
    assert order[j] in order;
  }

  /** A viable account under an index of `order` is kept. */
  lemma {:induction false} KeptComplete(order: seq<int>, g: map<int, Config>, i: int)
    requires forall x :: x in order ==> x in g
    requires i in order && Viable(g[i])
    ensures (i, g[i]) in Kept(order, g)
  {
    var n := |order| - 1;
    if order[n] != i {
      assert i in order[..n];
      KeptComplete(order[..n], g, i);
    }
  }

  /** Kept from increasing indices, the accounts come out in increasing index order. */
  lemma {:induction false} KeptIncreasing(order: seq<int>, g: map<int, Config>)
    requires forall x :: x in order ==> x in g
    requires Increasing(order)
    ensures forall a, b :: 0 <= a < b < |Kept(order, g)| ==> Kept(order, g)[a].0 < Kept(order, g)[b].0
  {
    if order != [] {
      var n := |order| - 1;
      KeptStep(order, n, g);
      assert order[..n + 1] == order;
      var front := Kept(order[..n], g);
      assert Increasing(order[..n]);
      KeptIncreasing(order[..n], g);
      forall j | 0 <= j < |front| ensures front[j].0 < order[n] {
        BeforeLast(order, front[j].0);
      }
    }
  }

  /** In an increasing sequence, what comes before the last element is smaller. */
  lemma BeforeLast(order: seq<int>, x: int)
    requires order != [] && Increasing(order) && x in order[..|order| - 1]
    ensures x < order[|order| - 1]
  {
    var m :| 0 <= m < |order| - 1 && order[..|order| - 1][m] == x;
    assert order[m] == x;
  }

  /** What `collect_accounts(env)` returns, as pairs ordered by index. */
  function Collected(env: Env): seq<(int, Config)>
  {
    var g := Fallbacks(Groups(env));
    Kept(Ascending(g.Keys), g)
  }

  /** `collect_accounts`: the grouping scan, the compatibility step and the filter. */
  method CollectAccounts(env: Env) returns (filtered: seq<(int, Config)>)
    ensures filtered == Collected(env)
  {
    var groups := GroupAccounts(env);
    var order := Ascending(groups.Keys);
    groups := ApplySessionFallback(groups, order);
    filtered := FilterAccounts(groups, order);
  }

  /** The first loop of `collect_accounts`. */
  method GroupAccounts(env: Env) returns (groups: map<int, Config>)
    ensures groups == Groups(env)
  {
    groups := map[];
    for j := 0 to |env|
      invariant groups == Groups(env[..j])
    {
      assert env[..j + 1][..j] == env[..j];
      var m := GroupKey(env[j].0);
      if m.None? {
        continue;
      }
      var idx, field := m.value.0, m.value.1;
      var cfg := if idx in groups then groups[idx] else map[];
      groups := groups[idx := cfg[field := env[j].1]];
    }
    assert env[..|env|] == env;
  }

  /** The compatibility loop of `collect_accounts`, over every index of `groups`. */
  method ApplySessionFallback(raw: map<int, Config>, order: seq<int>) returns (groups: map<int, Config>)
    requires Increasing(order) && forall i :: i in raw <==> i in order
    ensures groups == Fallbacks(raw)
  {
    groups := raw;
    for j := 0 to |order|
      invariant groups.Keys == raw.Keys
      invariant forall i :: i in groups ==> groups[i] == if i in order[..j] then WithSessionFallback(raw[i]) else raw[i]
    {
      var idx := order[j];
      assert idx !in order[..j];
      assert forall i :: i in order[..j + 1] <==> i in order[..j] || i == idx;
      groups := groups[idx := WithSessionFallback(groups[idx])];
    }
    assert order[..|order|] == order;
    forall i | i in groups
      ensures groups[i] == Fallbacks(raw)[i]
    {
      assert i in order[..|order|];
    }
  }

  /** The filtering loop of `collect_accounts`, by ascending index. */
  method FilterAccounts(groups: map<int, Config>, order: seq<int>) returns (filtered: seq<(int, Config)>)
    requires forall i :: i in order ==> i in groups
    ensures filtered == Kept(order, groups)
  {
    filtered := [];
    for j := 0 to |order|
      invariant filtered == Kept(order[..j], groups)
    {
      var idx := order[j];
      KeptStep(order, j, groups);
      var cfg := groups[idx];
      var missing := Missing(cfg, Required);
      if missing != [] {
        continue;
      }
      assert HasValue(cfg, Required[2]);
      if Lower(Strip(cfg["PROXY_TYPE"])) != "socks5" {
        continue;
      }
      filtered := filtered + [(idx, cfg)];
    }
    assert order[..|order|] == order;
  }

  /** The accounts come out by strictly increasing index. */
  lemma CollectedInOrder(env: Env)
    ensures forall a, b :: 0 <= a < b < |Collected(env)| ==> Collected(env)[a].0 < Collected(env)[b].0
  {
    var g := Fallbacks(Groups(env));
    KeptIncreasing(Ascending(g.Keys), g);
  }

  /** An account is returned exactly when its group, after the compatibility step, is viable. */
  lemma CollectedExactly(env: Env, idx: int, cfg: Config)
    ensures (idx, cfg) in Collected(env) <==>
      idx in Groups(env) && cfg == WithSessionFallback(Groups(env)[idx]) && Viable(cfg)
  {
    var g := Fallbacks(Groups(env));
    KeptExactly(Ascending(g.Keys), g, idx, cfg);
  }

  /** A pair is kept from `order` exactly when its index is in `order` and its account is viable. */
  lemma KeptExactly(order: seq<int>, g: map<int, Config>, i: int, c: Config)
    requires forall x :: x in order ==> x in g
    ensures (i, c) in Kept(order, g) <==> i in order && c == g[i] && Viable(c)
  {
    if i in order && c == g[i] && Viable(c) {
      KeptComplete(order, g, i);
    }
    if (i, c) in Kept(order, g) {
      var j :| 0 <= j < |Kept(order, g)| && Kept(order, g)[j] == (i, c);
    }
  }

  /** `cfg.get(field) or None` */
  function OptionalField(cfg: Config, field: string): (r: Option<string>)
    ensures r.Some? <==> HasValue(cfg, field)
    ensures r.Some? ==> r.value == cfg[field]
  {
    if HasValue(cfg, field) then Some(cfg[field]) else None
  }

  /** `str(cfg.get("PROXY_RDNS", "")).strip().lower() in TRUE_SET`: off unless set to a true word. */
  function RdnsOn(cfg: Config): (b: bool)
    ensures b <==> "PROXY_RDNS" in cfg && Lower(Strip(cfg["PROXY_RDNS"])) in TrueWords
  {
    var text := if "PROXY_RDNS" in cfg then cfg["PROXY_RDNS"] else "";
    assert Lower(Strip("")) !in TrueWords by {
      assert Strip("") == [] && Lower([]) == [];
    }
    Lower(Strip(text)) in TrueWords
  }

  /** `build_proxy`: always SOCKS5; `None` stands for the error `int()` raises on the port. */
  function BuildProxy(cfg: Config): (r: Option<Proxy>)
    requires "PROXY_HOST" in cfg && "PROXY_PORT" in cfg
    ensures r.Some? <==> PyInt(cfg["PROXY_PORT"]).Some?
    ensures r.Some? ==> r.value.kind == Socks5 && r.value.host == cfg["PROXY_HOST"]
    ensures r.Some? ==> Some(r.value.port) == PyInt(cfg["PROXY_PORT"])
    ensures r.Some? ==> r.value.user == OptionalField(cfg, "PROXY_USER") && r.value.password == OptionalField(cfg, "PROXY_PASS")
    ensures r.Some? ==> r.value.rdns == RdnsOn(cfg)
  {
    match PyInt(cfg["PROXY_PORT"])
    case None => None
    case Some(port) =>
      Some(Proxy(Socks5, cfg["PROXY_HOST"], port, RdnsOn(cfg), OptionalField(cfg, "PROXY_USER"), OptionalField(cfg, "PROXY_PASS")))
  }

  /** The characters `sanitize_name` keeps: digits and `+`. */
  predicate IsNameChar(c: char)
  {
    IsDigit(c) || c == '+'
  }

  /** The digits and `+` signs of `s`, in order. */
  function NameChars(s: string): string
  {
    if s == [] then [] else NameChars(s[..|s| - 1]) + if IsNameChar(s[|s| - 1]) then [s[|s| - 1]] else []
  }

  lemma {:induction false} NameCharsAppend(a: string, b: string)
    ensures NameChars(a + b) == NameChars(a) + NameChars(b)
  {
    if b == [] {
      assert a + b == a;
    } else {
      assert (a + b)[..|a + b| - 1] == a + b[..|b| - 1];
      NameCharsAppend(a, b[..|b| - 1]);
    }
  }

  lemma {:induction false} NoNameChars(s: string, k: nat)
    requires NameChars(s) == [] && k < |s|
    ensures !IsNameChar(s[k])
  {
    if k < |s| - 1 {
      assert s[..|s| - 1][k] == s[k];
      NoNameChars(s[..|s| - 1], k);
    }
  }

  /** Only digits, `+` and `_`, and never two `_` in a row. */
  predicate Tidy(s: string)
  {
    (forall k :: 0 <= k < |s| ==> IsNameChar(s[k]) || s[k] == '_') &&
    forall k: nat :: k + 1 < |s| ==> NoDoubleAt(s, k)
  }

  /** `re.sub(r"[^\d+]+", "_", s)`: each longest run of other characters becomes one `_`. */
  function Underscored(s: string): string
  {
    if s == [] then [] else Extend(Underscored(s[..|s| - 1]), s[|s| - 1], AfterOther(s))
  }

  /** The substituted text is tidy, keeps the digits and `+` of `s` in order, and ends in `_`
      exactly when `s` ends in another character. */
  lemma {:induction false} UnderscoredShape(s: string)
    ensures Tidy(Underscored(s))
    ensures NameChars(Underscored(s)) == NameChars(s)
    ensures s != [] ==> Underscored(s) != [] && (Underscored(s)[|Underscored(s)| - 1] == '_' <==> !IsNameChar(s[|s| - 1]))
  {
    if s != [] {
      var front := s[..|s| - 1];
      UnderscoredShape(front);
      if |s| > 1 {
        assert front[|front| - 1] == front[|s| - 2];
      } else {
        assert front == [];
      }
      ExtendKeeps(s, Underscored(front));
    }
  }

  /** The character before the last one of `s` is neither a digit nor `+`. */
  predicate AfterOther(s: string)
  {
    |s| > 1 && !IsNameChar(s[|s| - 2])
  }

  /** One more character `c` after the substituted text `u`: a digit or `+` is kept; another
      character adds a `_` unless it continues a run of such characters. */
  function Extend(u: string, c: char, inRun: bool): string
  {
    if IsNameChar(c) then u + [c] else if inRun then u else u + "_"
  }

  /** Extending the substitution of the rest of `s` by the last character of `s` keeps the text
      tidy, keeps its digits and `+` in order, and ends it in `_` exactly for another character. */
  lemma ExtendKeeps(s: string, u: string)
    requires s != [] && Tidy(u) && NameChars(u) == NameChars(s[..|s| - 1])
    requires |s| == 1 ==> u == []
    requires |s| > 1 ==> u != [] && (u[|u| - 1] == '_' <==> !IsNameChar(s[..|s| - 1][|s| - 2]))
    ensures var r := Extend(u, s[|s| - 1], AfterOther(s));
      Tidy(r) && NameChars(r) == NameChars(s) && r != [] && (r[|r| - 1] == '_' <==> !IsNameChar(s[|s| - 1]))
  {
    var c := s[|s| - 1];
    if IsNameChar(c) {
      AppendNameChar(s, u);
    } else if AfterOther(s) {
      assert s[..|s| - 1][|s| - 2] == s[|s| - 2];
      RunContinues(s, u);
    } else {
      if |s| > 1 {
        assert s[..|s| - 1][|s| - 2] == s[|s| - 2];
      }
      AppendUnderscore(s, u);
    }
  }

  /** A digit or `+` ending `s` is appended to the tidy form of the rest of `s`. */
  lemma AppendNameChar(s: string, u: string)
    requires s != [] && IsNameChar(s[|s| - 1])
    requires Tidy(u) && NameChars(u) == NameChars(s[..|s| - 1])
    ensures Tidy(u + [s[|s| - 1]]) && NameChars(u + [s[|s| - 1]]) == NameChars(s)
    ensures (u + [s[|s| - 1]])[|u|] == s[|s| - 1]
  {
    var c := s[|s| - 1];
    AppendTidy(u, c);
    assert (u + [c])[..|u|] == u;
  }

  /** Another character after one that is not a digit or `+` continues the same run. */
  lemma RunContinues(s: string, u: string)
    requires |s| >= 2 && !IsNameChar(s[|s| - 1])
    requires NameChars(u) == NameChars(s[..|s| - 1])
    ensures NameChars(u) == NameChars(s)
  {
  }

  /** A character that is not a digit or `+` and starts a run adds one `_`. */
  lemma AppendUnderscore(s: string, u: string)
    requires s != [] && !IsNameChar(s[|s| - 1])
    requires Tidy(u) && NameChars(u) == NameChars(s[..|s| - 1]) && (u == [] || u[|u| - 1] != '_')
    ensures Tidy(u + "_") && NameChars(u + "_") == NameChars(s) && (u + "_")[|u|] == '_'
  {
    AppendTidy(u, '_');
    assert (u + "_")[..|u|] == u;
  }

  /** A digit, `+` or `_` after a tidy text keeps it tidy unless it makes a second `_` in a row. */
  lemma AppendTidy(u: string, c: char)
    requires Tidy(u) && (IsNameChar(c) || c == '_')
    requires c == '_' ==> u == [] || u[|u| - 1] != '_'
    ensures Tidy(u + [c])
  {
    var r := u + [c];
    forall k | 0 <= k < |r|
      ensures IsNameChar(r[k]) || r[k] == '_'
    {
      if k < |u| {
        assert r[k] == u[k];
      }
    }
    forall k: nat | k + 1 < |r|
      ensures NoDoubleAt(r, k)
    {
      if k + 1 < |u| {
        assert NoDoubleAt(u, k);
        assert r[k] == u[k] && r[k + 1] == u[k + 1];
      }
    }
  }

  /** A slice of a tidy text is tidy. */
  lemma TidySlice(t: string, i: nat, j: nat)
    requires Tidy(t) && i <= j <= |t|
    ensures Tidy(t[i..j])
  {
    var s := t[i..j];
    forall k: nat | k + 1 < |s|
      ensures NoDoubleAt(s, k)
    {
      assert NoDoubleAt(t, i + k);
    }
  }

  /** A tidy string has no run to replace. */
  lemma {:induction false} UnderscoredTidy(t: string)
    requires Tidy(t)
    ensures Underscored(t) == t
  {
    if t != [] {
      var front := t[..|t| - 1];
      TidySlice(t, 0, |t| - 1);
      UnderscoredTidy(front);
      if front != [] && t[|t| - 1] == '_' {
        assert NoDoubleAt(t, |t| - 2);
        assert front[|front| - 1] == t[|t| - 2];
      }
    }
  }

  lemma {:induction false} StripUnderscoreKeeps(t: string)
    requires Tidy(t)
    ensures Tidy(StripChar(t, '_')) && NameChars(StripChar(t, '_')) == NameChars(t)
  {
    if t != [] {
      if t[0] == '_' {
        TidySlice(t, 1, |t|);
        assert t[1..|t|] == t[1..];
        StripUnderscoreKeeps(t[1..]);
        DropFrontUnderscore(t);
      } else if t[|t| - 1] == '_' {
        TidySlice(t, 0, |t| - 1);
        StripUnderscoreKeeps(t[..|t| - 1]);
        DropBackUnderscore(t);
      }
    }
  }

  /** A leading `_` is stripped and is no name character. */
  lemma DropFrontUnderscore(t: string)
    requires t != [] && t[0] == '_'
    ensures StripChar(t, '_') == StripChar(t[1..], '_') && NameChars(t) == NameChars(t[1..])
  {
    assert t == "_" + t[1..];
    NameCharsAppend("_", t[1..]);
    assert NameChars("_") == [] by {
      assert "_"[..0] == [];
    }
  }

  /** A trailing `_` after a first character that is not `_` is stripped and is no name character. */
  lemma DropBackUnderscore(t: string)
    requires t != [] && t[0] != '_' && t[|t| - 1] == '_'
    ensures StripChar(t, '_') == StripChar(t[..|t| - 1], '_') && NameChars(t) == NameChars(t[..|t| - 1])
  {
  }

  /** `sanitize_name`: never empty; the digits and `+` of the input, runs of anything else
      as single inner `_`, or `"account"` when the input has no digit and no `+`. */
  function SanitizeName(s: string): (r: string)
    ensures r != []
    ensures NameChars(s) == [] ==> r == "account"
    ensures NameChars(s) != [] ==> Tidy(r) && r[0] != '_' && r[|r| - 1] != '_' && NameChars(r) == NameChars(s)
  {
    var t := StripChar(Underscored(s), '_');
    UnderscoredShape(s);
    StripUnderscoreKeeps(Underscored(s));
    if t == [] then "account"
    else
      assert NameChars(s) != [] by {
        if NameChars(s) == [] {
          NoNameChars(t, 0);
        }
      }
      t
  }

  /** A phone written with digits and `+` only is its own name. */
  lemma PlainPhoneKept(s: string)
    requires s != [] && forall k :: 0 <= k < |s| ==> IsNameChar(s[k])
    ensures SanitizeName(s) == s
  {
    UnderscoredTidy(s);
    assert s[0] != '_' && s[|s| - 1] != '_';
  }

  /** A non-empty run of other characters becomes a single `_`. */
  lemma {:induction false} OthersBecomeOneUnderscore(s: string)
    requires s != [] && forall k :: 0 <= k < |s| ==> !IsNameChar(s[k])
    ensures Underscored(s) == "_"
  {
    if |s| > 1 {
      OthersBecomeOneUnderscore(s[..|s| - 1]);
    } else {
      assert s[..0] == [];
    }
  }

  /** The substitution splits around every digit or `+`: the text before it and the text
      after it are substituted on their own, so runs never merge across a kept character. */
  lemma {:induction false} UnderscoredAround(a: string, c: char, b: string)
    requires IsNameChar(c)
    ensures Underscored(a + [c] + b) == Underscored(a) + [c] + Underscored(b)
    decreases |b|
  {
    var s := a + [c] + b;
    if b == [] {
      UnderscoredSnoc(s);
      assert s[..|s| - 1] == a && s[|s| - 1] == c;
    } else {
      var front, d := b[..|b| - 1], b[|b| - 1];
      var p := Underscored(a) + [c];
      UnderscoredSnoc(s);
      UnderscoredSnoc(b);
      assert s[..|s| - 1] == a + [c] + front && s[|s| - 1] == d;
      UnderscoredAround(a, c, front);
      assert AfterOther(s) == AfterOther(b) by {
        if |b| > 1 {
          assert s[|s| - 2] == b[|b| - 2];
        } else {
          assert s[|s| - 2] == c;
        }
      }
      ExtendShift(p, Underscored(front), d, AfterOther(b));
    }
  }

  /** The substitution of a non-empty text is one step after that of its front. */
  lemma UnderscoredSnoc(s: string)
    requires s != []
    ensures Underscored(s) == Extend(Underscored(s[..|s| - 1]), s[|s| - 1], AfterOther(s))
  {
  }

  /** A step only touches the end of the text. */
  lemma ExtendShift(p: string, u: string, c: char, inRun: bool)
    ensures Extend(p + u, c, inRun) == p + Extend(u, c, inRun)
  {
    assert (p + u) + [c] == p + (u + [c]) && (p + u) + "_" == p + (u + "_");
  }

  /** Two digits or `+` around a run of other characters come out joined by one `_`. */
  lemma SanitizeSeparates(c: char, x: string, d: char)
    requires IsNameChar(c) && IsNameChar(d)
    requires x != [] && forall k :: 0 <= k < |x| ==> !IsNameChar(x[k])
    ensures SanitizeName([c] + x + [d]) == [c, '_', d]
  {
    UnderscoredSeparates(c, x, d);
  }

  /** The substitution alone turns `c`, a run of other characters and `d` into `c_d`. */
  lemma UnderscoredSeparates(c: char, x: string, d: char)
    requires IsNameChar(c) && IsNameChar(d)
    requires x != [] && forall k :: 0 <= k < |x| ==> !IsNameChar(x[k])
    ensures Underscored([c] + x + [d]) == [c, '_', d]
  {
    var cx := [c] + x;
    LeadThenRun(c, x);
    UnderscoredAround(cx, d, []);
    assert cx + [d] + [] == [c] + x + [d];
  }

  /** A digit or `+` followed by a run of other characters becomes that character and `_`. */
  lemma LeadThenRun(c: char, x: string)
    requires IsNameChar(c)
    requires x != [] && forall k :: 0 <= k < |x| ==> !IsNameChar(x[k])
    ensures Underscored([c] + x) == [c, '_']
  {
    UnderscoredAround([], c, x);
    assert [] + [c] + x == [c] + x;
    OthersBecomeOneUnderscore(x);
  }

  /** Sanitizing twice changes nothing. */
  lemma SanitizeIdempotent(s: string)
    ensures SanitizeName(SanitizeName(s)) == SanitizeName(s)
  {
    var r := SanitizeName(s);
    if NameChars(s) == [] {
      OthersBecomeOneUnderscore("account");
      assert StripChar("_", '_') == StripChar([], '_');
    } else {
      UnderscoredTidy(r);
    }
  }

  /** One entry of `results`: the index, the phone, and the refreshed session or `None`. */
  datatype Outcome = Outcome(idx: int, phone: string, session: Option<string>)

  /** How many outcomes carry a non-empty session (`if s:`). */
  function Successes(results: seq<Outcome>): (n: nat)
    ensures n <= |results|
  {
    if results == [] then 0
    else Successes(results[..|results| - 1]) + if Filled(results[|results| - 1].session) then 1 else 0
  }

  /** The pieces of the commented-out note printed for a failed account. */
  const NoteStart := "# "
  const NoteError := "=<ошибка для "
  const NoteEnd := ">"

  /** The line printed for one outcome: the session, or a commented-out note. */
  function SummaryLine(o: Outcome): string
  {
    if Filled(o.session) then SessionLine(o.idx, o.session.value)
    else NoteStart + AccountKey(o.idx, "SESSION") + NoteError + o.phone + NoteEnd
  }

  /** One more outcome counts as a success exactly when it carries a session. */
  lemma SuccessesStep(results: seq<Outcome>, j: nat)
    requires j < |results|
    ensures Successes(results[..j + 1]) == Successes(results[..j]) + if Filled(results[j].session) then 1 else 0
  {
    assert results[..j + 1][..j] == results[..j];
  }

  /** The first loop of the summary: `ok` counts the outcomes with a session, `fail` the rest. */
  method CountOutcomes(results: seq<Outcome>) returns (ok: nat, fail: nat)
    ensures ok == Successes(results) && ok + fail == |results|
  {
    ok, fail := 0, 0;
    for j := 0 to |results|
      invariant ok == Successes(results[..j]) && ok + fail == j
    {
      SuccessesStep(results, j);
      if Filled(results[j].session) {
        ok := ok + 1;
      } else {
        fail := fail + 1;
      }
    }
    assert results[..|results|] == results;
  }

  /** The printed summary lines, one per outcome. */
  ghost function SummaryText(results: seq<Outcome>): (r: seq<string>)
    ensures |r| == |results| && forall j :: 0 <= j < |results| ==> r[j] == SummaryLine(results[j])
  {
    seq(|results|, j requires 0 <= j < |results| => SummaryLine(results[j]))
  }

  /** The second loop of the summary: one printed line per outcome, in order. */
  method SummaryLines(results: seq<Outcome>) returns (lines: seq<string>)
    ensures |lines| == |results| && forall j :: 0 <= j < |results| ==> lines[j] == SummaryLine(results[j])
  {
    ghost var text := SummaryText(results);
    lines := [];
    for j := 0 to |results|
      invariant lines == text[..j]
    {
      assert text[..j + 1] == text[..j] + [text[j]];
      lines := lines + [SummaryLine(results[j])];
    }
    assert text[..|results|] == text;
  }

  /** The summary at the end of `main`: the two counters, then one line per outcome. */
  method Summarize(results: seq<Outcome>) returns (ok: nat, fail: nat, lines: seq<string>)
    ensures ok == Successes(results) && ok + fail == |results|
    ensures |lines| == |results| && forall j :: 0 <= j < |results| ==> lines[j] == SummaryLine(results[j])
  {
    ok, fail := CountOutcomes(results);
    lines := SummaryLines(results);
  }

  /** Pasted back into the config, a success line sets the account's `SESSION` and a failure
      line is a comment. */
  lemma SummaryLineReloads(o: Outcome)
    requires o.idx >= 0
    requires Filled(o.session) ==> !IsSpace(o.session.value[0]) && !IsSpace(o.session.value[|o.session.value| - 1])
    ensures Filled(o.session) ==> KvEntry(SummaryLine(o)) == Some((AccountKey(o.idx, "SESSION"), o.session.value))
    ensures !Filled(o.session) ==> KvEntry(SummaryLine(o)).None?
  {
    var k := AccountKey(o.idx, "SESSION");
    SessionKeyIsKey(o.idx);
    if Filled(o.session) {
      assert forall i :: 0 <= i < |k| ==> IsKeyChar(k[i]);
      KvLineReadsBack(k, o.session.value);
    } else {
      var line := SummaryLine(o);
      assert line[0] == '#' && line[|line| - 1] == '>';
      StripUntrimmed(line);
    }
  }
}

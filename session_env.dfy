/** What the two bulk session generators share word for word: the `KEY=VALUE` line
    pattern, the case-insensitive `TG<N>_` account prefix, the collection of account
    indices, the proxy tuple chosen from type/host/port, and the account record. */
module SessionEnv {
  import opened PyStr
  import opened EnvList
  import opened Ordered

  predicate IsKeyStart(c: char)
  {
    'A' <= c <= 'Z' || 'a' <= c <= 'z' || c == '_'
  }

  predicate IsKeyChar(c: char)
  {
    IsKeyStart(c) || '0' <= c <= '9'
  }

  /** `[A-Za-z_][A-Za-z0-9_]*` */
  predicate IsKey(k: string)
  {
    |k| > 0 && IsKeyStart(k[0]) && forall i :: 0 <= i < |k| ==> IsKeyChar(k[i])
  }

  /** Length of the longest prefix made of key characters. */
  function KeyLen(s: string): (n: nat)
    ensures n <= |s|
    ensures forall i :: 0 <= i < n ==> IsKeyChar(s[i])
    ensures n == |s| || !IsKeyChar(s[n])
  {
    if s == [] || !IsKeyChar(s[0]) then 0 else 1 + KeyLen(s[1..])
  }

  /** `s.lstrip()` */
  function LStrip(s: string): (r: string)
    ensures r == s[LeadingSpaces(s)..]
    ensures r == [] || !IsSpace(r[0])
  {
    s[LeadingSpaces(s)..]
  }

  /** `ENV_LINE_RE.match(line)`, the pattern `^\s*([A-Za-z_][A-Za-z0-9_]*)\s*=\s*(.*)\s*$`:
      the key and the value group. The key group cannot give back characters to the
      pattern after it (neither a space nor `=` is a key character), so it is the
      longest key prefix; `(.*)` takes the rest of the line after the spaces following `=`. */
  function MatchEnvLine(line: string): (r: Option<(string, string)>)
    ensures '=' !in line ==> r.None?
    ensures r.Some? ==> IsKey(r.value.0) && r.value.0 <= LStrip(line)
    ensures r.Some? ==> |r.value.1| < |line| && r.value.1 == line[|line| - |r.value.1|..]
    ensures r.Some? ==> r.value.1 == [] || !IsSpace(r.value.1[0])
  {
    var s := LStrip(line);
    var n := KeyLen(s);
    if n == 0 || !IsKeyStart(s[0]) then None
    else
      var rest := s[n..];
      var m := LeadingSpaces(rest);
      if m == |rest| || rest[m] != '=' then None
      else
        KeyGroupIsKey(s, n);
        EqualsInLine(line, n, m);
        ValueGroupSuffix(line, n, m);
        Some((s[..n], LStrip(rest[m + 1..])))
  }

  /** The key group is a key at the start of the stripped line. */
  lemma KeyGroupIsKey(s: string, n: nat)
    requires n == KeyLen(s) && n > 0 && IsKeyStart(s[0])
    ensures IsKey(s[..n]) && s[..n] <= s
  {
  }

  /** The `=` the pattern finds after the key and its spaces is a character of the line. */
  lemma EqualsInLine(line: string, n: nat, m: nat)
    requires n + m < |LStrip(line)| && LStrip(line)[n..][m] == '='
    ensures '=' in line
  {
    assert LStrip(line)[n..][m] == line[LeadingSpaces(line) + n + m];
  }

  /** The value group is an unspaced proper suffix of the line. */
  lemma ValueGroupSuffix(line: string, n: nat, m: nat)
    requires n + m < |LStrip(line)|
    ensures var v := LStrip(LStrip(line)[n..][m + 1..]);
      |v| < |line| && v == line[|line| - |v|..] && (v == [] || !IsSpace(v[0]))
  {
    var q := LeadingSpaces(line) + n + m + 1;
    assert LStrip(line)[n..][m + 1..] == line[q..];
    var v := LStrip(line[q..]);
    assert v == line[q + LeadingSpaces(line[q..])..];
  }

  lemma {:induction false} KeyLenOfKey(k: string, t: string)
    requires forall i :: 0 <= i < |k| ==> IsKeyChar(k[i])
    requires t == [] || !IsKeyChar(t[0])
    ensures KeyLen(k + t) == |k|
  {
    if k != [] {
      assert (k + t)[1..] == k[1..] + t;
      KeyLenOfKey(k[1..], t);
    }
  }

  lemma LStripUnspaced(s: string)
    requires s == [] || !IsSpace(s[0])
    ensures LStrip(s) == s
  {
    assert LeadingSpaces(s) == 0;
  }

  /** After the key, `=` followed by an unspaced value gives that value as the value group. */
  lemma ValueGroupAfterEquals(v: string)
    requires v == [] || !IsSpace(v[0])
    ensures LeadingSpaces("=" + v) == 0 && ("=" + v)[1..] == v && LStrip(v) == v
  {
    LStripUnspaced(v);
  }

  /** A line written as `KEY=VALUE` reads back as that key and value. */
  lemma MatchRenderedLine(k: string, v: string)
    requires IsKey(k)
    requires v == [] || !IsSpace(v[0])
    ensures MatchEnvLine(k + "=" + v) == Some((k, v))
  {
    var tail := "=" + v;
    var line := k + tail;
    assert k + "=" + v == line;
    LStripUnspaced(line);
    KeyLenOfKey(k, tail);
    assert line[..|k|] == k && line[|k|..] == tail;
    ValueGroupAfterEquals(v);
    assert LStrip(line) == line && KeyLen(line) == |k| && IsKeyStart(line[0]);
    assert LeadingSpaces(line[|k|..]) == 0 && line[|k|..][0] == '=' && line[|k|..][1..] == v;
  }

  /** Python's `v.startswith(q) and v.endswith(q)` for `q` a double or a single quote. */
  predicate IsQuoted(v: string)
  {
    |v| > 0 && ((v[0] == '"' && v[|v| - 1] == '"') || (v[0] == '\'' && v[|v| - 1] == '\''))
  }

  /** `v[1:-1]`, which is empty for a one-character string. */
  function Unquote(v: string): (r: string)
    ensures |v| >= 2 ==> |r| == |v| - 2 && forall k :: 0 <= k < |r| ==> r[k] == v[k + 1]
    ensures |v| < 2 ==> r == []
  {
    if |v| < 2 then [] else v[1..|v| - 1]
  }

  /** `PREFIX_RE.match(key)` with `PREFIX_RE = ^TG(\d+)_` ignoring case: the number after the prefix. */
  function AccountIndex(key: string): (r: Option<int>)
    ensures r.Some? ==> |key| >= 4 && Lower(key[..2]) == "tg" && r.value >= 0
  {
    if |key| < 2 || LowerChar(key[0]) != 't' || LowerChar(key[1]) != 'g' then None
    else
      var rest := key[2..];
      var d := DigitRunLen(rest);
      if d == 0 || d == |rest| || rest[d] != '_' then None
      else
        assert Lower(key[..2]) == [LowerChar(key[0]), LowerChar(key[1])];
        Some(DigitsValue(rest[..d]))
  }

  /** Length of the longest prefix made of digits. */
  function DigitRunLen(s: string): (n: nat)
    ensures n <= |s|
    ensures forall i :: 0 <= i < n ==> IsDigit(s[i])
    ensures n == |s| || !IsDigit(s[n])
  {
    if s == [] || !IsDigit(s[0]) then 0 else 1 + DigitRunLen(s[1..])
  }

  lemma {:induction false} DigitRunOfDigits(d: string, t: string)
    requires forall i :: 0 <= i < |d| ==> IsDigit(d[i])
    requires t == [] || !IsDigit(t[0])
    ensures DigitRunLen(d + t) == |d|
  {
    if d != [] {
      assert (d + t)[1..] == d[1..] + t;
      DigitRunOfDigits(d[1..], t);
    }
  }

  /** Every per-account key `TG<n>_...` (in any letter case) is found under index `n`. */
  lemma AccountIndexOfKey(n: nat, rest: string)
    ensures AccountIndex("TG" + NatToStr(n) + "_" + rest) == Some(n)
  {
    var d := NatToStr(n);
    var key := "TG" + d + "_" + rest;
    assert key[2..] == d + ("_" + rest);
    DigitRunOfDigits(d, "_" + rest);
    assert key[2..][..|d|] == d;
    NatToStrRoundTrip(n);
  }

  /** `f"TG{idx}_{suffix}"` */
  function AccountKey(idx: int, suffix: string): string
  {
    "TG" + IntToStr(idx) + "_" + suffix
  }

  /** `f"TG{idx}_SESSION={sess}"`: the line written for each fresh session. */
  function SessionLine(idx: int, sess: string): string
  {
    AccountKey(idx, "SESSION") + "=" + sess
  }

  /** The session key of a numbered account is a plain key: letters, digits and `_`. */
  lemma SessionKeyIsKey(idx: nat)
    ensures IsKey(AccountKey(idx, "SESSION"))
  {
    var k := AccountKey(idx, "SESSION");
    var d := NatToStr(idx);
    assert k == "TG" + d + "_SESSION";
    forall i | 0 <= i < |k| ensures IsKeyChar(k[i]) {
      if 2 <= i < 2 + |d| {
        assert k[i] == d[i - 2];
      }
    }
  }

  /** The indices of all `TG<N>_` keys among the first `n` keys of the file. */
  function IndexSet(keys: seq<string>): (r: set<int>)
    ensures forall i :: i in r ==> i >= 0
    ensures forall j :: 0 <= j < |keys| && AccountIndex(keys[j]).Some? ==> AccountIndex(keys[j]).value in r
  {
    if keys == [] then {}
    else
      var front := IndexSet(keys[..|keys| - 1]);
      assert forall j :: 0 <= j < |keys| - 1 ==> keys[j] == keys[..|keys| - 1][j];
      match AccountIndex(keys[|keys| - 1])
      case None => front
      case Some(i) => front + {i}
  }

  lemma {:induction false} IndexSetOnlyFromKeys(keys: seq<string>, i: int)
    requires i in IndexSet(keys)
    ensures exists j :: 0 <= j < |keys| && AccountIndex(keys[j]) == Some(i)
  {
    var front := keys[..|keys| - 1];
    if AccountIndex(keys[|keys| - 1]) != Some(i) {
      IndexSetOnlyFromKeys(front, i);
      var j :| 0 <= j < |front| && AccountIndex(front[j]) == Some(i);
      assert keys[j] == front[j];
    }
  }

  /** `indices` after the key scan and the `only` filter; an empty `only` (or none) keeps every index. */
  function Selected(env: Env, only: seq<int>): (r: set<int>)
  {
    var all := IndexSet(Keys(env));
    if only == [] then all else set i | i in all && i in only
  }

  /** An index is selected exactly when some key carries it and `only` is empty or lists it. */
  lemma SelectedIndices(env: Env, only: seq<int>, i: int)
    ensures i in Selected(env, only) <==>
      (exists j :: 0 <= j < |env| && AccountIndex(env[j].0) == Some(i)) && (only == [] || i in only)
  {
    var keys := Keys(env);
    if i in IndexSet(keys) {
      IndexSetOnlyFromKeys(keys, i);
    }
    if exists j :: 0 <= j < |env| && AccountIndex(env[j].0) == Some(i) {
      var j :| 0 <= j < |env| && AccountIndex(env[j].0) == Some(i);
      assert keys[j] == env[j].0;
    }
  }

  /** The scan over `env.keys()` and the `only` filter. */
  method CollectIndices(env: Env, only: seq<int>) returns (indices: set<int>)
    ensures indices == Selected(env, only)
  {
    indices := {};
    var keys := Keys(env);
    for j := 0 to |keys|
      invariant indices == IndexSet(keys[..j])
    {
      assert keys[..j + 1][..j] == keys[..j];
      var m := AccountIndex(keys[j]);
      if m.Some? {
        indices := indices + {m.value};
      }
    }
    assert keys[..|keys|] == keys;
    if only != [] {
      indices := set i | i in indices && i in only;
    }
  }

  datatype ProxyKind = Socks5 | Socks4 | Http

  /** `(kind, host, port, rdns, user, password)` as handed to the client. */
  datatype Proxy = Proxy(kind: ProxyKind, host: string, port: int, rdns: bool, user: Option<string>, password: Option<string>)

  /** Which proxy kind a lower-cased type names, if any. */
  function KindOf(pType: string): (r: Option<ProxyKind>)
    ensures r == Some(Socks5) <==> pType == "socks5" || pType == "socks5h"
    ensures r == Some(Socks4) <==> pType == "socks4" || pType == "socks4a"
    ensures r == Some(Http) <==> pType == "http" || pType == "https"
  {
    if pType in {"socks5", "socks5h"} then Some(Socks5)
    else if pType in {"socks4", "socks4a"} then Some(Socks4)
    else if pType in {"http", "https"} then Some(Http)
    else None
  }

  /** The proxy both bulk generators build: a type, a host and an all-digit port are
      needed, and the type must be one of the six known names. */
  function ProxyOf(pType: string, host: string, port: string, rdns: bool, user: Option<string>, password: Option<string>): (r: Option<Proxy>)
    ensures r.Some? <==> host != "" && IsDigits(port) && KindOf(pType).Some?
    ensures r.Some? ==> r.value == Proxy(KindOf(pType).value, host, DigitsValue(port), rdns, user, password)
  {
    if pType != "" && host != "" && IsDigits(port) then
      var p: int := DigitsValue(port);
      match KindOf(pType)
      case Some(kind) => Some(Proxy(kind, host, p, rdns, user, password))
      case None => None
    else None
  }

  datatype Account = Account(idx: int, apiId: int, apiHash: string, phone: Option<string>, session: Option<string>, proxy: Proxy)

  /** `x or ""` for an optional string. */
  function OrEmpty(v: Option<string>): (r: string)
    ensures v.Some? ==> r == v.value
    ensures v.None? ==> r == ""
  {
    if v.Some? then v.value else ""
  }

  /** The settings `discover_accounts` reads for one account, each as `get_any` returned it. */
  datatype Settings = Settings(
    apiId: Option<string>, apiHash: Option<string>, phone: Option<string>, session: Option<string>,
    proxyType: Option<string>, proxyHost: Option<string>, proxyPort: Option<string>,
    proxyUser: Option<string>, proxyPass: Option<string>, proxyRdns: Option<string>)

  /** The proxy the settings describe. The type is compared in lower case, and remote DNS
      stays on unless a setting turns it off. */
  function SettingsProxy(s: Settings): (r: Option<Proxy>)
    ensures r.Some? ==> r.value.user == s.proxyUser && r.value.password == s.proxyPass
    ensures r.Some? && s.proxyRdns.None? ==> r.value.rdns
    ensures r.Some? ==> KindOf(Lower(OrEmpty(s.proxyType))) == Some(r.value.kind)
  {
    ProxyOf(Lower(OrEmpty(s.proxyType)), OrEmpty(s.proxyHost), OrEmpty(s.proxyPort), ToBool(s.proxyRdns, true),
      s.proxyUser, s.proxyPass)
  }

  /** The body of the account loop shared by both bulk generators, once the settings are
      read: an account needs an API id and hash, a usable proxy, and an id `int()` accepts. */
  function AccountOf(i: int, s: Settings): (r: Option<Account>)
    ensures r.Some? <==>
      OrEmpty(s.apiId) != "" && OrEmpty(s.apiHash) != "" && SettingsProxy(s).Some? && PyInt(OrEmpty(s.apiId)).Some?
    ensures r.Some? ==> r.value.idx == i && r.value.apiHash == s.apiHash.value && r.value.proxy == SettingsProxy(s).value
    ensures r.Some? ==> PyInt(s.apiId.value) == Some(r.value.apiId)
    ensures r.Some? ==> r.value.phone == s.phone && r.value.session == s.session
  {
    var apiId := OrEmpty(s.apiId);
    var apiHash := OrEmpty(s.apiHash);
    if apiId == "" || apiHash == "" then None
    else
      match SettingsProxy(s)
      case None => None
      case Some(proxy) =>
        match PyInt(apiId)
        case None => None
        case Some(id) => Some(Account(i, id, apiHash, s.phone, s.session, proxy))
  }

  /** The accounts built, in the order of `order`, skipping indices `build` rejects. */
  function Collect(order: seq<int>, build: int -> Option<Account>): (r: seq<Account>)
    ensures |r| <= |order|
  {
    if order == [] then []
    else
      var front := Collect(order[..|order| - 1], build);
      match build(order[|order| - 1])
      case None => front
      case Some(a) => front + [a]
  }

  /** One more index in `order` adds its account, if any, at the end. */
  lemma CollectStep(order: seq<int>, j: nat, build: int -> Option<Account>)
    requires j < |order|
    ensures Collect(order[..j + 1], build) ==
      Collect(order[..j], build) + if build(order[j]).Some? then [build(order[j]).value] else []
  {
    assert order[..j + 1][..j] == order[..j];
  }

  /** The loop of `discover_accounts` over the sorted indices: each index's account is
      appended when `build` accepts it, and skipped otherwise. */
  method BuildAccounts(order: seq<int>, build: int -> Option<Account>) returns (accounts: seq<Account>)
    ensures accounts == Collect(order, build)
  {
    accounts := [];
    for j := 0 to |order|
      invariant accounts == Collect(order[..j], build)
    {
      CollectStep(order, j, build);
      var account := build(order[j]);
      if account.None? {
        continue;
      }
      accounts := accounts + [account.value];
    }
    assert order[..|order|] == order;
  }

  /** An account is in the list exactly when its index is in `order` and `build` accepts it. */
  lemma {:induction false} CollectMembers(order: seq<int>, build: int -> Option<Account>, a: Account)
    ensures a in Collect(order, build) <==> exists j :: 0 <= j < |order| && build(order[j]) == Some(a)
  {
    if order != [] {
      var front := order[..|order| - 1];
      CollectMembers(front, build, a);
      if exists j :: 0 <= j < |order| && build(order[j]) == Some(a) {
        var j :| 0 <= j < |order| && build(order[j]) == Some(a);
        if j < |front| {
          assert front[j] == order[j];
        }
      }
      assert forall j :: 0 <= j < |front| ==> front[j] == order[j];
    }
  }

  /** Built from increasing indices, the accounts come out with strictly increasing `idx`. */
  lemma {:induction false} CollectIncreasing(order: seq<int>, build: int -> Option<Account>)
    requires Increasing(order)
    requires forall i :: build(i).Some? ==> build(i).value.idx == i
    ensures forall j, k :: 0 <= j < k < |Collect(order, build)| ==>
      Collect(order, build)[j].idx < Collect(order, build)[k].idx
    ensures forall j :: 0 <= j < |Collect(order, build)| ==> Collect(order, build)[j].idx in order
  {
    if order != [] {
      var front := order[..|order| - 1];
      var last := order[|order| - 1];
      assert Increasing(front);
      CollectIncreasing(front, build);
      var r := Collect(front, build);
      forall j | 0 <= j < |r| ensures r[j].idx < last && r[j].idx in order {
        var m :| 0 <= m < |front| && front[m] == r[j].idx;
        assert order[m] == r[j].idx;
      }
    }
  }
}

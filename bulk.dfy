/** The multi-account bulk session generator: its own `.env` parser (outer quotes removed,
    nothing else), account discovery from per-account keys only, and the session file
    written after the logins. */
module Bulk {
  import opened PyStr
  import opened EnvList
  import opened Ordered
  import opened SessionEnv

  /** What one line of the file assigns, if anything: the value group as matched, without
      one pair of matching outer quotes. Inline `#` comments are kept in the value. */
  function LineEntry(raw: string): (r: Option<(string, string)>)
    ensures r.Some? ==> IsKey(r.value.0)
    ensures Strip(raw) == [] || Strip(raw)[0] == '#' ==> r.None?
  {
    var line := Strip(raw);
    if line == [] || line[0] == '#' then None
    else
      match MatchEnvLine(line)
      case None => None
      case Some((key, val)) => Some((key, if IsQuoted(val) then Unquote(val) else val))
  }

  /** A line `KEY=VALUE` keeps the whole value, `#` included, when it is not quoted. */
  lemma RenderedLineEntry(k: string, v: string)
    requires IsKey(k)
    requires v == [] || (!IsSpace(v[0]) && !IsSpace(v[|v| - 1]))
    requires !IsQuoted(v)
    ensures LineEntry(k + "=" + v) == Some((k, v))
  {
    RenderedLineStripped(k, v);
    MatchRenderedLine(k, v);
    PlainEntry(k + "=" + v, k, v);
  }

  /** A rendered line with a trimmed value is its own stripped form and starts with the key. */
  lemma RenderedLineStripped(k: string, v: string)
    requires IsKey(k)
    requires v == [] || (!IsSpace(v[0]) && !IsSpace(v[|v| - 1]))
    ensures var line := k + "=" + v; Strip(line) == line && line != [] && line[0] == k[0]
  {
    var line := k + "=" + v;
    assert line[0] == k[0];
    assert !IsSpace(line[|line| - 1]) by {
      if v == [] { assert line[|line| - 1] == '='; } else { assert line[|line| - 1] == v[|v| - 1]; }
    }
    StripUntrimmed(line);
  }

  /** A quoted value loses exactly its outer quotes; inner spaces and `#` stay. */
  lemma QuotedLineEntry(k: string, v: string)
    requires IsKey(k)
    ensures LineEntry(k + "=\"" + v + "\"") == Some((k, v))
  {
    var q := "\"" + v + "\"";
    assert k + "=\"" + v + "\"" == k + "=" + q;
    QuotedShape(v);
    QuotedRenderedLine(k, q);
  }

  /** A line `KEY="..."` whose value has no space at either end keeps the value unquoted. */
  lemma QuotedRenderedLine(k: string, q: string)
    requires IsKey(k) && IsQuoted(q) && !IsSpace(q[0]) && !IsSpace(q[|q| - 1])
    ensures LineEntry(k + "=" + q) == Some((k, Unquote(q)))
  {
    RenderedLineStripped(k, q);
    MatchRenderedLine(k, q);
    UnquotedEntry(k + "=" + q, k, q);
  }

  /** `"v"` is quoted, has no space at either end, and unquotes to `v`. */
  lemma QuotedShape(v: string)
    ensures var q := "\"" + v + "\"";
      IsQuoted(q) && !IsSpace(q[0]) && !IsSpace(q[|q| - 1]) && Unquote(q) == v
  {
    var q := "\"" + v + "\"";
    assert q[0] == '"' && q[|q| - 1] == '"';
    assert q[1..|q| - 1] == v;
  }

  lemma PlainEntry(line: string, k: string, v: string)
    requires Strip(line) == line && line != [] && line[0] != '#'
    requires MatchEnvLine(line) == Some((k, v)) && !IsQuoted(v)
    ensures LineEntry(line) == Some((k, v))
  {
  }

  lemma UnquotedEntry(line: string, k: string, q: string)
    requires Strip(line) == line && line != [] && line[0] != '#'
    requires MatchEnvLine(line) == Some((k, q)) && IsQuoted(q)
    ensures LineEntry(line) == Some((k, Unquote(q)))
  {
  }

  function Entries(lines: seq<string>): (r: seq<Option<(string, string)>>)
    ensures |r| == |lines| && forall i :: 0 <= i < |lines| ==> r[i] == LineEntry(lines[i])
  {
    seq(|lines|, i requires 0 <= i < |lines| => LineEntry(lines[i]))
  }

  /** The dictionary `parse_env_file` returns for the file's lines. */
  function EnvOf(lines: seq<string>): (env: Env)
    ensures DistinctKeys(env)
  {
    Assignments(Entries(lines))
  }

  /** `parse_env_file`, over the file's lines. */
  method ParseEnvFile(lines: seq<string>) returns (env: Env)
    ensures env == EnvOf(lines)
  {
    env := [];
    ghost var entries := Entries(lines);
    for i := 0 to |lines|
      invariant env == Assignments(entries[..i])
    {
      assert entries[..i + 1][..i] == entries[..i];
      var line := Strip(lines[i]);
      if line == [] || line[0] == '#' {
        continue;
      }
      var m := MatchEnvLine(line);
      if m.None? {
        continue;
      }
      var key, val := m.value.0, m.value.1;
      if IsQuoted(val) {
        val := Unquote(val);
      }
      env := Put(env, key, val);
    }
    assert entries[..|lines|] == entries;
  }

  /** A key set on several lines keeps the value of the last of them. */
  lemma LastLineWins(lines: seq<string>, i: nat, k: string, v: string)
    requires i < |lines| && LineEntry(lines[i]) == Some((k, v))
    requires forall j :: i < j < |lines| ==> LineEntry(lines[j]).None? || LineEntry(lines[j]).value.0 != k
    ensures Get(EnvOf(lines), k) == Some(v)
  {
    LastAssignmentWins(Entries(lines), i, k, v);
  }

  /** A key that no line assigns is not in the dictionary. */
  lemma UnassignedKeyAbsent(lines: seq<string>, k: string)
    requires forall j :: 0 <= j < |lines| ==> LineEntry(lines[j]).None? || LineEntry(lines[j]).value.0 != k
    ensures Get(EnvOf(lines), k) == None
  {
    NeverAssigned(Entries(lines), k);
  }

  /** What `discover_accounts` reads for account `i`: only its own `TG<i>_*` keys. */
  function SettingsFor(env: Env, i: int): Settings
  {
    Settings(GetAny(env, [AccountKey(i, "API_ID")]), GetAny(env, [AccountKey(i, "API_HASH")]),
      GetAny(env, [AccountKey(i, "PHONE"), AccountKey(i, "Phone")]), GetAny(env, [AccountKey(i, "SESSION")]),
      GetAny(env, [AccountKey(i, "PROXY_TYPE")]), GetAny(env, [AccountKey(i, "PROXY_HOST")]),
      GetAny(env, [AccountKey(i, "PROXY_PORT")]), GetAny(env, [AccountKey(i, "PROXY_USER")]),
      GetAny(env, [AccountKey(i, "PROXY_PASS")]), GetAny(env, [AccountKey(i, "PROXY_RDNS")]))
  }

  /** The loop body of `discover_accounts` for index `i`: the account, or `None` when it is skipped. */
  function AccountFor(env: Env, i: int): (r: Option<Account>)
    ensures r.Some? ==> r.value.idx == i
  {
    AccountOf(i, SettingsFor(env, i))
  }

  /** There is no shared fallback: without its own API id an account is skipped, whatever
      `TG_API_ID` or `API_ID` hold. */
  lemma NoSharedApiId(env: Env, i: int)
    requires !Filled(FoldedGet(env, AccountKey(i, "API_ID")))
    ensures AccountFor(env, i).None?
  {
    assert GetAny(env, [AccountKey(i, "API_ID")]).None?;
  }

  /** Without its own proxy type the account is skipped: direct connections are refused. */
  lemma NoProxyNoAccount(env: Env, i: int)
    requires !Filled(FoldedGet(env, AccountKey(i, "PROXY_TYPE")))
    ensures AccountFor(env, i).None?
  {
    assert GetAny(env, [AccountKey(i, "PROXY_TYPE")]).None?;
    assert Lower("") == "";
  }

  /** The accounts `discover_accounts(env, only)` returns. */
  function Discovered(env: Env, only: seq<int>): seq<Account>
  {
    Collect(Ascending(Selected(env, only)), i => AccountFor(env, i))
  }

  /** `discover_accounts` */
  method DiscoverAccounts(env: Env, only: seq<int>) returns (accounts: seq<Account>)
    ensures accounts == Discovered(env, only)
  {
    var indices := CollectIndices(env, only);
    var order := Ascending(indices);
    accounts := BuildAccounts(order, i => AccountFor(env, i));
  }

  /** The accounts come in strictly increasing index order, each under a selected index. */
  lemma DiscoveredInOrder(env: Env, only: seq<int>)
    ensures forall j, k :: 0 <= j < k < |Discovered(env, only)| ==> Discovered(env, only)[j].idx < Discovered(env, only)[k].idx
    ensures forall j :: 0 <= j < |Discovered(env, only)| ==> Discovered(env, only)[j].idx in Selected(env, only)
  {
    CollectIncreasing(Ascending(Selected(env, only)), i => AccountFor(env, i));
  }

  /** `results` after the login loop: every account whose login gave a non-empty session. */
  function Results(accounts: seq<Account>, sessions: seq<Option<string>>): (r: map<int, string>)
    requires |sessions| == |accounts|
  {
    if accounts == [] then map[]
    else
      var n := |accounts| - 1;
      var r := Results(accounts[..n], sessions[..n]);
      if Filled(sessions[n]) then r[accounts[n].idx := sessions[n].value] else r
  }

  /** The login loop of `runner`, with each account's login outcome given in `sessions`. */
  method CollectResults(accounts: seq<Account>, sessions: seq<Option<string>>) returns (results: map<int, string>)
    requires |sessions| == |accounts|
    ensures results == Results(accounts, sessions)
  {
    results := map[];
    for j := 0 to |accounts|
      invariant results == Results(accounts[..j], sessions[..j])
    {
      assert accounts[..j + 1][..j] == accounts[..j] && sessions[..j + 1][..j] == sessions[..j];
      var sess := sessions[j];
      if Filled(sess) {
        results := results[accounts[j].idx := sess.value];
      }
    }
    assert accounts[..|accounts|] == accounts && sessions[..|sessions|] == sessions;
  }

  /** With distinct indices, the map holds exactly the successful accounts, each with its own session. */
  lemma {:induction false} ResultsExactly(accounts: seq<Account>, sessions: seq<Option<string>>, j: nat)
    requires |sessions| == |accounts| && j < |accounts|
    requires forall a, b :: 0 <= a < b < |accounts| ==> accounts[a].idx != accounts[b].idx
    ensures accounts[j].idx in Results(accounts, sessions) <==> Filled(sessions[j])
    ensures Filled(sessions[j]) ==> Results(accounts, sessions)[accounts[j].idx] == sessions[j].value
  {
    var n := |accounts| - 1;
    if j < n {
      ResultsExactly(accounts[..n], sessions[..n], j);
    } else if n > 0 {
      ResultsNotYet(accounts[..n], sessions[..n], accounts[n].idx);
    }
  }

  /** An index that no account carries has no entry. */
  lemma {:induction false} ResultsNotYet(accounts: seq<Account>, sessions: seq<Option<string>>, idx: int)
    requires |sessions| == |accounts|
    requires forall a :: 0 <= a < |accounts| ==> accounts[a].idx != idx
    ensures idx !in Results(accounts, sessions)
  {
    if accounts != [] {
      var n := |accounts| - 1;
      ResultsNotYet(accounts[..n], sessions[..n], idx);
    }
  }

  /** One line per stored session, by ascending index. */
  function SessionLines(results: map<int, string>): (lines: seq<string>)
    ensures |lines| == |results|
    ensures forall j :: 0 <= j < |lines| ==>
      var idx := Ascending(results.Keys)[j]; idx in results && lines[j] == SessionLine(idx, results[idx])
  {
    var order := Ascending(results.Keys);
    seq(|order|, j requires 0 <= j < |order| => SessionLine(order[j], results[order[j]]))
  }

  /** `"\n".join(lines)` */
  function JoinLines(lines: seq<string>): string
  {
    if lines == [] then []
    else if |lines| == 1 then lines[0]
    else JoinLines(lines[..|lines| - 1]) + "\n" + lines[|lines| - 1]
  }

  /** Every line followed by a line break. */
  function Terminated(lines: seq<string>): string
  {
    if lines == [] then [] else Terminated(lines[..|lines| - 1]) + lines[|lines| - 1] + "\n"
  }

  /** The text written to the session file. */
  function SessionFile(results: map<int, string>): string
  {
    JoinLines(SessionLines(results)) + "\n"
  }

  /** Joining with line breaks and adding one more ends every line, the last one included. */
  lemma {:induction false} JoinThenBreak(lines: seq<string>)
    requires lines != []
    ensures JoinLines(lines) + "\n" == Terminated(lines)
  {
    if |lines| > 1 {
      var front := lines[..|lines| - 1];
      var last := lines[|lines| - 1];
      JoinThenBreak(front);
      assert front[..|front| - 1] == lines[..|lines| - 2];
      calc {
        JoinLines(lines) + "\n";
        (JoinLines(front) + "\n" + last) + "\n";
        { assert JoinLines(front) + "\n" + last + "\n" == (JoinLines(front) + "\n") + last + "\n"; }
        Terminated(front) + last + "\n";
      }
    } else {
      assert lines[..0] == [];
    }
  }

  /** The session file ends every line, one per stored session by ascending index. */
  lemma SessionFileLines(results: map<int, string>)
    requires |results| > 0
    ensures SessionFile(results) == Terminated(SessionLines(results))
  {
    JoinThenBreak(SessionLines(results));
  }

  /** A stored session line reads back, through this generator's own parser, as that account's session. */
  lemma SessionLineReadsBack(idx: nat, sess: string)
    requires sess == [] || (!IsSpace(sess[0]) && !IsSpace(sess[|sess| - 1]))
    requires !IsQuoted(sess)
    ensures LineEntry(SessionLine(idx, sess)) == Some((AccountKey(idx, "SESSION"), sess))
  {
    SessionKeyIsKey(idx);
    RenderedLineEntry(AccountKey(idx, "SESSION"), sess);
  }
}

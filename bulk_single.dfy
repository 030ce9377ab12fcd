/** The single-file bulk session generator: its own `.env` parser (inline comments cut,
    values stripped), 2FA password lists, and account discovery with global fallbacks
    for the API credentials and the proxy. */
module BulkSingle {
  import opened PyStr
  import opened EnvList
  import opened Ordered
  import opened SessionEnv

  /** `val[:val.find('#')]`, or all of `val` when it has no `#`. */
  function BeforeHash(s: string): (r: string)
    ensures r <= s && '#' !in r
    ensures |r| < |s| ==> s[|r|] == '#'
  {
    if s == [] || s[0] == '#' then [] else [s[0]] + BeforeHash(s[1..])
  }

  /** The value stored for the value group of a matched line: stripped, then either
      unquoted or cut at its first `#`, then stripped again. */
  function ValueOf(group: string): (r: string)
    ensures r == [] || (!IsSpace(r[0]) && !IsSpace(r[|r| - 1]))
    ensures !IsQuoted(Strip(group)) ==> '#' !in r
  {
    var raw := Strip(group);
    if IsQuoted(raw) then Strip(Unquote(raw))
    else
      var v := BeforeHash(raw);
      StripKeepsNoHash(v);
      Strip(v)
  }

  lemma StripKeepsNoHash(v: string)
    requires '#' !in v
    ensures '#' !in Strip(v)
  {
    if '#' in Strip(v) {
      InStripped(v, '#');
    }
  }

  lemma StripOfUntrimmed(v: string)
    requires v == [] || (!IsSpace(v[0]) && !IsSpace(v[|v| - 1]))
    ensures Strip(v) == v
  {
    if v != [] {
      StripUntrimmed(v);
    }
  }

  /** An unquoted value without `#` and without outer whitespace is stored as written. */
  lemma PlainValueReadsBack(v: string)
    requires v == [] || (!IsSpace(v[0]) && !IsSpace(v[|v| - 1]))
    requires '#' !in v && !IsQuoted(v)
    ensures ValueOf(v) == v
  {
    StripOfUntrimmed(v);
    assert BeforeHash(v) == v;
  }

  /** A double-quoted value loses its quotes and keeps any `#` it contains. */
  lemma QuotedValueKeepsHash(v: string)
    requires v == [] || (!IsSpace(v[0]) && !IsSpace(v[|v| - 1]))
    ensures ValueOf("\"" + v + "\"") == v
  {
    var q := "\"" + v + "\"";
    assert q[0] == '"' && q[|q| - 1] == '"' && q[1..|q| - 1] == v;
    StripUntrimmed(q);
    StripOfUntrimmed(v);
  }

  /** What one line of the file assigns, if anything. */
  function LineEntry(raw: string): (r: Option<(string, string)>)
    ensures r.Some? ==> IsKey(r.value.0)
    ensures Strip(raw) == [] || Strip(raw)[0] == '#' ==> r.None?
  {
    var line := Strip(raw);
    if line == [] || line[0] == '#' then None
    else
      match MatchEnvLine(line)
      case None => None
      case Some((key, group)) => Some((key, ValueOf(group)))
  }

  /** A line `KEY=VALUE` with a plain value assigns that value to that key. */
  lemma RenderedLineEntry(k: string, v: string)
    requires IsKey(k)
    requires v == [] || (!IsSpace(v[0]) && !IsSpace(v[|v| - 1]))
    requires '#' !in v && !IsQuoted(v)
    ensures LineEntry(k + "=" + v) == Some((k, v))
  {
    var line := k + "=" + v;
    assert line[0] == k[0];
    assert !IsSpace(line[|line| - 1]) by {
      if v == [] { assert line[|line| - 1] == '='; } else { assert line[|line| - 1] == v[|v| - 1]; }
    }
    StripUntrimmed(line);
    MatchRenderedLine(k, v);
    PlainValueReadsBack(v);
  }

  function Entries(lines: seq<string>): (r: seq<Option<(string, string)>>)
    ensures |r| == |lines| && forall i :: 0 <= i < |lines| ==> r[i] == LineEntry(lines[i])
  {
    seq(|lines|, i requires 0 <= i < |lines| => LineEntry(lines[i]))
  }

  /** The dictionary `parse_env_file` returns for the file's lines. */
  function EnvOf(lines: seq<string>): (env: Env)
    ensures DistinctKeys(env)
  {
    Assignments(Entries(lines))
  }

  /** `parse_env_file`, over the file's lines. */
  method ParseEnvFile(lines: seq<string>) returns (env: Env)
    ensures env == EnvOf(lines)
  {
    env := [];
    ghost var entries := Entries(lines);
    for i := 0 to |lines|
      invariant env == Assignments(entries[..i])
    {
      assert entries[..i + 1][..i] == entries[..i];
      var line := Strip(lines[i]);
      if line == [] || line[0] == '#' {
        continue;
      }
      var m := MatchEnvLine(line);
      if m.None? {
        continue;
      }
      var key := m.value.0;
      var val := Strip(m.value.1);
      if IsQuoted(val) {
        val := Unquote(val);
      } else {
        val := BeforeHash(val);
      }
      val := Strip(val);
      env := Put(env, key, val);
    }
    assert entries[..|lines|] == entries;
  }

  /** A key set on several lines keeps the value of the last of them. */
  lemma LastLineWins(lines: seq<string>, i: nat, k: string, v: string)
    requires i < |lines| && LineEntry(lines[i]) == Some((k, v))
    requires forall j :: i < j < |lines| ==> LineEntry(lines[j]).None? || LineEntry(lines[j]).value.0 != k
    ensures Get(EnvOf(lines), k) == Some(v)
  {
    LastAssignmentWins(Entries(lines), i, k, v);
  }

  /** A key that no line assigns is not in the dictionary: blank lines, comments and
      lines that are not `KEY=VALUE` contribute nothing. */
  lemma UnassignedKeyAbsent(lines: seq<string>, k: string)
    requires forall j :: 0 <= j < |lines| ==> LineEntry(lines[j]).None? || LineEntry(lines[j]).value.0 != k
    ensures Get(EnvOf(lines), k) == None
  {
    NeverAssigned(Entries(lines), k);
  }

  const PasswordSeparators: set<char> := {';', ','}

  /** `split_passwords(val)` */
  function PasswordList(val: Option<string>): (r: seq<string>)
    ensures NoDups(r)
  {
    if val.None? || val.value == "" then [] else Dedup(Pieces(SplitOn(val.value, PasswordSeparators)))
  }

  /** The passwords are distinct, non-empty, stripped and free of separators, and each
      stripped non-empty piece between separators is one of them. */
  lemma PasswordListShape(val: Option<string>)
    ensures forall i :: 0 <= i < |PasswordList(val)| ==>
      PasswordList(val)[i] != [] && Strip(PasswordList(val)[i]) == PasswordList(val)[i] && Avoids(PasswordList(val)[i], PasswordSeparators)
    ensures val.Some? && val.value != "" ==>
      forall k :: 0 <= k < |SplitOn(val.value, PasswordSeparators)| && Strip(SplitOn(val.value, PasswordSeparators)[k]) != [] ==>
        Strip(SplitOn(val.value, PasswordSeparators)[k]) in PasswordList(val)
  {
    if val.Some? && val.value != "" {
      var parts := SplitOn(val.value, PasswordSeparators);
      var ps := Pieces(parts);
      PiecesShape(parts, PasswordSeparators);
      forall i | 0 <= i < |Dedup(ps)|
        ensures Dedup(ps)[i] != [] && Strip(Dedup(ps)[i]) == Dedup(ps)[i] && Avoids(Dedup(ps)[i], PasswordSeparators)
      {
        DedupMembers(ps, Dedup(ps)[i]);
      }
      forall k | 0 <= k < |parts| && Strip(parts[k]) != [] ensures Strip(parts[k]) in Dedup(ps) {
        PartsInPieces(parts, k);
        DedupMembers(ps, Strip(parts[k]));
      }
    }
  }

  /** The loop of `split_passwords`. */
  method SplitPasswords(val: Option<string>) returns (out: seq<string>)
    ensures out == PasswordList(val)
  {
    if val.None? || val.value == "" {
      return [];
    }
    var parts := SplitOn(val.value, PasswordSeparators);
    out := [];
    for i := 0 to |parts|
      invariant out == Dedup(Pieces(parts[..i]))
    {
      ghost var before := Pieces(parts[..i]);
      assert parts[..i + 1][..i] == parts[..i];
      var p := Strip(parts[i]);
      if p != [] {
        assert Pieces(parts[..i + 1]) == before + [p];
        DedupSnoc(before, p);
        if p !in out {
          out := out + [p];
        }
      } else {
        assert Pieces(parts[..i + 1]) == before;
      }
    }
    assert parts[..|parts|] == parts;
  }

  /** `[x] if x else []` */
  function IfFilled(v: Option<string>): (r: seq<string>)
    ensures Filled(v) ==> r == [v.value]
    ensures !Filled(v) ==> r == []
  {
    if Filled(v) then [v.value] else []
  }

  /** The password list `get_passwords_for` builds from the account's own list, its own
      single password, the shared list and the shared single password: each kept at its
      first occurrence. */
  function PasswordOrder(accList: Option<string>, accSingle: Option<string>, globList: Option<string>, globSingle: Option<string>): (r: seq<string>)
    ensures NoDups(r)
  {
    Dedup(PasswordList(accList) + IfFilled(accSingle) + PasswordList(globList) + IfFilled(globSingle))
  }

  function PasswordsFor(env: Env, idx: int): (r: seq<string>)
    ensures NoDups(r)
  {
    PasswordOrder(GetAny(env, [AccountKey(idx, "PASSWORDS")]), GetAny(env, [AccountKey(idx, "PASSWORD")]),
      GetAny(env, ["TG_PASSWORDS"]), GetAny(env, ["TG_PASSWORD"]))
  }

  /** The appends of `get_passwords_for` once its four settings are read. */
  method MergePasswords(accList: Option<string>, accSingle: Option<string>, globList: Option<string>, globSingle: Option<string>)
    returns (passwords: seq<string>)
    ensures passwords == PasswordOrder(accList, accSingle, globList, globSingle)
  {
    ghost var acc := PasswordList(accList);
    DedupOfDistinct(acc);
    passwords := SplitPasswords(accList);
    ghost var head := acc + IfFilled(accSingle);
    if Filled(accSingle) {
      DedupSnoc(acc, accSingle.value);
      if accSingle.value !in passwords {
        passwords := passwords + [accSingle.value];
      }
    } else {
      assert head == acc;
    }
    var glob := SplitPasswords(globList);
    passwords := AppendUnique(passwords, glob, head);
    ghost var all := head + glob + IfFilled(globSingle);
    assert PasswordOrder(accList, accSingle, globList, globSingle) == Dedup(all);
    if Filled(globSingle) {
      assert all == (head + glob) + [globSingle.value];
      DedupSnoc(head + glob, globSingle.value);
      if globSingle.value !in passwords {
        passwords := passwords + [globSingle.value];
      }
    } else {
      assert all == head + glob;
    }
  }

  /** `get_passwords_for` */
  method GetPasswordsFor(env: Env, idx: int) returns (passwords: seq<string>)
    ensures passwords == PasswordsFor(env, idx)
  {
    var accList := GetAny(env, [AccountKey(idx, "PASSWORDS")]);
    var accSingle := GetAny(env, [AccountKey(idx, "PASSWORD")]);
    var globList := GetAny(env, ["TG_PASSWORDS"]);
    var globSingle := GetAny(env, ["TG_PASSWORD"]);
    passwords := MergePasswords(accList, accSingle, globList, globSingle);
  }

  /** The account's own password list comes first, in its own order. */
  lemma AccountPasswordsFirst(accList: Option<string>, accSingle: Option<string>, globList: Option<string>, globSingle: Option<string>)
    ensures |PasswordList(accList)| <= |PasswordOrder(accList, accSingle, globList, globSingle)|
    ensures PasswordOrder(accList, accSingle, globList, globSingle)[..|PasswordList(accList)|] == PasswordList(accList)
  {
    DistinctHeadKept(PasswordList(accList), IfFilled(accSingle), PasswordList(globList), IfFilled(globSingle));
  }

  /** Every password from any of the four settings is in the list, and nothing else is. */
  lemma PasswordOrderMembers(accList: Option<string>, accSingle: Option<string>, globList: Option<string>, globSingle: Option<string>, p: string)
    ensures p in PasswordOrder(accList, accSingle, globList, globSingle) <==>
      p in PasswordList(accList) || p in IfFilled(accSingle) || p in PasswordList(globList) || p in IfFilled(globSingle)
  {
    DedupMembers(PasswordList(accList) + IfFilled(accSingle) + PasswordList(globList) + IfFilled(globSingle), p);
  }

  function ApiIdKeys(i: int): seq<string> { [AccountKey(i, "API_ID"), "TG_API_ID", "API_ID"] }
  function ApiHashKeys(i: int): seq<string> { [AccountKey(i, "API_HASH"), "TG_API_HASH", "API_HASH"] }
  function ProxyKeys(i: int, field: string): seq<string> { [AccountKey(i, "PROXY_" + field), "TG_PROXY_" + field, "PROXY_" + field] }

  /** What `discover_accounts` reads for account `i`: API credentials from `TG<i>_*`, else
      `TG_*`, else the bare names; each proxy setting from `TG<i>_PROXY_*`, else
      `TG_PROXY_*`, else `PROXY_*`. */
  function SettingsFor(env: Env, i: int): Settings
  {
    Settings(GetAny(env, ApiIdKeys(i)), GetAny(env, ApiHashKeys(i)),
      GetAny(env, [AccountKey(i, "PHONE"), AccountKey(i, "Phone")]), GetAny(env, [AccountKey(i, "SESSION")]),
      GetAny(env, ProxyKeys(i, "TYPE")), GetAny(env, ProxyKeys(i, "HOST")), GetAny(env, ProxyKeys(i, "PORT")),
      GetAny(env, ProxyKeys(i, "USER")), GetAny(env, ProxyKeys(i, "PASS")), GetAny(env, ProxyKeys(i, "RDNS")))
  }

  /** The loop body of `discover_accounts` for index `i`: the account, or `None` when it is skipped. */
  function AccountFor(env: Env, i: int): (r: Option<Account>)
    ensures r.Some? ==> r.value.idx == i
  {
    AccountOf(i, SettingsFor(env, i))
  }

  /** The accounts `discover_accounts(env, only)` returns. */
  function Discovered(env: Env, only: seq<int>): seq<Account>
  {
    Collect(Ascending(Selected(env, only)), i => AccountFor(env, i))
  }

  /** `discover_accounts` */
  method DiscoverAccounts(env: Env, only: seq<int>) returns (accounts: seq<Account>)
    ensures accounts == Discovered(env, only)
  {
    var indices := CollectIndices(env, only);
    var order := Ascending(indices);
    accounts := BuildAccounts(order, i => AccountFor(env, i));
  }

  /** The accounts come in strictly increasing index order, each under a selected index. */
  lemma DiscoveredInOrder(env: Env, only: seq<int>)
    ensures forall j, k :: 0 <= j < k < |Discovered(env, only)| ==> Discovered(env, only)[j].idx < Discovered(env, only)[k].idx
    ensures forall j :: 0 <= j < |Discovered(env, only)| ==> Discovered(env, only)[j].idx in Selected(env, only)
  {
    CollectIncreasing(Ascending(Selected(env, only)), i => AccountFor(env, i));
  }

  /** An account is returned exactly when its index is selected and its settings are complete. */
  lemma DiscoveredExactly(env: Env, only: seq<int>, a: Account)
    ensures a in Discovered(env, only) <==> a.idx in Selected(env, only) && AccountFor(env, a.idx) == Some(a)
  {
    var order := Ascending(Selected(env, only));
    CollectMembers(order, i => AccountFor(env, i), a);
    if a.idx in Selected(env, only) && AccountFor(env, a.idx) == Some(a) {
      var j :| 0 <= j < |order| && order[j] == a.idx;
    }
  }

  /** Without a per-account API id, the shared `TG_API_ID` is the one read. */
  lemma SharedApiIdFallback(env: Env, i: int)
    requires !Filled(FoldedGet(env, AccountKey(i, "API_ID"))) && Filled(FoldedGet(env, "TG_API_ID"))
    ensures GetAny(env, ApiIdKeys(i)) == FoldedGet(env, "TG_API_ID")
  {
    GetAnySecond(env, AccountKey(i, "API_ID"), "TG_API_ID", "API_ID");
  }

  /** A per-account API id wins over both shared ones. */
  lemma OwnApiIdFirst(env: Env, i: int)
    requires Filled(FoldedGet(env, AccountKey(i, "API_ID")))
    ensures GetAny(env, ApiIdKeys(i)) == FoldedGet(env, AccountKey(i, "API_ID"))
  {
    GetAnyStopsAtFirst(env, ApiIdKeys(i));
  }

  /** With no RDNS setting under any of the three names, the proxy resolves names remotely. */
  lemma RdnsDefaultsTrue(env: Env, i: int)
    requires forall c :: c in ProxyKeys(i, "RDNS") ==> !Filled(FoldedGet(env, c))
    ensures AccountFor(env, i).Some? ==> AccountFor(env, i).value.proxy.rdns
  {
    assert SettingsFor(env, i).proxyRdns.None?;
  }
}

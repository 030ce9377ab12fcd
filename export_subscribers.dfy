/** The channel subscriber export: how the channel setting is read, how a user becomes a
    CSV row, and the sweep of search queries that collects every member once. The API is a
    function from a query and an offset to the page of users it returns. */
module ExportSubscribers {
  import opened PyStr
  import opened EnvList
  import opened SessionEnv
  import opened Ordered

  // ----------------------------------------------------------------------------------------
  // The channel setting

  /** What `resolve_channel` hands to `get_entity`: a channel by its internal id, or the
      text itself (a user name or a link). */
  datatype ChannelRef = PeerChannel(channelId: int) | Handle(text: string)

  /** `resolve_channel(value)`: the value, stripped, read by `ResolveText`. */
  function ResolveChannel(value: Option<string>): (r: ChannelRef)
    ensures r.Handle? ==> r.text == Strip(OrEmpty(value))
  {
    ResolveText(Strip(OrEmpty(value)))
  }

  /** What `resolve_channel` makes of the stripped text `v`: a chat id `-100<digits>` gives
      the digits after the prefix, any other number (leading minus signs removed) gives
      itself, anything else is kept. */
  function ResolveText(v: string): (r: ChannelRef)
    ensures |v| > 4 && v[..4] == "-100" && IsDigits(v[4..]) ==> r == PeerChannel(DigitsValue(v[4..]))
    ensures !(|v| > 4 && v[..4] == "-100" && IsDigits(v[4..])) && IsDigits(LStripChar(v, '-')) ==>
      r == PeerChannel(DigitsValue(LStripChar(v, '-')))
    ensures r.Handle? <==> !IsDigits(LStripChar(v, '-'))
    ensures r.Handle? ==> r.text == v
  {
    if |v| > 4 && v[..4] == "-100" && IsDigits(v[4..]) then
      PrefixedDigits(v);
      PeerChannel(DigitsValue(v[4..]))
    else if IsDigits(LStripChar(v, '-')) then PeerChannel(DigitsValue(LStripChar(v, '-')))
    else Handle(v)
  }

  /** Two strings of digits side by side are digits. */
  lemma DigitsConcat(a: string, b: string)
    requires IsDigits(a) && IsDigits(b)
    ensures IsDigits(a + b)
  {
    forall k | 0 <= k < |a + b|
      ensures IsDigit((a + b)[k])
    {
      if k < |a| {
        assert (a + b)[k] == a[k];
      } else {
        assert (a + b)[k] == b[k - |a|];
      }
    }
  }

  /** A chat id is digits once its leading minus signs are gone. */
  lemma PrefixedDigits(v: string)
    requires |v| > 4 && v[..4] == "-100" && IsDigits(v[4..])
    ensures IsDigits(LStripChar(v, '-'))
  {
    var head, tail := v[..4], v[1..];
    assert v[0] == head[0] == '-';
    assert tail == head[1..] + v[4..];
    assert head[1..] == "100";
    DigitsConcat("100", v[4..]);
    assert LStripChar(v, '-') == LStripChar(tail, '-');
    assert tail[0] == '1';
    assert LStripChar(tail, '-') == tail;
  }

  /** The chat id `-100<n>` of a channel. */
  function ChatId(n: nat): (s: string)
    ensures |s| > 4 && s[..4] == "-100" && IsDigits(s[4..])
  {
    var s := "-100" + NatToStr(n);
    assert s[4..] == NatToStr(n);
    s
  }

  /** A channel's chat id resolves to the channel. */
  lemma ChatIdRoundTrip(n: nat)
    ensures ResolveChannel(Some(ChatId(n))) == PeerChannel(n)
  {
    var s := ChatId(n);
    StripUntrimmed(s);
    assert ResolveText(s) == PeerChannel(DigitsValue(NatToStr(n))) by {
      assert s[4..] == NatToStr(n);
    }
    NatToStrRoundTrip(n);
  }

  /** A bare number names the channel with that id. */
  lemma BareNumberResolves(n: nat)
    ensures ResolveChannel(Some(NatToStr(n))) == PeerChannel(n)
  {
    var v := NatToStr(n);
    assert !IsSpace(v[0]) && !IsSpace(v[|v| - 1]);
    StripUntrimmed(v);
    DigitsResolve(v);
    NatToStrRoundTrip(n);
  }

  /** Digits without a sign are read as the channel id they spell. */
  lemma DigitsResolve(v: string)
    requires IsDigits(v)
    ensures ResolveText(v) == PeerChannel(DigitsValue(v))
  {
    assert LStripChar(v, '-') == v;
    if |v| > 4 {
      assert v[..4][0] == v[0];
    }
  }

  /** `-100` alone is not a chat id but a number with its sign dropped: channel 100. */
  lemma BarePrefixIsChannel100()
    ensures ResolveChannel(Some("-100")) == PeerChannel(100)
  {
    StripUntrimmed("-100");
    Minus100IsNumber();
  }

  lemma Minus100IsNumber()
    ensures ResolveText("-100") == PeerChannel(100)
  {
    assert LStripChar("-100", '-') == "100";
    Value100();
  }

  lemma Value100()
    ensures IsDigits("100") && DigitsValue("100") == 100
  {
    assert "100"[..2] == "10" && "10"[..1] == "1";
  }

  /** A user name is passed on unchanged, minus surrounding whitespace. */
  lemma UserNameKept(name: string)
    requires |name| > 1 && name[0] == '@' && !IsSpace(name[|name| - 1])
    ensures ResolveChannel(Some(" " + name + " ")) == Handle(name)
  {
    StripOfPadded(name);
    NameIsHandle(name);
  }

  /** Text that starts with `@` is a handle. */
  lemma NameIsHandle(name: string)
    requires |name| > 1 && name[0] == '@'
    ensures ResolveText(name) == Handle(name)
  {
    assert LStripChar(name, '-') == name;
    assert !IsDigit(name[0]);
  }

  /** One space on each side of a text that has none is stripped off. */
  lemma StripOfPadded(s: string)
    requires s != [] && !IsSpace(s[0]) && !IsSpace(s[|s| - 1])
    ensures Strip(" " + s + " ") == s
  {
    var v := " " + s + " ";
    assert LeadingSpaces(v) == 1 by {
      assert v[1..][0] == s[0];
    }
    assert TrailingSpaces(v) == 1 by {
      assert v[..|v| - 1][|v| - 2] == s[|s| - 1];
    }
    assert v[1..|v| - 1] == s;
  }

  // ----------------------------------------------------------------------------------------
  // Rows

  /** The user status types the export tells apart; `wasOnline` is the ISO text of the
      last-seen time, `None` when there is none. */
  datatype Status = NoStatus | Online | Offline(wasOnline: Option<string>) | Recently | LastWeek | LastMonth
    | OtherStatus(typeName: string)

  /** `status_to_str(st)` */
  function StatusToStr(st: Status): (s: string)
    ensures !st.OtherStatus? ==> s != []
    ensures st.NoStatus? ==> s == "unknown"
    ensures st.Offline? ==> |s| > 13 && s[..13] == "offline (was " && s[|s| - 1] == ')'
  {
    match st
    case NoStatus => "unknown"
    case Online => "online"
    case Offline(t) => "offline (was " + (if t.Some? then t.value else "None") + ")"
    case Recently => "recently"
    case LastWeek => "last_week"
    case LastMonth => "last_month"
    case OtherStatus(name) => name
  }

  /** The word each fixed status is written as; any other status is written as its type name. */
  lemma StatusWords(name: string)
    ensures StatusToStr(Online) == "online" && StatusToStr(Recently) == "recently"
    ensures StatusToStr(LastWeek) == "last_week" && StatusToStr(LastMonth) == "last_month"
    ensures StatusToStr(Offline(None)) == "offline (was None)"
    ensures StatusToStr(OtherStatus(name)) == name
  {
  }

  /** The fixed words tell the fixed statuses apart. */
  lemma StatusWordsDistinct(a: Status, b: Status)
    requires !a.OtherStatus? && !b.OtherStatus? && !a.Offline? && !b.Offline? && a != b
    ensures StatusToStr(a) != StatusToStr(b)
  {
  }

  /** An offline status shows the time it was last online. */
  lemma OfflineShowsTime(iso: string)
    ensures var s := StatusToStr(Offline(Some(iso))); s[13..|s| - 1] == iso
  {
  }

  /** The user fields the export reads. */
  datatype User = User(
    id: int, accessHash: Option<int>, username: Option<string>, phone: Option<string>,
    firstName: Option<string>, lastName: Option<string>, isSelf: bool, mutualContact: bool,
    deleted: bool, bot: bool, scam: bool, fake: bool, restricted: bool, verified: bool, premium: bool,
    langCode: Option<string>, languageCode: Option<string>, status: Status, restrictionReasons: seq<string>)

  /** One CSV row, its columns in the order of `FieldNames`. */
  datatype Row = Row(
    userId: int, accessHash: Option<int>, username: string, phone: string, firstName: string,
    lastName: string, isSelf: bool, mutualContact: bool, deleted: bool, bot: bool, scam: bool,
    fake: bool, restricted: bool, verified: bool, premium: bool, langCode: string, status: string,
    restrictionReason: string)

  const FieldNames: seq<string> := [
    "user_id", "access_hash", "username", "phone", "first_name", "last_name", "is_self",
    "mutual_contact", "deleted", "bot", "scam", "fake", "restricted", "verified", "premium",
    "lang_code", "status", "restriction_reason"]

  /** `sep.join(parts)` */
  function JoinWith(sep: string, parts: seq<string>): (s: string)
    ensures |parts| == 1 ==> s == parts[0]
  {
    if parts == [] then ""
    else if |parts| == 1 then parts[0]
    else JoinWith(sep, parts[..|parts| - 1]) + sep + parts[|parts| - 1]
  }

  /** `user_to_row(u)`: absent texts become empty strings, the language falls back from
      `lang_code` to `language_code`, and the restriction reasons are joined with "; ". */
  function UserToRow(u: User): (row: Row)
    ensures row.userId == u.id && row.deleted == u.deleted && row.status == StatusToStr(u.status)
    ensures row.username == OrEmpty(u.username) && row.phone == OrEmpty(u.phone)
    ensures Filled(u.langCode) ==> row.langCode == OrEmpty(u.langCode)
    ensures !Filled(u.langCode) ==> row.langCode == OrEmpty(u.languageCode)
    ensures row.restrictionReason == RestrictionText(u.restrictionReasons)
  {
    Row(u.id, u.accessHash, OrEmpty(u.username), OrEmpty(u.phone), OrEmpty(u.firstName), OrEmpty(u.lastName),
        u.isSelf, u.mutualContact, u.deleted, u.bot, u.scam, u.fake, u.restricted, u.verified, u.premium,
        if Filled(u.langCode) then OrEmpty(u.langCode) else OrEmpty(u.languageCode),
        StatusToStr(u.status),
        RestrictionText(u.restrictionReasons))
  }

  /** The restriction reasons joined with "; ", empty when there are none. */
  function RestrictionText(reasons: seq<string>): (s: string)
    ensures reasons == [] ==> s == ""
    ensures |reasons| == 1 ==> s == reasons[0]
  {
    if reasons == [] then "" else JoinWith("; ", reasons)
  }

  // ----------------------------------------------------------------------------------------
  // The sweep

  /** The search queries: the empty one, the Latin letters, the Cyrillic letters of the
      list (it has no hard sign) and the digits. */
  function Singles(s: string): (r: seq<string>)
    ensures |r| == |s| && forall i :: 0 <= i < |s| ==> r[i] == [s[i]]
  {
    seq(|s|, i requires 0 <= i < |s| => [s[i]])
  }

  const Latin: string := "abcdefghijklmnopqrstuvwxyz"
  const Cyrillic: string := "абвгдеёжзийклмнопрстуфхцчшщыьэюя"
  const Digits: string := "0123456789"

  function Queries(): (qs: seq<string>)
    ensures |qs| == 69 && qs[0] == ""
    ensures forall i :: 1 <= i < |qs| ==> |qs[i]| == 1
  {
    assert |Latin| == 26 && |Cyrillic| == 32 && |Digits| == 10;
    [""] + Singles(Latin) + Singles(Cyrillic) + Singles(Digits)
  }

  /** The API pages only ever hold members of the channel. */
  ghost predicate Fits(fetch: (string, nat) -> seq<User>, members: set<int>)
  {
    forall q, offset, i :: 0 <= i < |fetch(q, offset)| ==> fetch(q, offset)[i].id in members
  }

  /** The row conversion keeps the user's id. */
  ghost predicate KeepsId(toRow: User -> Row)
  {
    forall u :: toRow(u).userId == u.id
  }

  lemma UserToRowKeepsId()
    ensures KeepsId(UserToRow)
  {
  }

  /** What the sweep has done so far: the ids seen, the three counters, and the rows each
      writer received. */
  datatype Tally = Tally(seen: set<int>, count: nat, activeCount: nat, deletedCount: nat,
                         activeRows: seq<Row>, deletedRows: seq<Row>)

  /** Nothing seen, nothing counted, nothing written. */
  const Start: Tally := Tally({}, 0, 0, 0, [], [])

  /** Every user seen is counted once, as active or as deleted. */
  predicate Counted(t: Tally)
  {
    t.count == t.activeCount + t.deletedCount && t.count == |t.seen|
  }

  /** One user of a page: a user already seen is skipped; with `split` a deleted user is
      counted as deleted and written to the deleted writer when there is one; every other
      user is written to the active writer. */
  function AddUser(t: Tally, u: User, split: bool, hasDeletedWriter: bool, toRow: User -> Row): (r: Tally)
    ensures Counted(t) ==> Counted(r)
    ensures r.seen == t.seen + {u.id}
    ensures u.id in t.seen <==> r == t
  {
    if u.id in t.seen then t
    else
      var row := toRow(u);
      var seen := t.seen + {u.id};
      if split && row.deleted then
        Tally(seen, t.count + 1, t.activeCount, t.deletedCount + 1, t.activeRows,
              if hasDeletedWriter then t.deletedRows + [row] else t.deletedRows)
      else
        Tally(seen, t.count + 1, t.activeCount + 1, t.deletedCount, t.activeRows + [row], t.deletedRows)
  }

  /** `for u in res.users: ...` */
  function AddPage(t: Tally, users: seq<User>, split: bool, hasDeletedWriter: bool, toRow: User -> Row): (r: Tally)
    ensures Counted(t) ==> Counted(r)
    ensures t.seen <= r.seen && r.count >= t.count
  {
    if users == [] then t
    else
      var n := |users| - 1;
      var front := AddPage(t, users[..n], split, hasDeletedWriter, toRow);
      AddUser(front, users[n], split, hasDeletedWriter, toRow)
  }

  /** A page of members adds only members to the ids seen. */
  lemma {:induction false} AddPageWithin(t: Tally, users: seq<User>, members: set<int>, split: bool, hasDeletedWriter: bool, toRow: User -> Row)
    requires t.seen <= members && forall i :: 0 <= i < |users| ==> users[i].id in members
    ensures AddPage(t, users, split, hasDeletedWriter, toRow).seen <= members
  {
    if users != [] {
      var n := |users| - 1;
      AddPageWithin(t, users[..n], members, split, hasDeletedWriter, toRow);
    }
  }

  /** A set inside another is no larger. */
  lemma {:induction false} SubsetCard(a: set<int>, b: set<int>)
    requires a <= b
    ensures |a| <= |b|
    decreases |a|
  {
    if |a| > 0 {
      HasElement(a);
      var x :| x in a;
      SubsetCard(a - {x}, b - {x});
    }
  }

  /** The paging loop of one query from `offset`: stop at an empty page, otherwise read
      the page, advance by its size, and stop when it brought no new user. */
  ghost function SweepQuery(t: Tally, q: string, offset: nat, fetch: (string, nat) -> seq<User>, members: set<int>,
                            split: bool, hasDeletedWriter: bool, toRow: User -> Row): (r: Tally)
    requires Fits(fetch, members) && Counted(t) && t.seen <= members
    ensures Counted(r) && t.seen <= r.seen <= members
    decreases |members| - |t.seen|
  {
    var page := fetch(q, offset);
    if page == [] then t
    else
      var next := AddPage(t, page, split, hasDeletedWriter, toRow);
      AddPageWithin(t, page, members, split, hasDeletedWriter, toRow);
      if next.count - t.count == 0 then next
      else
        SubsetCard(next.seen, members);
        SweepQuery(next, q, offset + |page|, fetch, members, split, hasDeletedWriter, toRow)
  }

  /** The queries in order, each paged from offset 0. */
  ghost function SweepAll(t: Tally, qs: seq<string>, fetch: (string, nat) -> seq<User>, members: set<int>,
                          split: bool, hasDeletedWriter: bool, toRow: User -> Row): (r: Tally)
    requires Fits(fetch, members) && Counted(t) && t.seen <= members
    ensures Counted(r) && t.seen <= r.seen <= members
  {
    if qs == [] then t
    else
      var front := SweepAll(t, qs[..|qs| - 1], fetch, members, split, hasDeletedWriter, toRow);
      SweepQuery(front, qs[|qs| - 1], 0, fetch, members, split, hasDeletedWriter, toRow)
  }

  /** The body of `for u in res.users`: skip a user already seen, otherwise record the
      id and write the row where it belongs; `isNew` says whether `new` goes up. */
  method ReadUser(t: Tally, u: User, split: bool, hasDeletedWriter: bool, toRow: User -> Row) returns (r: Tally, isNew: bool)
    ensures r == AddUser(t, u, split, hasDeletedWriter, toRow)
    ensures isNew <==> u.id !in t.seen
  {
    r := t;
    isNew := false;
    if u.id in r.seen {
      return;
    }
    r := r.(seen := r.seen + {u.id});
    var row := toRow(u);
    if split && row.deleted {
      if hasDeletedWriter {
        r := r.(deletedRows := r.deletedRows + [row]);
      }
      r := r.(deletedCount := r.deletedCount + 1);
    } else {
      r := r.(activeRows := r.activeRows + [row]);
      r := r.(activeCount := r.activeCount + 1);
    }
    r := r.(count := r.count + 1);
    isNew := true;
  }

  /** The loop `for u in res.users` with the `new` counter. */
  method ReadPage(t: Tally, page: seq<User>, split: bool, hasDeletedWriter: bool, toRow: User -> Row) returns (r: Tally, added: nat)
    ensures r == AddPage(t, page, split, hasDeletedWriter, toRow)
    ensures added == r.count - t.count
  {
    r := t;
    added := 0;
    for j := 0 to |page|
      invariant r == AddPage(t, page[..j], split, hasDeletedWriter, toRow)
      invariant r.count == t.count + added
    {
      assert page[..j + 1][..j] == page[..j] && page[..j + 1][j] == page[j];
      var isNew;
      r, isNew := ReadUser(r, page[j], split, hasDeletedWriter, toRow);
      if isNew {
        added := added + 1;
      }
    }
    assert page[..|page|] == page;
  }

  /** A query whose page at `offset` is empty ends there. */
  lemma SweepQueryEnds(t: Tally, q: string, offset: nat, fetch: (string, nat) -> seq<User>, members: set<int>,
                       split: bool, hasDeletedWriter: bool, toRow: User -> Row)
    requires Fits(fetch, members) && Counted(t) && t.seen <= members
    requires fetch(q, offset) == []
    ensures SweepQuery(t, q, offset, fetch, members, split, hasDeletedWriter, toRow) == t
  {
  }

  /** A non-empty page either brings no new user and ends the query, or is followed by
      the page after it, with strictly more users seen. */
  lemma SweepQueryStep(t: Tally, q: string, offset: nat, page: seq<User>, next: Tally,
                       fetch: (string, nat) -> seq<User>, members: set<int>,
                       split: bool, hasDeletedWriter: bool, toRow: User -> Row)
    requires Fits(fetch, members) && Counted(t) && t.seen <= members
    requires page == fetch(q, offset) && page != []
    requires next == AddPage(t, page, split, hasDeletedWriter, toRow)
    ensures next.count == t.count ==> SweepQuery(t, q, offset, fetch, members, split, hasDeletedWriter, toRow) == next
    ensures next.count != t.count ==>
      Counted(next) && next.seen <= members && |t.seen| < |next.seen| <= |members| &&
      SweepQuery(t, q, offset, fetch, members, split, hasDeletedWriter, toRow)
      == SweepQuery(next, q, offset + |page|, fetch, members, split, hasDeletedWriter, toRow)
  {
    AddPageWithin(t, page, members, split, hasDeletedWriter, toRow);
    SubsetCard(next.seen, members);
  }

  /** The paging loop `while True` of one query. */
  method PageQuery(t: Tally, q: string, fetch: (string, nat) -> seq<User>, ghost members: set<int>,
                   split: bool, hasDeletedWriter: bool, toRow: User -> Row) returns (r: Tally)
    requires Fits(fetch, members) && Counted(t) && t.seen <= members
    ensures r == SweepQuery(t, q, 0, fetch, members, split, hasDeletedWriter, toRow)
  {
    ghost var goal := SweepQuery(t, q, 0, fetch, members, split, hasDeletedWriter, toRow);
    r := t;
    var offset: nat := 0;
    while true
      invariant Counted(r) && r.seen <= members
      invariant SweepQuery(r, q, offset, fetch, members, split, hasDeletedWriter, toRow) == goal
      decreases |members| - |r.seen|
    {
      var page := fetch(q, offset);
      if page == [] {
        SweepQueryEnds(r, q, offset, fetch, members, split, hasDeletedWriter, toRow);
        return;
      }
      var next, added := ReadPage(r, page, split, hasDeletedWriter, toRow);
      SweepQueryStep(r, q, offset, page, next, fetch, members, split, hasDeletedWriter, toRow);
      if added == 0 && offset + |page| > 0 {
        return next;
      }
      offset := offset + |page|;
      r := next;
    }
  }

  /** The three counters `sweep_participants` returns and the rows each writer received. */
  function Outcome(t: Tally): (r: (nat, nat, nat, seq<Row>, seq<Row>))
  {
    (t.count, t.activeCount, t.deletedCount, t.activeRows, t.deletedRows)
  }

  /** The `for q in queries` loop, each query paged from offset 0. */
  method SweepQueries(t0: Tally, qs: seq<string>, fetch: (string, nat) -> seq<User>, ghost members: set<int>,
                      split: bool, hasDeletedWriter: bool, toRow: User -> Row) returns (t: Tally)
    requires Fits(fetch, members) && Counted(t0) && t0.seen <= members
    ensures t == SweepAll(t0, qs, fetch, members, split, hasDeletedWriter, toRow)
  {
    t := t0;
    for i := 0 to |qs|
      invariant t == SweepAll(t0, qs[..i], fetch, members, split, hasDeletedWriter, toRow)
    {
      assert qs[..i + 1][..i] == qs[..i] && qs[..i + 1][i] == qs[i];
      t := PageQuery(t, qs[i], fetch, members, split, hasDeletedWriter, toRow);
    }
    assert qs[..|qs|] == qs;
  }

  /** The sweep starts from nothing seen and nothing counted. */
  lemma StartCounted(members: set<int>)
    ensures Counted(Start) && Start.seen <= members
  {
  }

  /** `sweep_participants`: the counters and what each writer received. */
  method SweepParticipants(fetch: (string, nat) -> seq<User>, ghost members: set<int>, split: bool, hasDeletedWriter: bool)
    returns (count: nat, activeCount: nat, deletedCount: nat, activeRows: seq<Row>, deletedRows: seq<Row>)
    requires Fits(fetch, members)
    ensures (count, activeCount, deletedCount, activeRows, deletedRows) == Outcome(SweepAll(Start, Queries(), fetch, members, split, hasDeletedWriter, UserToRow))
  {
    StartCounted(members);
    var t := SweepQueries(Start, Queries(), fetch, members, split, hasDeletedWriter, UserToRow);
    count, activeCount, deletedCount, activeRows, deletedRows := t.count, t.activeCount, t.deletedCount, t.activeRows, t.deletedRows;
  }

  // ----------------------------------------------------------------------------------------
  // What the sweep guarantees

  function RowIds(rows: seq<Row>): (ids: seq<int>)
    ensures |ids| == |rows| && forall i :: 0 <= i < |rows| ==> ids[i] == rows[i].userId
  {
    seq(|rows|, i requires 0 <= i < |rows| => rows[i].userId)
  }

  /** The writers' rows: each user at most once over both files, only users seen, the
      deleted ones apart when splitting, and as many rows as the counters say. */
  predicate Written(t: Tally, split: bool, hasDeletedWriter: bool)
  {
    && (forall i, j :: 0 <= i < j < |t.activeRows| ==> t.activeRows[i].userId != t.activeRows[j].userId)
    && (forall i, j :: 0 <= i < j < |t.deletedRows| ==> t.deletedRows[i].userId != t.deletedRows[j].userId)
    && (forall i, j :: 0 <= i < |t.activeRows| && 0 <= j < |t.deletedRows| ==> t.activeRows[i].userId != t.deletedRows[j].userId)
    && (forall i :: 0 <= i < |t.activeRows| ==> t.activeRows[i].userId in t.seen)
    && (forall i :: 0 <= i < |t.deletedRows| ==> t.deletedRows[i].userId in t.seen)
    && (split ==> forall i :: 0 <= i < |t.activeRows| ==> !t.activeRows[i].deleted)
    && (forall i :: 0 <= i < |t.deletedRows| ==> t.deletedRows[i].deleted)
    && (!split ==> t.deletedCount == 0 && t.deletedRows == [])
    && |t.activeRows| == t.activeCount
    && (hasDeletedWriter ==> |t.deletedRows| == t.deletedCount)
    && (!hasDeletedWriter ==> t.deletedRows == [])
  }

  lemma AddUserWritten(t: Tally, u: User, split: bool, hasDeletedWriter: bool, toRow: User -> Row)
    requires KeepsId(toRow)
    requires Written(t, split, hasDeletedWriter)
    ensures Written(AddUser(t, u, split, hasDeletedWriter, toRow), split, hasDeletedWriter)
  {
  }

  lemma {:induction false} AddPageWritten(t: Tally, users: seq<User>, split: bool, hasDeletedWriter: bool, toRow: User -> Row)
    requires KeepsId(toRow)
    requires Written(t, split, hasDeletedWriter)
    ensures Written(AddPage(t, users, split, hasDeletedWriter, toRow), split, hasDeletedWriter)
  {
    if users != [] {
      var n := |users| - 1;
      AddPageWritten(t, users[..n], split, hasDeletedWriter, toRow);
      AddUserWritten(AddPage(t, users[..n], split, hasDeletedWriter, toRow), users[n], split, hasDeletedWriter, toRow);
    }
  }

  lemma {:induction false} SweepQueryWritten(t: Tally, q: string, offset: nat, fetch: (string, nat) -> seq<User>,
                                             members: set<int>, split: bool, hasDeletedWriter: bool, toRow: User -> Row)
    requires KeepsId(toRow)
    requires Fits(fetch, members) && Counted(t) && t.seen <= members && Written(t, split, hasDeletedWriter)
    ensures Written(SweepQuery(t, q, offset, fetch, members, split, hasDeletedWriter, toRow), split, hasDeletedWriter)
    decreases |members| - |t.seen|
  {
    var page := fetch(q, offset);
    if page != [] {
      var next := AddPage(t, page, split, hasDeletedWriter, toRow);
      AddPageWritten(t, page, split, hasDeletedWriter, toRow);
      AddPageWithin(t, page, members, split, hasDeletedWriter, toRow);
      if next.count - t.count != 0 {
        SubsetCard(next.seen, members);
        SweepQueryWritten(next, q, offset + |page|, fetch, members, split, hasDeletedWriter, toRow);
      }
    }
  }

  lemma {:induction false} SweepAllWritten(t: Tally, qs: seq<string>, fetch: (string, nat) -> seq<User>,
                                           members: set<int>, split: bool, hasDeletedWriter: bool, toRow: User -> Row)
    requires KeepsId(toRow)
    requires Fits(fetch, members) && Counted(t) && t.seen <= members && Written(t, split, hasDeletedWriter)
    ensures Written(SweepAll(t, qs, fetch, members, split, hasDeletedWriter, toRow), split, hasDeletedWriter)
  {
    if qs != [] {
      var front := SweepAll(t, qs[..|qs| - 1], fetch, members, split, hasDeletedWriter, toRow);
      SweepAllWritten(t, qs[..|qs| - 1], fetch, members, split, hasDeletedWriter, toRow);
      SweepQueryWritten(front, qs[|qs| - 1], 0, fetch, members, split, hasDeletedWriter, toRow);
    }
  }

  /** The total is active plus deleted, which is the number of distinct users seen, all of
      them members, and the writers got the rows `Written` describes. */
  predicate Guaranteed(t: Tally, members: set<int>, split: bool, hasDeletedWriter: bool)
  {
    Counted(t) && t.seen <= members && Written(t, split, hasDeletedWriter)
  }

  /** The whole sweep keeps its promises. */
  lemma SweepGuarantees(fetch: (string, nat) -> seq<User>, members: set<int>, split: bool, hasDeletedWriter: bool)
    requires Fits(fetch, members)
    ensures Guaranteed(SweepAll(Start, Queries(), fetch, members, split, hasDeletedWriter, UserToRow), members, split, hasDeletedWriter)
  {
    UserToRowKeepsId();
    SweepAllWritten(Start, Queries(), fetch, members, split, hasDeletedWriter, UserToRow);
  }

  /** A query whose first page is empty changes nothing. */
  lemma EmptyFirstPage(t: Tally, q: string, fetch: (string, nat) -> seq<User>, members: set<int>, split: bool, hasDeletedWriter: bool, toRow: User -> Row)
    requires Fits(fetch, members) && Counted(t) && t.seen <= members && fetch(q, 0) == []
    ensures SweepQuery(t, q, 0, fetch, members, split, hasDeletedWriter, toRow) == t
  {
  }

  /** A page of users all seen before brings nothing new, and its query stops there. */
  lemma {:induction false} StalePageAddsNothing(t: Tally, users: seq<User>, split: bool, hasDeletedWriter: bool, toRow: User -> Row)
    requires forall i :: 0 <= i < |users| ==> users[i].id in t.seen
    ensures AddPage(t, users, split, hasDeletedWriter, toRow) == t
  {
    if users != [] {
      var n := |users| - 1;
      StalePageAddsNothing(t, users[..n], split, hasDeletedWriter, toRow);
    }
  }

  lemma StaleFirstPage(t: Tally, q: string, fetch: (string, nat) -> seq<User>, members: set<int>, split: bool, hasDeletedWriter: bool, toRow: User -> Row)
    requires Fits(fetch, members) && Counted(t) && t.seen <= members
    requires forall i :: 0 <= i < |fetch(q, 0)| ==> fetch(q, 0)[i].id in t.seen
    ensures SweepQuery(t, q, 0, fetch, members, split, hasDeletedWriter, toRow) == t
  {
    StalePageAddsNothing(t, fetch(q, 0), split, hasDeletedWriter, toRow);
  }

  // ----------------------------------------------------------------------------------------
  // Settings and file names

  /** `TG_OUTPUT_CSV` when it is not set: "channel_subscribers.csv". */
  const DefaultStem := "channel_subscribers"
  const DefaultOutput := DefaultStem + ".csv"

  /** The words that switch a flag of the export on. */
  const FlagWords: set<string> := {"1", "true", "yes"}

  /** `env.get(key, default).lower() in ("1", "true", "yes")`: unlike the generators'
      `to_bool`, the value is not stripped. */
  function FlagOn(v: Option<string>, default: string): (b: bool)
    ensures b ==> v.None? || |v.value| in {1, 3, 4}
  {
    Lower(if v.Some? then v.value else default) in FlagWords
  }

  /** "1", "true" and "yes" in any letter case switch the flag on, and so does such a default
      when the variable is unset. */
  lemma FlagWordsOn(default: string)
    ensures FlagOn(Some("1"), default) && FlagOn(Some("TRUE"), default) && FlagOn(Some("Yes"), default)
    ensures FlagOn(None, "true")
  {
    assert Lower("TRUE") == "true";
    assert Lower("Yes") == "yes";
    assert Lower("1") == "1";
    assert Lower("true") == "true";
  }

  /** Other words leave the flag off, as does the default "false" when the variable is unset. */
  lemma FlagWordsOff(default: string)
    ensures !FlagOn(Some("no"), default) && !FlagOn(Some("on"), default)
    ensures !FlagOn(None, "false")
  {
    assert Lower("no")[0] == 'n' && Lower("on")[0] == 'o';
    assert Lower("false")[0] == 'f';
  }

  /** A value that switches this flag on switches the generators' flags on as well. */
  lemma FlagOnImpliesToBool(s: string, default: string, fallback: bool)
    requires FlagOn(Some(s), default)
    ensures ToBool(Some(s), fallback)
  {
    var w := Lower(s);
    assert w[0] == LowerChar(s[0]) && w[|w| - 1] == LowerChar(s[|s| - 1]);
    assert !IsSpace(s[0]) && !IsSpace(s[|s| - 1]);
    StripUntrimmed(s);
  }

  /** One space in front of a text without padding is stripped off. */
  lemma StripOneLeading(s: string)
    requires s != [] && !IsSpace(s[0]) && !IsSpace(s[|s| - 1])
    ensures Strip(" " + s) == s
  {
    var v := " " + s;
    assert v[1..] == s;
    assert LeadingSpaces(v) == 1;
    assert TrailingSpaces(v[1..]) == 0;
  }

  /** A padded "yes" does not switch this flag on ... */
  lemma PaddedYesIsOff()
    ensures !FlagOn(Some(" yes"), "false")
  {
    assert Lower(" yes")[0] == ' ';
  }

  /** ... although it switches the generators' flags on. */
  lemma PaddedYesIsOn()
    ensures ToBool(Some(" yes"), false)
  {
    StripOneLeading("yes");
    assert Lower("yes") == "yes";
  }

  /** The two files of a split export: the name without a final ".csv" in any letter
      case, then "_active.csv" and "_deleted.csv". */
  function SplitOutputNames(output: string): (r: (string, string))
    ensures |r.0| >= 11 && r.0[|r.0| - 11..] == "_active.csv" && |r.1| >= 12 && r.1[|r.1| - 12..] == "_deleted.csv"
    ensures r.0[..|r.0| - 11] == r.1[..|r.1| - 12]
    ensures |output| >= 4 && Lower(output[|output| - 4..]) == ".csv" ==>
      r == (output[..|output| - 4] + "_active.csv", output[..|output| - 4] + "_deleted.csv")
    ensures !(|output| >= 4 && Lower(output[|output| - 4..]) == ".csv") ==> r == (output + "_active.csv", output + "_deleted.csv")
  {
    var prefix := if |output| >= 4 && Lower(output[|output| - 4..]) == ".csv" then output[..|output| - 4] else output;
    (prefix + "_active.csv", prefix + "_deleted.csv")
  }

  /** The file names of a split export differ from each other. */
  lemma SplitNamesDiffer(output: string)
    ensures SplitOutputNames(output).0 != SplitOutputNames(output).1
  {
  }

  /** A name ending in ".csv" in any letter case loses that ending before the suffixes are added. */
  lemma CsvExtensionReplaced(base: string, ext: string)
    requires |ext| == 4 && Lower(ext) == ".csv"
    ensures SplitOutputNames(base + ext) == (base + "_active.csv", base + "_deleted.csv")
  {
    var o := base + ext;
    assert o[|o| - 4..] == ext && o[..|o| - 4] == base;
  }

  /** The default output name splits into two files beside it. */
  lemma DefaultOutputSplit()
    ensures SplitOutputNames(DefaultOutput) == (DefaultStem + "_active.csv", DefaultStem + "_deleted.csv")
  {
    assert Lower(".csv") == ".csv";
    CsvExtensionReplaced(DefaultStem, ".csv");
  }}

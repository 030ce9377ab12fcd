/** The multi-account poster: normalising sheet rows, choosing which rows get a job,
    composing the post text with its custom-emoji entities, and choosing album or message. */
module Poster {
  import opened PyStr

  /** A sheet cell or record field as Python sees it: missing/None, text, an integer,
      or a float (kept as the text `str()` gives for it). */
  datatype Value = Null | Str(s: string) | Int(i: int) | Float(repr: string)

  /** `str(v)`, which is also what an f-string inserts. */
  function Text(v: Value): string
  {
    match v
    case Null => "None"
    case Str(s) => s
    case Int(i) => IntToStr(i)
    case Float(repr) => repr
  }

  /** The text of an integer cell reads back as that integer. */
  lemma TextOfIntReadsBack(i: int)
    ensures PyInt(Text(Int(i))) == Some(i)
  {
    PyIntRoundTrip(i);
  }

  /** Python truthiness: None, "", 0 and 0.0 are false. */
  predicate Truthy(v: Value)
  {
    match v
    case Null => false
    case Str(s) => s != ""
    case Int(i) => i != 0
    case Float(repr) => repr != "0.0" && repr != "-0.0"
  }

  /** A dictionary as the sheet library returns it, keyed by column header (or, for a
      header-less row as written, by field name). */
  type Row = map<string, Value>

  /** The fields of a normalised record (the keys `time_iso`, `status`, ..., `sent`). */
  datatype Field =
    | TimeIso | Status | Name | Skip | Services | ExtraServices | Age | Height | Weight | Bust
    | Express | Incall | Outcall | Media1 | Media2 | Media3 | Media4 | WhatsApp | Sent

  /** `FIELD_MAP`: the sheet header each field is read from. */
  function Header(f: Field): string
  {
    match f
    case TimeIso => "Время" case Status => "Статус" case Name => "Имя"
    case Skip => "Пробелы перед короной" case Services => "Услуги" case ExtraServices => "Доп. услуги"
    case Age => "Возраст" case Height => "Рост" case Weight => "Вес" case Bust => "Грудь"
    case Express => "Express" case Incall => "Incall" case Outcall => "Outcall"
    case Media1 => "Фото 1" case Media2 => "Фото 2" case Media3 => "Фото 3" case Media4 => "Фото 4"
    case WhatsApp => "WhatsApp" case Sent => "Отправлено"
  }

  /** No sheet header is spelled like a field name: none starts with a lower-case letter. */
  lemma HeaderNotLowerCase(f: Field)
    ensures Header(f) != [] && !('a' <= Header(f)[0] <= 'z')
  {
  }

  /** A normalised record: the dictionary `canon` returns, with exactly the 19 field keys. */
  datatype Record = Record(
    timeIso: Value, status: Value, name: Value, skip: Value, services: Value, extraServices: Value,
    age: Value, height: Value, weight: Value, bust: Value, express: Value, incall: Value,
    outcall: Value, media1: Value, media2: Value, media3: Value, media4: Value, whatsapp: Value,
    sent: Value)

  /** `record[key]` for the key of field `f`. */
  function Get(r: Record, f: Field): Value
  {
    match f
    case TimeIso => r.timeIso case Status => r.status case Name => r.name case Skip => r.skip
    case Services => r.services case ExtraServices => r.extraServices case Age => r.age
    case Height => r.height case Weight => r.weight case Bust => r.bust case Express => r.express
    case Incall => r.incall case Outcall => r.outcall case Media1 => r.media1 case Media2 => r.media2
    case Media3 => r.media3 case Media4 => r.media4 case WhatsApp => r.whatsapp case Sent => r.sent
  }

  /** One cell of `canon`: a text cell stripped, any other cell passed through, a missing one None. */
  function CanonCell(row: Row, header: string): (v: Value)
    ensures header !in row ==> v == Null
    ensures header in row && !row[header].Str? ==> v == row[header]
    ensures header in row && row[header].Str? ==> v == Str(Strip(row[header].s))
  {
    if header in row && row[header].Str? then Str(Strip(row[header].s))
    else if header in row then row[header]
    else Null
  }

  /** `canon(row)`: every field read from its header. */
  function Canon(row: Row): Record
  {
    Record(
      CanonCell(row, Header(TimeIso)), CanonCell(row, Header(Status)), CanonCell(row, Header(Name)),
      CanonCell(row, Header(Skip)), CanonCell(row, Header(Services)), CanonCell(row, Header(ExtraServices)),
      CanonCell(row, Header(Age)), CanonCell(row, Header(Height)), CanonCell(row, Header(Weight)),
      CanonCell(row, Header(Bust)), CanonCell(row, Header(Express)), CanonCell(row, Header(Incall)),
      CanonCell(row, Header(Outcall)), CanonCell(row, Header(Media1)), CanonCell(row, Header(Media2)),
      CanonCell(row, Header(Media3)), CanonCell(row, Header(Media4)), CanonCell(row, Header(WhatsApp)),
      CanonCell(row, Header(Sent)))
  }

  /** Each field of `canon(row)` is the cell under its header. */
  lemma CanonGet(row: Row, f: Field)
    ensures Get(Canon(row), f) == CanonCell(row, Header(f))
  {
    match f
    case TimeIso => case Status => case Name => case Skip => case Services =>
    case ExtraServices => case Age => case Height => case Weight => case Bust => case Express =>
    case Incall => case Outcall => case Media1 => case Media2 => case Media3 => case Media4 =>
    case WhatsApp => case Sent =>
  }

  /** A text field of a normalised record has no surrounding whitespace left. */
  lemma CanonStripped(row: Row, f: Field)
    ensures Get(Canon(row), f).Str? ==> Strip(Get(Canon(row), f).s) == Get(Canon(row), f).s
  {
    CanonGet(row, f);
    if Get(Canon(row), f).Str? {
      StripIdempotent(row[Header(f)].s);
    }
  }

  /** A cell written back as it was normalised normalises to the same value. */
  lemma CanonCellAgain(row: Row, back: Row, h: string)
    requires h in back && back[h] == CanonCell(row, h)
    ensures CanonCell(back, h) == CanonCell(row, h)
  {
    if h in row && row[h].Str? {
      StripIdempotent(row[h].s);
    }
  }

  /** Normalising is idempotent: a record written back under its headers normalises to itself. */
  lemma CanonAgain(row: Row, back: Row)
    requires forall f :: Header(f) in back && back[Header(f)] == CanonCell(row, Header(f))
    ensures Canon(back) == Canon(row)
  {
    forall f ensures CanonCell(back, Header(f)) == CanonCell(row, Header(f)) {
      CanonCellAgain(row, back, Header(f));
    }
  }

  /** `record_from_sheet(row_raw)` as written: keyed by field name; `None` where indexing
      raises IndexError (fewer than 22 cells). */
  function RecordFromSheet(raw: seq<string>): (r: Option<Row>)
    ensures r.Some? <==> |raw| >= 22
    ensures r.Some? ==> "sent" !in r.value
    ensures r.Some? ==> forall k :: k in r.value ==> k != [] && 'a' <= k[0] <= 'z'
  {
    if |raw| < 22 then None
    else Some(map[
      "time_iso" := Str(raw[1]), "status" := Str(raw[2]), "name" := Str(raw[3]),
      "services" := Str(raw[5]), "extra_services" := Str(raw[6]),
      "age" := Str(raw[7]), "height" := Str(raw[8]), "weight" := Str(raw[9]), "bust" := Str(raw[10]),
      "express" := Str(raw[11]), "incall" := Str(raw[12]), "outcall" := Str(raw[13]),
      "media1" := Str(raw[16]), "media2" := Str(raw[17]), "media3" := Str(raw[18]), "media4" := Str(raw[19]),
      "skip" := Str(raw[20]), "whatsapp" := Str(raw[21])])
  }

  /** As written, normalising a header-less record loses every field: no sheet header is a
      field name, so each field comes back None. */
  lemma CanonOfHeaderlessRecord(raw: seq<string>)
    requires |raw| >= 22
    ensures forall f :: Get(Canon(RecordFromSheet(raw).value), f) == Null
  {
    var row := RecordFromSheet(raw).value;
    forall f ensures Get(Canon(row), f) == Null {
      CanonGet(row, f);
      HeaderNotLowerCase(f);
      assert Header(f) !in row;
    }
  }

  // ----------------------------------------------------------------------------------------
  // Row selection

  /** Where the rows come from: `get_all_records()` when the sheet has headers, otherwise the
      raw cells of rows 2 .. row_count. */
  datatype Sheet = WithHeaders(records: seq<Row>) | Headerless(rows: seq<seq<string>>)

  datatype Job = Job(record: Record, runAt: int)

  const SentWords: set<string> := {"true", "yes", "1"}

  /** `str(r.get("sent")).lower() in ("true", "yes", "1")`. */
  predicate IsSent(r: Record)
  {
    Lower(Text(r.sent)) in SentWords
  }

  /** `datetime.fromisoformat(r["time_iso"])`; a non-text value raises TypeError, which the
      loop treats like an unparsable time. */
  function RunTime(r: Record, parseTime: string -> Option<int>): (t: Option<int>)
    ensures !r.timeIso.Str? ==> t == None
  {
    if r.timeIso.Str? then parseTime(r.timeIso.s) else None
  }

  /** A record gets a job when it is not marked sent and its time parses to `now` or later. */
  predicate Due(r: Record, parseTime: string -> Option<int>, now: int)
  {
    !IsSent(r) && RunTime(r, parseTime).Some? && RunTime(r, parseTime).value >= now
  }

  /** `[canon(r) for r in records]`, the records as the loop sees them. */
  function CanonAll(rows: seq<Row>): (rs: seq<Record>)
    ensures |rs| == |rows|
    ensures forall i :: 0 <= i < |rows| ==> rs[i] == Canon(rows[i])
  {
    seq(|rows|, i requires 0 <= i < |rows| => Canon(rows[i]))
  }

  /** The jobs the loop of `schedule_for_acc` adds for the normalised `records`, in order: a
      due record gives a job at its parsed time. */
  function Jobs(records: seq<Record>, parseTime: string -> Option<int>, now: int): (jobs: seq<Job>)
    ensures |jobs| <= |records|
    ensures forall j :: j in jobs ==> (Due(j.record, parseTime, now) &&
                                       RunTime(j.record, parseTime) == Some(j.runAt))
  {
    if records == [] then []
    else
      var before := Jobs(records[..|records| - 1], parseTime, now);
      var r := records[|records| - 1];
      if Due(r, parseTime, now) then before + [Job(r, RunTime(r, parseTime).value)] else before
  }

  /** One more record adds its job, if it is due, at the end. */
  lemma JobsSnoc(rs: seq<Record>, i: nat, parseTime: string -> Option<int>, now: int)
    requires i < |rs|
    ensures Jobs(rs[..i + 1], parseTime, now) ==
      Jobs(rs[..i], parseTime, now) +
      if Due(rs[i], parseTime, now) then [Job(rs[i], RunTime(rs[i], parseTime).value)] else []
  {
    assert rs[..i + 1][..i] == rs[..i];
  }

  /** Scheduling two batches of records one after the other gives the two job lists in order. */
  lemma {:induction false} JobsAppend(a: seq<Record>, b: seq<Record>, parseTime: string -> Option<int>, now: int)
    ensures Jobs(a + b, parseTime, now) == Jobs(a, parseTime, now) + Jobs(b, parseTime, now)
    decreases |b|
  {
    if b == [] {
      assert a + b == a;
    } else {
      assert (a + b)[..|a + b| - 1] == a + b[..|b| - 1];
      JobsAppend(a, b[..|b| - 1], parseTime, now);
    }
  }

  /** Every due record yields its job: with only due records there is one job per record. */
  lemma {:induction false} EveryDueRecordScheduled(records: seq<Record>, parseTime: string -> Option<int>, now: int)
    requires forall i :: 0 <= i < |records| ==> Due(records[i], parseTime, now)
    ensures |Jobs(records, parseTime, now)| == |records|
  {
    if records != [] {
      var init := records[..|records| - 1];
      assert forall i :: 0 <= i < |init| ==> init[i] == records[i];
      EveryDueRecordScheduled(init, parseTime, now);
    }
  }

  /** Records without a time give no job. */
  lemma {:induction false} UntimedRecordsNoJobs(records: seq<Record>, parseTime: string -> Option<int>, now: int)
    requires forall i :: 0 <= i < |records| ==> records[i].timeIso == Null
    ensures Jobs(records, parseTime, now) == []
  {
    if records != [] {
      var init := records[..|records| - 1];
      assert forall i :: 0 <= i < |init| ==> init[i] == records[i];
      UntimedRecordsNoJobs(init, parseTime, now);
    }
  }

  predicate AllLongEnough(rows: seq<seq<string>>)
  {
    forall i :: 0 <= i < |rows| ==> |rows[i]| >= 22
  }

  /** `[record_from_sheet(row) for row in rows]`. */
  function AsWrittenRecords(rows: seq<seq<string>>): (rs: seq<Row>)
    requires AllLongEnough(rows)
    ensures |rs| == |rows|
    ensures forall i :: 0 <= i < |rows| ==> Some(rs[i]) == RecordFromSheet(rows[i])
  {
    if rows == [] then []
    else
      var init := rows[..|rows| - 1];
      assert forall i :: 0 <= i < |init| ==> init[i] == rows[i];
      AsWrittenRecords(init) + [RecordFromSheet(rows[|rows| - 1]).value]
  }

  /** A header-less sheet never produces a job: every time field comes back None. */
  lemma HeaderlessSchedulesNothing(rows: seq<seq<string>>, parseTime: string -> Option<int>, now: int)
    requires AllLongEnough(rows)
    ensures Jobs(CanonAll(AsWrittenRecords(rows)), parseTime, now) == []
  {
    var rs := CanonAll(AsWrittenRecords(rows));
    forall i | 0 <= i < |rs| ensures rs[i].timeIso == Null {
      CanonOfHeaderlessRecord(rows[i]);
      assert Get(rs[i], TimeIso) == Null;
    }
    UntimedRecordsNoJobs(rs, parseTime, now);
  }

  /** The records of a sheet; `None` when a header-less row is too short, where the list
      comprehension raises before any job is added. */
  function SheetRecords(sheet: Sheet): (rs: Option<seq<Row>>)
    ensures rs.None? <==> sheet.Headerless? && !AllLongEnough(sheet.rows)
    ensures sheet.WithHeaders? ==> rs == Some(sheet.records)
    ensures sheet.Headerless? && rs.Some? ==> |rs.value| == |sheet.rows|
  {
    if sheet.WithHeaders? then Some(sheet.records)
    else if AllLongEnough(sheet.rows) then Some(AsWrittenRecords(sheet.rows))
    else None
  }

  /** The jobs of the first `i` records, and the job of record `i` when it is due, are the
      jobs of the first `i + 1` records. */
  lemma ScheduleStep(rs: seq<Record>, i: nat, out: seq<Job>, parseTime: string -> Option<int>, now: int)
    requires i < |rs| && out == Jobs(rs[..i], parseTime, now)
    ensures IsSent(rs[i]) ==> out == Jobs(rs[..i + 1], parseTime, now)
    ensures RunTime(rs[i], parseTime).None? ==> out == Jobs(rs[..i + 1], parseTime, now)
    ensures RunTime(rs[i], parseTime).Some? && RunTime(rs[i], parseTime).value < now ==>
      out == Jobs(rs[..i + 1], parseTime, now)
    ensures Due(rs[i], parseTime, now) ==>
      out + [Job(rs[i], RunTime(rs[i], parseTime).value)] == Jobs(rs[..i + 1], parseTime, now)
  {
    JobsSnoc(rs, i, parseTime, now);
  }

  /** The loop of `schedule_for_acc`: each record is normalised, and one not marked sent
      whose time parses to `now` or later gets a job. */
  method ScheduleRecords(rs: seq<Row>, parseTime: string -> Option<int>, now: int) returns (out: seq<Job>)
    ensures out == Jobs(CanonAll(rs), parseTime, now)
  {
    ghost var normalised := CanonAll(rs);
    out := [];
    for i := 0 to |rs|
      invariant out == Jobs(normalised[..i], parseTime, now)
    {
      var r := Canon(rs[i]);
      assert r == normalised[i];
      ScheduleStep(normalised, i, out, parseTime, now);
      if IsSent(r) {
        continue;
      }
      var t := RunTime(r, parseTime);
      if t.None? {
        continue;
      }
      if t.value < now {
        continue;
      }
      out := out + [Job(r, t.value)];
    }
    assert normalised[..|rs|] == normalised;
  }

  /** `schedule_for_acc`: the due records of the sheet, in order; `None` when the header-less
      path raises on a short row. */
  method ScheduleForAcc(sheet: Sheet, parseTime: string -> Option<int>, now: int) returns (jobs: Option<seq<Job>>)
    ensures jobs.None? <==> SheetRecords(sheet).None?
    ensures jobs.Some? ==> jobs.value == Jobs(CanonAll(SheetRecords(sheet).value), parseTime, now)
  {
    var records := SheetRecords(sheet);
    if records.None? {
      return None;
    }
    var out := ScheduleRecords(records.value, parseTime, now);
    return Some(out);
  }


  // ----------------------------------------------------------------------------------------
  // Post composition

  /** The word joiner U+2060 that carries each custom emoji. */
  const Zwsp: string := "\U{2060}"

  /** `EMOJI`: the custom-emoji document id of each emoji number. */
  const EmojiIds: map<int, int> := map[
    1 := 5429293125518510398, 2 := 5814534640949530526, 3 := 5370853949358218655,
    4 := 5370674552869232639, 5 := 5372943137415111238, 6 := 5373338978780979795,
    7 := 5372991528811635071, 8 := 5364098734600762220, 9 := 5460811944883660881
  ]

  /** `MessageEntityCustomEmoji(offset, length, document_id)`. */
  datatype Entity = Entity(offset: nat, length: nat, documentId: int)

  /** The emoji numbers in the order the template places them. */
  const EmojiOrder: seq<int> := [1, 1, 2, 3, 4, 5, 6, 7, 8, 8, 9]

  /** `"".join(parts)`. */
  function Join(ps: seq<string>): string
  {
    if ps == [] then [] else Join(ps[..|ps| - 1]) + ps[|ps| - 1]
  }

  /** `sum(len(p) for p in parts)`: the length of the text the parts join into. */
  function SumLens(ps: seq<string>): (n: nat)
    ensures n == |Join(ps)|
  {
    if ps == [] then 0 else SumLens(ps[..|ps| - 1]) + |ps[|ps| - 1]|
  }

  lemma {:induction false} JoinAppend(a: seq<string>, b: seq<string>)
    ensures Join(a + b) == Join(a) + Join(b)
    decreases |b|
  {
    if b == [] {
      assert a + b == a;
    } else {
      var n := |b| - 1;
      assert (a + b)[..|a + b| - 1] == a + b[..n] && (a + b)[|a + b| - 1] == b[n];
      JoinAppend(a, b[..n]);
    }
  }

  /** The header statement: marker, status between spaces, marker, newline. */
  function HeaderParts(row: Record): seq<string>
  {
    [Zwsp, " " + Text(row.status) + " ", Zwsp, "\n"]
  }

  /** The parts in the list when the photo-row loop starts. */
  function PartsBeforePhotos(row: Record): seq<string>
  {
    HeaderParts(row) + [Text(row.skip) + Zwsp + "\n"] + [Text(row.name) + "\n\n"] + ["Фото "]
  }

  /** The parts the photo-row loop has added after `k` rounds. */
  function PhotoRow(k: nat): (ps: seq<string>)
    ensures |ps| == 2 * k
  {
    if k == 0 then [] else PhotoRow(k - 1) + [Zwsp, " "]
  }

  function ServiceParts(row: Record): seq<string>
  {
    ["Услуги:\n", Text(row.services) + "\n", "Доп. услуги:\n", Text(row.extraServices) + "\n\n"]
  }

  function ParameterParts(row: Record): seq<string>
  {
    ["Параметры:\n",
     "Возраст – " + Text(row.age) + "\n",
     "Рост   – " + Text(row.height) + "\n",
     "Вес    – " + Text(row.weight) + "\n",
     "Грудь  – " + Text(row.bust) + "\n\n"]
  }

  function PriceParts(row: Record): seq<string>
  {
    ["Цена:\n",
     "Express – " + Text(row.express) + "\n",
     "Incall  – " + Text(row.incall) + "\n",
     "Outcall – " + Text(row.outcall) + "\n\n"]
  }

  /** The parts in the list when the call-to-action statement runs. */
  function PartsBeforeCta(row: Record): seq<string>
  {
    PartsBeforePhotos(row) + PhotoRow(5) + ["\n\n"] + ServiceParts(row) + ParameterParts(row) + PriceParts(row)
  }

  const CtaText: string := " Назначь встречу уже сегодня! "

  /** The parts in the list when the link statement runs. */
  function PartsBeforeLink(row: Record): seq<string>
  {
    PartsBeforeCta(row) + [Zwsp, CtaText, Zwsp, "\n"]
  }

  function LinkLine(row: Record): string
  {
    "<a href=\"" + Text(row.whatsapp) + "\">Связь в WhatsApp</a> "
  }

  /** All parts of the post, in template order. */
  function PostParts(row: Record): seq<string>
  {
    PartsBeforeLink(row) + [LinkLine(row), Zwsp]
  }

  /** The post text: `"".join(parts)`. */
  function PostText(row: Record): string
  {
    Join(PostParts(row))
  }

  /** The offset `add_emoji` records for the `i`-th emoji: the summed length of the parts
      already in the list, which leaves out what its own statement writes before the marker. */
  function AsWrittenOffset(row: Record, i: nat): nat
    requires i < 11
  {
    if i <= 1 then 0
    else if i == 2 then SumLens(HeaderParts(row))
    else if i < 8 then SumLens(PartsBeforePhotos(row) + PhotoRow(i - 3))
    else if i < 10 then SumLens(PartsBeforeCta(row))
    else SumLens(PartsBeforeLink(row))
  }

  function AsWrittenEntity(row: Record, i: nat): Entity
    requires i < 11
  {
    Entity(AsWrittenOffset(row, i), 1, EmojiIds[EmojiOrder[i]])
  }

  /** `add_emoji(num)`: records an entity at the current summed length of `parts` and returns the marker. */
  method AddEmoji(parts: seq<string>, entities: seq<Entity>, num: int) returns (marker: string, entities': seq<Entity>)
    requires num in EmojiIds
    ensures marker == Zwsp
    ensures entities' == entities + [Entity(SumLens(parts), 1, EmojiIds[num])]
  {
    marker := Zwsp;
    entities' := entities + [Entity(SumLens(parts), 1, EmojiIds[num])];
  }

  /** The entities `build_post` records as written, one per emoji in template order. */
  function AsWrittenEntities(row: Record): (es: seq<Entity>)
    ensures |es| == 11
  {
    seq(11, i requires 0 <= i < 11 => AsWrittenEntity(row, i))
  }

  /** The header statements of `build_post` as written. */
  method AsWrittenHeader(row: Record) returns (parts: seq<string>, entities: seq<Entity>)
    ensures parts == PartsBeforePhotos(row)
    ensures entities == AsWrittenEntities(row)[..3]
  {
    parts := [];
    entities := [];
    var a, b;
    a, entities := AddEmoji(parts, entities, 1);
    b, entities := AddEmoji(parts, entities, 1);
    parts := parts + [a, " " + Text(row.status) + " ", b, "\n"];
    assert parts == HeaderParts(row);
    a, entities := AddEmoji(parts, entities, 2);
    parts := parts + [Text(row.skip) + a + "\n"];
    parts := parts + [Text(row.name) + "\n\n"];
    parts := parts + ["Фото "];
  }

  /** The call-to-action and link statements of `build_post` as written. */
  method AsWrittenClosing(row: Record, parts: seq<string>, entities: seq<Entity>)
    returns (parts': seq<string>, entities': seq<Entity>)
    requires parts == PartsBeforeCta(row)
    requires entities == AsWrittenEntities(row)[..8]
    ensures parts' == PostParts(row)
    ensures entities' == AsWrittenEntities(row)
  {
    var a, b;
    parts' := parts;
    a, entities' := AddEmoji(parts', entities, 8);
    b, entities' := AddEmoji(parts', entities', 8);
    parts' := parts' + [a, " Назначь встречу уже сегодня! ", b, "\n"];
    a, entities' := AddEmoji(parts', entities', 9);
    parts' := parts' + ["<a href=\"" + Text(row.whatsapp) + "\">Связь в WhatsApp</a> ", a];
    assert entities' == AsWrittenEntities(row)[..11];
  }

  /** `build_post(row)` as written: the post text and one entity per emoji, each at the
      offset `add_emoji` computes. */
  method BuildPost(row: Record) returns (text: string, entities: seq<Entity>)
    ensures text == PostText(row)
    ensures entities == AsWrittenEntities(row)
  {
    var parts;
    parts, entities := AsWrittenHeader(row);
    assert parts + PhotoRow(0) == parts;
    for num := 3 to 8
      invariant parts == PartsBeforePhotos(row) + PhotoRow(num - 3)
      invariant entities == AsWrittenEntities(row)[..num]
    {
      var a;
      a, entities := AddEmoji(parts, entities, num);
      assert AsWrittenEntities(row)[num] == Entity(SumLens(parts), 1, EmojiIds[num]);
      TakeSnoc(AsWrittenEntities(row), num);
      AppendAssoc(PartsBeforePhotos(row), PhotoRow(num - 3), [a, " "]);
      parts := parts + [a, " "];
    }
    parts := parts + ["\n\n"];
    parts := parts + ServiceParts(row);
    parts := parts + ParameterParts(row);
    parts := parts + PriceParts(row);
    parts, entities := AsWrittenClosing(row, parts, entities);
    text := Join(parts);
  }


  lemma AppendAssoc(a: seq<string>, b: seq<string>, c: seq<string>)
    ensures a + b + c == a + (b + c)
  {
  }

  lemma JoinOne(s: string)
    ensures Join([s]) == s
  {
    assert [s][..0] == [];
  }

  lemma Join2(ps: seq<string>)
    requires |ps| == 2
    ensures Join(ps) == ps[0] + ps[1]
  {
    assert ps[..1][..0] == [];
    assert Join(ps[..1]) == ps[0];
  }

  lemma Join4(ps: seq<string>)
    requires |ps| == 4
    ensures Join(ps) == ps[0] + ps[1] + ps[2] + ps[3]
  {
    assert ps[..1][..0] == [];
    assert Join(ps[..1]) == ps[0];
    assert ps[..2][..1] == ps[..1];
    assert Join(ps[..2]) == ps[0] + ps[1];
    assert ps[..3][..2] == ps[..2];
    assert Join(ps[..3]) == ps[0] + ps[1] + ps[2];
  }

  lemma Regroup3(a: string, b: string, c: string)
    ensures a + b + c == a + (b + c)
  {
  }

  lemma Regroup4(a: string, b: string, c: string, d: string)
    ensures a + b + c + d == a + (b + c + d)
  {
  }

  /** A character of a prefix is the character of the whole text at the same position. */
  lemma PrefixChar(x: string, y: string, n: nat)
    requires x <= y && n < |x|
    ensures n < |y| && y[n] == x[n]
  {
  }

  lemma PrefixSlice(x: string, y: string, i: nat, j: nat)
    requires x <= y && i <= j <= |x|
    ensures j <= |y| && y[i..j] == x[i..j]
  {
    assert y[..|x|] == x;
  }

  lemma PrefixTrans(x: string, y: string, z: string)
    requires x <= y && y <= z
    ensures x <= z
  {
    assert z[..|y|][..|x|] == z[..|x|];
  }

  lemma PrefixAppend(x: string, y: string)
    ensures x <= x + y
  {
    assert (x + y)[..|x|] == x;
  }

  /** `s` occurs in `t` starting at position `p`. */
  predicate OccursAt(t: string, s: string, p: int)
  {
    0 <= p <= |t| - |s| && t[p..p + |s|] == s
  }

  /** `s in t` on strings. */
  ghost predicate Contains(t: string, s: string)
  {
    exists p :: OccursAt(t, s, p)
  }

  lemma ContainsSelf(s: string)
    ensures Contains(s, s)
  {
    assert OccursAt(s, s, 0);
  }

  lemma ContainsAppendLeft(a: string, y: string, s: string)
    requires Contains(y, s)
    ensures Contains(a + y, s)
  {
    var p :| OccursAt(y, s, p);
    assert (a + y)[|a| + p..|a| + p + |s|] == y[p..p + |s|];
    assert OccursAt(a + y, s, |a| + p);
  }

  lemma ContainsAppendRight(y: string, b: string, s: string)
    requires Contains(y, s)
    ensures Contains(y + b, s)
  {
    var p :| OccursAt(y, s, p);
    assert (y + b)[p..p + |s|] == y[p..p + |s|];
    assert OccursAt(y + b, s, p);
  }

  lemma ContainsPrefix(x: string, y: string, s: string)
    requires x <= y && Contains(x, s)
    ensures Contains(y, s)
  {
    var p :| OccursAt(x, s, p);
    assert y[p..p + |s|] == x[p..p + |s|];
    assert OccursAt(y, s, p);
  }

  /** The photo row is a marker and a space per round. */
  lemma {:induction false} PhotoRowText(k: nat)
    ensures |Join(PhotoRow(k))| == 2 * k
    ensures forall m :: 0 <= m < k ==> Join(PhotoRow(k))[2 * m] == Zwsp[0]
  {
    if k > 0 {
      PhotoRowText(k - 1);
      JoinAppend(PhotoRow(k - 1), [Zwsp, " "]);
      Join2([Zwsp, " "]);
    }
  }

  /** The text of the header statement. */
  lemma HeaderText(row: Record)
    ensures Join(HeaderParts(row)) == Zwsp + (" " + Text(row.status) + " ") + Zwsp + "\n"
  {
    Join4(HeaderParts(row));
  }

  /** The text before the photo row: the header, then skip, marker, name and the photo label. */
  lemma PhotosPrefixText(row: Record)
    ensures Join(PartsBeforePhotos(row)) ==
      Join(HeaderParts(row)) + (Text(row.skip) + Zwsp + "\n") + (Text(row.name) + "\n\n") + "Фото "
  {
    var h := HeaderParts(row);
    var x, y, z := Text(row.skip) + Zwsp + "\n", Text(row.name) + "\n\n", "Фото ";
    JoinAppend(h, [x]);
    JoinAppend(h + [x], [y]);
    JoinAppend(h + [x] + [y], [z]);
    JoinOne(x);
    JoinOne(y);
    JoinOne(z);
  }

  /** After `k` rounds of the photo loop the text has grown by the photo row. */
  lemma PhotoPrefixText(row: Record, k: nat)
    ensures Join(PartsBeforePhotos(row) + PhotoRow(k)) == Join(PartsBeforePhotos(row)) + Join(PhotoRow(k))
    ensures |Join(PartsBeforePhotos(row) + PhotoRow(k))| == |Join(PartsBeforePhotos(row))| + 2 * k
  {
    JoinAppend(PartsBeforePhotos(row), PhotoRow(k));
    PhotoRowText(k);
  }

  /** The text before the call to action extends the photo row by the details, which start
      with a blank line. */
  lemma CtaPrefix(row: Record)
    ensures Join(PartsBeforePhotos(row) + PhotoRow(5)) <= Join(PartsBeforeCta(row))
    ensures |Join(PartsBeforeCta(row))| >= |Join(PartsBeforePhotos(row) + PhotoRow(5))| + 2
  {
    var x := PartsBeforePhotos(row) + PhotoRow(5);
    var s, q, r := ServiceParts(row), ParameterParts(row), PriceParts(row);
    JoinAppend(x, ["\n\n"]);
    JoinOne("\n\n");
    JoinAppend(x + ["\n\n"], s);
    JoinAppend(x + ["\n\n"] + s, q);
    JoinAppend(x + ["\n\n"] + s + q, r);
    PrefixAppend(Join(x), "\n\n");
    PrefixAppend(Join(x + ["\n\n"]), Join(s));
    PrefixAppend(Join(x + ["\n\n"] + s), Join(q));
    PrefixAppend(Join(x + ["\n\n"] + s + q), Join(r));
    PrefixTrans(Join(x), Join(x + ["\n\n"]), Join(x + ["\n\n"] + s));
    PrefixTrans(Join(x), Join(x + ["\n\n"] + s), Join(x + ["\n\n"] + s + q));
    PrefixTrans(Join(x), Join(x + ["\n\n"] + s + q), Join(x + ["\n\n"] + s + q + r));
  }

  /** The text before the link statement: the call-to-action statement follows its prefix. */
  lemma LinkPrefixText(row: Record)
    ensures Join(PartsBeforeLink(row)) == Join(PartsBeforeCta(row)) + (Zwsp + CtaText + Zwsp + "\n")
  {
    JoinAppend(PartsBeforeCta(row), [Zwsp, CtaText, Zwsp, "\n"]);
    Join4([Zwsp, CtaText, Zwsp, "\n"]);
  }

  /** The text splits at the start of the link statement into what came before, the link
      line and the final marker. */
  lemma PostTextAtLink(row: Record)
    ensures PostText(row) == Join(PartsBeforeLink(row)) + LinkLine(row) + Zwsp
  {
    JoinAppend(PartsBeforeLink(row), [LinkLine(row), Zwsp]);
    Join2([LinkLine(row), Zwsp]);
  }

  /** The text before the link statement is a prefix of the post. */
  lemma LinkPrefixOfPost(row: Record)
    ensures Join(PartsBeforeLink(row)) <= PostText(row)
  {
    var l := Join(PartsBeforeLink(row));
    PostTextAtLink(row);
    PrefixAppend(l, LinkLine(row) + Zwsp);
    Regroup3(l, LinkLine(row), Zwsp);
  }

  /** The text before the call-to-action statement is a prefix of the post. */
  lemma CtaPrefixOfPost(row: Record)
    ensures Join(PartsBeforeCta(row)) <= PostText(row)
  {
    var l, c := Join(PartsBeforeLink(row)), Join(PartsBeforeCta(row));
    LinkPrefixOfPost(row);
    LinkPrefixText(row);
    PrefixAppend(c, Zwsp + CtaText + Zwsp + "\n");
    PrefixTrans(c, l, PostText(row));
  }

  /** The text after the photo row is a prefix of the post. */
  lemma PhotoRowPrefixOfPost(row: Record)
    ensures Join(PartsBeforePhotos(row) + PhotoRow(5)) <= PostText(row)
  {
    CtaPrefixOfPost(row);
    CtaPrefix(row);
    PrefixTrans(Join(PartsBeforePhotos(row) + PhotoRow(5)), Join(PartsBeforeCta(row)), PostText(row));
  }

  /** The text before the photo row is a prefix of the post. */
  lemma PhotosPrefixOfPost(row: Record)
    ensures Join(PartsBeforePhotos(row)) <= PostText(row)
  {
    var x5, p := Join(PartsBeforePhotos(row) + PhotoRow(5)), Join(PartsBeforePhotos(row));
    PhotoRowPrefixOfPost(row);
    PhotoPrefixText(row, 5);
    PrefixAppend(p, Join(PhotoRow(5)));
    PrefixTrans(p, x5, PostText(row));
  }

  /** The header text is a prefix of the post. */
  lemma HeaderPrefixOfPost(row: Record)
    ensures Join(HeaderParts(row)) <= PostText(row)
  {
    var p, h := Join(PartsBeforePhotos(row)), Join(HeaderParts(row));
    PhotosPrefixOfPost(row);
    PhotosPrefixText(row);
    var rest := (Text(row.skip) + Zwsp + "\n") + (Text(row.name) + "\n\n") + "Фото ";
    Regroup4(h, Text(row.skip) + Zwsp + "\n", Text(row.name) + "\n\n", "Фото ");
    PrefixAppend(h, rest);
    PrefixTrans(h, p, PostText(row));
  }

  /** As written, the offset grows by the length of the statement between two emoji. */
  lemma AsWrittenStep(row: Record, i: nat)
    requires i < 10
    ensures AsWrittenOffset(row, i) <= AsWrittenOffset(row, i + 1)
  {
    if i == 2 {
      PhotosPrefixText(row);
      PhotoPrefixText(row, 0);
    } else if 3 <= i < 7 {
      PhotoPrefixText(row, i - 3);
      PhotoPrefixText(row, i - 2);
    } else if i == 7 {
      PhotoPrefixText(row, 4);
      PhotoPrefixText(row, 5);
      CtaPrefix(row);
    } else if i == 9 {
      LinkPrefixText(row);
    }
  }

  /** As written, offsets never decrease along the entity list. */
  lemma {:induction false} AsWrittenOffsetsNonDecreasing(row: Record, i: nat, j: nat)
    requires i <= j < 11
    ensures AsWrittenOffset(row, i) <= AsWrittenOffset(row, j)
    decreases j - i
  {
    if i < j {
      AsWrittenOffsetsNonDecreasing(row, i, j - 1);
      AsWrittenStep(row, j - 1);
    }
  }

  /** In the photo row the emoji are two characters apart: a marker and a space per round. */
  lemma PhotoRowStep(row: Record, i: nat)
    requires 3 <= i < 7
    ensures AsWrittenOffset(row, i + 1) == AsWrittenOffset(row, i) + 2
  {
    PhotoPrefixText(row, i - 3);
    PhotoPrefixText(row, i - 2);
  }

  /** As written, the emoji added in one statement share an offset: both header emoji sit at 0
      and both call-to-action emoji at one position. */
  lemma AsWrittenSharedOffsets(row: Record)
    ensures AsWrittenOffset(row, 0) == AsWrittenOffset(row, 1) == 0
    ensures AsWrittenOffset(row, 8) == AsWrittenOffset(row, 9)
  {
  }

  /** As written, the last entity starts at the `<` of the link line, not at its marker. */
  lemma AsWrittenLinkEmojiMisplaced(row: Record)
    ensures AsWrittenOffset(row, 10) < |PostText(row)|
    ensures PostText(row)[AsWrittenOffset(row, 10)] == '<'
  {
    PostTextAtLink(row);
    var before := Join(PartsBeforeLink(row));
    assert PostText(row)[|before|] == LinkLine(row)[0];
  }

  /** The post opens and closes with a marker. */
  lemma PostTextEnds(row: Record)
    ensures var t := PostText(row); |t| > 0 && t[0] == Zwsp[0] && t[|t| - 1] == Zwsp[0]
  {
    PostTextAtLink(row);
    HeaderPrefixOfPost(row);
    HeaderText(row);
    PrefixChar(Join(HeaderParts(row)), PostText(row), 0);
  }

  /** The status follows the first marker and a space. */
  lemma PostTextStatus(row: Record)
    ensures var t := PostText(row);
      2 + |Text(row.status)| <= |t| && t[2..2 + |Text(row.status)|] == Text(row.status)
  {
    var h := Join(HeaderParts(row));
    HeaderPrefixOfPost(row);
    HeaderStatus(row);
    PrefixSlice(h, PostText(row), 2, 2 + |Text(row.status)|);
  }

  /** In the header statement the status starts after the marker and a space. */
  lemma HeaderStatus(row: Record)
    ensures var h, st := Join(HeaderParts(row)), Text(row.status);
      2 + |st| <= |h| && h[2..2 + |st|] == st
  {
    var h, st := Join(HeaderParts(row)), Text(row.status);
    HeaderText(row);
    assert h == (Zwsp + " ") + st + (" " + Zwsp + "\n");
  }

  /** The name appears in the post as it was given. */
  lemma PostTextName(row: Record)
    ensures Contains(PostText(row), Text(row.name))
  {
    var name := Text(row.name);
    var before := Join(HeaderParts(row)) + (Text(row.skip) + Zwsp + "\n");
    PhotosPrefixText(row);
    ContainsSelf(name);
    ContainsAppendRight(name, "\n\n", name);
    ContainsAppendLeft(before, name + "\n\n", name);
    ContainsAppendRight(before + (name + "\n\n"), "Фото ", name);
    PhotosPrefixOfPost(row);
    ContainsPrefix(Join(PartsBeforePhotos(row)), PostText(row), name);
  }

  /** The WhatsApp link appears in the post as it was given. */
  lemma PostTextLink(row: Record)
    ensures Contains(PostText(row), Text(row.whatsapp))
  {
    var wa := Text(row.whatsapp);
    ContainsSelf(wa);
    ContainsAppendLeft("<a href=\"", wa, wa);
    ContainsAppendRight("<a href=\"" + wa, "\">Связь в WhatsApp</a> ", wa);
    ContainsAppendLeft(Join(PartsBeforeLink(row)), LinkLine(row), wa);
    ContainsAppendRight(Join(PartsBeforeLink(row)) + LinkLine(row), Zwsp, wa);
    PostTextAtLink(row);
  }

  // ----------------------------------------------------------------------------------------
  // Corrected entity offsets

  /** Where each emoji's marker lies in the text: the running length plus whatever its own
      statement writes before it. */
  function MarkerOffset(row: Record, i: nat): nat
    requires i < 11
  {
    if i == 0 then 0
    else if i == 1 then 1 + |" " + Text(row.status) + " "|
    else if i == 2 then SumLens(HeaderParts(row)) + |Text(row.skip)|
    else if i < 8 then SumLens(PartsBeforePhotos(row) + PhotoRow(i - 3))
    else if i == 8 then SumLens(PartsBeforeCta(row))
    else if i == 9 then SumLens(PartsBeforeCta(row)) + 1 + |CtaText|
    else SumLens(PartsBeforeLink(row)) + |LinkLine(row)|
  }

  function MarkerEntity(row: Record, i: nat): Entity
    requires i < 11
  {
    Entity(MarkerOffset(row, i), 1, EmojiIds[EmojiOrder[i]])
  }

  /** The entities of the post, one per emoji in template order. */
  function MarkerEntities(row: Record): (es: seq<Entity>)
    ensures |es| == 11
  {
    seq(11, i requires 0 <= i < 11 => MarkerEntity(row, i))
  }

  /** Consecutive markers are at least one character apart. */
  lemma MarkerStep(row: Record, i: nat)
    requires i < 10
    ensures MarkerOffset(row, i) < MarkerOffset(row, i + 1)
  {
    if i == 1 {
      HeaderText(row);
    } else if i == 2 {
      PhotosPrefixText(row);
      PhotoPrefixText(row, 0);
    } else if 3 <= i < 7 {
      PhotoPrefixText(row, i - 3);
      PhotoPrefixText(row, i - 2);
    } else if i == 7 {
      PhotoPrefixText(row, 4);
      PhotoPrefixText(row, 5);
      CtaPrefix(row);
    } else if i == 9 {
      LinkPrefixText(row);
    }
  }

  /** Marker offsets are strictly increasing, so the 11 entities mark 11 distinct characters. */
  lemma {:induction false} MarkerOffsetsIncreasing(row: Record, i: nat, j: nat)
    requires i < j < 11
    ensures MarkerOffset(row, i) < MarkerOffset(row, j)
    decreases j - i
  {
    MarkerStep(row, j - 1);
    if i < j - 1 {
      MarkerOffsetsIncreasing(row, i, j - 1);
    }
  }

  /** The three header markers: before and after the status, and after the skip field. */
  lemma HeaderMarkers(row: Record, i: nat)
    requires i < 3
    ensures MarkerOffset(row, i) < |PostText(row)|
    ensures PostText(row)[MarkerOffset(row, i)] == Zwsp[0]
  {
    var h := Join(HeaderParts(row));
    HeaderText(row);
    if i < 2 {
      HeaderPrefixOfPost(row);
      PrefixChar(h, PostText(row), MarkerOffset(row, i));
    } else {
      var p := Join(PartsBeforePhotos(row));
      var skip := Text(row.skip);
      PhotosPrefixText(row);
      assert p[|h| + |skip|] == (skip + Zwsp + "\n")[|skip|];
      PhotosPrefixOfPost(row);
      PrefixChar(p, PostText(row), MarkerOffset(row, i));
    }
  }

  /** The five photo-row markers. */
  lemma PhotoMarkers(row: Record, i: nat)
    requires 3 <= i < 8
    ensures MarkerOffset(row, i) < |PostText(row)|
    ensures PostText(row)[MarkerOffset(row, i)] == Zwsp[0]
  {
    var x5 := Join(PartsBeforePhotos(row) + PhotoRow(5));
    PhotoMarkerInRow(row, i - 3);
    PhotoRowPrefixOfPost(row);
    PrefixChar(x5, PostText(row), MarkerOffset(row, i));
  }

  /** After the parts before the photo row, the marker of round `m` sits `2 * m` characters in. */
  lemma PhotoMarkerInRow(row: Record, m: nat)
    requires m < 5
    ensures var x5 := Join(PartsBeforePhotos(row) + PhotoRow(5));
      MarkerOffset(row, m + 3) < |x5| && x5[MarkerOffset(row, m + 3)] == Zwsp[0]
  {
    var p, photos := Join(PartsBeforePhotos(row)), Join(PhotoRow(5));
    PhotoPrefixText(row, 5);
    PhotoPrefixText(row, m);
    PhotoRowText(5);
    assert photos[2 * m] == Zwsp[0];
    assert MarkerOffset(row, m + 3) == |p| + 2 * m;
  }

  /** The two call-to-action markers and the link marker. */
  lemma TailMarkers(row: Record, i: nat)
    requires 8 <= i < 11
    ensures MarkerOffset(row, i) < |PostText(row)|
    ensures PostText(row)[MarkerOffset(row, i)] == Zwsp[0]
  {
    PostTextAtLink(row);
    if i < 10 {
      var l := Join(PartsBeforeLink(row));
      LinkPrefixText(row);
      LinkPrefixOfPost(row);
      PrefixChar(l, PostText(row), MarkerOffset(row, i));
    }
  }

  /** Every marker offset points at a marker character. */
  lemma MarkerOffsetsHitMarkers(row: Record, i: nat)
    requires i < 11
    ensures MarkerOffset(row, i) < |PostText(row)|
    ensures PostText(row)[MarkerOffset(row, i)] == Zwsp[0]
  {
    if i < 3 {
      HeaderMarkers(row, i);
    } else if i < 8 {
      PhotoMarkers(row, i);
    } else {
      TailMarkers(row, i);
    }
  }

  /** Both entity lists hold 11 entities of length 1 whose emoji ids follow the template
      order 1, 1, 2, 3, 4, 5, 6, 7, 8, 8, 9: they differ only in their offsets. */
  lemma EntitiesShape(row: Record)
    ensures forall i :: 0 <= i < 11 ==>
      AsWrittenEntities(row)[i].length == 1 && MarkerEntities(row)[i].length == 1 &&
      AsWrittenEntities(row)[i].documentId == MarkerEntities(row)[i].documentId == EmojiIds[EmojiOrder[i]]
  {
  }

  /** Exactly which as-written offsets miss their marker: the second header emoji, the
      second call-to-action emoji and the link emoji always, the skip-line emoji whenever
      the skip field is not empty. */
  lemma AsWrittenMisplaced(row: Record, i: nat)
    requires i < 11
    ensures AsWrittenOffset(row, i) == MarkerOffset(row, i) <==>
      i != 1 && i != 9 && i != 10 && (i == 2 ==> Text(row.skip) == "")
  {
  }

  /** `add_emoji` given the text its own statement has already produced before the marker. */
  method AddEmojiAfter(parts: seq<string>, pending: string, entities: seq<Entity>, num: int) returns (marker: string, entities': seq<Entity>)
    requires num in EmojiIds
    ensures marker == Zwsp
    ensures entities' == entities + [Entity(SumLens(parts) + |pending|, 1, EmojiIds[num])]
  {
    marker := Zwsp;
    entities' := entities + [Entity(SumLens(parts) + |pending|, 1, EmojiIds[num])];
  }

  lemma TakeSnoc(es: seq<Entity>, k: nat)
    requires k < |es|
    ensures es[..k] + [es[k]] == es[..k + 1]
  {
  }

  /** The entity the photo loop records in round `num` is the marker entity of that round. */
  lemma PhotoEntity(row: Record, num: nat)
    requires 3 <= num < 8
    ensures MarkerEntities(row)[num] ==
      Entity(SumLens(PartsBeforePhotos(row) + PhotoRow(num - 3)), 1, EmojiIds[num])
  {
  }

  /** The header statements of `build_post`, with each entity on its own marker. */
  method AnchoredHeader(row: Record) returns (parts: seq<string>, entities: seq<Entity>)
    ensures parts == PartsBeforePhotos(row)
    ensures entities == MarkerEntities(row)[..3]
  {
    parts := [];
    entities := [];
    var a, b;
    var status := " " + Text(row.status) + " ";
    a, entities := AddEmojiAfter(parts, "", entities, 1);
    b, entities := AddEmojiAfter(parts, a + status, entities, 1);
    parts := parts + [a, status, b, "\n"];
    assert parts == HeaderParts(row);
    var skip := Text(row.skip);
    a, entities := AddEmojiAfter(parts, skip, entities, 2);
    parts := parts + [skip + a + "\n"];
    parts := parts + [Text(row.name) + "\n\n"];
    parts := parts + ["Фото "];
  }

  /** The call-to-action and link statements of `build_post`, with each entity on its own marker. */
  method AnchoredClosing(row: Record, parts: seq<string>, entities: seq<Entity>)
    returns (parts': seq<string>, entities': seq<Entity>)
    requires parts == PartsBeforeCta(row)
    requires entities == MarkerEntities(row)[..8]
    ensures parts' == PostParts(row)
    ensures entities' == MarkerEntities(row)
  {
    var a, b;
    parts' := parts;
    a, entities' := AddEmojiAfter(parts', "", entities, 8);
    b, entities' := AddEmojiAfter(parts', a + CtaText, entities', 8);
    parts' := parts' + [a, CtaText, b, "\n"];
    var link := "<a href=\"" + Text(row.whatsapp) + "\">Связь в WhatsApp</a> ";
    a, entities' := AddEmojiAfter(parts', link, entities', 9);
    parts' := parts' + [link, a];
    assert entities' == MarkerEntities(row)[..11];
  }

  /** `build_post` with each entity anchored on its own marker: the same text, and the same
      emoji in the same order, each at the offset of its marker character. */
  method BuildPostAnchored(row: Record) returns (text: string, entities: seq<Entity>)
    ensures text == PostText(row)
    ensures entities == MarkerEntities(row)
  {
    var parts;
    parts, entities := AnchoredHeader(row);
    assert parts + PhotoRow(0) == parts;
    for num := 3 to 8
      invariant parts == PartsBeforePhotos(row) + PhotoRow(num - 3)
      invariant entities == MarkerEntities(row)[..num]
    {
      var a;
      a, entities := AddEmojiAfter(parts, "", entities, num);
      PhotoEntity(row, num);
      TakeSnoc(MarkerEntities(row), num);
      AppendAssoc(PartsBeforePhotos(row), PhotoRow(num - 3), [a, " "]);
      parts := parts + [a, " "];
    }
    parts := parts + ["\n\n"];
    parts := parts + ServiceParts(row);
    parts := parts + ParameterParts(row);
    parts := parts + PriceParts(row);
    parts, entities := AnchoredClosing(row, parts, entities);
    text := Join(parts);
  }

  // ----------------------------------------------------------------------------------------
  // Sending

  /** What `send_post` hands to the client: an album of photo URLs with the post as caption,
      or a plain message. */
  datatype Outgoing =
    | Album(media: seq<Value>, caption: string, entities: seq<Entity>)
    | Message(text: string, entities: seq<Entity>)

  /** `[row.get(k) for k in ("media1", ..., "media4") if row.get(k)]`. */
  function MediaUrls(row: Record): (urls: seq<Value>)
    ensures |urls| <= 4
    ensures forall u :: u in urls ==> Truthy(u)
    ensures urls == [] <==> !Truthy(row.media1) && !Truthy(row.media2) && !Truthy(row.media3) && !Truthy(row.media4)
    ensures forall u :: u in urls ==> u in [row.media1, row.media2, row.media3, row.media4]
    ensures forall u :: u in [row.media1, row.media2, row.media3, row.media4] && Truthy(u) ==> u in urls
    ensures Truthy(row.media1) ==> urls[0] == row.media1
  {
    (if Truthy(row.media1) then [row.media1] else [])
    + (if Truthy(row.media2) then [row.media2] else [])
    + (if Truthy(row.media3) then [row.media3] else [])
    + (if Truthy(row.media4) then [row.media4] else [])
  }

  /** The four media fields, in the order `send_post` reads them. */
  function MediaFields(row: Record): seq<Value>
  {
    [row.media1, row.media2, row.media3, row.media4]
  }

  /** 1 for a set field, 0 otherwise. */
  function SetCount(v: Value): nat
  {
    if Truthy(v) then 1 else 0
  }

  /** The set values of `fields`, in order: the comprehension's filter on any list. */
  function KeepSet(fields: seq<Value>): seq<Value>
  {
    if fields == [] then []
    else KeepSet(fields[..|fields| - 1]) + if Truthy(fields[|fields| - 1]) then [fields[|fields| - 1]] else []
  }

  /** The positions of the set values of `fields`, in order. */
  function SetPositions(fields: seq<Value>): seq<int>
  {
    if fields == [] then []
    else SetPositions(fields[..|fields| - 1]) + if Truthy(fields[|fields| - 1]) then [|fields| - 1] else []
  }

  /** The filter picks the set values at strictly increasing positions and misses none. */
  lemma {:induction false} KeepSetPicks(fields: seq<Value>)
    ensures var ks := SetPositions(fields);
      && |ks| == |KeepSet(fields)|
      && (forall k :: 0 <= k < |ks| ==> 0 <= ks[k] < |fields| && KeepSet(fields)[k] == fields[ks[k]])
      && (forall a, b :: 0 <= a < b < |ks| ==> ks[a] < ks[b])
      && (forall p :: 0 <= p < |fields| && Truthy(fields[p]) ==> p in ks)
  {
    if fields != [] {
      var front := fields[..|fields| - 1];
      KeepSetPicks(front);
      var ks, fk := SetPositions(fields), SetPositions(front);
      assert ks[..|fk|] == fk;
      assert forall k :: 0 <= k < |fk| ==> ks[k] == fk[k] && KeepSet(fields)[k] == KeepSet(front)[k];
      assert forall p :: 0 <= p < |front| ==> front[p] == fields[p];
    }
  }

  /** The media list is the filter applied to the four media fields. */
  lemma MediaUrlsKeepSet(row: Record)
    ensures MediaUrls(row) == KeepSet(MediaFields(row))
  {
    var f := MediaFields(row);
    var f1, f2, f3 := [row.media1], [row.media1, row.media2], [row.media1, row.media2, row.media3];
    assert f1[..0] == [] && f2[..1] == f1 && f3[..2] == f2 && f[..3] == f3;
    assert KeepSet(f1) == if Truthy(row.media1) then [row.media1] else [];
    assert KeepSet(f2) == KeepSet(f1) + if Truthy(row.media2) then [row.media2] else [];
    assert KeepSet(f3) == KeepSet(f2) + if Truthy(row.media3) then [row.media3] else [];
    assert KeepSet(f) == KeepSet(f3) + if Truthy(row.media4) then [row.media4] else [];
  }

  /** The media list keeps every set field, duplicates included, in field order: it has one
      URL per set field, and it is those fields picked at strictly increasing positions. */
  lemma MediaUrlsInFieldOrder(row: Record)
    ensures |MediaUrls(row)| == SetCount(row.media1) + SetCount(row.media2) + SetCount(row.media3) + SetCount(row.media4)
    ensures exists ks: seq<int> ::
      && |ks| == |MediaUrls(row)|
      && (forall k :: 0 <= k < |ks| ==> 0 <= ks[k] < 4 && MediaUrls(row)[k] == MediaFields(row)[ks[k]])
      && (forall a, b :: 0 <= a < b < |ks| ==> ks[a] < ks[b])
      && (forall p :: 0 <= p < 4 && Truthy(MediaFields(row)[p]) ==> p in ks)
  {
    MediaUrlsKeepSet(row);
    KeepSetPicks(MediaFields(row));
    var ks := SetPositions(MediaFields(row));
    assert |ks| == |MediaUrls(row)|;
  }

  /** `send_post(acc, row)`: an album exactly when some media field is set, else a message;
      either way carrying the composed post and the entities `build_post` computed. */
  method SendPost(row: Record) returns (out: Outgoing)
    ensures out.Album? <==> MediaUrls(row) != []
    ensures out.Album? ==> out.media == MediaUrls(row) && out.caption == PostText(row)
    ensures out.Message? ==> out.text == PostText(row)
    ensures out.entities == AsWrittenEntities(row)
  {
    var text, entities := BuildPost(row);
    out := Dispatch(row, text, entities);
  }

  /** `send_post` with the corrected entities of `BuildPostAnchored`, each on its marker. */
  method SendPostAnchored(row: Record) returns (out: Outgoing)
    ensures out.Album? <==> MediaUrls(row) != []
    ensures out.Album? ==> out.media == MediaUrls(row) && out.caption == PostText(row)
    ensures out.Message? ==> out.text == PostText(row)
    ensures |out.entities| == 11 && forall i :: 0 <= i < 11 ==> out.entities[i] == MarkerEntity(row, i)
  {
    var text, entities := BuildPostAnchored(row);
    out := Dispatch(row, text, entities);
  }

  /** The branch of `send_post` on the media fields, for an already composed post. */
  method Dispatch(row: Record, text: string, entities: seq<Entity>) returns (out: Outgoing)
    ensures out.Album? <==> MediaUrls(row) != []
    ensures out.Album? ==> out.media == MediaUrls(row) && out.caption == text
    ensures out.Message? ==> out.text == text
    ensures out.entities == entities
  {
    var media := MediaUrls(row);
    if media != [] {
      out := Album(media, text, entities);
    } else {
      out := Message(text, entities);
    }
  }
}

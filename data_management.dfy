/** The data-changing commands up to the SQL they run: URL-decoding of the
    submitted values, key validation, the column and placeholder lists of
    `create`, the SET list of `update`, and the argument modes of
    `bulk-reassign`. */
module DataManagement {
  import opened Wrappers
  import opened Text
  import opened JsonValue
  import opened Models
  import Encoding
  import Easing

  /** A JSON object's entries in iteration order. */
  type Entries = seq<(string, Json)>

  /** The value stored under `key`, if any. */
  function Lookup(data: Entries, key: string): (r: Option<Json>)
    ensures r.Some? <==> key in Firsts(data)
    ensures r.Some? ==> exists i :: 0 <= i < |data| && data[i] == (key, r.value)
  {
    if data == [] then None
    else if data[0].0 == key then
      assert Firsts(data)[0] == key;
      Some(data[0].1)
    else
      var r := Lookup(data[1..], key);
      assert Firsts(data) == [data[0].0] + Firsts(data[1..]);
      if r.Some? then
        var i :| 0 <= i < |data[1..]| && data[1..][i] == (key, r.value);
        assert data[i + 1] == (key, r.value);
        r
      else r
  }

  /** A string value under `key`, if there is one. */
  function LookupStr(data: Entries, key: string): Option<string> {
    match Lookup(data, key)
    case Some(JStr(s)) => Some(s)
    case _ => None
  }

  // ---------------------------------------------------------------------
  // url_decode_map_values
  // ---------------------------------------------------------------------

  /** One value after decoding: strings are URL-decoded, the rest kept. */
  function DecodeValue(key: string, v: Json): (r: Result<Json, AppError>)
    ensures !v.JStr? ==> r == Ok(v)
    ensures v.JStr? && r.Ok? ==> r.value.JStr? && Encoding.Decoded(v.s) == Ok(r.value.s)
  {
    match v
    case JStr(s) =>
      (match Encoding.Decoded(s)
       case Err(e) => Err(InvalidParameter("URL decoding error for field '" + key + "': " + e))
       case Ok(d) => Ok(JStr(d)))
    case _ => Ok(v)
  }

  function ConsEntry(e: (string, Json), r: Result<Entries, AppError>): Result<Entries, AppError> {
    match r
    case Err(err) => Err(err)
    case Ok(es) => Ok([e] + es)
  }

  /** The decoded entries; the first value that fails to decode decides the error. */
  function DecodedEntries(data: Entries): Result<Entries, AppError> {
    if data == [] then Ok([])
    else
      match DecodeValue(data[0].0, data[0].1)
      case Err(e) => Err(e)
      case Ok(v) => ConsEntry((data[0].0, v), DecodedEntries(data[1..]))
  }

  /** Decoding keeps every key in place and changes only string values, each
      to its URL-decoding; it succeeds exactly when every string decodes. */
  lemma {:induction false} DecodedEntriesOk(data: Entries)
    ensures DecodedEntries(data).Ok? <==>
              forall i :: 0 <= i < |data| ==> DecodeValue(data[i].0, data[i].1).Ok?
    ensures DecodedEntries(data).Ok? ==>
              var out := DecodedEntries(data).value;
              |out| == |data|
              && forall i :: 0 <= i < |data| ==>
                   out[i].0 == data[i].0 && out[i].1 == DecodeValue(data[i].0, data[i].1).value
  {
    if data != [] {
      var rest := data[1..];
      DecodedEntriesOk(rest);
      assert forall i :: 1 <= i < |data| ==> data[i] == rest[i - 1];
    }
  }

  lemma {:induction false} DecodedEntriesFirstError(data: Entries, k: nat)
    requires k < |data| && DecodeValue(data[k].0, data[k].1).Err?
    requires forall i :: 0 <= i < k ==> DecodeValue(data[i].0, data[i].1).Ok?
    ensures DecodedEntries(data) == Err(DecodeValue(data[k].0, data[k].1).error)
  {
    if k > 0 {
      var rest := data[1..];
      assert forall i :: 0 <= i < k - 1 ==> rest[i] == data[i + 1];
      DecodedEntriesFirstError(rest, k - 1);
    }
  }

  /** On a parsed JSON object, whose keys are unique and ascending, the error
      is that of the undecodable value with the smallest key. */
  lemma DecodedEntriesSmallestError(data: Entries, k: nat)
    requires SortedKeys(data) && k < |data| && DecodeValue(data[k].0, data[k].1).Err?
    requires forall j :: 0 <= j < |data| && DecodeValue(data[j].0, data[j].1).Err? ==>
               j == k || LexLess(data[k].0, data[j].0)
    ensures DecodedEntries(data) == Err(DecodeValue(data[k].0, data[k].1).error)
  {
    forall i | 0 <= i < k
      ensures DecodeValue(data[i].0, data[i].1).Ok?
    {
      SortedKeysBefore(data, i, k);
    }
    DecodedEntriesFirstError(data, k);
  }

  /** Entries whose strings hold no `%` come through unchanged. */
  lemma {:induction false} PlainEntriesUnchanged(data: Entries)
    requires forall i :: 0 <= i < |data| ==> data[i].1.JStr? ==> '%' !in data[i].1.s
    ensures DecodedEntries(data) == Ok(data)
  {
    if data != [] {
      if data[0].1.JStr? {
        Encoding.NoPercentDecodesToItself(data[0].1.s);
      }
      PlainEntriesUnchanged(data[1..]);
      assert [data[0]] + data[1..] == data;
    }
  }

  function PrefixEntries(acc: Entries, r: Result<Entries, AppError>): Result<Entries, AppError> {
    match r
    case Err(e) => Err(e)
    case Ok(es) => Ok(acc + es)
  }

  /** `url_decode_map_values`: rewrites every string value, stopping at the
      first one that does not decode. */
  method UrlDecodeMapValues(data: Entries) returns (r: Result<Entries, AppError>)
    ensures r == DecodedEntries(data)
  {
    var out: Entries := [];
    assert data[0..] == data;
    assert PrefixEntries([], DecodedEntries(data)) == DecodedEntries(data) by {
      if DecodedEntries(data).Ok? {
        assert [] + DecodedEntries(data).value == DecodedEntries(data).value;
      }
    }
    for i := 0 to |data|
      invariant DecodedEntries(data) == PrefixEntries(out, DecodedEntries(data[i..]))
    {
      var (key, val) := data[i];
      assert data[i..][1..] == data[i + 1..];
      var v := DecodeValue(key, val);
      if v.Err? {
        return Err(v.error);
      }
      var tail := DecodedEntries(data[i + 1..]);
      if tail.Ok? {
        assert out + ([(key, v.value)] + tail.value) == (out + [(key, v.value)]) + tail.value;
      }
      out := out + [(key, v.value)];
    }
    assert data[|data|..] == [];
    assert out + [] == out;
    return Ok(out);
  }

  // ---------------------------------------------------------------------
  // Key validation
  // ---------------------------------------------------------------------

  function KeyError(op: string, table: string, key: string, allowed: seq<string>): AppError {
    InvalidParameter("Invalid field for " + op + " " + table + ": " + key + ". Allowed: " + Join(allowed, ", "))
  }

  /** Every key must be allowed; the first one that is not is named. */
  function KeysCheck(op: string, table: string, data: Entries, allowed: seq<string>)
    : (r: Result<(), AppError>)
    ensures r.Ok? <==> forall i :: 0 <= i < |data| ==> data[i].0 in allowed
  {
    match FirstInvalid(Firsts(data), allowed)
    case None => Ok(())
    case Some(k) => Err(KeyError(op, table, data[k].0, allowed))
  }

  /** On a parsed JSON object the key named is the smallest one outside the
      allow-list. */
  lemma KeysCheckSmallest(op: string, table: string, data: Entries, allowed: seq<string>, k: nat)
    requires SortedKeys(data) && k < |data| && data[k].0 !in allowed
    requires forall j :: 0 <= j < |data| && data[j].0 !in allowed ==> j == k || LexLess(data[k].0, data[j].0)
    ensures KeysCheck(op, table, data, allowed) == Err(KeyError(op, table, data[k].0, allowed))
  {
    forall i | 0 <= i < k
      ensures data[i].0 in allowed
    {
      SortedKeysBefore(data, i, k);
    }
    assert Firsts(data)[k] !in allowed;
  }

  /** The key loop of `cmd_create` and `cmd_update`. */
  method CheckKeys(op: string, table: string, data: Entries, allowed: seq<string>)
    returns (r: Result<(), AppError>)
    ensures r == KeysCheck(op, table, data, allowed)
  {
    for i := 0 to |data|
      invariant forall j :: 0 <= j < i ==> data[j].0 in allowed
    {
      if data[i].0 !in allowed {
        assert FirstInvalid(Firsts(data), allowed) == Some(i);
        return Err(KeyError(op, table, data[i].0, allowed));
      }
    }
    return Ok(());
  }

  // ---------------------------------------------------------------------
  // Column lists
  // ---------------------------------------------------------------------

  /** A value bound to a placeholder. Converting JSON values to SQL values is
      not part of this model. */
  datatype SqlValue = SqlText(s: string) | SqlInt(i: int) | SqlJson(v: Json)

  type Pairs = seq<(string, SqlValue)>

  function Seconds(ps: Pairs): (vs: seq<SqlValue>)
    ensures |vs| == |ps|
    ensures forall i :: 0 <= i < |ps| ==> vs[i] == ps[i].1
  {
    seq(|ps|, i requires 0 <= i < |ps| => ps[i].1)
  }

  /** `?from`, `?from+1`, …: `n` numbered placeholders. */
  function Placeholders(from: nat, n: nat): (ph: seq<string>)
    ensures |ph| == n
    ensures forall i :: 0 <= i < n ==> ph[i] == "?" + NatToString(from + i)
  {
    seq(n, i requires 0 <= i < n => "?" + NatToString(from + i))
  }

  /** The value paired with the first column named `c`. */
  function PairValue(ps: Pairs, c: string): Option<SqlValue> {
    if ps == [] then None
    else if ps[0].0 == c then Some(ps[0].1)
    else PairValue(ps[1..], c)
  }

  /** The allowed keys the data holds, in allowed-list order, with their values. */
  function DataPairs(allowed: seq<string>, data: Entries): (ps: Pairs)
    ensures forall i :: 0 <= i < |ps| ==> ps[i].0 in allowed && ps[i].0 in Firsts(data)
  {
    if allowed == [] then []
    else
      var init := allowed[..|allowed| - 1];
      var key := allowed[|allowed| - 1];
      var ps := DataPairs(init, data);
      match Lookup(data, key)
      case Some(v) => ps + [(key, SqlJson(v))]
      case None => ps
  }

  /** An allowed key's pair carries the data's value for it. */
  lemma {:induction false} DataPairsValue(allowed: seq<string>, data: Entries, k: string)
    ensures PairValue(DataPairs(allowed, data), k)
            == if k in allowed && Lookup(data, k).Some? then Some(SqlJson(Lookup(data, k).value)) else None
  {
    if allowed != [] {
      var init := allowed[..|allowed| - 1];
      var key := allowed[|allowed| - 1];
      DataPairsValue(init, data, k);
      assert allowed == init + [key];
      if Lookup(data, key).Some? {
        PairValueAppend(DataPairs(init, data), key, SqlJson(Lookup(data, key).value), k);
      }
    }
  }

  lemma PairValueAppend(ps: Pairs, c: string, v: SqlValue, k: string)
    ensures PairValue(ps + [(c, v)], k)
            == if PairValue(ps, k).Some? then PairValue(ps, k)
               else if c == k then Some(v) else None
  {
    if ps != [] {
      assert (ps + [(c, v)])[1..] == ps[1..] + [(c, v)];
      PairValueAppend(ps[1..], c, v, k);
    }
  }

  lemma PairValueSome(ps: Pairs, k: string)
    ensures PairValue(ps, k).Some? <==> k in Firsts(ps)
  {
    if ps != [] {
      PairValueSome(ps[1..], k);
      assert Firsts(ps) == [ps[0].0] + Firsts(ps[1..]);
    }
  }

  /** Appends column `c` unless one of that name is already present. */
  function AddIfAbsent(ps: Pairs, c: string, v: SqlValue): (r: Pairs)
    ensures |r| >= |ps| && r[..|ps|] == ps
    ensures PairValue(r, c).Some?
  {
    PairValueSome(ps, c);
    if c in Firsts(ps) then
      assert ps[..|ps|] == ps;
      ps
    else
      PairValueAppend(ps, c, v, c);
      assert (ps + [(c, v)])[..|ps|] == ps;
      ps + [(c, v)]
  }

  /** The value column `k` has after AddIfAbsent: the one already there, else
      `v` when `k` is the column added. */
  lemma AddIfAbsentValue(ps: Pairs, c: string, v: SqlValue, k: string)
    ensures PairValue(AddIfAbsent(ps, c, v), k)
            == if PairValue(ps, k).Some? then PairValue(ps, k)
               else if c == k then Some(v) else None
  {
    PairValueSome(ps, c);
    if c !in Firsts(ps) {
      PairValueAppend(ps, c, v, k);
    }
  }

  /** The tables with an `updated_at` column. */
  const TIMESTAMPED: seq<string> := ["artist", "show", "song", "learning"]

  /** The stored path of a new learning record that names none. */
  function DefaultPathJson(): string {
    Easing.GenerateLevelUpPathJson(Easing.MAX_LEVEL)
  }

  /** `created_at`, and `updated_at` where the table has it, unless the data set them. */
  function Stamped(table: string, ps: Pairs, now: int): Pairs {
    var p := AddIfAbsent(ps, "created_at", SqlInt(now));
    if table in TIMESTAMPED then AddIfAbsent(p, "updated_at", SqlInt(now)) else p
  }

  /** The four learning columns a new record gets unless the data set them. */
  function WithLearningDefaults(ps: Pairs): Pairs {
    var p1 := AddIfAbsent(ps, "level", SqlInt(0));
    var p2 := AddIfAbsent(p1, "last_level_up_at", SqlInt(0));
    var p3 := AddIfAbsent(p2, "graduated", SqlInt(0));
    AddIfAbsent(p3, "level_up_path", SqlText(DefaultPathJson()))
  }

  /** The insert of `cmd_create` for a table with an `id` column, as
      column/value pairs in push order. */
  function CreatePairs(table: string, allowed: seq<string>, data: Entries, id: string, now: int): Pairs {
    var st := Stamped(table, [("id", SqlText(id))] + DataPairs(allowed, data), now);
    if table == "learning" then WithLearningDefaults(st) else st
  }

  /** The value `cmd_create` gives column `k` when the data does not: the
      timestamps, and for learning records the starting state. */
  function AutoValue(table: string, now: int, k: string): Option<SqlValue> {
    if k == "created_at" || (k == "updated_at" && table in TIMESTAMPED) then Some(SqlInt(now))
    else if table == "learning" && (k == "level" || k == "last_level_up_at" || k == "graduated") then Some(SqlInt(0))
    else if table == "learning" && k == "level_up_path" then Some(SqlText(DefaultPathJson()))
    else None
  }

  /** The pushes of `cmd_create`: `id` first, then the allowed keys present,
      then the timestamps and learning defaults not yet present, numbering
      placeholders as it goes. */
  method BuildInsert(table: string, allowed: seq<string>, data: Entries, id: string, now: int)
    returns (columns: seq<string>, placeholders: seq<string>, values: seq<SqlValue>)
    ensures columns == Firsts(CreatePairs(table, allowed, data, id, now))
    ensures placeholders == Placeholders(1, |columns|)
    ensures values == Seconds(CreatePairs(table, allowed, data, id, now))
  {
    ghost var ps: Pairs := [("id", SqlText(id))];
    columns, placeholders, values := ["id"], ["?1"], [SqlText(id)];
    assert NatToString(1) == "1";
    assert placeholders[0] == Placeholders(1, 1)[0];
    assert allowed[..0] == [];
    var idx := 2;
    for k := 0 to |allowed|
      invariant ps == [("id", SqlText(id))] + DataPairs(allowed[..k], data)
      invariant columns == Firsts(ps) && values == Seconds(ps)
      invariant placeholders == Placeholders(1, |ps|) && idx == |ps| + 1
    {
      assert allowed[..k + 1][..k] == allowed[..k];
      var key := allowed[k];
      var val := Lookup(data, key);
      if val.Some? {
        AppendStep(ps, columns, placeholders, values, idx, key, SqlJson(val.value));
        columns := columns + [key];
        placeholders := placeholders + ["?" + NatToString(idx)];
        values := values + [SqlJson(val.value)];
        idx := idx + 1;
        ps := ps + [(key, SqlJson(val.value))];
      }
    }
    assert allowed[..|allowed|] == allowed;
    columns, placeholders, values, idx := AddColumn(ps, columns, placeholders, values, idx, "created_at", SqlInt(now));
    ps := AddIfAbsent(ps, "created_at", SqlInt(now));
    if table in TIMESTAMPED {
      columns, placeholders, values, idx := AddColumn(ps, columns, placeholders, values, idx, "updated_at", SqlInt(now));
      ps := AddIfAbsent(ps, "updated_at", SqlInt(now));
    }
    if table == "learning" {
      columns, placeholders, values, idx := AddColumn(ps, columns, placeholders, values, idx, "level", SqlInt(0));
      ps := AddIfAbsent(ps, "level", SqlInt(0));
      columns, placeholders, values, idx :=
        AddColumn(ps, columns, placeholders, values, idx, "last_level_up_at", SqlInt(0));
      ps := AddIfAbsent(ps, "last_level_up_at", SqlInt(0));
      columns, placeholders, values, idx := AddColumn(ps, columns, placeholders, values, idx, "graduated", SqlInt(0));
      ps := AddIfAbsent(ps, "graduated", SqlInt(0));
      columns, placeholders, values, idx :=
        AddColumn(ps, columns, placeholders, values, idx, "level_up_path", SqlText(DefaultPathJson()));
      ps := AddIfAbsent(ps, "level_up_path", SqlText(DefaultPathJson()));
    }
  }

  /** One unconditional push of a column and its numbered placeholder. */
  lemma AppendStep(ps: Pairs, columns: seq<string>, placeholders: seq<string>, values: seq<SqlValue>,
                   idx: nat, c: string, v: SqlValue)
    requires columns == Firsts(ps) && values == Seconds(ps)
    requires placeholders == Placeholders(1, |ps|) && idx == |ps| + 1
    ensures columns + [c] == Firsts(ps + [(c, v)]) && values + [v] == Seconds(ps + [(c, v)])
    ensures placeholders + ["?" + NatToString(idx)] == Placeholders(1, |ps| + 1)
  {
  }

  /** One `if !columns.contains(c)` push. */
  method AddColumn(ghost ps: Pairs, columns: seq<string>, placeholders: seq<string>, values: seq<SqlValue>,
                   idx: nat, c: string, v: SqlValue)
    returns (columns': seq<string>, placeholders': seq<string>, values': seq<SqlValue>, idx': nat)
    requires columns == Firsts(ps) && values == Seconds(ps)
    requires placeholders == Placeholders(1, |ps|) && idx == |ps| + 1
    ensures var ps' := AddIfAbsent(ps, c, v);
      columns' == Firsts(ps') && values' == Seconds(ps')
      && placeholders' == Placeholders(1, |ps'|) && idx' == |ps'| + 1
  {
    if c in columns {
      return columns, placeholders, values, idx;
    }
    AppendStep(ps, columns, placeholders, values, idx, c, v);
    return columns + [c], placeholders + ["?" + NatToString(idx)], values + [v], idx + 1;
  }

  /** The result of `cmd_create` before the insert runs. */
  datatype CreatePlan =
    | Insert(table: string, columns: seq<string>, placeholders: seq<string>, values: seq<SqlValue>, id: string)
    | LinkInsert(showId: string, songId: string, mediaUrl: string, createdAt: int, id: string)

  /** `cmd_create` as a value. `id` is the fresh identifier the new row gets
      and `now` the current time. */
  function CreateSpec(table: string, data: Entries, id: string, now: int): (r: Result<CreatePlan, AppError>)
    ensures table !in CREATE_TABLES ==> r == Err(ValidateTable(table, CREATE_TABLES).error)
    ensures r.Ok? ==> table in CREATE_TABLES && DecodedEntries(data).Ok?
                      && forall i :: 0 <= i < |data| ==> data[i].0 in CreateDataFields(table).value
    ensures r.Ok? ==> (r.value.LinkInsert? <==> table == "rel_show_song")
  {
    if table !in CREATE_TABLES then Err(ValidateTable(table, CREATE_TABLES).error)
    else
      match DecodedEntries(data)
      case Err(e) => Err(e)
      case Ok(d) =>
        DecodedEntriesOk(data);
        var allowed := CreateDataFields(table).value;
        match KeysCheck("create", table, d, allowed)
        case Err(e) => Err(e)
        case Ok(_) =>
          if table == "rel_show_song" then LinkPlan(d, now)
          else
            var ps := CreatePairs(table, allowed, d, id, now);
            Ok(Insert(table, Firsts(ps), Placeholders(1, |ps|), Seconds(ps), id))
  }

  /** A link row needs both ids as strings, defaults its URL to "", and is
      identified by `show_id:song_id`. */
  function LinkPlan(d: Entries, now: int): (r: Result<CreatePlan, AppError>)
    ensures LookupStr(d, "show_id").None? ==> r == Err(InvalidParameter("show_id is required"))
    ensures LookupStr(d, "show_id").Some? && LookupStr(d, "song_id").None? ==>
              r == Err(InvalidParameter("song_id is required"))
    ensures r.Ok? <==> LookupStr(d, "show_id").Some? && LookupStr(d, "song_id").Some?
    ensures r.Ok? ==> r.value.LinkInsert?
                      && r.value.id == r.value.showId + ":" + r.value.songId
                      && r.value.showId == LookupStr(d, "show_id").value
                      && r.value.songId == LookupStr(d, "song_id").value
                      && r.value.mediaUrl == LookupStr(d, "media_url").GetOr("")
                      && r.value.createdAt == now
  {
    match LookupStr(d, "show_id")
    case None => Err(InvalidParameter("show_id is required"))
    case Some(show) =>
      match LookupStr(d, "song_id")
      case None => Err(InvalidParameter("song_id is required"))
      case Some(song) =>
        var media := LookupStr(d, "media_url").GetOr("");
        Ok(LinkInsert(show, song, media, now, show + ":" + song))
  }

  /** `cmd_create` up to the insert. */
  method Create(table: string, data: Entries, id: string, now: int) returns (r: Result<CreatePlan, AppError>)
    ensures r == CreateSpec(table, data, id, now)
  {
    var ok := ValidateTable(table, CREATE_TABLES);
    if ok.Err? {
      return Err(ok.error);
    }
    var decoded := UrlDecodeMapValues(data);
    if decoded.Err? {
      return Err(decoded.error);
    }
    var d := decoded.value;
    var allowed := CreateDataFields(table).value;
    var keys := CheckKeys("create", table, d, allowed);
    if keys.Err? {
      return Err(keys.error);
    }
    if table == "rel_show_song" {
      var show := LookupStr(d, "show_id");
      if show.None? {
        return Err(InvalidParameter("show_id is required"));
      }
      var song := LookupStr(d, "song_id");
      if song.None? {
        return Err(InvalidParameter("song_id is required"));
      }
      var media := LookupStr(d, "media_url").GetOr("");
      return Ok(LinkInsert(show.value, song.value, media, now, show.value + ":" + song.value));
    }
    var columns, placeholders, values := BuildInsert(table, allowed, d, id, now);
    return Ok(Insert(table, columns, placeholders, values, id));
  }

  // ---------------------------------------------------------------------
  // Properties of create
  // ---------------------------------------------------------------------

  lemma StampedValue(table: string, ps: Pairs, now: int, k: string)
    ensures PairValue(Stamped(table, ps, now), k)
            == if PairValue(ps, k).Some? then PairValue(ps, k)
               else if k == "created_at" || (k == "updated_at" && table in TIMESTAMPED) then Some(SqlInt(now))
               else None
  {
    var p := AddIfAbsent(ps, "created_at", SqlInt(now));
    AddIfAbsentValue(ps, "created_at", SqlInt(now), k);
    if table in TIMESTAMPED {
      AddIfAbsentValue(p, "updated_at", SqlInt(now), k);
    }
  }

  lemma LearningDefaultsValue(ps: Pairs, k: string)
    ensures PairValue(WithLearningDefaults(ps), k)
            == if PairValue(ps, k).Some? then PairValue(ps, k)
               else if k == "level" || k == "last_level_up_at" || k == "graduated" then Some(SqlInt(0))
               else if k == "level_up_path" then Some(SqlText(DefaultPathJson()))
               else None
  {
    var p1 := AddIfAbsent(ps, "level", SqlInt(0));
    var p2 := AddIfAbsent(p1, "last_level_up_at", SqlInt(0));
    var p3 := AddIfAbsent(p2, "graduated", SqlInt(0));
    AddIfAbsentValue(ps, "level", SqlInt(0), k);
    AddIfAbsentValue(p1, "last_level_up_at", SqlInt(0), k);
    AddIfAbsentValue(p2, "graduated", SqlInt(0), k);
    AddIfAbsentValue(p3, "level_up_path", SqlText(DefaultPathJson()), k);
  }

  /** The value column `k` gets in the insert: the submitted one when the
      data holds it and it is allowed, else the automatic one. */
  lemma CreateValue(table: string, allowed: seq<string>, data: Entries, id: string, now: int, k: string)
    requires k != "id"
    ensures PairValue(CreatePairs(table, allowed, data, id, now), k)
            == if k in allowed && Lookup(data, k).Some? then Some(SqlJson(Lookup(data, k).value))
               else AutoValue(table, now, k)
  {
    var dp := DataPairs(allowed, data);
    var p0 := [("id", SqlText(id))] + dp;
    assert p0[1..] == dp;
    assert PairValue(p0, k) == PairValue(dp, k);
    DataPairsValue(allowed, data, k);
    StampedValue(table, p0, now, k);
    if table == "learning" {
      LearningDefaultsValue(Stamped(table, p0, now), k);
    }
  }

  lemma PrefixTrans(a: Pairs, b: Pairs, c: Pairs)
    requires |b| >= |a| && b[..|a|] == a && |c| >= |b| && c[..|b|] == b
    ensures |c| >= |a| && c[..|a|] == a
  {
    assert c[..|a|] == c[..|b|][..|a|];
  }

  lemma StampedPrefix(table: string, ps: Pairs, now: int)
    ensures var st := Stamped(table, ps, now); |st| >= |ps| && st[..|ps|] == ps
  {
    var p1 := AddIfAbsent(ps, "created_at", SqlInt(now));
    if table in TIMESTAMPED {
      PrefixTrans(ps, p1, AddIfAbsent(p1, "updated_at", SqlInt(now)));
    }
  }

  lemma LearningDefaultsPrefix(ps: Pairs)
    ensures var q := WithLearningDefaults(ps); |q| >= |ps| && q[..|ps|] == ps
  {
    var q1 := AddIfAbsent(ps, "level", SqlInt(0));
    var q2 := AddIfAbsent(q1, "last_level_up_at", SqlInt(0));
    var q3 := AddIfAbsent(q2, "graduated", SqlInt(0));
    var q4 := AddIfAbsent(q3, "level_up_path", SqlText(DefaultPathJson()));
    PrefixTrans(ps, q1, q2);
    PrefixTrans(ps, q2, q3);
    PrefixTrans(ps, q3, q4);
  }

  /** The insert keeps `id` and the data's pairs first, in order. */
  lemma CreatePrefix(table: string, allowed: seq<string>, data: Entries, id: string, now: int)
    ensures var p0 := [("id", SqlText(id))] + DataPairs(allowed, data);
      var ps := CreatePairs(table, allowed, data, id, now);
      |ps| >= |p0| && ps[..|p0|] == p0
  {
    var p0 := [("id", SqlText(id))] + DataPairs(allowed, data);
    var st := Stamped(table, p0, now);
    StampedPrefix(table, p0, now);
    if table == "learning" {
      LearningDefaultsPrefix(st);
      PrefixTrans(p0, st, WithLearningDefaults(st));
    }
  }

  /** The insert starts with `id`, always stamps `created_at`, and stamps
      `updated_at` exactly for the tables that have one. */
  lemma CreateTimestamps(table: string, data: Entries, id: string, now: int)
    requires table in CREATE_TABLES && table != "rel_show_song"
    ensures var ps := CreatePairs(table, CreateDataFields(table).value, data, id, now);
      ps[0] == ("id", SqlText(id))
      && PairValue(ps, "created_at") == Some(SqlInt(now))
      && (PairValue(ps, "updated_at").Some? <==> table in TIMESTAMPED)
      && (table in TIMESTAMPED ==> PairValue(ps, "updated_at") == Some(SqlInt(now)))
  {
    var allowed := CreateDataFields(table).value;
    var p0 := [("id", SqlText(id))] + DataPairs(allowed, data);
    CreatePrefix(table, allowed, data, id, now);
    assert p0[0] == ("id", SqlText(id));
    CreateValue(table, allowed, data, id, now, "created_at");
    CreateValue(table, allowed, data, id, now, "updated_at");
  }

  lemma LearningCounterDefault(table: string, allowed: seq<string>, data: Entries, id: string, now: int, k: string)
    requires table == "learning"
    requires k in ["level", "last_level_up_at", "graduated"] && k !in allowed
    ensures PairValue(CreatePairs(table, allowed, data, id, now), k) == Some(SqlInt(0))
  {
    CounterAutoValue(now, k);
    CreateValue(table, allowed, data, id, now, k);
  }

  lemma CounterAutoValue(now: int, k: string)
    requires k == "level" || k == "last_level_up_at" || k == "graduated"
    ensures AutoValue("learning", now, k) == Some(SqlInt(0))
  {
    assert k != "created_at" && k != "updated_at";
  }

  lemma LearningPathDefault(table: string, allowed: seq<string>, data: Entries, id: string, now: int)
    requires table == "learning"
    ensures PairValue(CreatePairs(table, allowed, data, id, now), "level_up_path")
            == if "level_up_path" in allowed && Lookup(data, "level_up_path").Some?
               then Some(SqlJson(Lookup(data, "level_up_path").value))
               else Some(SqlText(DefaultPathJson()))
  {
    var dp := DataPairs(allowed, data);
    var p0 := [("id", SqlText(id))] + dp;
    assert p0[1..] == dp;
    DataPairsValue(allowed, data, "level_up_path");
    StampedValue(table, p0, now, "level_up_path");
    LearningDefaultsValue(Stamped(table, p0, now), "level_up_path");
  }

  /** A new learning record starts at level 0, never levelled up and not
      graduated, whatever the data says. */
  lemma LearningCreateDefaults(table: string, data: Entries, id: string, now: int)
    requires table == "learning"
    ensures var ps := CreatePairs(table, CreateDataFields(table).value, data, id, now);
      PairValue(ps, "level") == Some(SqlInt(0))
      && PairValue(ps, "last_level_up_at") == Some(SqlInt(0))
      && PairValue(ps, "graduated") == Some(SqlInt(0))
  {
    LearningFieldLists();
    var allowed := CreateDataFields(table).value;
    assert "level" !in allowed && "last_level_up_at" !in allowed && "graduated" !in allowed;
    LearningCounterDefault(table, allowed, data, id, now, "level");
    LearningCounterDefault(table, allowed, data, id, now, "last_level_up_at");
    LearningCounterDefault(table, allowed, data, id, now, "graduated");
  }

  /** A new learning record follows the path it was given, or else the
      default 20-level path. */
  lemma LearningCreatePath(table: string, data: Entries, id: string, now: int)
    requires table == "learning"
    ensures PairValue(CreatePairs(table, CreateDataFields(table).value, data, id, now), "level_up_path")
            == if Lookup(data, "level_up_path").Some? then Some(SqlJson(Lookup(data, "level_up_path").value))
               else Some(SqlText(DefaultPathJson()))
  {
    LearningFieldLists();
    var allowed := CreateDataFields(table).value;
    assert "level_up_path" in allowed by {
      assert allowed[1] == "level_up_path";
    }
    LearningPathDefault(table, allowed, data, id, now);
  }

  // ---------------------------------------------------------------------
  // Update
  // ---------------------------------------------------------------------

  /** The SET assignments of `cmd_update`, as column/value pairs. */
  function UpdatePairs(table: string, allowed: seq<string>, data: Entries, now: int): Pairs {
    DataPairs(allowed, data)
    + (if table in TIMESTAMPED then [("updated_at", SqlInt(now))] else [])
    + (if table == "learning" && Lookup(data, "level").Some? then [("last_level_up_at", SqlInt(now))] else [])
  }

  function SetPart(c: string, idx: nat): string {
    "\"" + c + "\" = ?" + NatToString(idx)
  }

  function SetParts(ps: Pairs): (sp: seq<string>)
    ensures |sp| == |ps|
    ensures forall i :: 0 <= i < |ps| ==> sp[i] == SetPart(ps[i].0, i + 1)
  {
    seq(|ps|, i requires 0 <= i < |ps| => SetPart(ps[i].0, i + 1))
  }

  /** The update before it runs: the SET list, the values bound to `?1…?n`,
      and then the id at `?whereIndex`. */
  datatype UpdatePlan = UpdatePlan(table: string, setParts: seq<string>, values: seq<SqlValue>, whereIndex: nat)

  /** `cmd_update` as a value. */
  function UpdateSpec(table: string, id: string, data: Entries, now: int): (r: Result<UpdatePlan, AppError>)
    ensures table !in UPDATE_TABLES ==> r == Err(ValidateTable(table, UPDATE_TABLES).error)
    ensures table in UPDATE_TABLES && DecodedEntries(data).Ok? && data == [] ==>
              r == Err(InvalidParameter("data cannot be empty"))
    ensures r.Ok? ==> data != [] && forall i :: 0 <= i < |data| ==> data[i].0 in UpdateDataFields(table).value
    ensures r.Ok? ==> |r.value.values| == |r.value.setParts| + 1 && r.value.whereIndex == |r.value.setParts| + 1
                      && r.value.values[|r.value.setParts|] == SqlText(id)
  {
    if table !in UPDATE_TABLES then Err(ValidateTable(table, UPDATE_TABLES).error)
    else
      match DecodedEntries(data)
      case Err(e) => Err(e)
      case Ok(d) =>
        DecodedEntriesOk(data);
        if d == [] then Err(InvalidParameter("data cannot be empty"))
        else
          var allowed := UpdateDataFields(table).value;
          match KeysCheck("update", table, d, allowed)
          case Err(e) => Err(e)
          case Ok(_) =>
            var ps := UpdatePairs(table, allowed, d, now);
            Ok(UpdatePlan(table, SetParts(ps), Seconds(ps) + [SqlText(id)], |ps| + 1))
  }

  /** Pushing one assignment extends the SET list and the bound values. */
  lemma PushPair(ps: Pairs, c: string, v: SqlValue)
    ensures SetParts(ps + [(c, v)]) == SetParts(ps) + [SetPart(c, |ps| + 1)]
    ensures Seconds(ps + [(c, v)]) == Seconds(ps) + [v]
  {
  }

  /** The loop of `cmd_update` and its two automatic stamps. */
  method BuildSet(table: string, allowed: seq<string>, data: Entries, id: string, now: int)
    returns (setParts: seq<string>, values: seq<SqlValue>, whereIndex: nat)
    ensures var ps := UpdatePairs(table, allowed, data, now);
      setParts == SetParts(ps) && values == Seconds(ps) + [SqlText(id)] && whereIndex == |ps| + 1
  {
    ghost var ps: Pairs := [];
    setParts, values := [], [];
    var idx := 1;
    var levelChanged := table == "learning" && Lookup(data, "level").Some?;
    for k := 0 to |allowed|
      invariant ps == DataPairs(allowed[..k], data)
      invariant setParts == SetParts(ps) && values == Seconds(ps) && idx == |ps| + 1
    {
      assert allowed[..k + 1][..k] == allowed[..k];
      var key := allowed[k];
      var val := Lookup(data, key);
      if val.Some? {
        PushPair(ps, key, SqlJson(val.value));
        setParts := setParts + [SetPart(key, idx)];
        values := values + [SqlJson(val.value)];
        idx := idx + 1;
        ps := ps + [(key, SqlJson(val.value))];
      }
    }
    assert allowed[..|allowed|] == allowed;
    if table in TIMESTAMPED {
      PushPair(ps, "updated_at", SqlInt(now));
      setParts := setParts + [SetPart("updated_at", idx)];
      values := values + [SqlInt(now)];
      idx := idx + 1;
      ps := ps + [("updated_at", SqlInt(now))];
    }
    if levelChanged {
      PushPair(ps, "last_level_up_at", SqlInt(now));
      setParts := setParts + [SetPart("last_level_up_at", idx)];
      values := values + [SqlInt(now)];
      idx := idx + 1;
      ps := ps + [("last_level_up_at", SqlInt(now))];
    }
    assert ps == UpdatePairs(table, allowed, data, now);
    values := values + [SqlText(id)];
    whereIndex := idx;
  }

  /** `cmd_update` up to running the statement. */
  method Update(table: string, id: string, data: Entries, now: int) returns (r: Result<UpdatePlan, AppError>)
    ensures r == UpdateSpec(table, id, data, now)
  {
    var ok := ValidateTable(table, UPDATE_TABLES);
    if ok.Err? {
      return Err(ok.error);
    }
    var decoded := UrlDecodeMapValues(data);
    if decoded.Err? {
      return Err(decoded.error);
    }
    var d := decoded.value;
    DecodedEntriesOk(data);
    if d == [] {
      return Err(InvalidParameter("data cannot be empty"));
    }
    var allowed := UpdateDataFields(table).value;
    var keys := CheckKeys("update", table, d, allowed);
    if keys.Err? {
      return Err(keys.error);
    }
    var setParts, values, whereIndex := BuildSet(table, allowed, d, id, now);
    return Ok(UpdatePlan(table, setParts, values, whereIndex));
  }

  /** No row touched means the record does not exist. */
  function UpdateOutcome(table: string, id: string, rowsAffected: nat): (r: Result<(), AppError>)
    ensures r.Err? <==> rowsAffected == 0
    ensures r.Err? ==> r.error == NotFound("Record not found: " + table + "/" + id)
  {
    if rowsAffected == 0 then Err(NotFound("Record not found: " + table + "/" + id)) else Ok(())
  }

  /** The stamps of an assignment list whose allowed fields do not include
      the stamp columns. */
  lemma UpdatePairsStamps(table: string, allowed: seq<string>, data: Entries, now: int)
    requires "updated_at" !in allowed && "last_level_up_at" !in allowed
    ensures var ps := UpdatePairs(table, allowed, data, now);
      (PairValue(ps, "updated_at").Some? <==> table in TIMESTAMPED)
      && (table in TIMESTAMPED ==> PairValue(ps, "updated_at") == Some(SqlInt(now)))
      && (PairValue(ps, "last_level_up_at").Some? <==> table == "learning" && Lookup(data, "level").Some?)
      && (PairValue(ps, "last_level_up_at").Some? ==> PairValue(ps, "last_level_up_at") == Some(SqlInt(now)))
  {
    var dp := DataPairs(allowed, data);
    DataPairsValue(allowed, data, "updated_at");
    DataPairsValue(allowed, data, "last_level_up_at");
    var ts: Pairs := if table in TIMESTAMPED then [("updated_at", SqlInt(now))] else [];
    var lv: Pairs := if table == "learning" && Lookup(data, "level").Some? then [("last_level_up_at", SqlInt(now))] else [];
    var p1 := dp + ts;
    if ts != [] {
      PairValueAppend(dp, "updated_at", SqlInt(now), "updated_at");
      PairValueAppend(dp, "updated_at", SqlInt(now), "last_level_up_at");
    } else {
      assert p1 == dp;
    }
    if lv != [] {
      PairValueAppend(p1, "last_level_up_at", SqlInt(now), "updated_at");
      PairValueAppend(p1, "last_level_up_at", SqlInt(now), "last_level_up_at");
    } else {
      assert p1 + lv == p1;
    }
  }

  lemma UpdateFieldsUnstamped(table: string)
    requires table in UPDATE_TABLES
    ensures UpdateDataFields(table).Ok?
    ensures "updated_at" !in UpdateDataFields(table).value && "last_level_up_at" !in UpdateDataFields(table).value
  {
  }

  /** `updated_at` is stamped exactly for the tables that have it, and
      `last_level_up_at` exactly when a learning record's level is set. */
  lemma UpdateStamps(table: string, data: Entries, now: int)
    requires table in UPDATE_TABLES
    ensures var ps := UpdatePairs(table, UpdateDataFields(table).value, data, now);
      (PairValue(ps, "updated_at").Some? <==> table in TIMESTAMPED)
      && (table in TIMESTAMPED ==> PairValue(ps, "updated_at") == Some(SqlInt(now)))
      && (PairValue(ps, "last_level_up_at").Some? <==> table == "learning" && Lookup(data, "level").Some?)
      && (PairValue(ps, "last_level_up_at").Some? ==> PairValue(ps, "last_level_up_at") == Some(SqlInt(now)))
  {
    UpdateFieldsUnstamped(table);
    UpdatePairsStamps(table, UpdateDataFields(table).value, data, now);
  }

  // ---------------------------------------------------------------------
  // bulk-reassign
  // ---------------------------------------------------------------------

  datatype Reassign = ByIds(songIds: seq<string>, newArtist: string) | ByArtist(from: string, to: string)

  const REASSIGN_USAGE: string :=
    "bulk-reassign requires either (--song-ids + --new-artist-id) or (--from-artist-id + --to-artist-id)"

  /** The argument modes of `cmd_bulk_reassign`: exactly one of the two
      pairs, and a non-empty id list in the first. */
  function ReassignMode(songIds: Option<string>, newArtist: Option<string>,
                        from: Option<string>, to: Option<string>): (r: Result<Reassign, AppError>)
    ensures r.Ok? && r.value.ByIds? <==>
              songIds.Some? && newArtist.Some? && from.None? && to.None? && ParseList(songIds.value) != []
    ensures r.Ok? && r.value.ByIds? ==> r.value == ByIds(ParseList(songIds.value), newArtist.value)
    ensures r.Ok? && r.value.ByArtist? <==> songIds.None? && newArtist.None? && from.Some? && to.Some?
    ensures r.Ok? && r.value.ByArtist? ==> r.value == ByArtist(from.value, to.value)
    ensures songIds.Some? && newArtist.Some? && from.None? && to.None? && ParseList(songIds.value) == [] ==>
              r == Err(InvalidParameter("song_ids cannot be empty"))
    ensures !(songIds.Some? && newArtist.Some? && from.None? && to.None?)
            && !(songIds.None? && newArtist.None? && from.Some? && to.Some?) ==>
              r == Err(InvalidParameter(REASSIGN_USAGE))
  {
    match (songIds, newArtist, from, to)
    case (Some(s), Some(n), None, None) =>
      var ids := ParseList(s);
      if ids == [] then Err(InvalidParameter("song_ids cannot be empty")) else Ok(ByIds(ids, n))
    case (None, None, Some(f), Some(t)) => Ok(ByArtist(f, t))
    case _ => Err(InvalidParameter(REASSIGN_USAGE))
  }
}

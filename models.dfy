/** Allow-lists of tables and fields per command, their validation, and the
    comma-separated list parsing every command uses for its arguments. */
module Models {
  import opened Wrappers
  import opened Text

  /** The errors the modelled commands report to their caller. Database and
      internal failures are not part of this model. */
  datatype AppError = InvalidParameter(msg: string) | NotFound(msg: string)

  const GET_TABLES: seq<string> := ["artist", "show", "song", "play_history", "learning"]
  const SEARCH_TABLES: seq<string> :=
    ["artist", "show", "song", "play_history", "rel_show_song", "learning"]
  const DUPLICATES_TABLES: seq<string> := ["artist", "show", "song"]
  const CREATE_TABLES: seq<string> :=
    ["artist", "show", "song", "play_history", "learning", "rel_show_song"]
  const UPDATE_TABLES: seq<string> := ["artist", "show", "song", "play_history", "learning"]
  const DELETE_TABLES: seq<string> := ["artist", "song"]

  const MATCH_MODES: seq<string> := ["exact", "exact-i", "starts-with", "ends-with", "contains"]

  // ---------------------------------------------------------------------
  // Per-table field lists
  // ---------------------------------------------------------------------

  /** Fields `get` may return. */
  function GetFields(table: string): (r: Result<seq<string>, AppError>)
    ensures r.Ok? <==> table in GET_TABLES
    ensures r.Ok? ==> "id" in r.value
    ensures r.Err? ==> r.error == InvalidParameter("Invalid table for get: " + table)
  {
    if table == "artist" then
      Ok(["id", "name", "name_context", "created_at", "updated_at", "status"])
    else if table == "show" then
      Ok(["id", "name", "name_romaji", "vintage", "s_type", "created_at", "updated_at", "status"])
    else if table == "song" then
      Ok(["id", "name", "name_context", "artist_id", "created_at", "updated_at", "status"])
    else if table == "play_history" then
      Ok(["id", "show_id", "song_id", "created_at", "media_url", "status"])
    else if table == "learning" then
      Ok(["id", "song_id", "level", "created_at", "updated_at", "last_level_up_at",
          "level_up_path", "graduated"])
    else Err(InvalidParameter("Invalid table for get: " + table))
  }

  /** Columns a search term may test. */
  function SearchColumns(table: string): (r: Result<seq<string>, AppError>)
    ensures r.Ok? <==> table in SEARCH_TABLES
    ensures r.Ok? ==> |r.value| > 0
    ensures r.Err? ==> r.error == InvalidParameter("Invalid table for search with columns: " + table)
  {
    if table == "artist" then Ok(["name", "name_context"])
    else if table == "show" then Ok(["name", "vintage"])
    else if table == "song" then Ok(["name", "name_context", "artist_id"])
    else if table == "play_history" then Ok(["show_id", "song_id"])
    else if table == "rel_show_song" then Ok(["show_id", "song_id"])
    else if table == "learning" then
      Ok(["song_id", "level", "graduated", "last_level_up_at", "level_up_path"])
    else Err(InvalidParameter("Invalid table for search with columns: " + table))
  }

  /** Fields `search` may return. */
  function SearchFields(table: string): (r: Result<seq<string>, AppError>)
    ensures r.Ok? <==> table in SEARCH_TABLES
    ensures r.Ok? ==> |r.value| > 0
    ensures r.Err? ==> r.error == InvalidParameter("Invalid table for search with fields: " + table)
  {
    if table == "artist" then
      Ok(["id", "name", "name_context", "created_at", "updated_at", "status"])
    else if table == "show" then
      Ok(["id", "name", "name_romaji", "vintage", "s_type", "created_at", "updated_at", "status"])
    else if table == "song" then
      Ok(["id", "name", "name_context", "artist_id", "created_at", "updated_at", "status"])
    else if table == "play_history" then
      Ok(["id", "show_id", "song_id", "created_at", "media_url", "status"])
    else if table == "rel_show_song" then Ok(["show_id", "song_id", "media_url", "created_at"])
    else if table == "learning" then
      Ok(["id", "song_id", "level", "created_at", "updated_at", "last_level_up_at",
          "level_up_path", "graduated"])
    else Err(InvalidParameter("Invalid table for search with fields: " + table))
  }

  /** Data keys `create` accepts. */
  function CreateDataFields(table: string): (r: Result<seq<string>, AppError>)
    ensures r.Ok? <==> table in CREATE_TABLES
    ensures r.Ok? ==> "id" !in r.value && "created_at" !in r.value && "updated_at" !in r.value
    ensures r.Err? ==> r.error == InvalidParameter("Invalid table for create: " + table)
  {
    if table == "artist" then Ok(["name", "name_context"])
    else if table == "show" then Ok(["name", "name_romaji", "vintage", "s_type"])
    else if table == "song" then Ok(["name", "name_context", "artist_id"])
    else if table == "play_history" then Ok(["show_id", "song_id", "media_url"])
    else if table == "learning" then Ok(["song_id", "level_up_path"])
    else if table == "rel_show_song" then Ok(["show_id", "song_id", "media_url"])
    else Err(InvalidParameter("Invalid table for create: " + table))
  }

  /** Data keys `update` accepts. */
  function UpdateDataFields(table: string): (r: Result<seq<string>, AppError>)
    ensures r.Ok? <==> table in UPDATE_TABLES
    ensures r.Ok? ==> "id" !in r.value && "updated_at" !in r.value
    ensures r.Err? ==> r.error == InvalidParameter("Invalid table for update: " + table)
  {
    if table == "artist" then Ok(["name", "name_context", "status"])
    else if table == "show" then Ok(["name", "name_romaji", "vintage", "s_type", "status"])
    else if table == "song" then Ok(["name", "name_context", "artist_id", "status"])
    else if table == "play_history" then Ok(["show_id", "song_id", "media_url", "status"])
    else if table == "learning" then Ok(["level", "graduated"])
    else Err(InvalidParameter("Invalid table for update: " + table))
  }

  /** A learning record is created from a song and an optional path only, and
      updated only in its level and graduation flag: its timestamps are the
      program's to set. */
  lemma LearningFieldLists()
    ensures CreateDataFields("learning") == Ok(["song_id", "level_up_path"])
    ensures UpdateDataFields("learning") == Ok(["level", "graduated"])
    ensures forall f :: f in ["level", "graduated", "last_level_up_at"]
              ==> f !in CreateDataFields("learning").value
    ensures forall f :: f in ["song_id", "level_up_path", "last_level_up_at"]
              ==> f !in UpdateDataFields("learning").value
  {
  }

  /** Every field the data commands accept can also be read back by `search`. */
  lemma DataFieldsAreSearchable(table: string)
    requires table in UPDATE_TABLES
    ensures forall f :: f in UpdateDataFields(table).value ==> f in SearchFields(table).value
    ensures forall f :: f in CreateDataFields(table).value ==> f in SearchFields(table).value
  {
  }

  // ---------------------------------------------------------------------
  // Validation
  // ---------------------------------------------------------------------

  /** `validate_table(table, allowed)`. */
  function ValidateTable(table: string, allowed: seq<string>): (r: Result<(), AppError>)
    ensures r.Ok? <==> table in allowed
    ensures r.Err? ==>
              r.error == InvalidParameter("Invalid table: " + table + ". Allowed: " + Join(allowed, ", "))
  {
    if table in allowed then Ok(())
    else Err(InvalidParameter("Invalid table: " + table + ". Allowed: " + Join(allowed, ", ")))
  }

  /** The error `validate_fields` reports for a field outside the list. */
  function InvalidField(f: string, allowed: seq<string>): AppError {
    InvalidParameter("Invalid field: " + f + ". Allowed: " + Join(allowed, ", "))
  }

  /** Position of the first field outside the allowed list. */
  function FirstInvalid(fields: seq<string>, allowed: seq<string>): (k: Option<nat>)
    ensures k.Some? ==> k.value < |fields| && fields[k.value] !in allowed
                        && forall j :: 0 <= j < k.value ==> fields[j] in allowed
    ensures k.None? <==> forall j :: 0 <= j < |fields| ==> fields[j] in allowed
  {
    if fields == [] then None
    else if fields[0] !in allowed then Some(0)
    else
      match FirstInvalid(fields[1..], allowed)
      case None => None
      case Some(k) => Some(k + 1)
  }

  /** `validate_fields(fields, allowed)` as a value: the outcome of its loop. */
  function FieldsCheck(fields: seq<string>, allowed: seq<string>): (r: Result<(), AppError>)
    ensures r.Ok? <==> forall j :: 0 <= j < |fields| ==> fields[j] in allowed
  {
    match FirstInvalid(fields, allowed)
    case None => Ok(())
    case Some(k) => Err(InvalidField(fields[k], allowed))
  }

  /** `validate_fields(fields, allowed)`: stops at the first field outside the list. */
  method ValidateFields(fields: seq<string>, allowed: seq<string>) returns (r: Result<(), AppError>)
    ensures r == FieldsCheck(fields, allowed)
    ensures r.Ok? <==> forall j :: 0 <= j < |fields| ==> fields[j] in allowed
    ensures r.Err? ==> exists k :: 0 <= k < |fields| && fields[k] !in allowed
                        && (forall j :: 0 <= j < k ==> fields[j] in allowed)
                        && r.error == InvalidField(fields[k], allowed)
  {
    for i := 0 to |fields|
      invariant forall j :: 0 <= j < i ==> fields[j] in allowed
    {
      if fields[i] !in allowed {
        return Err(InvalidField(fields[i], allowed));
      }
    }
    return Ok(());
  }

  // ---------------------------------------------------------------------
  // Comma-separated lists
  // ---------------------------------------------------------------------

  predicate IsTrimmed(s: string) {
    Trim(s) == s
  }

  /** Trims every piece and drops the empty ones. */
  function CleanPieces(ps: seq<string>): (r: seq<string>)
    ensures |r| <= |ps|
    ensures forall i :: 0 <= i < |r| ==> r[i] != "" && IsTrimmed(r[i])
  {
    if ps == [] then []
    else
      var rest := CleanPieces(ps[1..]);
      var t := Trim(ps[0]);
      if t == "" then rest
      else
        TrimIdempotent(ps[0]);
        assert IsTrimmed(t);
        [t] + rest
  }

  /** `parse_fields`, and the same split-trim-filter chain every command
      applies to its comma-separated id lists. */
  function ParseList(s: string): (r: seq<string>)
    ensures forall i :: 0 <= i < |r| ==> r[i] != "" && IsTrimmed(r[i]) && ',' !in r[i]
  {
    var ps := Split(s, ',');
    CleanPiecesKeepsAbsentChar(ps, ',');
    CleanPieces(ps)
  }

  lemma {:induction false} CleanPiecesKeepsAbsentChar(ps: seq<string>, c: char)
    requires forall i :: 0 <= i < |ps| ==> c !in ps[i]
    ensures forall i :: 0 <= i < |CleanPieces(ps)| ==> c !in CleanPieces(ps)[i]
  {
    if ps != [] {
      TrimKeepsAbsentChar(ps[0], c);
      CleanPiecesKeepsAbsentChar(ps[1..], c);
    }
  }

  lemma {:induction false} CleanPiecesOfClean(xs: seq<string>)
    requires forall i :: 0 <= i < |xs| ==> xs[i] != "" && IsTrimmed(xs[i])
    ensures CleanPieces(xs) == xs
  {
    if xs != [] {
      CleanPiecesOfClean(xs[1..]);
      assert [xs[0]] + xs[1..] == xs;
    }
  }

  /** Joining clean names with commas and parsing the result gives them back. */
  lemma ParseListJoin(xs: seq<string>)
    requires forall i :: 0 <= i < |xs| ==> xs[i] != "" && IsTrimmed(xs[i]) && ',' !in xs[i]
    ensures ParseList(Join(xs, ",")) == xs
  {
    if xs == [] {
      assert Split("", ',') == [""];
      assert Trim("") == "";
    } else {
      SplitJoin(xs, ',');
      CleanPiecesOfClean(xs);
    }
  }

  /** Parsing is idempotent through a join: the parsed list is already clean. */
  lemma ParseListStable(s: string)
    ensures ParseList(Join(ParseList(s), ",")) == ParseList(s)
  {
    ParseListJoin(ParseList(s));
  }

  lemma CleanPiecesCons(ps: seq<string>)
    requires ps != []
    ensures CleanPieces(ps) == if Trim(ps[0]) == "" then CleanPieces(ps[1..]) else [Trim(ps[0])] + CleanPieces(ps[1..])
  {
  }

  lemma {:induction false} CleanPiecesSound(ps: seq<string>, x: string)
    requires x in CleanPieces(ps)
    ensures x != "" && exists i :: 0 <= i < |ps| && Trim(ps[i]) == x
  {
    var rest := CleanPieces(ps[1..]);
    CleanPiecesCons(ps);
    if x in rest {
      CleanPiecesSound(ps[1..], x);
      var i :| 0 <= i < |ps[1..]| && Trim(ps[1..][i]) == x;
      assert Trim(ps[i + 1]) == x;
    } else {
      assert Trim(ps[0]) == x;
    }
  }

  lemma {:induction false} CleanPiecesComplete(ps: seq<string>, i: nat)
    requires i < |ps| && Trim(ps[i]) != ""
    ensures Trim(ps[i]) in CleanPieces(ps)
  {
    CleanPiecesCons(ps);
    if i > 0 {
      CleanPiecesComplete(ps[1..], i - 1);
      assert ps[1..][i - 1] == ps[i];
    }
  }

  /** A name is in the parsed list exactly when it is the trim of a non-blank piece. */
  lemma CleanPiecesMembers(ps: seq<string>, x: string)
    ensures x in CleanPieces(ps) <==> x != "" && exists i :: 0 <= i < |ps| && Trim(ps[i]) == x
  {
    if x in CleanPieces(ps) {
      CleanPiecesSound(ps, x);
    }
    if x != "" && exists i :: 0 <= i < |ps| && Trim(ps[i]) == x {
      var i :| 0 <= i < |ps| && Trim(ps[i]) == x;
      CleanPiecesComplete(ps, i);
    }
  }

  lemma ParseListUnfold(s: string)
    ensures ParseList(s) == CleanPieces(Split(s, ','))
  {
  }

  lemma ParseListMembers(s: string, x: string)
    ensures var ps := Split(s, ',');
      x in ParseList(s) <==> x != "" && exists i :: 0 <= i < |ps| && Trim(ps[i]) == x
  {
    ParseListUnfold(s);
    CleanPiecesMembers(Split(s, ','), x);
  }

  /** A list of only commas and whitespace parses to nothing: the lists the
      commands reject as empty. */
  lemma {:induction false} BlankPiecesParseEmpty(ps: seq<string>)
    requires forall i :: 0 <= i < |ps| ==> Trim(ps[i]) == ""
    ensures CleanPieces(ps) == []
  {
    if ps != [] {
      BlankPiecesParseEmpty(ps[1..]);
    }
  }
}

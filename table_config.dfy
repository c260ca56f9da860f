/** Per-table field configuration: which fields each table lets callers
    select, search, create and update, and the JSON constraints built from it. */
module TableConfig {
  import opened Wrappers
  import opened JsonValue
  import Models

  datatype Config = Config(
    selectable: seq<string>,
    searchable: seq<string>,
    creatable: seq<string>,
    updatable: seq<string>)

  const ARTIST: Config := Config(
    ["id", "name", "name_context", "created_at", "updated_at", "status"],
    ["name", "name_context"],
    ["name", "name_context"],
    ["name", "name_context", "status"])

  const SHOW: Config := Config(
    ["id", "name", "name_romaji", "vintage", "s_type", "created_at", "updated_at", "status"],
    ["name", "name_romaji", "vintage"],
    ["name", "name_romaji", "vintage", "s_type"],
    ["name", "name_romaji", "vintage", "s_type", "status"])

  const SONG: Config := Config(
    ["id", "name", "name_context", "artist_id", "created_at", "updated_at", "status"],
    ["name", "name_context", "artist_id"],
    ["name", "name_context", "artist_id"],
    ["name", "name_context", "artist_id", "status"])

  const PLAY_HISTORY: Config := Config(
    ["id", "show_id", "song_id", "created_at", "media_url", "status"],
    ["show_id", "song_id"],
    ["show_id", "song_id", "media_url"],
    ["show_id", "song_id", "media_url", "status"])

  const LEARNING: Config := Config(
    ["id", "song_id", "level", "created_at", "updated_at", "last_level_up_at",
     "level_up_path", "graduated"],
    ["song_id", "level", "graduated", "last_level_up_at", "level_up_path"],
    ["song_id", "level_up_path"],
    ["level", "graduated"])

  const REL_SHOW_SONG: Config := Config(
    ["show_id", "song_id", "media_url", "created_at"],
    ["show_id", "song_id"],
    ["show_id", "song_id", "media_url"],
    [])

  type Entry = (string, Config)

  /** Every known table with its configuration, in lookup order. */
  const ALL_TABLES: seq<Entry> := [
    ("artist", ARTIST),
    ("show", SHOW),
    ("song", SONG),
    ("play_history", PLAY_HISTORY),
    ("learning", LEARNING),
    ("rel_show_song", REL_SHOW_SONG)]

  const TABLE_NAMES: seq<string> :=
    ["artist", "show", "song", "play_history", "learning", "rel_show_song"]

  predicate DistinctNames(es: seq<Entry>) {
    forall i, j :: 0 <= i < j < |es| ==> es[i].0 != es[j].0
  }

  /** Position of the first entry named `table`. */
  function FindIndex(es: seq<Entry>, table: string): (k: Option<nat>)
    ensures k.Some? ==> k.value < |es| && es[k.value].0 == table
                        && forall j :: 0 <= j < k.value ==> es[j].0 != table
    ensures k.None? ==> forall j :: 0 <= j < |es| ==> es[j].0 != table
  {
    if es == [] then None
    else if es[0].0 == table then Some(0)
    else
      match FindIndex(es[1..], table)
      case None => None
      case Some(k) => Some(k + 1)
  }

  /** The configuration of the first entry named `table`, as `find` does. */
  function FindConfig(es: seq<Entry>, table: string): (r: Option<Config>)
    ensures r.Some? <==> table in Firsts(es)
    ensures r.Some? ==> exists i :: 0 <= i < |es| && es[i] == (table, r.value)
                                    && forall j :: 0 <= j < i ==> es[j].0 != table
  {
    var k := FindIndex(es, table);
    if k.None? then
      assert forall x :: x in Firsts(es) ==> exists j :: 0 <= j < |es| && Firsts(es)[j] == x;
      None
    else
      assert Firsts(es)[k.value] == table;
      Some(es[k.value].1)
  }

  /** `get(table)`. */
  function Get(table: string): (r: Option<Config>)
    ensures r.Some? <==> table in TABLE_NAMES
  {
    assert Firsts(ALL_TABLES) == TABLE_NAMES;
    FindConfig(ALL_TABLES, table)
  }

  lemma AllTablesDistinct()
    ensures DistinctNames(ALL_TABLES)
  {
  }

  /** On a table list without repeated names the lookup returns the one entry
      of that name. */
  lemma FindConfigUnique(es: seq<Entry>, i: nat)
    requires DistinctNames(es) && i < |es|
    ensures FindConfig(es, es[i].0) == Some(es[i].1)
  {
    var r := FindConfig(es, es[i].0);
    assert es[i].0 in Firsts(es);
  }

  /** Each known name yields its own configuration. */
  lemma GetKnown()
    ensures Get("artist") == Some(ARTIST)
    ensures Get("show") == Some(SHOW)
    ensures Get("song") == Some(SONG)
    ensures Get("play_history") == Some(PLAY_HISTORY)
    ensures Get("learning") == Some(LEARNING)
    ensures Get("rel_show_song") == Some(REL_SHOW_SONG)
  {
    AllTablesDistinct();
    FindConfigUnique(ALL_TABLES, 0);
    FindConfigUnique(ALL_TABLES, 1);
    FindConfigUnique(ALL_TABLES, 2);
    FindConfigUnique(ALL_TABLES, 3);
    FindConfigUnique(ALL_TABLES, 4);
    FindConfigUnique(ALL_TABLES, 5);
  }

  /** Every table can select something. */
  lemma SelectableNonEmpty(i: nat)
    requires i < |ALL_TABLES|
    ensures ALL_TABLES[i].1.selectable != []
  {
    if i == 0 {
    } else if i == 1 {
    } else if i == 2 {
    } else if i == 3 {
    } else if i == 4 {
    } else {
    }
  }

  /** `rel_show_song` rows cannot be updated. */
  lemma RelShowSongNotUpdatable()
    ensures Get("rel_show_song").Some? && Get("rel_show_song").value.updatable == []
  {
    GetKnown();
  }

  lemma ArtistAndLearningFields()
    ensures Get("artist").Some? && "status" in Get("artist").value.updatable
    ensures Get("learning").Some? && "graduated" in Get("learning").value.searchable
  {
    AllTablesDistinct();
    FindConfigUnique(ALL_TABLES, 0);
    FindConfigUnique(ALL_TABLES, 4);
    assert ARTIST.updatable[2] == "status";
    assert LEARNING.searchable[2] == "graduated";
  }

  /** The per-table lookups of the models module agree with this table,
      except that searching shows by `name_romaji` is only allowed here. */
  lemma ModelsAgree(t: string)
    requires t in TABLE_NAMES
    ensures Models.SearchFields(t) == Ok(Get(t).value.selectable)
    ensures t != "show" ==> Models.SearchColumns(t) == Ok(Get(t).value.searchable)
    ensures Models.CreateDataFields(t) == Ok(Get(t).value.creatable)
    ensures t != "rel_show_song" ==> Models.UpdateDataFields(t) == Ok(Get(t).value.updatable)
  {
    GetKnown();
  }

  lemma ShowSearchDiffers()
    ensures Get("show").Some? && "name_romaji" in Get("show").value.searchable
    ensures Models.SearchColumns("show") == Ok(["name", "vintage"])
  {
    GetKnown();
    assert SHOW.searchable[1] == "name_romaji";
  }

  // ---------------------------------------------------------------------
  // JSON constraints
  // ---------------------------------------------------------------------

  /** The `enumif` entries for the configurations `es` whose names are in
      `tables`, inserted in order. */
  function SelectableMap(es: seq<Entry>, tables: seq<string>): map<string, Json> {
    if es == [] then map[]
    else
      var m := SelectableMap(es[..|es| - 1], tables);
      var e := es[|es| - 1];
      if e.0 in tables then m[e.0 := StringArray(e.1.selectable)] else m
  }

  /** Keys are exactly the listed names that have an entry; each maps to its
      entry's selectable fields. */
  lemma {:induction false} SelectableMapContents(es: seq<Entry>, tables: seq<string>, k: string)
    requires DistinctNames(es)
    ensures k in SelectableMap(es, tables) <==> k in tables && k in Firsts(es)
    ensures k in SelectableMap(es, tables) ==>
              SelectableMap(es, tables)[k] == StringArray(FindConfig(es, k).value.selectable)
  {
    if es != [] {
      var init := es[..|es| - 1];
      var e := es[|es| - 1];
      assert DistinctNames(init);
      SelectableMapContents(init, tables, k);
      assert Firsts(es) == Firsts(init) + [e.0];
      if k in Firsts(es) {
        var i :| 0 <= i < |es| && es[i].0 == k;
        FindConfigUnique(es, i);
        if i < |es| - 1 {
          assert init[i] == es[i];
          FindConfigUnique(init, i);
        }
      }
    }
  }

  /** `build_selectable_enumif(tables)`: `{"table": {name: selectable, …}}`. */
  method BuildSelectableEnumif(tables: seq<string>) returns (r: Json)
    ensures r == JObj(map["table" := JObj(SelectableMap(ALL_TABLES, tables))])
  {
    var m: map<string, Json> := map[];
    for i := 0 to |ALL_TABLES|
      invariant m == SelectableMap(ALL_TABLES[..i], tables)
    {
      assert ALL_TABLES[..i + 1][..i] == ALL_TABLES[..i];
      var (name, config) := ALL_TABLES[i];
      if name in tables {
        m := m[name := StringArray(config.selectable)];
      }
    }
    assert ALL_TABLES[..|ALL_TABLES|] == ALL_TABLES;
    return JObj(map["table" := JObj(m)]);
  }

  /** What the built constraint holds: an entry for exactly the known tables
      among `tables`, mapping each to its selectable fields. */
  lemma EnumifContents(tables: seq<string>, k: string)
    ensures var m := SelectableMap(ALL_TABLES, tables);
      (k in m <==> k in tables && Get(k).Some?)
      && (k in m ==> m[k] == StringArray(Get(k).value.selectable))
  {
    AllTablesDistinct();
    assert Firsts(ALL_TABLES) == TABLE_NAMES;
    SelectableMapContents(ALL_TABLES, tables, k);
  }

  /** `build_table_enum(tables)`: the names as a JSON array, in order. */
  function BuildTableEnum(tables: seq<string>): (r: Json)
    ensures r.JArr? && |r.items| == |tables|
    ensures forall i :: 0 <= i < |tables| ==> AsStr(r.items[i]) == Some(tables[i])
  {
    StringArray(tables)
  }
}

/** The AMQ export parser of the import skill: from the exported song
    entries it collects the distinct artists, the distinct shows and one
    numbered song row per entry. Reading and printing the JSON file are
    outside the model; an entry arrives with each optional text field
    present or absent. */
module AmqImport {
  import opened Wrappers
  import Review

  /** One `songInfo` of the export; `None` is a missing key. */
  datatype Entry = Entry(artist: Option<string>, songName: Option<string>, english: Option<string>,
                         romaji: Option<string>, vintage: Option<string>, animeType: Option<string>,
                         videoUrl: Option<string>)

  datatype Show = Show(english: string, romaji: string, vintage: string, animeType: string)

  datatype SongRow = SongRow(number: nat, songName: string, artist: string, showEnglish: string,
                             showRomaji: string, vintage: string, animeType: string, videoUrl: string)

  /** A field's value, the empty string when it is missing. */
  function OrEmpty(o: Option<string>): (s: string)
    ensures o.None? ==> s == ""
    ensures o.Some? ==> s == o.value
  {
    if o.Some? then o.value else ""
  }

  /** The key shows are told apart by: English name and vintage. */
  function ShowKey(english: string, vintage: string): string {
    english + "|||" + vintage
  }

  function KeyOf(s: Show): string {
    ShowKey(s.english, s.vintage)
  }

  function ShowOf(e: Entry): Show {
    Show(OrEmpty(e.english), OrEmpty(e.romaji), OrEmpty(e.vintage), OrEmpty(e.animeType))
  }

  /** The key of every entry's show, in order. */
  function EntryKeys(es: seq<Entry>): (ks: seq<string>)
    ensures |ks| == |es|
  {
    if es == [] then [] else EntryKeys(es[..|es| - 1]) + [KeyOf(ShowOf(es[|es| - 1]))]
  }

  function ShowKeys(ss: seq<Show>): seq<string> {
    if ss == [] then [] else ShowKeys(ss[..|ss| - 1]) + [KeyOf(ss[|ss| - 1])]
  }

  lemma ShowKeysSnoc(ss: seq<Show>, s: Show)
    ensures ShowKeys(ss + [s]) == ShowKeys(ss) + [KeyOf(s)]
  {
    assert (ss + [s])[..|ss|] == ss;
  }

  lemma {:induction false} EntryKeysAt(es: seq<Entry>, j: nat)
    requires j < |es|
    ensures EntryKeys(es)[j] == KeyOf(ShowOf(es[j]))
  {
    if j < |es| - 1 {
      EntryKeysAt(es[..|es| - 1], j);
    }
  }

  /** The artist field of every entry, in order. */
  function ArtistNames(es: seq<Entry>): (ns: seq<string>)
    ensures |ns| == |es| && forall i :: 0 <= i < |es| ==> ns[i] == OrEmpty(es[i].artist)
  {
    seq(|es|, i requires 0 <= i < |es| => OrEmpty(es[i].artist))
  }

  /** The artists list: non-empty names, first occurrences, in order. */
  function Artists(es: seq<Entry>): seq<string> {
    Review.Dedup(Review.NonEmpty(ArtistNames(es)))
  }

  /** The shows list: the first entry of every key, in order. */
  function UniqueShows(es: seq<Entry>): seq<Show> {
    if es == [] then []
    else
      var r := UniqueShows(es[..|es| - 1]);
      var s := ShowOf(es[|es| - 1]);
      if KeyOf(s) in ShowKeys(r) then r else r + [s]
  }

  function SongOf(number: nat, e: Entry): SongRow {
    SongRow(number, OrEmpty(e.songName), OrEmpty(e.artist), OrEmpty(e.english), OrEmpty(e.romaji),
            OrEmpty(e.vintage), OrEmpty(e.animeType), OrEmpty(e.videoUrl))
  }

  /** One row per entry, numbered from 1. */
  function SongRows(es: seq<Entry>): (rows: seq<SongRow>)
    ensures |rows| == |es|
    ensures forall i :: 0 <= i < |es| ==> rows[i].number == i + 1 && rows[i] == SongOf(i + 1, es[i])
  {
    seq(|es|, i requires 0 <= i < |es| => SongOf(i + 1, es[i]))
  }

  // ---------------------------------------------------------------------
  // The parse loop
  // ---------------------------------------------------------------------

  /** One more entry adds its artist when non-empty and not yet listed. */
  lemma ArtistsSnoc(es: seq<Entry>, e: Entry)
    ensures var name := OrEmpty(e.artist); var a := Artists(es);
      Artists(es + [e]) == if name != "" && name !in a then a + [name] else a
  {
    var name := OrEmpty(e.artist);
    var names := ArtistNames(es);
    assert ArtistNames(es + [e]) == names + [name];
    var ne := Review.NonEmpty(names + [name]);
    assert (names + [name])[..|names|] == names;
    Review.DedupSnoc(Review.NonEmpty(names), name);
  }

  /** One more entry adds its show when its key is not yet kept. */
  lemma ShowsSnoc(es: seq<Entry>, e: Entry)
    ensures var r := UniqueShows(es);
      UniqueShows(es + [e]) == if KeyOf(ShowOf(e)) in ShowKeys(r) then r else r + [ShowOf(e)]
  {
    assert (es + [e])[..|es|] == es;
  }

  /** The loop step on entry `idx`, for the three lists. */
  lemma ParseStep(entries: seq<Entry>, idx: nat)
    requires idx < |entries|
    ensures var e := entries[idx]; var name := OrEmpty(e.artist);
      var a := Artists(entries[..idx]); var r := UniqueShows(entries[..idx]);
      && Artists(entries[..idx + 1]) == (if name != "" && name !in a then a + [name] else a)
      && UniqueShows(entries[..idx + 1]) == (if KeyOf(ShowOf(e)) in ShowKeys(r) then r else r + [ShowOf(e)])
      && SongRows(entries[..idx + 1]) == SongRows(entries[..idx]) + [SongOf(idx + 1, e)]
  {
    assert entries[..idx + 1] == entries[..idx] + [entries[idx]];
    ArtistsSnoc(entries[..idx], entries[idx]);
    ShowsSnoc(entries[..idx], entries[idx]);
  }

  /** `parse_amq_export` after the file is read. */
  method ParseAmqExport(entries: seq<Entry>) returns (artists: seq<string>, shows: seq<Show>, songs: seq<SongRow>)
    ensures artists == Artists(entries)
    ensures shows == UniqueShows(entries)
    ensures songs == SongRows(entries)
  {
    artists := [];
    shows := [];
    var showKeys: seq<string> := [];
    songs := [];
    for idx := 0 to |entries|
      invariant artists == Artists(entries[..idx])
      invariant shows == UniqueShows(entries[..idx]) && showKeys == ShowKeys(shows)
      invariant songs == SongRows(entries[..idx])
    {
      var e := entries[idx];
      ParseStep(entries, idx);
      var artistName := OrEmpty(e.artist);
      if artistName != "" && artistName !in artists {
        artists := artists + [artistName];
      }
      var key := ShowKey(OrEmpty(e.english), OrEmpty(e.vintage));
      if key !in showKeys {
        ShowKeysSnoc(shows, ShowOf(e));
        shows := shows + [ShowOf(e)];
        showKeys := showKeys + [key];
      }
      songs := songs + [SongOf(idx + 1, e)];
    }
    assert entries[..|entries|] == entries;
  }

  // ---------------------------------------------------------------------
  // What the lists hold
  // ---------------------------------------------------------------------

  /** Artists are distinct and non-empty, are exactly the non-empty artist
      fields of the entries, and come in the order first seen. */
  lemma ArtistsContents(es: seq<Entry>, x: string, i: nat, j: nat)
    ensures var a := Artists(es);
      Review.NoDups(a) && (forall k :: 0 <= k < |a| ==> a[k] != "")
      && (x in a <==> x != "" && exists k :: 0 <= k < |es| && OrEmpty(es[k].artist) == x)
      && (i < j < |a| ==>
            Review.Position(Review.NonEmpty(ArtistNames(es)), a[i]) < Review.Position(Review.NonEmpty(ArtistNames(es)), a[j]))
  {
    var names := ArtistNames(es);
    var ne := Review.NonEmpty(names);
    Review.DedupMembers(ne);
    var a := Artists(es);
    forall k | 0 <= k < |a|
      ensures a[k] != ""
    {
      assert a[k] in ne;
    }
    if x in a {
      assert x in names;
      var k :| 0 <= k < |names| && names[k] == x;
      assert OrEmpty(es[k].artist) == x;
    }
    if i < j < |a| {
      Review.DedupOrder(ne, i, j);
    }
  }

  /** The keys of the kept shows are the entries' keys, de-duplicated in
      first-seen order. */
  lemma {:induction false} ShowKeysDedup(es: seq<Entry>)
    ensures ShowKeys(UniqueShows(es)) == Review.Dedup(EntryKeys(es))
  {
    if es != [] {
      var init := es[..|es| - 1];
      ShowKeysDedup(init);
      var s := ShowOf(es[|es| - 1]);
      Review.DedupSnoc(EntryKeys(init), KeyOf(s));
      ShowKeysSnoc(UniqueShows(init), s);
    }
  }

  /** The kept shows have distinct keys. */
  lemma ShowsDistinct(es: seq<Entry>)
    ensures Review.NoDups(ShowKeys(UniqueShows(es)))
  {
    ShowKeysDedup(es);
    Review.DedupMembers(EntryKeys(es));
  }

  /** No entry before the last has the key `key` when the kept shows of
      those entries lack it. */
  lemma KeyNew(init: seq<Entry>, key: string, j: nat)
    requires key !in ShowKeys(UniqueShows(init)) && j < |init|
    ensures KeyOf(ShowOf(init[j])) != key
  {
    ShowKeysDedup(init);
    Review.DedupMembers(EntryKeys(init));
    EntryKeysAt(init, j);
  }

  /** Each kept show is the data of the first entry with its key. */
  lemma {:induction false} ShowsFirstData(es: seq<Entry>, k: nat)
    requires k < |UniqueShows(es)|
    ensures var r := UniqueShows(es);
      exists i :: 0 <= i < |es| && r[k] == ShowOf(es[i])
                  && forall j :: 0 <= j < i ==> KeyOf(ShowOf(es[j])) != KeyOf(r[k])
  {
    var n := |es| - 1;
    var init := es[..n];
    var r := UniqueShows(init);
    var s := ShowOf(es[n]);
    if k < |r| {
      ShowsFirstData(init, k);
      var i :| 0 <= i < |init| && r[k] == ShowOf(init[i])
               && forall j :: 0 <= j < i ==> KeyOf(ShowOf(init[j])) != KeyOf(r[k]);
      assert es[i] == init[i];
      assert forall j :: 0 <= j < i ==> es[j] == init[j];
    } else {
      assert UniqueShows(es)[k] == s && KeyOf(s) !in ShowKeys(r);
      forall j | 0 <= j < n
        ensures KeyOf(ShowOf(es[j])) != KeyOf(s)
      {
        assert es[j] == init[j];
        KeyNew(init, KeyOf(s), j);
      }
    }
  }

  /** Every entry's show is represented: some kept show has its key. */
  lemma ShowsCover(es: seq<Entry>, i: nat)
    requires i < |es|
    ensures KeyOf(ShowOf(es[i])) in ShowKeys(UniqueShows(es))
  {
    ShowKeysDedup(es);
    Review.DedupMembers(EntryKeys(es));
    EntryKeysAt(es, i);
  }

  /** The key is not injective: two different (English name, vintage) pairs
      can share a key, so the second show would be dropped. */
  lemma ShowKeyCollides()
    ensures ShowKey("A|||B", "C") == ShowKey("A", "B|||C")
    ensures ("A|||B", "C") != ("A", "B|||C")
  {
  }
}

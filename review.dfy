/** The aggregation behind `learning-song-review`: every due song is
    enriched with its artist's name, the names of its shows and its media
    URLs, and the levels of the due songs are counted. The rows the
    queries return are read from a catalogue of the tables involved. */
module Review {
  import opened Wrappers
  import opened Schedule

  // ---------------------------------------------------------------------
  // Order-preserving de-duplication
  // ---------------------------------------------------------------------

  /** The first occurrence of every value, in the order first seen (what a
      loop that pushes a value unless the list already contains it builds). */
  function Dedup(xs: seq<string>): (d: seq<string>)
    ensures forall k :: 0 <= k < |d| ==> d[k] in xs
  {
    if xs == [] then []
    else
      var d := Dedup(xs[..|xs| - 1]);
      if xs[|xs| - 1] in d then d else d + [xs[|xs| - 1]]
  }

  predicate NoDups(xs: seq<string>) {
    forall i, j :: 0 <= i < j < |xs| ==> xs[i] != xs[j]
  }

  /** Position of the first occurrence of `x`. */
  function Position(xs: seq<string>, x: string): (k: nat)
    requires x in xs
    ensures k < |xs| && xs[k] == x && x !in xs[..k]
  {
    if xs[0] == x then 0
    else
      assert x in xs[1..];
      assert xs[1..][..Position(xs[1..], x)] == xs[1..Position(xs[1..], x) + 1];
      1 + Position(xs[1..], x)
  }

  /** De-duplication keeps exactly the values of the input, once each. */
  lemma {:induction false} DedupMembers(xs: seq<string>)
    ensures NoDups(Dedup(xs))
    ensures forall x :: x in Dedup(xs) <==> x in xs
  {
    if xs != [] {
      var init := xs[..|xs| - 1];
      DedupMembers(init);
      assert xs == init + [xs[|xs| - 1]];
    }
  }

  /** Positions in a concatenation: a value of `a` is found where it is in
      `a`, any other value after all of `a`. */
  lemma PositionAppend(a: seq<string>, b: seq<string>, x: string)
    ensures x in a ==> x in a + b && Position(a + b, x) == Position(a, x)
    ensures x in a + b && x !in a ==> Position(a + b, x) >= |a|
  {
    if x in a {
      var k := Position(a, x);
      assert (a + b)[k] == x;
    }
  }

  /** The kept values appear in the order of their first occurrences. */
  lemma {:induction false} DedupOrder(xs: seq<string>, i: nat, j: nat)
    requires i < j < |Dedup(xs)|
    ensures Position(xs, Dedup(xs)[i]) < Position(xs, Dedup(xs)[j])
  {
    DedupMembers(xs);
    var n := |xs| - 1;
    var init := xs[..n];
    var y := xs[n];
    assert xs == init + [y];
    var d := Dedup(init);
    DedupMembers(init);
    PositionAppend(init, [y], Dedup(xs)[i]);
    PositionAppend(init, [y], Dedup(xs)[j]);
    if j < |d| {
      DedupOrder(init, i, j);
    }
  }

  /** Values from `a` come before values that occur only in `b`. */
  lemma DedupFirstPart(a: seq<string>, b: seq<string>, i: nat, j: nat)
    requires var d := Dedup(a + b); i < |d| && j < |d| && d[i] in a && d[j] !in a
    ensures i < j
  {
    var d := Dedup(a + b);
    DedupMembers(a + b);
    PositionAppend(a, b, d[i]);
    PositionAppend(a, b, d[j]);
    if j < i {
      DedupOrder(a + b, j, i);
    }
  }

  // ---------------------------------------------------------------------
  // The rows the enrichment reads
  // ---------------------------------------------------------------------

  datatype RelLink = RelLink(showId: string, songId: string, mediaUrl: Option<string>)
  datatype Play = Play(songId: string, mediaUrl: string, status: int)

  /** The tables the review reads besides `learning` and `song`: artist
      names, show names, the show/song links and the play history. */
  datatype Catalog = Catalog(artists: map<string, string>, shows: map<string, string>, links: seq<RelLink>,
                             plays: seq<Play>)

  /** The links of a song joined with their show: `(show name, media URL)`. */
  function RelRows(links: seq<RelLink>, shows: map<string, string>, song: string): (rows: seq<(string, Option<string>)>)
    ensures |rows| <= |links|
  {
    if links == [] then []
    else
      var rows := RelRows(links[..|links| - 1], shows, song);
      var l := links[|links| - 1];
      if l.songId == song && l.showId in shows then rows + [(shows[l.showId], l.mediaUrl)] else rows
  }

  /** The song's play-history URLs that are non-empty and of status 0. */
  function PlayUrls(plays: seq<Play>, song: string): (urls: seq<string>)
    ensures forall i :: 0 <= i < |urls| ==> urls[i] != ""
  {
    if plays == [] then []
    else
      var urls := PlayUrls(plays[..|plays| - 1], song);
      var p := plays[|plays| - 1];
      if p.songId == song && p.mediaUrl != "" && p.status == 0 then urls + [p.mediaUrl] else urls
  }

  /** The artist's name, or "Unknown" when the lookup fails. */
  function ArtistName(c: Catalog, artistId: string): (name: string)
    ensures artistId in c.artists ==> name == c.artists[artistId]
    ensures artistId !in c.artists ==> name == "Unknown"
  {
    if artistId in c.artists then c.artists[artistId] else "Unknown"
  }

  function ShowNames(rows: seq<(string, Option<string>)>): (names: seq<string>)
    ensures |names| == |rows| && forall i :: 0 <= i < |rows| ==> names[i] == rows[i].0
  {
    seq(|rows|, i requires 0 <= i < |rows| => rows[i].0)
  }

  /** The non-empty URLs of the joined rows, in order. */
  function RelUrls(rows: seq<(string, Option<string>)>): (urls: seq<string>)
    ensures forall i :: 0 <= i < |urls| ==> urls[i] != ""
  {
    if rows == [] then []
    else
      var urls := RelUrls(rows[..|rows| - 1]);
      var u := rows[|rows| - 1].1;
      if u.Some? && u.value != "" then urls + [u.value] else urls
  }

  function NonEmpty(urls: seq<string>): (r: seq<string>)
    ensures forall i :: 0 <= i < |r| ==> r[i] != ""
    ensures forall u :: u in r <==> u in urls && u != ""
  {
    if urls == [] then []
    else
      var r := NonEmpty(urls[..|urls| - 1]);
      assert urls == urls[..|urls| - 1] + [urls[|urls| - 1]];
      if urls[|urls| - 1] != "" then r + [urls[|urls| - 1]] else r
  }

  datatype EnrichedSong = EnrichedSong(songName: string, level: nat, waitDays: nat, artistName: string,
                                       showNames: seq<string>, mediaUrls: seq<string>)

  /** A due song with what the review page shows about it. */
  function Enriched(c: Catalog, row: DueRow): EnrichedSong {
    var rows := RelRows(c.links, c.shows, row.songId);
    EnrichedSong(row.songName, row.level, row.waitDays, ArtistName(c, row.artistId),
                 Dedup(ShowNames(rows)),
                 Dedup(RelUrls(rows) + NonEmpty(PlayUrls(c.plays, row.songId))))
  }

  /** Show names are unique, in first-seen order, and are the names of the
      shows linked to the song. */
  lemma EnrichedShows(c: Catalog, row: DueRow, i: nat, j: nat)
    ensures var e := Enriched(c, row); var names := ShowNames(RelRows(c.links, c.shows, row.songId));
      NoDups(e.showNames) && (forall x :: x in e.showNames <==> x in names)
      && (i < j < |e.showNames| ==> Position(names, e.showNames[i]) < Position(names, e.showNames[j]))
  {
    var names := ShowNames(RelRows(c.links, c.shows, row.songId));
    DedupMembers(names);
    if i < j < |Dedup(names)| {
      DedupOrder(names, i, j);
    }
  }

  /** Media URLs are non-empty and unique; they are the URLs of the song's
      links followed by its play-history URLs, the links' ones first. */
  lemma EnrichedUrls(c: Catalog, row: DueRow, i: nat, j: nat)
    ensures var e := Enriched(c, row);
      var a := RelUrls(RelRows(c.links, c.shows, row.songId));
      var b := NonEmpty(PlayUrls(c.plays, row.songId));
      NoDups(e.mediaUrls) && (forall u :: u in e.mediaUrls <==> u in a || u in b)
      && (forall k :: 0 <= k < |e.mediaUrls| ==> e.mediaUrls[k] != "")
      && (i < |e.mediaUrls| && j < |e.mediaUrls| && e.mediaUrls[i] in a && e.mediaUrls[j] !in a ==> i < j)
  {
    var a := RelUrls(RelRows(c.links, c.shows, row.songId));
    var b := NonEmpty(PlayUrls(c.plays, row.songId));
    DedupMembers(a + b);
    var d := Dedup(a + b);
    forall k | 0 <= k < |d|
      ensures d[k] != ""
    {
      assert d[k] in a + b;
    }
    if i < |d| && j < |d| && d[i] in a && d[j] !in a {
      DedupFirstPart(a, b, i, j);
    }
  }

  /** Pushing one more value onto the de-duplicated list. */
  lemma DedupSnoc(xs: seq<string>, x: string)
    ensures Dedup(xs + [x]) == if x in Dedup(xs) then Dedup(xs) else Dedup(xs) + [x]
  {
    assert (xs + [x])[..|xs|] == xs;
  }

  /** The loop over the joined link rows: show names and link URLs, each
      pushed unless already present. */
  method CollectLinks(rows: seq<(string, Option<string>)>) returns (showNames: seq<string>, mediaUrls: seq<string>)
    ensures showNames == Dedup(ShowNames(rows)) && mediaUrls == Dedup(RelUrls(rows))
  {
    showNames := [];
    mediaUrls := [];
    for i := 0 to |rows|
      invariant showNames == Dedup(ShowNames(rows[..i]))
      invariant mediaUrls == Dedup(RelUrls(rows[..i]))
    {
      assert rows[..i + 1][..i] == rows[..i];
      assert ShowNames(rows[..i + 1]) == ShowNames(rows[..i]) + [rows[i].0];
      DedupSnoc(ShowNames(rows[..i]), rows[i].0);
      var (showName, mediaUrl) := rows[i];
      if showName !in showNames {
        showNames := showNames + [showName];
      }
      if mediaUrl.Some? && mediaUrl.value != "" {
        DedupSnoc(RelUrls(rows[..i]), mediaUrl.value);
        if mediaUrl.value !in mediaUrls {
          mediaUrls := mediaUrls + [mediaUrl.value];
        }
      }
    }
    assert rows[..|rows|] == rows;
  }

  /** The loop over the play-history URLs, continuing the list of URLs the
      links gave. */
  method CollectPlayed(ghost rel: seq<string>, linkUrls: seq<string>, played: seq<string>)
    returns (mediaUrls: seq<string>)
    requires linkUrls == Dedup(rel)
    ensures mediaUrls == Dedup(rel + NonEmpty(played))
  {
    mediaUrls := linkUrls;
    assert rel + NonEmpty(played[..0]) == rel;
    for j := 0 to |played|
      invariant mediaUrls == Dedup(rel + NonEmpty(played[..j]))
    {
      assert played[..j + 1][..j] == played[..j];
      var url := played[j];
      if url != "" {
        assert rel + NonEmpty(played[..j + 1]) == (rel + NonEmpty(played[..j])) + [url];
        DedupSnoc(rel + NonEmpty(played[..j]), url);
        if url !in mediaUrls {
          mediaUrls := mediaUrls + [url];
        }
      }
    }
    assert played[..|played|] == played;
  }

  /** Builds one enriched song: the artist lookup, then the linked shows and
      their URLs, then the play-history URLs. */
  method EnrichSong(c: Catalog, row: DueRow) returns (e: EnrichedSong)
    ensures e == Enriched(c, row)
  {
    var artistName := ArtistName(c, row.artistId);
    var rows := RelRows(c.links, c.shows, row.songId);
    var showNames, linkUrls := CollectLinks(rows);
    var mediaUrls := CollectPlayed(RelUrls(rows), linkUrls, PlayUrls(c.plays, row.songId));
    return EnrichedSong(row.songName, row.level, row.waitDays, artistName, showNames, mediaUrls);
  }

  // ---------------------------------------------------------------------
  // Level distribution
  // ---------------------------------------------------------------------

  function Levels(songs: seq<EnrichedSong>): (levels: seq<nat>)
    ensures |levels| == |songs| && forall k :: 0 <= k < |songs| ==> levels[k] == songs[k].level
  {
    seq(|songs|, k requires 0 <= k < |songs| => songs[k].level)
  }

  /** How many entries equal `l`. */
  function Count(levels: seq<nat>, l: nat): nat {
    if levels == [] then 0
    else Count(levels[..|levels| - 1], l) + if levels[|levels| - 1] == l then 1 else 0
  }

  /** The level histogram, built by adding one per entry. */
  function Histogram(levels: seq<nat>): map<nat, nat> {
    if levels == [] then map[]
    else
      var m := Histogram(levels[..|levels| - 1]);
      var l := levels[|levels| - 1];
      m[l := (if l in m then m[l] else 0) + 1]
  }

  /** Each level present maps to the number of its entries; no other key. */
  lemma {:induction false} HistogramCounts(levels: seq<nat>, l: nat)
    ensures l in Histogram(levels) <==> Count(levels, l) > 0
    ensures l in Histogram(levels) ==> Histogram(levels)[l] == Count(levels, l)
  {
    if levels != [] {
      HistogramCounts(levels[..|levels| - 1], l);
    }
  }

  /** The histogram's counts for the levels below `b`. */
  function SumBelow(m: map<nat, nat>, b: nat): nat {
    if b == 0 then 0 else SumBelow(m, b - 1) + if b - 1 in m then m[b - 1] else 0
  }

  function CountBelow(levels: seq<nat>, b: nat): nat {
    if b == 0 then 0 else CountBelow(levels, b - 1) + Count(levels, b - 1)
  }

  lemma {:induction false} SumIsCountBelow(levels: seq<nat>, b: nat)
    ensures SumBelow(Histogram(levels), b) == CountBelow(levels, b)
  {
    if b > 0 {
      SumIsCountBelow(levels, b - 1);
      HistogramCounts(levels, b - 1);
    }
  }

  lemma {:induction false} CountBelowEmpty(b: nat)
    ensures CountBelow([], b) == 0
  {
    if b > 0 {
      CountBelowEmpty(b - 1);
    }
  }

  lemma {:induction false} CountBelowSnoc(levels: seq<nat>, x: nat, b: nat)
    ensures CountBelow(levels + [x], b) == CountBelow(levels, b) + if x < b then 1 else 0
  {
    if b > 0 {
      CountBelowSnoc(levels, x, b - 1);
      assert (levels + [x])[..|levels|] == levels;
    }
  }

  /** The histogram accounts for every entry exactly once. */
  lemma {:induction false} HistogramTotal(levels: seq<nat>, b: nat)
    requires forall k :: 0 <= k < |levels| ==> levels[k] < b
    ensures SumBelow(Histogram(levels), b) == |levels|
  {
    SumIsCountBelow(levels, b);
    CountBelowEmpty(b);
    var n := |levels|;
    var i := 0;
    while i < n
      invariant i <= n
      invariant CountBelow(levels[..i], b) == i
    {
      CountBelowSnoc(levels[..i], levels[i], b);
      assert levels[..i + 1] == levels[..i] + [levels[i]];
      i := i + 1;
    }
    assert levels[..n] == levels;
  }

  /** Counting the songs per level. */
  method LevelDistribution(songs: seq<EnrichedSong>) returns (dist: map<nat, nat>)
    ensures dist == Histogram(Levels(songs))
  {
    dist := map[];
    for i := 0 to |songs|
      invariant dist == Histogram(Levels(songs[..i]))
    {
      assert Levels(songs[..i + 1])[..i] == Levels(songs[..i]);
      var l := songs[i].level;
      dist := dist[l := (if l in dist then dist[l] else 0) + 1];
    }
    assert songs[..|songs|] == songs;
  }

  // ---------------------------------------------------------------------
  // The review result
  // ---------------------------------------------------------------------

  function DueIds(due: seq<DueRow>): (ids: seq<string>)
    ensures |ids| == |due| && forall k :: 0 <= k < |due| ==> ids[k] == due[k].id
  {
    seq(|due|, k requires 0 <= k < |due| => due[k].id)
  }

  /** Steps 2 and 3 of the review and its reply: the enriched songs in the
      order listed, their level histogram, the count and the learning ids. */
  method SongReview(c: Catalog, due: seq<DueRow>)
    returns (songs: seq<EnrichedSong>, dist: map<nat, nat>, count: nat, ids: seq<string>)
    ensures |songs| == |due| && forall k :: 0 <= k < |due| ==> songs[k] == Enriched(c, due[k])
    ensures dist == Histogram(Levels(songs))
    ensures count == |due| && ids == DueIds(due)
  {
    count := |due|;
    songs := [];
    for i := 0 to |due|
      invariant |songs| == i && forall k :: 0 <= k < i ==> songs[k] == Enriched(c, due[k])
    {
      var e := EnrichSong(c, due[i]);
      songs := songs + [e];
    }
    dist := LevelDistribution(songs);
    ids := DueIds(due);
  }

  /** The reported ids are those of due, unfinished learning records, at most
      `limit` of them, and the histogram counts each reported song once. */
  lemma ReviewOfListing(records: seq<Record>, songMap: map<string, Song>, c: Catalog, now: int,
                        offset: Offset, limit: nat, b: nat, k: nat)
    requires var due := DueListing(records, songMap, now, offset, limit);
      forall i :: 0 <= i < |due| ==> due[i].level < b
    ensures var due := DueListing(records, songMap, now, offset, limit);
      var songs := seq(|due|, i requires 0 <= i < |due| => Enriched(c, due[i]));
      |due| <= limit && SumBelow(Histogram(Levels(songs)), b) == |due|
      && (k < |due| ==> exists r :: r in records && r.id == DueIds(due)[k] && DueAt(r, now, offset) && !r.graduated)
  {
    var due := DueListing(records, songMap, now, offset, limit);
    var songs := seq(|due|, i requires 0 <= i < |due| => Enriched(c, due[i]));
    ListingSize(records, songMap, now, offset, limit);
    HistogramTotal(Levels(songs), b);
    if k < |due| {
      ListingRowsAreDue(records, songMap, now, offset, limit, k);
      var r := DueRecords(records, songMap, now, offset, limit)[k];
      assert r in records && r.id == DueIds(due)[k];
    }
  }
}

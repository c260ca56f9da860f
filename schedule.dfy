/** Learning records and when they are due for review: the WHERE clause of
    `build_due_where` and `DUE_WHERE` read as a predicate, and the listing of
    `learning-due`, which selects the due records of known songs, orders them
    by level (highest first) and keeps at most `limit`. */
module Schedule {
  import opened Wrappers
  import Easing

  /** A level-0 record waits five minutes before its first (or next) review. */
  const FIRST_WAIT: int := 300

  const SECONDS_PER_DAY: int := 86400

  /** The level at which a level-up graduates the record instead: `MAX_LEVEL - 1`. */
  const GRADUATION_LEVEL: nat := Easing.MAX_LEVEL - 1

  /** One row of the `learning` table. `path` is the stored `level_up_path`
      read as its list of wait-days. */
  datatype Record = Record(
    id: string,
    songId: string,
    level: nat,
    createdAt: int,
    updatedAt: int,
    lastLevelUpAt: int,
    path: seq<nat>,
    graduated: bool)

  /** The fields of a `song` row that the learning commands read. */
  datatype Song = Song(name: string, artistId: string)

  /** `json_extract(level_up_path, '$[level]')`: the wait of the current
      level, or SQL NULL when the path is too short. */
  function WaitDays(r: Record): (w: Option<nat>)
    ensures w.Some? <==> r.level < |r.path|
    ensures w.Some? ==> w.value == r.path[r.level]
  {
    if r.level < |r.path| then Some(r.path[r.level]) else None
  }

  /** The due condition at reference time `t`, branch by branch. A NULL wait
      makes the third comparison NULL, which is not true. */
  predicate Due(r: Record, t: int) {
    !r.graduated
    && ((r.lastLevelUpAt > 0 && r.level == 0 && t >= r.lastLevelUpAt + FIRST_WAIT)
        || (r.lastLevelUpAt == 0 && r.level == 0 && t >= r.updatedAt + FIRST_WAIT)
        || (r.level > 0 && WaitDays(r).Some? && WaitDays(r).value * SECONDS_PER_DAY + r.lastLevelUpAt <= t))
  }

  /** The values of a `u32`. */
  type U32 = k: nat | k < 0x1_0000_0000

  /** The values `offset_seconds` can take. */
  type Offset = U32

  /** `build_due_where(offset)` evaluated against the clock reading `now`. */
  predicate DueAt(r: Record, now: int, offset: Offset) {
    Due(r, now + offset)
  }

  /** The earliest time at which the record becomes due, if ever: an
      independent reading of the three branches. */
  function NextReviewAt(r: Record): Option<int> {
    if r.graduated then None
    else if r.level == 0 && r.lastLevelUpAt > 0 then Some(r.lastLevelUpAt + FIRST_WAIT)
    else if r.level == 0 && r.lastLevelUpAt == 0 then Some(r.updatedAt + FIRST_WAIT)
    else if r.level > 0 && r.level < |r.path| then Some(r.lastLevelUpAt + r.path[r.level] * SECONDS_PER_DAY)
    else None
  }

  /** A record is due exactly when its review time exists and has been reached. */
  lemma DueIffReached(r: Record, t: int)
    ensures Due(r, t) <==> NextReviewAt(r).Some? && t >= NextReviewAt(r).value
  {
  }

  /** Looking `offset` seconds ahead is the same as asking at the later time. */
  lemma OffsetShiftsClock(r: Record, now: int, offset: Offset)
    ensures DueAt(r, now, offset) <==> DueAt(r, now + offset, 0)
  {
  }

  /** Once due, a record stays due as time passes. */
  lemma DueStays(r: Record, t: int, t': int)
    requires Due(r, t) && t <= t'
    ensures Due(r, t')
  {
  }

  /** Graduated records, level-0 records with a negative `last_level_up_at`,
      and records past the end of their path are never due. */
  lemma NeverDue(r: Record, t: int)
    requires r.graduated || (r.level == 0 && r.lastLevelUpAt < 0) || (r.level > 0 && r.level >= |r.path|)
    ensures !Due(r, t)
  {
  }

  // ---------------------------------------------------------------------
  // learning-due
  // ---------------------------------------------------------------------

  /** One result row: `wait_days` reads 0 when the wait is NULL. */
  datatype DueRow = DueRow(id: string, songId: string, songName: string, level: nat, waitDays: nat, artistId: string)

  /** The rows the WHERE clause and the join with `song` keep, in table order. */
  function Candidates(records: seq<Record>, songs: map<string, Song>, t: int): (c: seq<Record>)
    ensures forall x :: x in c ==> Due(x, t) && x.songId in songs
    ensures multiset(c) <= multiset(records) && |c| <= |records|
    ensures forall i :: 0 <= i < |records| && Due(records[i], t) && records[i].songId in songs ==> records[i] in c
  {
    if records == [] then []
    else
      var init := records[..|records| - 1];
      var last := records[|records| - 1];
      var c := Candidates(init, songs, t);
      assert records == init + [last];
      if Due(last, t) && last.songId in songs then c + [last] else c
  }

  /** Non-increasing in level. */
  predicate ByLevelDesc(s: seq<Record>) {
    forall i, j :: 0 <= i < j < |s| ==> s[i].level >= s[j].level
  }

  /** Puts `x` before the first element of `s` whose level is not higher. */
  function Insert(x: Record, s: seq<Record>): (r: seq<Record>)
    ensures |r| == |s| + 1
  {
    if s == [] || x.level >= s[0].level then [x] + s
    else [s[0]] + Insert(x, s[1..])
  }

  lemma {:induction false} InsertMultiset(x: Record, s: seq<Record>)
    ensures multiset(Insert(x, s)) == multiset(s) + multiset{x}
  {
    if s != [] && x.level < s[0].level {
      InsertMultiset(x, s[1..]);
      assert s == [s[0]] + s[1..];
    }
  }

  lemma {:induction false} InsertElements(x: Record, s: seq<Record>)
    ensures forall y :: y in Insert(x, s) ==> y == x || y in s
  {
    if s != [] && x.level < s[0].level {
      InsertElements(x, s[1..]);
    }
  }

  /** Inserting into a list ordered by level keeps it ordered. */
  lemma {:induction false} InsertSorted(x: Record, s: seq<Record>)
    requires ByLevelDesc(s)
    ensures ByLevelDesc(Insert(x, s))
  {
    if s != [] && x.level < s[0].level {
      var t := Insert(x, s[1..]);
      InsertSorted(x, s[1..]);
      InsertElements(x, s[1..]);
      assert forall y :: y in s[1..] ==> s[0].level >= y.level;
      assert forall i :: 0 <= i < |t| ==> s[0].level >= t[i].level by {
        assert forall i :: 0 <= i < |t| ==> t[i] in t;
      }
      var r := [s[0]] + t;
      assert forall i :: 1 <= i < |r| ==> r[i] == t[i - 1];
    }
  }

  /** The `ORDER BY level DESC` of the listing. SQL leaves the order among
      equal levels open; this one keeps table order. */
  function SortByLevel(s: seq<Record>): (r: seq<Record>)
    ensures ByLevelDesc(r)
    ensures multiset(r) == multiset(s)
    ensures |r| == |s|
  {
    if s == [] then []
    else
      var t := SortByLevel(s[1..]);
      InsertSorted(s[0], t);
      InsertMultiset(s[0], t);
      assert s == [s[0]] + s[1..];
      Insert(s[0], t)
  }

  function Take(s: seq<Record>, limit: nat): (r: seq<Record>)
    ensures |r| == if limit < |s| then limit else |s|
    ensures r == s[..|r|]
  {
    if limit < |s| then s[..limit] else s
  }

  function ToRow(r: Record, songs: map<string, Song>): (row: DueRow)
    requires r.songId in songs
  {
    var w := WaitDays(r);
    DueRow(r.id, r.songId, songs[r.songId].name, r.level, if w.Some? then w.value else 0,
           songs[r.songId].artistId)
  }

  /** The records `learning-due` reports, best first, before they become rows. */
  function DueRecords(records: seq<Record>, songs: map<string, Song>, now: int, offset: Offset, limit: nat)
    : seq<Record>
  {
    Take(SortByLevel(Candidates(records, songs, now + offset)), limit)
  }

  /** What a reported record is: one of the table's, due, of a known song. */
  lemma DueRecordsAreCandidates(records: seq<Record>, songs: map<string, Song>, now: int, offset: Offset,
                                limit: nat)
    ensures var rs := DueRecords(records, songs, now, offset, limit);
      forall r :: r in rs ==> r in records && Due(r, now + offset) && r.songId in songs
  {
    var c := Candidates(records, songs, now + offset);
    var s := SortByLevel(c);
    var rs := DueRecords(records, songs, now, offset, limit);
    forall r | r in rs ensures r in records && Due(r, now + offset) && r.songId in songs {
      assert r in s;
      assert r in multiset(s);
      assert r in multiset(c);
      assert r in multiset(records);
    }
  }

  /** The result rows of `learning-due` (and step 1 of the review). */
  function DueListing(records: seq<Record>, songs: map<string, Song>, now: int, offset: Offset, limit: nat)
    : (rows: seq<DueRow>)
    ensures var rs := DueRecords(records, songs, now, offset, limit);
      |rows| == |rs| && forall i :: 0 <= i < |rs| ==> rs[i].songId in songs && rows[i] == ToRow(rs[i], songs)
  {
    var rs := DueRecords(records, songs, now, offset, limit);
    DueRecordsAreCandidates(records, songs, now, offset, limit);
    seq(|rs|, i requires 0 <= i < |rs| => ToRow(rs[i], songs))
  }

  // ---------------------------------------------------------------------
  // Properties of the listing
  // ---------------------------------------------------------------------

  /** At most `limit` rows, and fewer only when fewer are due. */
  lemma ListingSize(records: seq<Record>, songs: map<string, Song>, now: int, offset: Offset, limit: nat)
    ensures var n := |Candidates(records, songs, now + offset)|;
      |DueListing(records, songs, now, offset, limit)| == if limit < n then limit else n
  {
  }

  /** Every listed record is due at `now + offset`, not graduated, of a
      known song, and its row reports its level and wait. */
  lemma ListingRowsAreDue(records: seq<Record>, songs: map<string, Song>, now: int, offset: Offset,
                          limit: nat, i: nat)
    requires i < |DueListing(records, songs, now, offset, limit)|
    ensures var r := DueRecords(records, songs, now, offset, limit)[i];
      var row := DueListing(records, songs, now, offset, limit)[i];
      r in records && DueAt(r, now, offset) && !r.graduated && r.songId in songs
      && row.id == r.id && row.level == r.level && row.songName == songs[r.songId].name
      && row.waitDays == (if r.level < |r.path| then r.path[r.level] else 0)
  {
    var rs := DueRecords(records, songs, now, offset, limit);
    DueRecordsAreCandidates(records, songs, now, offset, limit);
    assert rs[i] in rs;
  }

  /** Rows come highest level first. */
  lemma ListingOrdered(records: seq<Record>, songs: map<string, Song>, now: int, offset: Offset, limit: nat)
    ensures var rows := DueListing(records, songs, now, offset, limit);
      forall i, j :: 0 <= i < j < |rows| ==> rows[i].level >= rows[j].level
  {
    var rs := DueRecords(records, songs, now, offset, limit);
    var s := SortByLevel(Candidates(records, songs, now + offset));
    assert forall i :: 0 <= i < |rs| ==> rs[i] == s[i];
  }

  /** In a list ordered by level, nothing after the first `k` ranks above
      anything among them. */
  lemma SortedTop(s: seq<Record>, k: nat)
    requires ByLevelDesc(s) && k <= |s|
    ensures forall x, y :: x in multiset(s) - multiset(s[..k]) && y in s[..k] ==> x.level <= y.level
  {
    assert s == s[..k] + s[k..];
    assert multiset(s) - multiset(s[..k]) == multiset(s[k..]);
    forall x, y | x in multiset(s[k..]) && y in s[..k]
      ensures x.level <= y.level
    {
      var a :| 0 <= a < |s[k..]| && s[k..][a] == x;
      var b :| 0 <= b < k && s[..k][b] == y;
      assert s[k + a] == x && s[b] == y;
    }
  }

  /** The first `k` of an ordering of `c` are a top `k` of `c`. */
  lemma TopOf(c: seq<Record>, s: seq<Record>, rs: seq<Record>)
    requires ByLevelDesc(s) && multiset(s) == multiset(c) && |rs| <= |s| && rs == s[..|rs|]
    ensures multiset(rs) <= multiset(c)
    ensures forall x, y :: x in multiset(c) - multiset(rs) && y in rs ==> x.level <= y.level
  {
    SortedTop(s, |rs|);
    assert s == rs + s[|rs|..];
    assert multiset(s) == multiset(rs) + multiset(s[|rs|..]);
  }

  /** The listing is the top of the due records: none left out ranks above
      one that is listed, and none is listed more often than it is due. */
  lemma ListingIsTop(records: seq<Record>, songs: map<string, Song>, now: int, offset: Offset, limit: nat)
    ensures var c := Candidates(records, songs, now + offset);
      var rs := DueRecords(records, songs, now, offset, limit);
      multiset(rs) <= multiset(c)
      && forall x, y :: x in multiset(c) - multiset(rs) && y in rs ==> x.level <= y.level
  {
    var c := Candidates(records, songs, now + offset);
    TopOf(c, SortByLevel(c), DueRecords(records, songs, now, offset, limit));
  }

  /** Every due record of a known song is listed when the limit allows it. */
  lemma ListingComplete(records: seq<Record>, songs: map<string, Song>, now: int, offset: Offset,
                        limit: nat, i: nat)
    requires i < |records| && DueAt(records[i], now, offset) && records[i].songId in songs
    requires limit >= |records|
    ensures records[i] in DueRecords(records, songs, now, offset, limit)
  {
    var c := Candidates(records, songs, now + offset);
    var s := SortByLevel(c);
    assert records[i] in c;
    assert records[i] in multiset(s);
  }
}

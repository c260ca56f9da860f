/** The learning commands that change the `learning` table: enrolling songs
    (`learning-batch`) and levelling records up (`learning-song-levelup-ids`).
    The table is a sequence of records held by a store object together with
    the known songs; each command works on a copy and assigns it back only
    when it commits. */
module Learning {
  import opened Wrappers
  import opened Text
  import opened Models
  import opened Schedule
  import Easing

  /** The stored path of every record the batch creates. */
  function NewPath(): seq<nat> {
    Easing.GenerateLevelUpPath(Easing.MAX_LEVEL)
  }

  /** No two records share an id (the table's primary key). */
  predicate DistinctIds(rs: seq<Record>) {
    forall i, j :: 0 <= i < j < |rs| ==> rs[i].id != rs[j].id
  }

  /** A song is being learnt by at most one record at a time. */
  predicate OneActivePerSong(rs: seq<Record>) {
    forall i, j :: 0 <= i < j < |rs| && rs[i].songId == rs[j].songId ==> rs[i].graduated || rs[j].graduated
  }

  predicate HasActive(rs: seq<Record>, song: string) {
    exists i :: 0 <= i < |rs| && rs[i].songId == song && !rs[i].graduated
  }

  predicate HasGraduated(rs: seq<Record>, song: string) {
    exists i :: 0 <= i < |rs| && rs[i].songId == song && rs[i].graduated
  }

  // ---------------------------------------------------------------------
  // learning-batch
  // ---------------------------------------------------------------------

  /** What the batch does with one known song. */
  datatype Outcome = Skipped | Relearned | AlreadyGraduated | Enrolled

  /** An active record wins; a graduated one is relearnt only when listed
      for relearning; a song without records is enrolled. */
  function Classify(rs: seq<Record>, song: string, relearn: seq<string>): Outcome {
    if HasActive(rs, song) then Skipped
    else if HasGraduated(rs, song) then (if song in relearn then Relearned else AlreadyGraduated)
    else Enrolled
  }

  /** The three lists the batch reports. */
  datatype BatchReport = BatchReport(created: seq<string>, skipped: seq<string>, alreadyGraduated: seq<string>)

  datatype BatchState = BatchState(records: seq<Record>, report: BatchReport)

  /** What every step of one batch shares: the known songs, the relearn
      list, `relearn_start_level`, the clock reading and the new path. */
  datatype BatchParams = BatchParams(songs: set<string>, relearn: seq<string>, startLevel: U32, now: int,
                                     path: seq<nat>)

  /** The row a batch inserts for `song`; a relearnt song starts at the
      chosen level with its level-up time set to now. */
  function NewRecord(p: BatchParams, song: string, newId: string, o: Outcome): Record {
    if o == Relearned then Record(newId, song, p.startLevel, p.now, p.now, p.now, p.path, false)
    else Record(newId, song, 0, p.now, p.now, 0, p.path, false)
  }

  /** One song of the batch. `newId` is the identifier a new record would get. */
  function Step(st: BatchState, p: BatchParams, song: string, newId: string): Result<BatchState, AppError> {
    if song !in p.songs then Err(InvalidParameter("song not found: " + song))
    else
      var o := Classify(st.records, song, p.relearn);
      var rep := st.report;
      match o
      case Skipped => Ok(BatchState(st.records, rep.(skipped := rep.skipped + [song])))
      case AlreadyGraduated => Ok(BatchState(st.records, rep.(alreadyGraduated := rep.alreadyGraduated + [song])))
      case _ => Ok(BatchState(st.records + [NewRecord(p, song, newId, o)], rep.(created := rep.created + [newId])))
  }

  /** The songs `ids` in order, each seeing the rows the earlier ones
      inserted; the `i`-th song's new record would get `newIds[i]`. */
  function Run(st: BatchState, p: BatchParams, ids: seq<string>, newIds: seq<string>): Result<BatchState, AppError>
    requires |ids| <= |newIds|
  {
    if ids == [] then Ok(st)
    else
      match Run(st, p, ids[..|ids| - 1], newIds)
      case Err(e) => Err(e)
      case Ok(s) => Step(s, p, ids[|ids| - 1], newIds[|ids| - 1])
  }

  const EMPTY_REPORT: BatchReport := BatchReport([], [], [])

  /** `cmd_learning_batch` as a value: the new table and the report, or the
      error that rolls everything back. */
  function BatchSpec(records: seq<Record>, songs: set<string>, songIdsStr: string, relearnStr: Option<string>,
                     startLevel: U32, now: int, path: seq<nat>, newIds: seq<string>)
    : (r: Result<BatchState, AppError>)
    requires |ParseList(songIdsStr)| <= |newIds|
    ensures ParseList(songIdsStr) == [] ==> r == Err(InvalidParameter("song_ids cannot be empty"))
  {
    var ids := ParseList(songIdsStr);
    if ids == [] then Err(InvalidParameter("song_ids cannot be empty"))
    else
      var relearn := if relearnStr.Some? then ParseList(relearnStr.value) else [];
      Run(BatchState(records, EMPTY_REPORT), BatchParams(songs, relearn, startLevel, now, path), ids, newIds)
  }

  function ReportSize(rep: BatchReport): nat {
    |rep.created| + |rep.skipped| + |rep.alreadyGraduated|
  }

  /** Steps only append: the table keeps its rows, every new row is an
      active record of a listed song on the given path, one per created id,
      and every song lands in exactly one of the three lists. */
  lemma {:induction false} RunAppends(st: BatchState, p: BatchParams, ids: seq<string>, newIds: seq<string>)
    requires |ids| <= |newIds|
    ensures Run(st, p, ids, newIds).Ok? ==>
      var s := Run(st, p, ids, newIds).value;
      var n := |st.records|;
      |s.records| >= n && s.records[..n] == st.records
      && |s.report.created| - |st.report.created| == |s.records| - n
      && ReportSize(s.report) == ReportSize(st.report) + |ids|
      && forall i :: n <= i < |s.records| ==>
           !s.records[i].graduated && s.records[i].songId in ids && s.records[i].songId in p.songs
           && s.records[i].path == p.path && s.records[i].updatedAt == p.now
  {
    if ids != [] {
      var init := ids[..|ids| - 1];
      RunAppends(st, p, init, newIds);
      var r0 := Run(st, p, init, newIds);
      if r0.Ok? {
        var s0 := r0.value;
        var n := |st.records|;
        assert forall x :: x in init ==> x in ids;
        assert s0.records[..n] == st.records;
        var r := Step(s0, p, ids[|ids| - 1], newIds[|ids| - 1]);
        if r.Ok? && |r.value.records| > |s0.records| {
          assert r.value.records[..|s0.records|] == s0.records;
          assert r.value.records[..n] == s0.records[..n];
        }
      }
    }
  }

  /** The batch fails exactly when some listed song is unknown. */
  lemma {:induction false} RunOkIff(st: BatchState, p: BatchParams, ids: seq<string>, newIds: seq<string>)
    requires |ids| <= |newIds|
    ensures Run(st, p, ids, newIds).Ok? <==> forall i :: 0 <= i < |ids| ==> ids[i] in p.songs
  {
    if ids != [] {
      var init := ids[..|ids| - 1];
      RunOkIff(st, p, init, newIds);
      assert forall i :: 0 <= i < |init| ==> init[i] == ids[i];
    }
  }

  /** The error names the first unknown song, whatever follows it. */
  lemma {:induction false} RunFirstUnknown(st: BatchState, p: BatchParams, ids: seq<string>, newIds: seq<string>,
                                           k: nat)
    requires |ids| <= |newIds| && k < |ids| && ids[k] !in p.songs
    requires forall i :: 0 <= i < k ==> ids[i] in p.songs
    ensures Run(st, p, ids, newIds) == Err(InvalidParameter("song not found: " + ids[k]))
  {
    var init := ids[..|ids| - 1];
    if k < |ids| - 1 {
      RunFirstUnknown(st, p, init, newIds, k);
    } else {
      RunOkIff(st, p, init, newIds);
      assert forall i :: 0 <= i < |init| ==> init[i] == ids[i];
    }
  }

  /** Appending one row changes the two existence tests only for its song. */
  lemma HasAppend(rs: seq<Record>, r: Record, x: string)
    ensures HasActive(rs + [r], x) <==> HasActive(rs, x) || (r.songId == x && !r.graduated)
    ensures HasGraduated(rs + [r], x) <==> HasGraduated(rs, x) || (r.songId == x && r.graduated)
  {
    var rs' := rs + [r];
    assert rs'[|rs|] == r;
    if HasActive(rs', x) {
      var i :| 0 <= i < |rs'| && rs'[i].songId == x && !rs'[i].graduated;
      if i < |rs| { assert rs[i] == rs'[i]; }
    }
    if HasGraduated(rs', x) {
      var i :| 0 <= i < |rs'| && rs'[i].songId == x && rs'[i].graduated;
      if i < |rs| { assert rs[i] == rs'[i]; }
    }
    if HasActive(rs, x) {
      var i :| 0 <= i < |rs| && rs[i].songId == x && !rs[i].graduated;
      assert rs'[i] == rs[i];
    }
    if HasGraduated(rs, x) {
      var i :| 0 <= i < |rs| && rs[i].songId == x && rs[i].graduated;
      assert rs'[i] == rs[i];
    }
  }

  /** After the batch a song is being learnt iff it already was, or it was
      listed and either had no record or was listed for relearning. */
  predicate ActiveAfter(rs: seq<Record>, p: BatchParams, ids: seq<string>, x: string) {
    HasActive(rs, x) || (x in ids && (!HasGraduated(rs, x) || x in p.relearn))
  }

  /** The batch never graduates anything, and it leaves a song active
      exactly as `ActiveAfter` says. */
  lemma {:induction false} RunSongState(st: BatchState, p: BatchParams, ids: seq<string>, newIds: seq<string>,
                                        x: string)
    requires |ids| <= |newIds| && Run(st, p, ids, newIds).Ok?
    ensures HasGraduated(Run(st, p, ids, newIds).value.records, x) <==> HasGraduated(st.records, x)
    ensures HasActive(Run(st, p, ids, newIds).value.records, x) <==> ActiveAfter(st.records, p, ids, x)
  {
    if ids != [] {
      var init := ids[..|ids| - 1];
      var y := ids[|ids| - 1];
      assert ids == init + [y];
      RunSongState(st, p, init, newIds, x);
      var s0 := Run(st, p, init, newIds).value;
      if Classify(s0.records, y, p.relearn) in {Relearned, Enrolled} {
        HasAppend(s0.records, NewRecord(p, y, newIds[|ids| - 1], Classify(s0.records, y, p.relearn)), x);
      }
      if x == y {
        RunSongState(st, p, init, newIds, y);
      }
    }
  }

  /** What each new row holds: the `k`-th new row carries the `k`-th created
      id, which is `newIds[j]` for a position `j` where its song is listed; it
      was created now; a relearnt song (one with a graduated record) starts
      at `relearn_start_level` with its level-up time now, any other at level
      0 with level-up time 0. */
  lemma {:induction false} RunNewRows(st: BatchState, p: BatchParams, ids: seq<string>, newIds: seq<string>)
    requires |ids| <= |newIds| && Run(st, p, ids, newIds).Ok?
    ensures var s := Run(st, p, ids, newIds).value;
      var n := |st.records|;
      var c := |st.report.created|;
      |s.records| >= n && |s.report.created| >= c
      && |s.report.created| - c == |s.records| - n
      && s.report.created[..c] == st.report.created
      && forall i :: n <= i < |s.records| ==>
           s.report.created[c + (i - n)] == s.records[i].id
           && (exists j :: 0 <= j < |ids| && ids[j] == s.records[i].songId && newIds[j] == s.records[i].id)
           && s.records[i].createdAt == p.now
           && (if HasGraduated(st.records, s.records[i].songId)
               then s.records[i].level == p.startLevel && s.records[i].lastLevelUpAt == p.now
               else s.records[i].level == 0 && s.records[i].lastLevelUpAt == 0)
  {
    if ids != [] {
      var init := ids[..|ids| - 1];
      var y := ids[|ids| - 1];
      RunNewRows(st, p, init, newIds);
      RunAppends(st, p, init, newIds);
      var s0 := Run(st, p, init, newIds).value;
      var s := Run(st, p, ids, newIds).value;
      var n := |st.records|;
      var c := |st.report.created|;
      var o := Classify(s0.records, y, p.relearn);
      if o in {Relearned, Enrolled} {
        RunSongState(st, p, init, newIds, y);
        var m := |s0.records|;
        assert s.records == s0.records + [NewRecord(p, y, newIds[|ids| - 1], o)];
        assert s.report.created == s0.report.created + [newIds[|ids| - 1]];
        assert s.report.created[..c] == s0.report.created[..c];
        forall i | n <= i < |s.records|
          ensures exists j :: 0 <= j < |ids| && ids[j] == s.records[i].songId && newIds[j] == s.records[i].id
        {
          if i < m {
            var j :| 0 <= j < |init| && init[j] == s0.records[i].songId && newIds[j] == s0.records[i].id;
            assert ids[j] == init[j];
          } else {
            assert ids[|ids| - 1] == s.records[i].songId && newIds[|ids| - 1] == s.records[i].id;
          }
        }
      } else {
        forall i | n <= i < |s.records|
          ensures exists j :: 0 <= j < |ids| && ids[j] == s.records[i].songId && newIds[j] == s.records[i].id
        {
          var j :| 0 <= j < |init| && init[j] == s0.records[i].songId && newIds[j] == s0.records[i].id;
          assert ids[j] == init[j];
        }
      }
    }
  }

  /** A song goes to `already_graduated` iff it was listed, has only
      graduated records and is not to be relearnt. */
  lemma {:induction false} RunAlreadyGraduated(st: BatchState, p: BatchParams, ids: seq<string>,
                                               newIds: seq<string>, x: string)
    requires |ids| <= |newIds| && Run(st, p, ids, newIds).Ok?
    ensures x in Run(st, p, ids, newIds).value.report.alreadyGraduated <==>
      x in st.report.alreadyGraduated
      || (x in ids && !HasActive(st.records, x) && HasGraduated(st.records, x) && x !in p.relearn)
  {
    if ids != [] {
      var init := ids[..|ids| - 1];
      var y := ids[|ids| - 1];
      assert ids == init + [y];
      RunAlreadyGraduated(st, p, init, newIds, x);
      RunSongState(st, p, init, newIds, y);
    }
  }

  /** Two positions of `ids` hold `x`. */
  predicate Repeated(ids: seq<string>, x: string) {
    exists i, j :: 0 <= i < j < |ids| && ids[i] == x && ids[j] == x
  }

  lemma RepeatedAppend(ids: seq<string>, y: string, x: string)
    ensures Repeated(ids + [y], x) <==> Repeated(ids, x) || (x == y && x in ids)
  {
    var ids' := ids + [y];
    if Repeated(ids', x) {
      var i, j :| 0 <= i < j < |ids'| && ids'[i] == x && ids'[j] == x;
      if j < |ids| {
        assert ids[i] == x && ids[j] == x;
      } else {
        assert ids[i] == x;
      }
    }
    if Repeated(ids, x) {
      var i, j :| 0 <= i < j < |ids| && ids[i] == x && ids[j] == x;
      assert ids'[i] == x && ids'[j] == x;
    }
    if x == y && x in ids {
      var i :| 0 <= i < |ids| && ids[i] == x;
      assert ids'[i] == x && ids'[|ids|] == x;
    }
  }

  /** A song is skipped iff it already had an active record, or it is
      listed twice and the first occurrence created its record. */
  lemma {:induction false} RunSkipped(st: BatchState, p: BatchParams, ids: seq<string>, newIds: seq<string>,
                                      x: string)
    requires |ids| <= |newIds| && Run(st, p, ids, newIds).Ok?
    ensures x in Run(st, p, ids, newIds).value.report.skipped <==>
      x in st.report.skipped
      || (x in ids && HasActive(st.records, x))
      || (Repeated(ids, x) && (!HasGraduated(st.records, x) || x in p.relearn))
  {
    if ids != [] {
      var init := ids[..|ids| - 1];
      var y := ids[|ids| - 1];
      assert ids == init + [y];
      RunSkipped(st, p, init, newIds, x);
      RunSongState(st, p, init, newIds, y);
      RepeatedAppend(init, y, x);
      if Repeated(init, x) {
        var i, j :| 0 <= i < j < |init| && init[i] == x && init[j] == x;
      }
    }
  }

  /** The store's invariant over the learning table. */
  predicate ValidTable(rs: seq<Record>) {
    DistinctIds(rs) && OneActivePerSong(rs)
  }

  /** The identifiers still to be handed out are pairwise distinct and
      clash with no row of `rs`. */
  predicate IdsFresh(newIds: seq<string>, rs: seq<Record>) {
    (forall i, j :: 0 <= i < j < |newIds| ==> newIds[i] != newIds[j])
    && forall i, k :: 0 <= i < |newIds| && 0 <= k < |rs| ==> newIds[i] != rs[k].id
  }

  /** Appending an active row for a song without one keeps the invariant. */
  lemma AppendKeepsValid(rs: seq<Record>, r: Record)
    requires ValidTable(rs) && !r.graduated && !HasActive(rs, r.songId)
    requires forall k :: 0 <= k < |rs| ==> rs[k].id != r.id
    ensures ValidTable(rs + [r])
  {
    var rs' := rs + [r];
    assert rs'[|rs|] == r;
    assert forall i :: 0 <= i < |rs| ==> rs'[i] == rs[i];
  }

  /** A successful batch keeps the table valid, provided the identifiers
      it hands out are fresh; the unused ones stay fresh. */
  lemma {:induction false} RunKeepsValid(st: BatchState, p: BatchParams, ids: seq<string>, newIds: seq<string>)
    requires |ids| <= |newIds| && ValidTable(st.records) && IdsFresh(newIds, st.records)
    ensures Run(st, p, ids, newIds).Ok? ==>
      ValidTable(Run(st, p, ids, newIds).value.records)
      && IdsFresh(newIds[|ids|..], Run(st, p, ids, newIds).value.records)
  {
    if ids != [] && Run(st, p, ids, newIds).Ok? {
      var n := |ids| - 1;
      var init := ids[..n];
      RunKeepsValid(st, p, init, newIds);
      var s0 := Run(st, p, init, newIds).value;
      var y := ids[n];
      var o := Classify(s0.records, y, p.relearn);
      var rest := newIds[n..];
      assert rest[0] == newIds[n];
      if o in {Relearned, Enrolled} {
        var r := NewRecord(p, y, newIds[n], o);
        AppendKeepsValid(s0.records, r);
        var rs' := s0.records + [r];
        var tail := newIds[n + 1..];
        assert tail == rest[1..];
        forall i, k | 0 <= i < |tail| && 0 <= k < |rs'|
          ensures tail[i] != rs'[k].id
        {
          assert tail[i] == rest[i + 1];
          if k == |s0.records| {
            assert rs'[k].id == rest[0];
          } else {
            assert rs'[k] == s0.records[k];
          }
        }
      } else {
        assert newIds[n + 1..] == rest[1..];
      }
    }
  }

  /** The same, for a batch that starts from the empty report. */
  lemma BatchKeepsValid(rs: seq<Record>, p: BatchParams, ids: seq<string>, newIds: seq<string>, s: BatchState)
    requires |ids| <= |newIds| && ValidTable(rs) && IdsFresh(newIds, rs)
    requires Run(BatchState(rs, EMPTY_REPORT), p, ids, newIds) == Ok(s)
    ensures ValidTable(s.records)
  {
    RunKeepsValid(BatchState(rs, EMPTY_REPORT), p, ids, newIds);
  }

  /** The batch creates at most one record per song. */
  lemma OneNewPerSong(st: BatchState, p: BatchParams, ids: seq<string>, newIds: seq<string>, i: nat, j: nat)
    requires |ids| <= |newIds| && ValidTable(st.records) && IdsFresh(newIds, st.records)
    requires Run(st, p, ids, newIds).Ok?
    requires |st.records| <= i < j < |Run(st, p, ids, newIds).value.records|
    ensures Run(st, p, ids, newIds).value.records[i].songId != Run(st, p, ids, newIds).value.records[j].songId
  {
    RunKeepsValid(st, p, ids, newIds);
    RunAppends(st, p, ids, newIds);
  }

  // ---------------------------------------------------------------------
  // learning-song-levelup-ids
  // ---------------------------------------------------------------------

  /** The position of the row a lookup by primary key returns. */
  function FindRecord(rs: seq<Record>, id: string): (k: Option<nat>)
    ensures k.Some? ==> k.value < |rs| && rs[k.value].id == id
                        && forall j :: 0 <= j < k.value ==> rs[j].id != id
    ensures k.None? ==> forall j :: 0 <= j < |rs| ==> rs[j].id != id
  {
    if rs == [] then None
    else if rs[0].id == id then Some(0)
    else
      match FindRecord(rs[1..], id)
      case None => None
      case Some(k) => Some(k + 1)
  }

  /** What the read-only scan collects: `(id, level)` of every found row,
      and the ids with no row. */
  datatype Scanned = Scanned(snapshot: seq<(string, nat)>, missing: seq<string>)

  /** The scan over `ids` in order; a graduated row stops it at once. */
  function Scan(rs: seq<Record>, ids: seq<string>): Result<Scanned, AppError> {
    if ids == [] then Ok(Scanned([], []))
    else
      match Scan(rs, ids[..|ids| - 1])
      case Err(e) => Err(e)
      case Ok(sc) =>
        var id := ids[|ids| - 1];
        match FindRecord(rs, id)
        case None => Ok(sc.(missing := sc.missing + [id]))
        case Some(i) =>
          if rs[i].graduated then Err(InvalidParameter("learning record already graduated: " + rs[i].id))
          else Ok(sc.(snapshot := sc.snapshot + [(rs[i].id, rs[i].level)]))
  }

  /** One row after its update, given the level read by the scan. */
  function Bump(r: Record, lvl: nat, now: int): Record {
    if lvl >= GRADUATION_LEVEL then r.(graduated := true, updatedAt := now, lastLevelUpAt := now)
    else r.(level := lvl + 1, updatedAt := now, lastLevelUpAt := now)
  }

  /** `UPDATE learning SET … WHERE id = ?`. */
  function ApplyOne(rs: seq<Record>, id: string, lvl: nat, now: int): (r: seq<Record>)
    ensures |r| == |rs|
  {
    seq(|rs|, i requires 0 <= i < |rs| => if rs[i].id == id then Bump(rs[i], lvl, now) else rs[i])
  }

  /** The updates of the snapshot, in order. */
  function ApplyAll(rs: seq<Record>, snap: seq<(string, nat)>, now: int): (r: seq<Record>)
    ensures |r| == |rs|
  {
    if snap == [] then rs
    else
      var n := |snap| - 1;
      ApplyOne(ApplyAll(rs, snap[..n], now), snap[n].0, snap[n].1, now)
  }

  /** How many snapshot entries graduate. */
  function Graduating(snap: seq<(string, nat)>): (g: nat)
    ensures g <= |snap|
  {
    if snap == [] then 0
    else Graduating(snap[..|snap| - 1]) + (if snap[|snap| - 1].1 >= GRADUATION_LEVEL then 1 else 0)
  }

  datatype LevelUpReport = LevelUpReport(leveledUp: nat, graduated: nat, total: nat)

  /** The counts reported for a snapshot. */
  function Tally(snap: seq<(string, nat)>): (rep: LevelUpReport)
    ensures rep.graduated == Graduating(snap)
    ensures rep.leveledUp + rep.graduated == rep.total == |snap|
  {
    var g := Graduating(snap);
    LevelUpReport(|snap| - g, g, |snap|)
  }

  const NOT_FOUND_PREFIX: string := "learning record(s) not found: "

  /** The level-up of an already parsed id list. */
  function LevelUpIds(rs: seq<Record>, ids: seq<string>, now: int): Result<(seq<Record>, LevelUpReport), AppError> {
    if ids == [] then Err(InvalidParameter("ids cannot be empty"))
    else
      match Scan(rs, ids)
      case Err(e) => Err(e)
      case Ok(sc) =>
        if sc.missing != [] then Err(NotFound(NOT_FOUND_PREFIX + Join(sc.missing, ", ")))
        else Ok((ApplyAll(rs, sc.snapshot, now), Tally(sc.snapshot)))
  }

  /** `cmd_learning_song_levelup_ids` as a value: the new table and the
      counts, or the error that leaves the table as it was. */
  function LevelUpSpec(rs: seq<Record>, idsStr: string, now: int): (r: Result<(seq<Record>, LevelUpReport), AppError>)
    ensures ParseList(idsStr) == [] ==> r == Err(InvalidParameter("ids cannot be empty"))
  {
    LevelUpIds(rs, ParseList(idsStr), now)
  }

  /** The id of a row in the table is found, by itself when ids are unique. */
  predicate Present(rs: seq<Record>, id: string) {
    exists i :: 0 <= i < |rs| && rs[i].id == id
  }

  /** A row found by the scan that is graduated. */
  predicate GraduatedId(rs: seq<Record>, id: string) {
    FindRecord(rs, id).Some? && rs[FindRecord(rs, id).value].graduated
  }

  /** The ids of a snapshot, in order. */
  function SnapIds(snap: seq<(string, nat)>): (r: seq<string>)
    ensures |r| == |snap| && forall k :: 0 <= k < |snap| ==> r[k] == snap[k].0
  {
    seq(|snap|, k requires 0 <= k < |snap| => snap[k].0)
  }

  /** A primary-key lookup finds exactly the ids present in the table. */
  lemma PresentFound(rs: seq<Record>, x: string)
    ensures Present(rs, x) <==> FindRecord(rs, x).Some?
  {
    if FindRecord(rs, x).Some? {
      assert rs[FindRecord(rs, x).value].id == x;
    }
  }

  /** The scan succeeds iff no listed id names a graduated row. */
  lemma {:induction false} ScanOk(rs: seq<Record>, ids: seq<string>)
    ensures Scan(rs, ids).Ok? <==> forall k :: 0 <= k < |ids| ==> !GraduatedId(rs, ids[k])
  {
    if ids != [] {
      var init := ids[..|ids| - 1];
      ScanOk(rs, init);
      assert forall k :: 0 <= k < |init| ==> init[k] == ids[k];
    }
  }

  /** After a successful scan every listed id is either in the snapshot,
      with the level its row has, or missing, and nothing else is. */
  lemma {:induction false} ScanContents(rs: seq<Record>, ids: seq<string>, x: string)
    requires Scan(rs, ids).Ok?
    ensures var sc := Scan(rs, ids).value;
      |sc.snapshot| + |sc.missing| == |ids|
      && (x in sc.missing <==> x in ids && !Present(rs, x))
      && (x in SnapIds(sc.snapshot) <==> x in ids && Present(rs, x))
      && forall k :: 0 <= k < |sc.snapshot| ==>
           FindRecord(rs, sc.snapshot[k].0).Some?
           && sc.snapshot[k].1 == rs[FindRecord(rs, sc.snapshot[k].0).value].level
  {
    if ids != [] {
      var n := |ids| - 1;
      var init := ids[..n];
      var id := ids[n];
      assert ids == init + [id];
      ScanContents(rs, init, x);
      PresentFound(rs, x);
      PresentFound(rs, id);
      var sc := Scan(rs, init).value;
      match FindRecord(rs, id)
      case None =>
      case Some(i) =>
        var e := (rs[i].id, rs[i].level);
        assert SnapIds(sc.snapshot + [e]) == SnapIds(sc.snapshot) + [id];
        var snap' := sc.snapshot + [e];
        assert forall k :: 0 <= k < |sc.snapshot| ==> snap'[k] == sc.snapshot[k];
    }
  }

  /** An id that names a graduated row aborts the scan with its own
      message, whatever the earlier ids were, found or missing. */
  lemma {:induction false} ScanFirstGraduated(rs: seq<Record>, ids: seq<string>, k: nat)
    requires k < |ids| && GraduatedId(rs, ids[k])
    requires forall j :: 0 <= j < k ==> !GraduatedId(rs, ids[j])
    ensures Scan(rs, ids) == Err(InvalidParameter("learning record already graduated: " + ids[k]))
  {
    var init := ids[..|ids| - 1];
    if k < |ids| - 1 {
      ScanFirstGraduated(rs, init, k);
    } else {
      ScanOk(rs, init);
      assert forall j :: 0 <= j < |init| ==> init[j] == ids[j];
    }
  }

  /** Repeating an update with the same snapshot level changes nothing. */
  lemma BumpIdempotent(r: Record, lvl: nat, now: int)
    ensures Bump(Bump(r, lvl, now), lvl, now) == Bump(r, lvl, now)
    ensures Bump(r, lvl, now).id == r.id && Bump(r, lvl, now).songId == r.songId
  {
  }

  /** When every snapshot level is the level of the row with that id, each
      row is updated once from its own level if its id was listed, and is
      untouched otherwise. */
  lemma {:induction false} ApplyAllEffect(rs: seq<Record>, snap: seq<(string, nat)>, now: int, i: nat)
    requires i < |rs|
    requires forall k :: 0 <= k < |snap| && snap[k].0 == rs[i].id ==> snap[k].1 == rs[i].level
    ensures ApplyAll(rs, snap, now)[i] ==
      if exists k :: 0 <= k < |snap| && snap[k].0 == rs[i].id then Bump(rs[i], rs[i].level, now) else rs[i]
  {
    if snap != [] {
      var n := |snap| - 1;
      var init := snap[..n];
      assert forall k :: 0 <= k < n ==> init[k] == snap[k];
      ApplyAllEffect(rs, init, now, i);
      BumpIdempotent(rs[i], rs[i].level, now);
      if exists k :: 0 <= k < |snap| && snap[k].0 == rs[i].id {
        var k :| 0 <= k < |snap| && snap[k].0 == rs[i].id;
        if k < n {
          assert init[k].0 == rs[i].id;
        }
      }
    }
  }

  /** Graduations are counted entry by entry. */
  lemma {:induction false} GraduatingAppend(a: seq<(string, nat)>, b: seq<(string, nat)>)
    ensures Graduating(a + b) == Graduating(a) + Graduating(b)
    decreases |b|
  {
    if b != [] {
      var n := |b| - 1;
      assert (a + b)[..|a + b| - 1] == a + b[..n];
      GraduatingAppend(a, b[..n]);
    } else {
      assert a + b == a;
    }
  }

  /** No entry below the graduation level graduates; every entry at or
      above it does. */
  lemma {:induction false} GraduatingExtremes(snap: seq<(string, nat)>)
    ensures (forall k :: 0 <= k < |snap| ==> snap[k].1 < GRADUATION_LEVEL) ==> Graduating(snap) == 0
    ensures (forall k :: 0 <= k < |snap| ==> snap[k].1 >= GRADUATION_LEVEL) ==> Graduating(snap) == |snap|
  {
    if snap != [] {
      var init := snap[..|snap| - 1];
      assert forall k :: 0 <= k < |init| ==> init[k] == snap[k];
      GraduatingExtremes(init);
    }
  }

  /** The level-up succeeds iff the list is non-empty and every listed id
      names a row that has not graduated. */
  lemma LevelUpOkIff(rs: seq<Record>, ids: seq<string>, now: int)
    ensures LevelUpIds(rs, ids, now).Ok? <==>
        ids != [] && forall k :: 0 <= k < |ids| ==> Present(rs, ids[k]) && !GraduatedId(rs, ids[k])
  {
    ScanOk(rs, ids);
    if ids != [] && Scan(rs, ids).Ok? {
      var sc := Scan(rs, ids).value;
      if sc.missing != [] {
        ScanContents(rs, ids, sc.missing[0]);
        var k :| 0 <= k < |ids| && ids[k] == sc.missing[0];
      } else {
        forall k | 0 <= k < |ids|
          ensures Present(rs, ids[k])
        {
          ScanContents(rs, ids, ids[k]);
        }
      }
    }
  }

  /** A graduated id is reported as soon as the scan reaches it, even when
      ids listed before it are missing. */
  lemma LevelUpGraduatedFirst(rs: seq<Record>, ids: seq<string>, now: int, k: nat)
    requires k < |ids| && GraduatedId(rs, ids[k])
    requires forall j :: 0 <= j < k ==> !GraduatedId(rs, ids[j])
    ensures LevelUpIds(rs, ids, now) == Err(InvalidParameter("learning record already graduated: " + ids[k]))
  {
    ScanFirstGraduated(rs, ids, k);
  }

  /** Without a graduated id, every missing id is reported in one error,
      in the order given. */
  lemma LevelUpMissing(rs: seq<Record>, ids: seq<string>, now: int, k: nat)
    requires k < |ids| && !Present(rs, ids[k])
    requires forall j :: 0 <= j < |ids| ==> !GraduatedId(rs, ids[j])
    ensures exists missing: seq<string> ::
      LevelUpIds(rs, ids, now) == Err(NotFound(NOT_FOUND_PREFIX + Join(missing, ", ")))
      && ids[k] in missing && forall x :: x in missing <==> x in ids && !Present(rs, x)
  {
    ScanOk(rs, ids);
    var sc := Scan(rs, ids).value;
    ScanContents(rs, ids, ids[k]);
    forall x
      ensures x in sc.missing <==> x in ids && !Present(rs, x)
    {
      ScanContents(rs, ids, x);
    }
  }

  /** On success each row whose id was listed is updated once, from its
      own level, however often it was listed; every other row is kept; and
      the counts add up to the number of listed ids. */
  lemma LevelUpEffect(rs: seq<Record>, ids: seq<string>, now: int, i: nat)
    requires DistinctIds(rs) && LevelUpIds(rs, ids, now).Ok? && i < |rs|
    ensures var (t, rep) := LevelUpIds(rs, ids, now).value;
      |t| == |rs|
      && t[i] == (if rs[i].id in ids then Bump(rs[i], rs[i].level, now) else rs[i])
      && rep.leveledUp + rep.graduated == rep.total == |ids|
  {
    var sc := Scan(rs, ids).value;
    var snap := sc.snapshot;
    ScanContents(rs, ids, rs[i].id);
    forall k | 0 <= k < |snap| && snap[k].0 == rs[i].id
      ensures snap[k].1 == rs[i].level
    {
      var j := FindRecord(rs, snap[k].0).value;
      assert rs[j].id == rs[i].id;
    }
    ApplyAllEffect(rs, snap, now, i);
    if rs[i].id in ids {
      assert rs[i].id in SnapIds(snap);
      var k :| 0 <= k < |snap| && SnapIds(snap)[k] == rs[i].id;
      assert snap[k].0 == rs[i].id;
    } else {
      assert rs[i].id !in SnapIds(snap);
      assert forall k :: 0 <= k < |snap| ==> SnapIds(snap)[k] == snap[k].0;
    }
  }

  /** A successful level-up keeps the table valid: ids and songs stay put
      and no row stops being graduated. */
  lemma LevelUpKeepsValid(rs: seq<Record>, ids: seq<string>, now: int)
    requires ValidTable(rs) && LevelUpIds(rs, ids, now).Ok?
    ensures ValidTable(LevelUpIds(rs, ids, now).value.0)
  {
    var t := LevelUpIds(rs, ids, now).value.0;
    forall i | 0 <= i < |rs|
      ensures t[i].id == rs[i].id && t[i].songId == rs[i].songId && (rs[i].graduated ==> t[i].graduated)
    {
      LevelUpEffect(rs, ids, now, i);
    }
  }

  /** Listing an id twice raises its row once but counts it twice. */
  lemma LevelUpTwice(rs: seq<Record>, a: string, now: int, i: nat)
    requires DistinctIds(rs) && i < |rs| && rs[i].id == a && !rs[i].graduated && rs[i].level < GRADUATION_LEVEL
    ensures LevelUpIds(rs, [a, a], now).Ok?
    ensures LevelUpIds(rs, [a, a], now).value.0[i].level == rs[i].level + 1
    ensures LevelUpIds(rs, [a, a], now).value.1.total == 2
  {
    assert FindRecord(rs, a) == Some(i) by {
      var j := FindRecord(rs, a).value;
      assert rs[j].id == a;
    }
    assert Present(rs, a);
    LevelUpOkIff(rs, [a, a], now);
    LevelUpEffect(rs, [a, a], now, i);
  }

  /** Once the scan fails part-way, scanning more ids changes nothing. */
  lemma {:induction false} ScanErrPrefix(rs: seq<Record>, ids: seq<string>, n: nat)
    requires n <= |ids| && Scan(rs, ids[..n]).Err?
    ensures Scan(rs, ids) == Scan(rs, ids[..n])
    decreases |ids| - n
  {
    if n < |ids| {
      var init := ids[..|ids| - 1];
      assert init[..n] == ids[..n];
      ScanErrPrefix(rs, init, n);
    } else {
      assert ids[..n] == ids;
    }
  }

  // ---------------------------------------------------------------------
  // The loops of the two commands
  // ---------------------------------------------------------------------

  /** The batch loop over a copy of the table: it stops at the first
      unknown song, as the rollback does. */
  method RunBatch(rs: seq<Record>, p: BatchParams, ids: seq<string>, newIds: seq<string>)
    returns (r: Result<BatchState, AppError>)
    requires |ids| <= |newIds|
    ensures r == Run(BatchState(rs, EMPTY_REPORT), p, ids, newIds)
  {
    ghost var st := BatchState(rs, EMPTY_REPORT);
    var work := rs;
    var created: seq<string> := [];
    var skipped: seq<string> := [];
    var alreadyGraduated: seq<string> := [];
    for i := 0 to |ids|
      invariant Run(st, p, ids[..i], newIds) == Ok(BatchState(work, BatchReport(created, skipped, alreadyGraduated)))
    {
      assert ids[..i + 1][..i] == ids[..i];
      var song := ids[i];
      if song !in p.songs {
        RunOkIff(st, p, ids[..i], newIds);
        assert forall j :: 0 <= j < i ==> ids[..i][j] == ids[j];
        RunFirstUnknown(st, p, ids, newIds, i);
        return Err(InvalidParameter("song not found: " + song));
      }
      if HasActive(work, song) {
        skipped := skipped + [song];
      } else if HasGraduated(work, song) {
        if song in p.relearn {
          var newId := newIds[i];
          work := work + [Record(newId, song, p.startLevel, p.now, p.now, p.now, p.path, false)];
          created := created + [newId];
        } else {
          alreadyGraduated := alreadyGraduated + [song];
        }
      } else {
        var newId := newIds[i];
        work := work + [Record(newId, song, 0, p.now, p.now, 0, p.path, false)];
        created := created + [newId];
      }
    }
    assert ids[..|ids|] == ids;
    return Ok(BatchState(work, BatchReport(created, skipped, alreadyGraduated)));
  }

  /** The read-only pass of the level-up, over the ids in order. */
  method ScanIds(rs: seq<Record>, ids: seq<string>) returns (r: Result<Scanned, AppError>)
    ensures r == Scan(rs, ids)
  {
    var snapshot: seq<(string, nat)> := [];
    var missing: seq<string> := [];
    for i := 0 to |ids|
      invariant Scan(rs, ids[..i]) == Ok(Scanned(snapshot, missing))
    {
      assert ids[..i + 1][..i] == ids[..i];
      var id := ids[i];
      var k := FindRecord(rs, id);
      if k.None? {
        missing := missing + [id];
      } else if rs[k.value].graduated {
        ScanErrPrefix(rs, ids, i + 1);
        return Err(InvalidParameter("learning record already graduated: " + rs[k.value].id));
      } else {
        snapshot := snapshot + [(rs[k.value].id, rs[k.value].level)];
      }
    }
    assert ids[..|ids|] == ids;
    return Ok(Scanned(snapshot, missing));
  }

  /** The update pass of the level-up and its two counters. */
  method ApplySnapshot(rs: seq<Record>, snapshot: seq<(string, nat)>, now: int)
    returns (t: seq<Record>, rep: LevelUpReport)
    ensures t == ApplyAll(rs, snapshot, now) && rep == Tally(snapshot)
  {
    t := rs;
    var leveledUp: nat := 0;
    var graduated: nat := 0;
    for i := 0 to |snapshot|
      invariant t == ApplyAll(rs, snapshot[..i], now)
      invariant graduated == Graduating(snapshot[..i]) && leveledUp + graduated == i
    {
      assert snapshot[..i + 1][..i] == snapshot[..i];
      var (id, level) := snapshot[i];
      t := ApplyOne(t, id, level, now);
      if level >= GRADUATION_LEVEL {
        graduated := graduated + 1;
      } else {
        leveledUp := leveledUp + 1;
      }
    }
    assert snapshot[..|snapshot|] == snapshot;
    rep := LevelUpReport(leveledUp, graduated, leveledUp + graduated);
  }

  // ---------------------------------------------------------------------
  // The store
  // ---------------------------------------------------------------------

  /** The `learning` table together with the `song` rows it refers to. */
  class LearningDb {
    var records: seq<Record>
    var songs: map<string, Song>

    ghost predicate Valid()
      reads this
    {
      ValidTable(records)
    }

    constructor (songs: map<string, Song>)
      ensures this.songs == songs && records == []
      ensures Valid()
    {
      this.songs := songs;
      records := [];
    }

    /** `cmd_learning_batch`; the `i`-th listed song's record, if one is
        created, gets `newIds[i]`. */
    method Batch(songIdsStr: string, relearnStr: Option<string>, startLevel: U32, now: int, newIds: seq<string>)
      returns (r: Result<BatchReport, AppError>)
      requires |ParseList(songIdsStr)| <= |newIds|
      modifies this`records
      ensures var spec := BatchSpec(old(records), old(songs).Keys, songIdsStr, relearnStr, startLevel, now,
                                    NewPath(), newIds);
        (spec.Ok? ==> r == Ok(spec.value.report) && records == spec.value.records)
        && (spec.Err? ==> r == Err(spec.error) && records == old(records))
      ensures old(Valid()) && IdsFresh(newIds, old(records)) ==> Valid()
    {
      var ids := ParseList(songIdsStr);
      if ids == [] {
        return Err(InvalidParameter("song_ids cannot be empty"));
      }
      var relearn := if relearnStr.Some? then ParseList(relearnStr.value) else [];
      var p := BatchParams(songs.Keys, relearn, startLevel, now, NewPath());
      var run := RunBatch(records, p, ids, newIds);
      if run.Err? {
        return Err(run.error);
      }
      ghost var rs0 := records;
      records := run.value.records;
      if ValidTable(rs0) && IdsFresh(newIds, rs0) {
        BatchKeepsValid(rs0, p, ids, newIds, run.value);
      }
      return Ok(run.value.report);
    }

    /** `cmd_learning_song_levelup_ids`: a read-only scan, then the updates
        from the levels the scan read. */
    method LevelUp(idsStr: string, now: int) returns (r: Result<LevelUpReport, AppError>)
      modifies this`records
      ensures var spec := LevelUpSpec(old(records), idsStr, now);
        (spec.Ok? ==> r == Ok(spec.value.1) && records == spec.value.0)
        && (spec.Err? ==> r == Err(spec.error) && records == old(records))
      ensures old(Valid()) ==> Valid()
    {
      var rs := records;
      var ids := ParseList(idsStr);
      if ids == [] {
        return Err(InvalidParameter("ids cannot be empty"));
      }
      var scan := ScanIds(rs, ids);
      if scan.Err? {
        return Err(scan.error);
      }
      var missing := scan.value.missing;
      if missing != [] {
        return Err(NotFound(NOT_FOUND_PREFIX + Join(missing, ", ")));
      }
      var work, rep := ApplySnapshot(rs, scan.value.snapshot, now);
      records := work;
      if ValidTable(rs) {
        LevelUpKeepsValid(rs, ids, now);
      }
      return Ok(rep);
    }
  }
}

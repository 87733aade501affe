/** `Database` (backend/database.py): the session documents the upload writes
    and the per-day engagement trends read back from them.

    Firestore itself is not modelled. The `sessions` collection is a map from
    document id to session, each session's `faces` sub-collection a sequence;
    a query's stream is an input sequence, and its `where` clauses are
    filters over it. Document ids and `datetime.utcnow()` are parameters. */
module Database {
  import opened Common
  import opened Dict
  import FerModel

  datatype Status = Processing | Completed

  /** A `datetime` as the backend uses it: its `strftime('%Y-%m-%d')` key
      and its position on the clock, in seconds */
  datatype Instant = Instant(dayKey: string, seconds: int)

  /** A document of the `sessions` collection; a field that may be missing
      from a document is an `Option` */
  datatype Session = Session(
    timestamp: Instant,
    className: Option<string>,
    imageName: Option<string>,
    status: Status,
    completedAt: Option<Instant>,
    statistics: Option<FerModel.EngagementStats>,
    institutionId: Option<string>)

  /** The `metadata` dictionary handed to `create_session` */
  datatype Metadata = Metadata(className: Option<string>, imageName: Option<string>)

  /** A document of a session's `faces` sub-collection */
  datatype FaceRecord = FaceRecord(result: FerModel.FaceResult, timestamp: Instant)

  /** `update` on a document that does not exist raises */
  datatype StoreError = SessionNotFound

  /** The face documents one save adds, in the order of the results */
  function Records(results: seq<FerModel.FaceResult>, now: Instant): (rs: seq<FaceRecord>)
    ensures |rs| == |results|
    ensures forall i :: 0 <= i < |results| ==> rs[i] == FaceRecord(results[i], now)
  {
    seq(|results|, i requires 0 <= i < |results| => FaceRecord(results[i], now))
  }

  /** The `session_data` document `create_session` writes: four fields, so
      no statistics, completion time or institution */
  function NewSession(metadata: Metadata, now: Instant): (s: Session)
    ensures s.status == Processing && s.timestamp == now
    ensures s.className == Some(metadata.className.GetOr("Unknown"))
    ensures s.imageName == Some(metadata.imageName.GetOr("Unknown"))
    ensures s.statistics.None? && s.completedAt.None? && s.institutionId.None?
  {
    Session(now, Some(metadata.className.GetOr("Unknown")), Some(metadata.imageName.GetOr("Unknown")),
            Processing, None, None, None)
  }

  /** The session after `save_analysis_results` has updated it (lines 70-74) */
  function Complete(s: Session, stats: FerModel.EngagementStats, now: Instant): (c: Session)
    ensures c.status == Completed && c.completedAt == Some(now) && c.statistics == Some(stats)
    ensures c.timestamp == s.timestamp && c.className == s.className && c.imageName == s.imageName
    ensures c.institutionId == s.institutionId
  {
    s.(status := Completed, completedAt := Some(now), statistics := Some(stats))
  }

  /** The face documents already stored under session `id` */
  function FacesUnder(faces: map<string, seq<FaceRecord>>, id: string): seq<FaceRecord> {
    if id in faces then faces[id] else []
  }

  class SessionStore {
    var sessions: map<string, Session>
    var faces: map<string, seq<FaceRecord>>

    /** Faces only exist under a session, and a completed session carries its
        statistics and completion time */
    ghost predicate Valid()
      reads this
    {
      && faces.Keys <= sessions.Keys
      && forall id :: id in sessions && sessions[id].status == Completed ==>
           sessions[id].statistics.Some? && sessions[id].completedAt.Some?
    }

    constructor ()
      ensures Valid()
      ensures sessions == map[] && faces == map[]
    {
      sessions := map[];
      faces := map[];
    }

    /** `create_session` (lines 46-57); `id` is the id Firestore generates */
    method CreateSession(id: string, metadata: Metadata, now: Instant)
      requires Valid()
      modifies this
      ensures Valid()
      ensures sessions == old(sessions)[id := NewSession(metadata, now)]
      ensures faces == old(faces)
    {
      var data := Session(now, Some(metadata.className.GetOr("Unknown")), Some(metadata.imageName.GetOr("Unknown")),
                          Processing, None, None, None);
      sessions := sessions[id := data];
    }

    /** `save_analysis_results` (lines 69-87): complete the session, store the
        statistics and add one face document per result */
    method SaveAnalysisResults(id: string, results: seq<FerModel.FaceResult>, stats: FerModel.EngagementStats, now: Instant)
      returns (r: Result<(), StoreError>)
      requires Valid()
      modifies this
      ensures Valid()
      ensures r.Ok? <==> id in old(sessions)
      ensures r.Err? ==> sessions == old(sessions) && faces == old(faces)
      ensures r.Ok? ==> sessions == old(sessions)[id := Complete(old(sessions)[id], stats, now)]
      ensures r.Ok? ==> faces == old(faces)[id := FacesUnder(old(faces), id) + Records(results, now)]
    {
      if id !in sessions {
        return Err(SessionNotFound);
      }
      sessions := sessions[id := sessions[id].(status := Completed, completedAt := Some(now), statistics := Some(stats))];
      var batch: seq<FaceRecord> := [];
      var i := 0;
      while i < |results|
        invariant 0 <= i <= |results|
        invariant batch == Records(results[..i], now)
      {
        batch := batch + [FaceRecord(results[i], now)];
        i := i + 1;
      }
      assert results[..|results|] == results;
      var existing := FacesUnder(faces, id);
      faces := faces[id := existing + batch];
      return Ok(());
    }
  }

  // ---- get_engagement_trends ----

  /** One value of `daily_stats` */
  datatype DayTotals = DayTotals(totalFaces: nat, engaged: nat, disengaged: nat, sessions: nat)

  const NoDay: DayTotals := DayTotals(0, 0, 0, 0)

  /** `stats.get('total_faces', 0)` and its siblings, with `stats = session.get('statistics', {})` */
  function FacesIn(s: Session): (n: int)
    ensures n >= 0
  {
    if s.statistics.Some? then s.statistics.value.totalFaces else 0
  }
  function EngagedIn(s: Session): (n: int)
    ensures n >= 0
  {
    if s.statistics.Some? then s.statistics.value.engagedCount else 0
  }
  function DisengagedIn(s: Session): (n: int)
    ensures n >= 0
  {
    if s.statistics.Some? then s.statistics.value.disengagedCount else 0
  }
  function OneSession(s: Session): int { 1 }

  function DayKeyOf(s: Session): string { s.timestamp.dayKey }

  /** Lines 184-188: add one session to its day */
  function AddToDay(d: DayTotals, s: Session): DayTotals {
    DayTotals(d.totalFaces + FacesIn(s), d.engaged + EngagedIn(s), d.disengaged + DisengagedIn(s), d.sessions + 1)
  }

  function DayFaces(d: DayTotals): int { d.totalFaces }
  function DaySessions(d: DayTotals): int { d.sessions }

  /** The `where` clauses of lines 166-168 */
  predicate InTrendWindow(s: Session, start: int) {
    s.timestamp.seconds >= start && s.status == Completed
  }

  /** The stream of the trends query over the collection `collection` */
  function TrendQuery(collection: seq<Session>, start: int): (ss: seq<Session>)
    ensures forall s :: s in ss <==> s in collection && InTrendWindow(s, start)
  {
    if collection == [] then []
    else
      var ss := TrendQuery(collection[..|collection| - 1], start);
      var last := collection[|collection| - 1];
      assert forall s :: s in collection <==> s in collection[..|collection| - 1] || s == last;
      if InTrendWindow(last, start) then ss + [last] else ss
  }

  /** `daily_stats` after the loop of lines 172-188 has seen `ss` */
  function DailyStats(ss: seq<Session>): Dict<DayTotals> {
    Tally(ss, DayKeyOf, NoDay, AddToDay)
  }

  /** `get_engagement_trends` (lines 164-190), with `now` for `datetime.utcnow()` */
  method GetEngagementTrends(collection: seq<Session>, now: Instant, days: int) returns (daily: Dict<DayTotals>)
    ensures daily == DailyStats(TrendQuery(collection, now.seconds - days * 86400))
  {
    var start := now.seconds - days * 86400;
    var stream := TrendQuery(collection, start);
    daily := [];
    var i := 0;
    while i < |stream|
      invariant 0 <= i <= |stream|
      invariant daily == DailyStats(stream[..i])
    {
      var session := stream[i];
      var key := session.timestamp.dayKey;
      DayStep(stream, i);
      var entry := Get(daily, key, NoDay);
      entry := entry.(totalFaces := entry.totalFaces + FacesIn(session));
      entry := entry.(engaged := entry.engaged + EngagedIn(session));
      entry := entry.(disengaged := entry.disengaged + DisengagedIn(session));
      entry := entry.(sessions := entry.sessions + 1);
      daily := Put(daily, key, entry);
      i := i + 1;
    }
    assert stream[..|stream|] == stream;
  }

  /** What one more session of the stream adds to its day */
  lemma DayStep(stream: seq<Session>, i: nat)
    requires i < |stream|
    ensures DailyStats(stream[..i + 1])
         == Put(DailyStats(stream[..i]), DayKeyOf(stream[i]), AddToDay(Get(DailyStats(stream[..i]), DayKeyOf(stream[i]), NoDay), stream[i]))
  {
    assert stream[..i + 1] == stream[..i] + [stream[i]];
    TallySnoc(stream[..i], stream[i], DayKeyOf, NoDay, AddToDay);
  }

  /** Every session the trends query reads from the store is one that
      `save_analysis_results` completed, so its statistics are present */
  lemma TrendSessionsHaveStatistics(store: SessionStore, collection: seq<Session>, start: int)
    requires store.Valid()
    requires forall s :: s in collection ==> s in store.sessions.Values
    ensures forall s :: s in TrendQuery(collection, start) ==> s.statistics.Some? && s.completedAt.Some?
  {
    forall s | s in TrendQuery(collection, start)
      ensures s.statistics.Some? && s.completedAt.Some?
    {
      var id :| id in store.sessions && store.sessions[id] == s;
    }
  }

  /** The totals of a run of sessions, as the day entry accumulates them from zero */
  lemma {:induction false} FoldDay(ss: seq<Session>)
    ensures Fold(ss, NoDay, AddToDay).totalFaces == SumOf(ss, FacesIn)
    ensures Fold(ss, NoDay, AddToDay).engaged == SumOf(ss, EngagedIn)
    ensures Fold(ss, NoDay, AddToDay).disengaged == SumOf(ss, DisengagedIn)
    ensures Fold(ss, NoDay, AddToDay).sessions == |ss|
  {
    if ss != [] {
      FoldDay(ss[..|ss| - 1]);
    }
  }

  /** The entry `d` holds the sums of the sessions `day` */
  predicate DayMatches(d: DayTotals, day: seq<Session>) {
    && d.totalFaces == SumOf(day, FacesIn)
    && d.engaged == SumOf(day, EngagedIn)
    && d.disengaged == SumOf(day, DisengagedIn)
    && d.sessions == |day|
  }

  /** One entry per day that occurs, and each day's entry sums exactly that
      day's sessions */
  lemma TrendDays(ss: seq<Session>)
    ensures DistinctKeys(DailyStats(ss))
    ensures forall k :: k in Keys(DailyStats(ss)) <==> exists i :: 0 <= i < |ss| && ss[i].timestamp.dayKey == k
    ensures forall k :: DayMatches(Get(DailyStats(ss), k, NoDay), Select(ss, DayKeyOf, k))
  {
    TallyKeys(ss, DayKeyOf, NoDay, AddToDay);
    forall k ensures DayMatches(Get(DailyStats(ss), k, NoDay), Select(ss, DayKeyOf, k)) {
      TallyGet(ss, DayKeyOf, NoDay, AddToDay, k);
      FoldDay(Select(ss, DayKeyOf, k));
    }
  }

  /** Summed over the days, the entries count every session of the stream once
      and every face once */
  lemma TrendTotals(ss: seq<Session>)
    ensures Total(DailyStats(ss), DaySessions) == |ss|
    ensures Total(DailyStats(ss), DayFaces) == SumOf(ss, FacesIn)
  {
    TrendSessions(ss);
    TrendFaces(ss);
  }

  lemma TrendSessions(ss: seq<Session>)
    ensures Total(DailyStats(ss), DaySessions) == |ss|
  {
    assert forall v, x :: DaySessions(AddToDay(v, x)) == DaySessions(v) + OneSession(x);
    TallyTotal(ss, DayKeyOf, NoDay, AddToDay, DaySessions, OneSession);
    SumOfOnes(ss);
  }

  lemma TrendFaces(ss: seq<Session>)
    ensures Total(DailyStats(ss), DayFaces) == SumOf(ss, FacesIn)
  {
    assert forall v, x :: DayFaces(AddToDay(v, x)) == DayFaces(v) + FacesIn(x);
    TallyTotal(ss, DayKeyOf, NoDay, AddToDay, DayFaces, FacesIn);
  }

  lemma {:induction false} SumOfOnes(ss: seq<Session>)
    ensures SumOf(ss, OneSession) == |ss|
  {
    if ss != [] {
      SumOfOnes(ss[..|ss| - 1]);
    }
  }
}

/** The logic of the Flask routes (backend/app.py) that is not web plumbing:
    the upload filename check, the upload pipeline from file to saved
    session, and the dashboard totals and trend list. */
module App {
  import opened Common
  import opened Dict
  import FaceDetector
  import FerModel
  import Database

  // ---- allowed_file ----

  const AllowedExtensions: set<string> := {"png", "jpg", "jpeg"}

  /** `s[i]` is the last '.' of `s` */
  predicate IsLastDot(s: string, i: int) {
    0 <= i < |s| && s[i] == '.' && forall j :: i < j < |s| ==> s[j] != '.'
  }

  /** The index of the last '.' of `s`, or -1 when there is none */
  function LastDot(s: string): (i: int)
    ensures -1 <= i < |s|
    ensures i == -1 <==> '.' !in s
    ensures 0 <= i ==> IsLastDot(s, i)
  {
    if s == [] then -1
    else if s[|s| - 1] == '.' then |s| - 1
    else LastDot(s[..|s| - 1])
  }

  /** A '.' with no '.' after it is the last one */
  lemma LastDotUnique(s: string, k: int)
    requires IsLastDot(s, k)
    ensures LastDot(s) == k
  {
    assert s[k] in s;
  }

  /** `ext.lower() in ALLOWED_EXTENSIONS` */
  predicate AllowedExtension(ext: string) {
    Lower(ext) in AllowedExtensions
  }

  /** `allowed_file` (lines 58-60): the text after the last '.', lowercased,
      is an allowed extension */
  function AllowedFile(filename: string): (ok: bool)
    ensures ok <==> exists i :: IsLastDot(filename, i) && AllowedExtension(filename[i + 1..])
  {
    var i := LastDot(filename);
    if i < 0 then
      assert forall k :: !IsLastDot(filename, k);
      false
    else
      assert forall k :: IsLastDot(filename, k) ==> k == i by {
        forall k | IsLastDot(filename, k) ensures k == i {
          LastDotUnique(filename, k);
        }
      }
      AllowedExtension(filename[i + 1..])
  }

  /** The extension's case does not matter */
  lemma AllowedFileIgnoresCase()
    ensures AllowedFile("a.JPG")
  {
    var s := "a.JPG";
    assert IsLastDot(s, 1);
    LastDotUnique(s, 1);
    assert s[2..] == "JPG";
    assert Lower("JPG") == "jpg";
  }

  /** Only the last extension counts */
  lemma AllowedFileLastExtension()
    ensures !AllowedFile("a.jpg.exe")
  {
    var s := "a.jpg.exe";
    assert IsLastDot(s, 5);
    LastDotUnique(s, 5);
    assert s[6..] == "exe";
    assert Lower("exe")[0] == 'e';
  }

  /** A name without a '.' is refused */
  lemma AllowedFileNeedsDot()
    ensures !AllowedFile("noext")
  {
    assert '.' !in "noext";
  }

  // ---- upload_image ----

  /** Lines 118-126: the statistics saved when no face is found */
  function NoFaceStats(): (s: FerModel.EngagementStats)
    ensures s == FerModel.Stats([])
    ensures s.totalFaces == 0 && s.engagedCount == 0 && s.disengagedCount == 0 && s.unknownCount == 0
    ensures s.engagementPercentage == 0.0 && s.emotionDistribution == []
  {
    FerModel.EngagementStats(0, 0, 0, 0, 0.0, [])
  }

  /** The `image` part of the multipart request, with the optional `class_name` field */
  datatype Upload = Upload(filename: string, className: Option<string>)

  /** The three 400 answers */
  datatype UploadError = NoImageFile | NoFileSelected | InvalidFileType

  datatype UploadOutcome =
    | BadRequest(error: UploadError)
    /** The 500 answer of the inner handler: the session stays `processing` */
    | AnalysisFailed(sessionId: string)
    | NoFaces(sessionId: string)
    | Analyzed(sessionId: string, faces: seq<FerModel.FaceResult>, stats: FerModel.EngagementStats)

  /** The session `upload_image` creates for an accepted upload */
  function Pending(upload: Upload, savedName: string, created: Database.Instant): (s: Database.Session)
    ensures s.className == Some(upload.className.GetOr("Unknown Class"))
    ensures s.imageName == Some(savedName)
    ensures s.timestamp == created && s.status == Database.Processing
  {
    Database.NewSession(Database.Metadata(Some(upload.className.GetOr("Unknown Class")), Some(savedName)), created)
  }

  /** `upload_image` (lines 79-169). The secured file name, the session id
      Firestore generates, the two clock readings, the decoded image's shape
      and the cascade's rectangles are inputs; `service` answers the
      classifier's requests as in `FerModel.AnalyzeFaces` */
  method UploadImage(store: Database.SessionStore, upload: Option<Upload>, savedName: string, sessionId: string,
                     created: Database.Instant, completed: Database.Instant,
                     image: Option<FaceDetector.ImageShape>, raw: seq<FaceDetector.Rect>,
                     service: (nat, nat) -> FerModel.Attempt)
    returns (out: UploadOutcome)
    requires store.Valid()
    modifies store
    ensures store.Valid()
    ensures upload.None? ==> out == BadRequest(NoImageFile)
    ensures upload.Some? && upload.value.filename == [] ==> out == BadRequest(NoFileSelected)
    ensures upload.Some? && upload.value.filename != [] && !AllowedFile(upload.value.filename) ==> out == BadRequest(InvalidFileType)
    ensures out.BadRequest? <==> upload.None? || !AllowedFile(upload.value.filename)
    ensures out.BadRequest? ==> store.sessions == old(store.sessions) && store.faces == old(store.faces)
    ensures !out.BadRequest? ==> out.sessionId == sessionId
    ensures out.AnalysisFailed? <==> !out.BadRequest? && image.None?
    ensures out.AnalysisFailed? ==>
      && store.sessions == old(store.sessions)[sessionId := Pending(upload.value, savedName, created)]
      && store.faces == old(store.faces)
    ensures out.NoFaces? <==> !out.BadRequest? && image.Some? && FaceDetector.Validated(raw, image.value) == []
    ensures out.NoFaces? ==>
      && store.sessions == old(store.sessions)[sessionId := Database.Complete(Pending(upload.value, savedName, created), FerModel.Stats([]), completed)]
      && store.faces == old(store.faces)[sessionId := Database.FacesUnder(old(store.faces), sessionId)]
    ensures out.Analyzed? ==>
      && out.faces == FerModel.Analyze(FaceDetector.Validated(raw, image.value), service)
      && out.stats == FerModel.Stats(out.faces)
      && store.sessions == old(store.sessions)[sessionId := Database.Complete(Pending(upload.value, savedName, created), out.stats, completed)]
      && store.faces == old(store.faces)[sessionId := Database.FacesUnder(old(store.faces), sessionId) + Database.Records(out.faces, completed)]
  {
    if upload.None? {
      return BadRequest(NoImageFile);
    }
    var file := upload.value;
    if file.filename == [] {
      return BadRequest(NoFileSelected);
    }
    if !AllowedFile(file.filename) {
      return BadRequest(InvalidFileType);
    }
    var className := file.className.GetOr("Unknown Class");
    store.CreateSession(sessionId, Database.Metadata(Some(className), Some(savedName)), created);
    ghost var pending := Pending(file, savedName, created);
    assert store.sessions[sessionId] == pending;
    out := AnalyzeSession(store, sessionId, image, raw, service, completed);
    if out.NoFaces? || out.Analyzed? {
      ghost var stats := if out.NoFaces? then FerModel.Stats([]) else out.stats;
      UpdateTwice(old(store.sessions), sessionId, pending, Database.Complete(pending, stats, completed));
    }
  }

  lemma UpdateTwice<K, V>(m: map<K, V>, k: K, a: V, b: V)
    ensures m[k := a][k := b] == m[k := b]
  {
  }

  /** The inner `try` of `upload_image` (lines 114-160), once the session
      exists: detect, classify, compute the statistics and save them */
  method AnalyzeSession(store: Database.SessionStore, sessionId: string,
                        image: Option<FaceDetector.ImageShape>, raw: seq<FaceDetector.Rect>,
                        service: (nat, nat) -> FerModel.Attempt, completed: Database.Instant)
    returns (out: UploadOutcome)
    requires store.Valid() && sessionId in store.sessions
    modifies store
    ensures store.Valid()
    ensures !out.BadRequest? && out.sessionId == sessionId
    ensures out.AnalysisFailed? <==> image.None?
    ensures out.AnalysisFailed? ==> store.sessions == old(store.sessions) && store.faces == old(store.faces)
    ensures out.NoFaces? <==> image.Some? && FaceDetector.Validated(raw, image.value) == []
    ensures out.NoFaces? ==>
      && store.sessions == old(store.sessions)[sessionId := Database.Complete(old(store.sessions)[sessionId], FerModel.Stats([]), completed)]
      && store.faces == old(store.faces)[sessionId := Database.FacesUnder(old(store.faces), sessionId)]
    ensures out.Analyzed? ==>
      && out.faces == FerModel.Analyze(FaceDetector.Validated(raw, image.value), service)
      && out.stats == FerModel.Stats(out.faces)
      && store.sessions == old(store.sessions)[sessionId := Database.Complete(old(store.sessions)[sessionId], out.stats, completed)]
      && store.faces == old(store.faces)[sessionId := Database.FacesUnder(old(store.faces), sessionId) + Database.Records(out.faces, completed)]
  {
    var detected := FaceDetector.DetectFaces(image, raw);
    if detected.Err? {
      return AnalysisFailed(sessionId);
    }
    var facesData := detected.value;
    if facesData == [] {
      SaveNoFaces(store, sessionId, completed);
      return NoFaces(sessionId);
    }
    var results, stats := AnalyzeAndSave(store, sessionId, facesData, service, completed);
    return Analyzed(sessionId, results, stats);
  }

  /** Lines 118-126: a photo without faces completes its session with the
      zero record and adds no face document */
  method SaveNoFaces(store: Database.SessionStore, sessionId: string, completed: Database.Instant)
    requires store.Valid() && sessionId in store.sessions
    modifies store
    ensures store.Valid()
    ensures store.sessions == old(store.sessions)[sessionId := Database.Complete(old(store.sessions)[sessionId], FerModel.Stats([]), completed)]
    ensures store.faces == old(store.faces)[sessionId := Database.FacesUnder(old(store.faces), sessionId)]
  {
    var saved := store.SaveAnalysisResults(sessionId, [], NoFaceStats(), completed);
    assert Database.FacesUnder(old(store.faces), sessionId) + Database.Records([], completed)
        == Database.FacesUnder(old(store.faces), sessionId);
  }

  /** Steps 2 to 4 of `upload_image` (lines 140-146) for an image with faces:
      classify them, compute the statistics and save both under the session */
  method AnalyzeAndSave(store: Database.SessionStore, sessionId: string, facesData: seq<FaceDetector.DetectedFace>,
                        service: (nat, nat) -> FerModel.Attempt, completed: Database.Instant)
    returns (results: seq<FerModel.FaceResult>, stats: FerModel.EngagementStats)
    requires store.Valid() && sessionId in store.sessions
    modifies store
    ensures store.Valid()
    ensures results == FerModel.Analyze(facesData, service)
    ensures stats == FerModel.Stats(results)
    ensures store.sessions == old(store.sessions)[sessionId := Database.Complete(old(store.sessions)[sessionId], stats, completed)]
    ensures store.faces == old(store.faces)[sessionId := Database.FacesUnder(old(store.faces), sessionId) + Database.Records(results, completed)]
  {
    results := FerModel.AnalyzeFaces(facesData, service);
    stats := FerModel.CalculateEngagementStats(results);
    var saved := store.SaveAnalysisResults(sessionId, results, stats, completed);
  }

  // ---- get_dashboard_stats ----

  /** Python's `<` on strings: code point by code point, a proper prefix first */
  predicate StrLess(a: string, b: string) {
    if a == [] then b != []
    else if b == [] then false
    else if a[0] != b[0] then a[0] < b[0]
    else StrLess(a[1..], b[1..])
  }

  lemma {:induction false} StrLessIrreflexive(a: string)
    ensures !StrLess(a, a)
  {
    if a != [] {
      StrLessIrreflexive(a[1..]);
    }
  }

  lemma {:induction false} StrLessTransitive(a: string, b: string, c: string)
    requires StrLess(a, b) && StrLess(b, c)
    ensures StrLess(a, c)
  {
    if a != [] && b != [] && c != [] && a[0] == b[0] && b[0] == c[0] {
      StrLessTransitive(a[1..], b[1..], c[1..]);
    }
  }

  lemma {:induction false} StrLessTotal(a: string, b: string)
    requires a != b
    ensures StrLess(a, b) || StrLess(b, a)
  {
    if a != [] && b != [] && a[0] == b[0] {
      assert a == [a[0]] + a[1..] && b == [b[0]] + b[1..];
      StrLessTotal(a[1..], b[1..]);
    }
  }

  /** Entries in strictly ascending key order */
  predicate Ascending<V>(d: Dict<V>) {
    forall i, j :: 0 <= i < j < |d| ==> StrLess(d[i].key, d[j].key)
  }

  function InsertByKey<V>(e: Entry<V>, s: Dict<V>): (r: Dict<V>)
    ensures multiset(r) == multiset(s) + multiset{e}
  {
    if s == [] then [e]
    else if StrLess(s[0].key, e.key) then
      assert s == [s[0]] + s[1..];
      [s[0]] + InsertByKey(e, s[1..])
    else [e] + s
  }

  /** `sorted(trends_dict.items())`: the keys are distinct, so this orders by key */
  function SortByKey<V>(d: Dict<V>): (r: Dict<V>)
    ensures multiset(r) == multiset(d)
  {
    if d == [] then []
    else
      assert d == [d[0]] + d[1..];
      InsertByKey(d[0], SortByKey(d[1..]))
  }

  lemma {:induction false} InsertAscending<V>(e: Entry<V>, s: Dict<V>)
    requires Ascending(s)
    requires forall x :: x in s ==> x.key != e.key
    ensures Ascending(InsertByKey(e, s))
  {
    if s != [] {
      if StrLess(s[0].key, e.key) {
        var t := s[1..];
        assert forall x :: x in t ==> x in s;
        InsertAscending(e, t);
        var rt := InsertByKey(e, t);
        assert forall j :: 0 <= j < |rt| ==> StrLess(s[0].key, rt[j].key) by {
          forall j | 0 <= j < |rt| ensures StrLess(s[0].key, rt[j].key) {
            assert rt[j] in multiset(t) + multiset{e};
            if rt[j] != e {
              var k :| 0 <= k < |t| && t[k] == rt[j];
              assert s[k + 1] == rt[j];
            }
          }
        }
        AscendingCons(s[0], rt);
      } else {
        StrLessTotal(s[0].key, e.key);
        assert forall j :: 0 <= j < |s| ==> StrLess(e.key, s[j].key) by {
          forall j | 0 <= j < |s| ensures StrLess(e.key, s[j].key) {
            if j > 0 {
              StrLessTransitive(e.key, s[0].key, s[j].key);
            }
          }
        }
        AscendingCons(e, s);
      }
    }
  }

  lemma AscendingCons<V>(x: Entry<V>, t: Dict<V>)
    requires Ascending(t)
    requires forall j :: 0 <= j < |t| ==> StrLess(x.key, t[j].key)
    ensures Ascending([x] + t)
  {
    var r := [x] + t;
    forall i, j | 0 <= i < j < |r| ensures StrLess(r[i].key, r[j].key) {
      assert r[j] == t[j - 1];
      if 0 < i {
        assert r[i] == t[i - 1];
      }
    }
  }

  /** The trends are listed in strictly ascending key order */
  lemma {:induction false} SortByKeyAscending<V>(d: Dict<V>)
    requires DistinctKeys(d)
    ensures Ascending(SortByKey(d))
  {
    if d != [] {
      var t := d[1..];
      assert DistinctKeys(t) by {
        forall i, j | 0 <= i < j < |t| ensures t[i].key != t[j].key {
          assert t[i] == d[i + 1] && t[j] == d[j + 1];
        }
      }
      SortByKeyAscending(t);
      forall x | x in SortByKey(t) ensures x.key != d[0].key {
        assert x in multiset(SortByKey(t));
        var k :| 0 <= k < |t| && t[k] == x;
        assert d[k + 1] == x;
      }
      InsertAscending(d[0], SortByKey(t));
    }
  }

  /** One entry of the `trends` list */
  datatype Trend = Trend(date: string, total: nat, engaged: nat, disengaged: nat)

  function TrendOf(e: Entry<Database.DayTotals>): Trend {
    Trend(e.key, e.value.totalFaces, e.value.engaged, e.value.disengaged)
  }

  /** Lines 246-253: one trend per day, in ascending order of the day keys */
  method FormatTrends(trendsDict: Dict<Database.DayTotals>) returns (trends: seq<Trend>)
    requires DistinctKeys(trendsDict)
    ensures |trends| == |trendsDict|
    ensures forall i, j :: 0 <= i < j < |trends| ==> StrLess(trends[i].date, trends[j].date)
    ensures forall e :: e in trendsDict ==> TrendOf(e) in trends
    ensures forall t :: t in trends ==> exists e :: e in trendsDict && TrendOf(e) == t
  {
    var items := SortByKey(trendsDict);
    trends := [];
    var j := 0;
    while j < |items|
      invariant 0 <= j <= |items|
      invariant |trends| == j
      invariant forall k :: 0 <= k < j ==> trends[k] == TrendOf(items[k])
    {
      trends := trends + [Trend(items[j].key, items[j].value.totalFaces, items[j].value.engaged, items[j].value.disengaged)];
      j := j + 1;
    }
    SortedTrends(trendsDict, trends);
  }

  /** The trends built from the sorted items list every day once, in order */
  lemma SortedTrends(trendsDict: Dict<Database.DayTotals>, trends: seq<Trend>)
    requires DistinctKeys(trendsDict)
    requires |trends| == |SortByKey(trendsDict)|
    requires forall k :: 0 <= k < |trends| ==> trends[k] == TrendOf(SortByKey(trendsDict)[k])
    ensures |trends| == |trendsDict|
    ensures forall i, j :: 0 <= i < j < |trends| ==> StrLess(trends[i].date, trends[j].date)
    ensures forall e :: e in trendsDict ==> TrendOf(e) in trends
    ensures forall t :: t in trends ==> exists e :: e in trendsDict && TrendOf(e) == t
  {
    var items := SortByKey(trendsDict);
    assert |items| == |trendsDict| by {
      assert |multiset(items)| == |multiset(trendsDict)|;
    }
    assert forall i, j :: 0 <= i < j < |trends| ==> StrLess(trends[i].date, trends[j].date) by {
      SortByKeyAscending(trendsDict);
    }
    forall e | e in trendsDict ensures TrendOf(e) in trends {
      assert e in multiset(items);
      var k :| 0 <= k < |items| && items[k] == e;
      assert trends[k] == TrendOf(e);
    }
    forall t | t in trends ensures exists e :: e in trendsDict && TrendOf(e) == t {
      var k :| 0 <= k < |trends| && trends[k] == t;
      assert items[k] in multiset(trendsDict);
    }
  }

  /** The dictionary `get_dashboard_stats` answers with */
  datatype Dashboard = Dashboard(
    totalSessions: nat,
    totalStudents: nat,
    engagementPercentage: real,
    trends: seq<Trend>,
    recentSessions: seq<Database.Session>)

  /** `if stats:` holds for a session whose statistics are present */
  function WithStats(s: Database.Session): int {
    if s.statistics.Some? then 1 else 0
  }

  /** `get_dashboard_stats` (lines 215-264). `newestFirst` is the sessions
      collection ordered newest first, so `get_recent_sessions(n)` is its
      first `n` sessions */
  method GetDashboardStats(collection: seq<Database.Session>, newestFirst: seq<Database.Session>,
                           now: Database.Instant, days: int)
    returns (d: Dashboard)
    ensures var all := newestFirst[..Min(100, |newestFirst|)];
      && d.totalSessions == SumOf(all, WithStats)
      && d.totalStudents == SumOf(all, Database.FacesIn)
      && d.engagementPercentage == Percentage(SumOf(all, Database.EngagedIn), SumOf(all, Database.FacesIn))
    ensures d.recentSessions == newestFirst[..Min(5, |newestFirst|)]
    ensures var daily := Database.DailyStats(Database.TrendQuery(collection, now.seconds - days * 86400));
      && |d.trends| == |daily|
      && (forall i, j :: 0 <= i < j < |d.trends| ==> StrLess(d.trends[i].date, d.trends[j].date))
      && (forall e :: e in daily ==> TrendOf(e) in d.trends)
      && (forall t :: t in d.trends ==> exists e :: e in daily && TrendOf(e) == t)
  {
    var trendsDict := Database.GetEngagementTrends(collection, now, days);
    var recent := newestFirst[..Min(5, |newestFirst|)];
    var all := newestFirst[..Min(100, |newestFirst|)];
    var totalSessions, totalStudents, totalEngaged, totalFaces := SumRecent(all);
    var percentage := Percentage(totalEngaged, totalFaces);

    Database.TrendDays(Database.TrendQuery(collection, now.seconds - days * 86400));
    var trends := FormatTrends(trendsDict);
    return Dashboard(totalSessions, totalStudents, percentage, trends, recent);
  }

  /** The loop of lines 234-240 over the 100 newest sessions */
  method SumRecent(all: seq<Database.Session>)
    returns (totalSessions: nat, totalStudents: nat, totalEngaged: nat, totalFaces: nat)
    ensures totalSessions == SumOf(all, WithStats)
    ensures totalStudents == SumOf(all, Database.FacesIn)
    ensures totalEngaged == SumOf(all, Database.EngagedIn)
    ensures totalFaces == totalStudents
  {
    totalSessions, totalStudents, totalEngaged, totalFaces := 0, 0, 0, 0;
    var i := 0;
    while i < |all|
      invariant 0 <= i <= |all|
      invariant totalSessions == SumOf(all[..i], WithStats)
      invariant totalStudents == SumOf(all[..i], Database.FacesIn)
      invariant totalEngaged == SumOf(all[..i], Database.EngagedIn)
      invariant totalFaces == totalStudents
    {
      var session := all[i];
      assert all[..i + 1] == all[..i] + [session];
      SumOfSnoc(all[..i], session, WithStats);
      SumOfSnoc(all[..i], session, Database.FacesIn);
      SumOfSnoc(all[..i], session, Database.EngagedIn);
      if session.statistics.Some? {
        var stats := session.statistics.value;
        totalSessions := totalSessions + 1;
        totalStudents := totalStudents + stats.totalFaces;
        totalEngaged := totalEngaged + stats.engagedCount;
        totalFaces := totalFaces + stats.totalFaces;
      }
      i := i + 1;
    }
    assert all[..|all|] == all;
  }

  /** When every saved record counts no more engaged faces than faces, as
      `FerModel.Stats` guarantees, the dashboard percentage lies in [0, 100] */
  lemma {:induction false} DashboardPercentageBound(ss: seq<Database.Session>)
    requires forall s :: s in ss && s.statistics.Some? ==> s.statistics.value.engagedCount <= s.statistics.value.totalFaces
    ensures SumOf(ss, Database.EngagedIn) <= SumOf(ss, Database.FacesIn)
    ensures 0.0 <= Percentage(SumOf(ss, Database.EngagedIn), SumOf(ss, Database.FacesIn)) <= 100.0
  {
    if ss != [] {
      var init := ss[..|ss| - 1];
      assert forall s :: s in init ==> s in ss;
      DashboardPercentageBound(init);
    }
  }
}

/** `FERModel` (backend/fer_model.py): classify each detected face with the
    remote expression classifier, map the expression to an engagement level and
    summarise an image's faces.

    The HTTP request is not modelled: what the endpoint does on each attempt is
    the input `service`, one `Attempt` per request, and `time.sleep(2)` is a
    counted event. */
module FerModel {
  import opened Common
  import opened Dict
  import Config
  import FaceDetector

  /** One `{'label': ..., 'score': ...}` entry of the classifier's answer */
  datatype Prediction = Prediction(emotion: string, score: real)

  /** What one `requests.post` to the endpoint turns out to be */
  datatype Attempt =
    | Status200(predictions: seq<Prediction>)  // a parsed prediction list
    | Status503                                // the model is still loading
    | Timeout                                  // requests.exceptions.Timeout
    | OtherStatus(code: int, text: string)     // any other status code
    | BadBody(message: string)                 // any other exception: no connection, a body that does not parse

  /** The exception `predict_emotion` raises */
  datatype Failure =
    | MaxRetriesExceeded                       // "Max retries exceeded"
    | RequestTimeout                           // "API request timeout"
    | RequestFailed(code: int, text: string)   // "API request failed: <code> - <text>"
    | Raised(message: string)                  // the other exception, re-raised

  /** The dictionary `_process_predictions` returns */
  datatype EmotionResult = EmotionResult(emotion: string, score: real, allPredictions: seq<Prediction>)

  // ---- _process_predictions ----

  /** `p` goes before the first entry whose score is not above its own */
  function InsertByScore(p: Prediction, sorted: seq<Prediction>): (r: seq<Prediction>)
    ensures |r| == |sorted| + 1
    ensures multiset(r) == multiset(sorted) + multiset{p}
  {
    if sorted == [] || sorted[0].score <= p.score then [p] + sorted
    else
      assert sorted == [sorted[0]] + sorted[1..];
      [sorted[0]] + InsertByScore(p, sorted[1..])
  }

  /** `sorted(predictions, key=lambda x: x['score'], reverse=True)`: descending
      and stable (Python keeps equal keys in input order even with reverse=True) */
  function SortByScore(ps: seq<Prediction>): (r: seq<Prediction>)
    ensures |r| == |ps|
    ensures multiset(r) == multiset(ps)
  {
    if ps == [] then []
    else
      assert ps == [ps[0]] + ps[1..];
      InsertByScore(ps[0], SortByScore(ps[1..]))
  }

  predicate Descending(ps: seq<Prediction>) {
    forall i, j :: 0 <= i < j < |ps| ==> ps[i].score >= ps[j].score
  }

  /** The entries of `ps` with score `v`, in order */
  function WithScore(ps: seq<Prediction>, v: real): seq<Prediction> {
    if ps == [] then []
    else if ps[0].score == v then [ps[0]] + WithScore(ps[1..], v)
    else WithScore(ps[1..], v)
  }

  function LowerLabels(ps: seq<Prediction>): (r: seq<Prediction>)
    ensures |r| == |ps|
    ensures forall i :: 0 <= i < |ps| ==> r[i] == Prediction(Lower(ps[i].emotion), ps[i].score)
  {
    if ps == [] then [] else [Prediction(Lower(ps[0].emotion), ps[0].score)] + LowerLabels(ps[1..])
  }

  lemma {:induction false} InsertDescending(p: Prediction, s: seq<Prediction>)
    requires Descending(s)
    ensures Descending(InsertByScore(p, s))
  {
    if s != [] && p.score < s[0].score {
      var t := InsertByScore(p, s[1..]);
      InsertDescending(p, s[1..]);
      assert forall j :: 0 <= j < |t| ==> t[j].score <= s[0].score by {
        forall j | 0 <= j < |t| ensures t[j].score <= s[0].score {
          assert t[j] in multiset(s[1..]) + multiset{p};
          if t[j] != p {
            var k :| 0 <= k < |s[1..]| && s[1..][k] == t[j];
            assert s[k + 1] == t[j];
          }
        }
      }
      DescendingCons(s[0], t);
    }
  }

  lemma DescendingCons(x: Prediction, t: seq<Prediction>)
    requires Descending(t)
    requires forall j :: 0 <= j < |t| ==> t[j].score <= x.score
    ensures Descending([x] + t)
  {
    var r := [x] + t;
    forall i, j | 0 <= i < j < |r| ensures r[i].score >= r[j].score {
      assert r[j] == t[j - 1];
      if 0 < i {
        assert r[i] == t[i - 1];
      }
    }
  }

  lemma {:induction false} SortDescending(ps: seq<Prediction>)
    ensures Descending(SortByScore(ps))
    ensures multiset(SortByScore(ps)) == multiset(ps)
  {
    if ps != [] {
      SortDescending(ps[1..]);
      InsertDescending(ps[0], SortByScore(ps[1..]));
    }
  }

  lemma {:induction false} InsertStable(p: Prediction, s: seq<Prediction>, v: real)
    requires Descending(s)
    ensures WithScore(InsertByScore(p, s), v) == if p.score == v then [p] + WithScore(s, v) else WithScore(s, v)
  {
    if s == [] || s[0].score <= p.score {
      assert InsertByScore(p, s)[1..] == s;
    } else {
      InsertStable(p, s[1..], v);
      assert InsertByScore(p, s)[1..] == InsertByScore(p, s[1..]);
      if p.score == v {
        assert s[0].score != v;
      }
    }
  }

  /** Stability: for every score, the entries with that score keep their input order */
  lemma {:induction false} SortStable(ps: seq<Prediction>, v: real)
    ensures WithScore(SortByScore(ps), v) == WithScore(ps, v)
  {
    if ps != [] {
      SortStable(ps[1..], v);
      SortDescending(ps[1..]);
      InsertStable(ps[0], SortByScore(ps[1..]), v);
    }
  }

  /** Sorting by score and lower-casing the labels commute */
  lemma {:induction false} LowerSortCommute(ps: seq<Prediction>)
    ensures LowerLabels(SortByScore(ps)) == SortByScore(LowerLabels(ps))
  {
    if ps != [] {
      LowerSortCommute(ps[1..]);
      assert LowerLabels(ps)[1..] == LowerLabels(ps[1..]);
      LowerInsertCommute(ps[0], SortByScore(ps[1..]));
    }
  }

  lemma {:induction false} LowerInsertCommute(p: Prediction, s: seq<Prediction>)
    ensures LowerLabels(InsertByScore(p, s)) == InsertByScore(Prediction(Lower(p.emotion), p.score), LowerLabels(s))
  {
    if s != [] && s[0].score > p.score {
      LowerInsertCommute(p, s[1..]);
      assert LowerLabels(s)[1..] == LowerLabels(s[1..]);
    }
  }

  /** The head of the sorted list is the first entry with the highest score */
  predicate FirstMaximum(ps: seq<Prediction>, k: nat) {
    && k < |ps|
    && (forall j :: 0 <= j < |ps| ==> ps[j].score <= ps[k].score)
    && (forall j :: 0 <= j < k ==> ps[j].score < ps[k].score)
  }

  /** The index of the first entry with the highest score */
  function FirstMaxIndex(ps: seq<Prediction>): (k: nat)
    requires ps != []
    ensures FirstMaximum(ps, k)
  {
    if |ps| == 1 then
      assert FirstMaximum(ps, 0);
      0
    else
      var k' := FirstMaxIndex(ps[1..]);
      FirstMaximumCons(ps, k');
      if ps[k' + 1].score <= ps[0].score then 0 else k' + 1
  }

  lemma {:induction false} SortHead(ps: seq<Prediction>)
    requires ps != []
    ensures SortByScore(ps)[0] == ps[FirstMaxIndex(ps)]
  {
    if |ps| > 1 {
      SortHead(ps[1..]);
      var s := SortByScore(ps[1..]);
      assert s[0] == ps[FirstMaxIndex(ps[1..]) + 1];
      assert SortByScore(ps) == InsertByScore(ps[0], s);
    }
  }

  /** The first maximum of a list from the first maximum of its tail */
  lemma FirstMaximumCons(ps: seq<Prediction>, k': nat)
    requires |ps| > 1 && FirstMaximum(ps[1..], k')
    ensures FirstMaximum(ps, if ps[k' + 1].score <= ps[0].score then 0 else k' + 1)
  {
    var k := if ps[k' + 1].score <= ps[0].score then 0 else k' + 1;
    forall j | 0 <= j < |ps| ensures ps[j].score <= ps[k].score {
      if j > 0 {
        assert ps[j] == ps[1..][j - 1];
      }
    }
    forall j | 0 <= j < k ensures ps[j].score < ps[k].score {
      if j > 0 {
        assert ps[j] == ps[1..][j - 1];
      }
    }
  }

  /** `_process_predictions` (lines 95-115) */
  function ProcessPredictions(ps: seq<Prediction>): (r: EmotionResult)
    ensures ps == [] ==> r == EmotionResult("unknown", 0.0, [])
    ensures ps != [] ==>
      && |r.allPredictions| == |ps|
      && r.emotion == r.allPredictions[0].emotion
      && r.score == r.allPredictions[0].score
    ensures Descending(r.allPredictions)
    ensures multiset(r.allPredictions) == multiset(LowerLabels(ps))
    ensures forall v :: WithScore(r.allPredictions, v) == WithScore(LowerLabels(ps), v)
    ensures ps != [] ==> r.emotion == Lower(ps[FirstMaxIndex(ps)].emotion) && r.score == ps[FirstMaxIndex(ps)].score
  {
    if ps == [] then
      EmotionResult("unknown", 0.0, [])
    else
      var sorted := SortByScore(ps);
      var top := sorted[0];
      var all := LowerLabels(sorted);
      LowerSortCommute(ps);
      SortDescending(LowerLabels(ps));
      assert forall v :: WithScore(all, v) == WithScore(LowerLabels(ps), v) by {
        forall v ensures WithScore(all, v) == WithScore(LowerLabels(ps), v) {
          SortStable(LowerLabels(ps), v);
        }
      }
      SortHead(ps);
      EmotionResult(Lower(top.emotion), top.score, all)
  }

  // ---- predict_emotion ----

  /** What the retry loop does from attempt `attempt` on: its result, the
      requests it makes and the sleeps it takes */
  datatype RetryRun = RetryRun(result: Result<seq<Prediction>, Failure>, requests: nat, sleeps: nat)

  /** The first 200 answer's body goes through `_process_predictions` */
  function Processed(outcome: Result<seq<Prediction>, Failure>): Result<EmotionResult, Failure> {
    match outcome
    case Ok(ps) => Ok(ProcessPredictions(ps))
    case Err(f) => Err(f)
  }

  function After(run: RetryRun, sleep: bool): RetryRun {
    RetryRun(run.result, run.requests + 1, run.sleeps + if sleep then 1 else 0)
  }

  /** The loop of lines 53-83 from `attempt` on */
  function Retry(service: nat -> Attempt, maxRetries: int, attempt: nat): RetryRun
    decreases maxRetries - attempt
  {
    if maxRetries <= attempt then RetryRun(Err(MaxRetriesExceeded), 0, 0)
    else
      var final := attempt == maxRetries - 1;
      match service(attempt)
      case Status200(ps) => RetryRun(Ok(ps), 1, 0)
      case Status503 => After(Retry(service, maxRetries, attempt + 1), !final)
      case Timeout =>
        if final then RetryRun(Err(RequestTimeout), 1, 0) else After(Retry(service, maxRetries, attempt + 1), false)
      case OtherStatus(code, text) =>
        if final then RetryRun(Err(RequestFailed(code, text)), 1, 0) else After(Retry(service, maxRetries, attempt + 1), false)
      case BadBody(message) =>
        if final then RetryRun(Err(Raised(message)), 1, 0) else After(Retry(service, maxRetries, attempt + 1), false)
  }

  /** The number of 503 answers among attempts `from .. to-1` */
  function Unavailable(service: nat -> Attempt, from: nat, to: nat): nat
    decreases to - from
  {
    if to <= from then 0 else (if service(from) == Status503 then 1 else 0) + Unavailable(service, from + 1, to)
  }

  /** The exception a failed final attempt leaves behind */
  function FinalFailure(a: Attempt): Failure
    requires !a.Status200?
  {
    match a
    case Status503 => MaxRetriesExceeded
    case Timeout => RequestTimeout
    case OtherStatus(code, text) => RequestFailed(code, text)
    case BadBody(message) => Raised(message)
  }

  /** A failed attempt that is not the last one moves on to the next attempt */
  lemma RetryStep(service: nat -> Attempt, maxRetries: int, attempt: nat)
    requires attempt < maxRetries - 1 && !service(attempt).Status200?
    ensures Retry(service, maxRetries, attempt) == After(Retry(service, maxRetries, attempt + 1), service(attempt) == Status503)
  {
  }

  /** The first answer with status 200 wins: its predictions are returned after
      `k + 1` requests, having slept once per earlier 503 */
  lemma {:induction false} RetryFirstSuccess(service: nat -> Attempt, maxRetries: int, attempt: nat, k: nat)
    requires attempt <= k < maxRetries && service(k).Status200?
    requires forall j :: attempt <= j < k ==> !service(j).Status200?
    ensures Retry(service, maxRetries, attempt)
         == RetryRun(Ok(service(k).predictions), k + 1 - attempt, Unavailable(service, attempt, k))
    decreases k - attempt
  {
    if attempt < k {
      RetryFirstSuccess(service, maxRetries, attempt + 1, k);
      RetryStep(service, maxRetries, attempt);
      assert Unavailable(service, attempt, k)
          == (if service(attempt) == Status503 then 1 else 0) + Unavailable(service, attempt + 1, k);
    } else {
      RetryAnswered(service, maxRetries, attempt);
    }
  }

  lemma RetryAnswered(service: nat -> Attempt, maxRetries: int, attempt: nat)
    requires attempt < maxRetries && service(attempt).Status200?
    ensures Retry(service, maxRetries, attempt) == RetryRun(Ok(service(attempt).predictions), 1, 0)
  {
  }

  /** Without a 200 answer every attempt is made, a sleep follows every 503 but
      the last, and the final attempt's outcome decides the exception */
  lemma {:induction false} RetryAllFail(service: nat -> Attempt, maxRetries: int, attempt: nat)
    requires attempt < maxRetries
    requires forall j :: attempt <= j < maxRetries ==> !service(j).Status200?
    ensures Retry(service, maxRetries, attempt)
         == RetryRun(Err(FinalFailure(service(maxRetries - 1))), maxRetries - attempt, Unavailable(service, attempt, maxRetries - 1))
    decreases maxRetries - attempt
  {
    if attempt < maxRetries - 1 {
      RetryAllFail(service, maxRetries, attempt + 1);
      RetryStep(service, maxRetries, attempt);
    }
  }

  /** The request budget: at most `max_retries` requests, none when it is not positive */
  lemma {:induction false} RetryBound(service: nat -> Attempt, maxRetries: int, attempt: nat)
    ensures Retry(service, maxRetries, attempt).requests <= if attempt < maxRetries then maxRetries - attempt else 0
    ensures Retry(service, maxRetries, attempt).sleeps < Retry(service, maxRetries, attempt).requests
         || Retry(service, maxRetries, attempt).requests == 0
    ensures maxRetries <= attempt ==> Retry(service, maxRetries, attempt) == RetryRun(Err(MaxRetriesExceeded), 0, 0)
    decreases maxRetries - attempt
  {
    if attempt < maxRetries - 1 {
      RetryBound(service, maxRetries, attempt + 1);
    }
  }

  /** Success exactly when some attempt within the budget answers 200 */
  lemma RetrySucceedsIff(service: nat -> Attempt, maxRetries: int)
    ensures Retry(service, maxRetries, 0).result.Ok? <==> exists k :: 0 <= k < maxRetries && service(k).Status200?
  {
    if exists k :: 0 <= k < maxRetries && service(k).Status200? {
      var k := FirstAnswered(service, maxRetries);
      RetryFirstSuccess(service, maxRetries, 0, k);
    } else if 0 < maxRetries {
      RetryAllFail(service, maxRetries, 0);
    }
  }

  lemma {:induction false} FirstAnswered(service: nat -> Attempt, n: int) returns (k: nat)
    requires exists k :: 0 <= k < n && service(k).Status200?
    ensures k < n && service(k).Status200?
    ensures forall j :: 0 <= j < k ==> !service(j).Status200?
  {
    var k0 :| 0 <= k0 < n && service(k0).Status200?;
    if exists j :: 0 <= j < k0 && service(j).Status200? {
      k := FirstAnswered(service, k0);
    } else {
      k := k0;
    }
  }

  /** `predict_emotion` (lines 53-83), with `max_retries` defaulting to 3 */
  method PredictEmotion(service: nat -> Attempt, maxRetries: int := 3)
    returns (result: Result<EmotionResult, Failure>, requests: nat, sleeps: nat)
    ensures result == Processed(Retry(service, maxRetries, 0).result)
    ensures requests == Retry(service, maxRetries, 0).requests && sleeps == Retry(service, maxRetries, 0).sleeps
    ensures requests <= if 0 < maxRetries then maxRetries else 0
    ensures result.Ok? <==> exists k :: 0 <= k < maxRetries && service(k).Status200?
  {
    RetryBound(service, maxRetries, 0);
    RetrySucceedsIff(service, maxRetries);
    requests, sleeps := 0, 0;
    var attempt: nat := 0;
    while attempt < maxRetries
      invariant attempt <= maxRetries || attempt == 0
      invariant requests == attempt
      invariant Retry(service, maxRetries, 0)
             == RetryRun(Retry(service, maxRetries, attempt).result,
                         Retry(service, maxRetries, attempt).requests + attempt,
                         Retry(service, maxRetries, attempt).sleeps + sleeps)
      decreases maxRetries - attempt
    {
      requests := requests + 1;
      var final := attempt == maxRetries - 1;
      match service(attempt) {
        case Status200(ps) =>
          return Ok(ProcessPredictions(ps)), requests, sleeps;
        case Status503 =>
          if !final {
            sleeps := sleeps + 1;
          }
        case Timeout =>
          if final {
            return Err(RequestTimeout), requests, sleeps;
          }
        case OtherStatus(code, text) =>
          if final {
            return Err(RequestFailed(code, text)), requests, sleeps;
          }
        case BadBody(message) =>
          if final {
            return Err(Raised(message)), requests, sleeps;
          }
      }
      attempt := attempt + 1;
    }
    result := Err(MaxRetriesExceeded);
  }

  // ---- get_engagement_level ----

  const Engaged: string := "engaged"
  const Disengaged: string := "disengaged"
  const Unknown: string := "unknown"

  /** `get_engagement_level` (lines 127-132) */
  function GetEngagementLevel(emotion: string): (level: string)
    ensures level == Engaged <==> emotion in Config.EngagedEmotions
    ensures level == Disengaged <==> emotion !in Config.EngagedEmotions && emotion in Config.DisengagedEmotions
    ensures level == Unknown <==> emotion !in Config.EngagedEmotions && emotion !in Config.DisengagedEmotions
  {
    if emotion in Config.EngagedEmotions then Engaged
    else if emotion in Config.DisengagedEmotions then Disengaged
    else Unknown
  }

  predicate IsLevel(level: string) {
    level == Engaged || level == Disengaged || level == Unknown
  }

  /** Totality: every string, the empty one and unrecognised labels included, gets
      exactly one of the three levels; the two configured lists never overlap */
  lemma EngagementTotal(emotion: string)
    ensures IsLevel(GetEngagementLevel(emotion))
    ensures emotion in Config.DisengagedEmotions ==> GetEngagementLevel(emotion) == Disengaged
  {
    if emotion in Config.DisengagedEmotions {
      assert emotion[0] in {'s', 'a', 'f', 'd'};
    }
  }

  // ---- analyze_faces ----

  /** What `analyze_faces` keeps besides the top emotion: all predictions on
      success, the exception on failure */
  datatype Details = AllEmotions(predictions: seq<Prediction>) | Error(failure: Failure)

  /** One entry of the list `analyze_faces` returns */
  datatype FaceResult = FaceResult(
    faceId: nat,
    bbox: FaceDetector.BBox,
    detectionConfidence: real,
    emotion: string,
    emotionScore: real,
    engagementLevel: string,
    details: Details)

  /** The endpoint as seen by the requests for face `i` */
  function ForFace(service: (nat, nat) -> Attempt, i: nat): nat -> Attempt {
    (k: nat) => service(i, k)
  }

  /** The body of the `try` (lines 150-166) or the `except` (lines 170-179) */
  function FaceResultOf(i: nat, face: FaceDetector.DetectedFace, outcome: Result<EmotionResult, Failure>): FaceResult {
    match outcome
    case Ok(e) =>
      FaceResult(i, face.bbox, face.confidence, e.emotion, e.score, GetEngagementLevel(e.emotion), AllEmotions(e.allPredictions))
    case Err(f) =>
      FaceResult(i, face.bbox, face.confidence, "error", 0.0, Unknown, Error(f))
  }

  /** The list `analyze_faces` returns when face `i`'s k-th request gets `service(i, k)` */
  function Analyze(faces: seq<FaceDetector.DetectedFace>, service: (nat, nat) -> Attempt): (rs: seq<FaceResult>)
    ensures |rs| == |faces|
  {
    seq(|faces|, i requires 0 <= i < |faces| => FaceResultOf(i, faces[i], Processed(Retry(ForFace(service, i), 3, 0).result)))
  }

  /** `analyze_faces` (lines 144-181) */
  method AnalyzeFaces(faces: seq<FaceDetector.DetectedFace>, service: (nat, nat) -> Attempt)
    returns (results: seq<FaceResult>)
    ensures results == Analyze(faces, service)
    ensures |results| == |faces|
    ensures forall i :: 0 <= i < |faces| ==>
      results[i].faceId == i && results[i].bbox == faces[i].bbox && results[i].detectionConfidence == faces[i].confidence
  {
    ghost var expected := Analyze(faces, service);
    results := [];
    var idx := 0;
    while idx < |faces|
      invariant 0 <= idx <= |faces|
      invariant results == expected[..idx]
    {
      var result := AnalyzeFace(idx, faces[idx], service);
      assert expected[..idx + 1] == expected[..idx] + [expected[idx]];
      results := results + [result];
      idx := idx + 1;
    }
    assert expected[..|faces|] == expected;
  }

  /** One turn of the loop of `analyze_faces`: the `try` body (lines 150-166)
      or, when the prediction raises, the `except` body (lines 170-179) */
  method AnalyzeFace(idx: nat, face: FaceDetector.DetectedFace, service: (nat, nat) -> Attempt) returns (result: FaceResult)
    ensures result == FaceResultOf(idx, face, Processed(Retry(ForFace(service, idx), 3, 0).result))
  {
    var outcome, _, _ := PredictEmotion(ForFace(service, idx));
    match outcome {
      case Ok(e) =>
        var engagement := GetEngagementLevel(e.emotion);
        result := FaceResult(idx, face.bbox, face.confidence, e.emotion, e.score, engagement, AllEmotions(e.allPredictions));
      case Err(f) =>
        result := FaceResult(idx, face.bbox, face.confidence, "error", 0.0, Unknown, Error(f));
    }
  }

  /** Failure isolation: face `i`'s entry depends on the answers to face `i`'s
      requests only, so a failing face changes no other entry */
  lemma AnalyzeIsolated(faces: seq<FaceDetector.DetectedFace>, s1: (nat, nat) -> Attempt, s2: (nat, nat) -> Attempt, i: nat)
    requires i < |faces|
    requires forall k: nat :: s1(i, k) == s2(i, k)
    ensures Analyze(faces, s1)[i] == Analyze(faces, s2)[i]
  {
    RetryAgree(ForFace(s1, i), ForFace(s2, i), 3, 0);
  }

  /** Two endpoints that answer every attempt alike give the same run */
  lemma {:induction false} RetryAgree(s1: nat -> Attempt, s2: nat -> Attempt, maxRetries: int, attempt: nat)
    requires forall k: nat :: s1(k) == s2(k)
    ensures Retry(s1, maxRetries, attempt) == Retry(s2, maxRetries, attempt)
    decreases maxRetries - attempt
  {
    if attempt < maxRetries {
      RetryAgree(s1, s2, maxRetries, attempt + 1);
    }
  }

  /** A face whose classification raises is recorded as emotion "error", score 0,
      engagement "unknown" and the exception; a classified face gets the
      engagement level of its emotion */
  lemma AnalyzeEntries(faces: seq<FaceDetector.DetectedFace>, service: (nat, nat) -> Attempt, i: nat)
    requires i < |faces|
    ensures var r := Analyze(faces, service)[i];
      if exists k :: 0 <= k < 3 && service(i, k).Status200? then
        r.engagementLevel == GetEngagementLevel(r.emotion) && r.details.AllEmotions?
      else
        r.emotion == "error" && r.emotionScore == 0.0 && r.engagementLevel == Unknown && r.details.Error?
  {
    RetrySucceedsIff(ForFace(service, i), 3);
  }

  predicate LevelsKnown(rs: seq<FaceResult>) {
    forall i :: 0 <= i < |rs| ==> IsLevel(rs[i].engagementLevel)
  }

  /** Every entry of an analysis carries one of the three engagement levels */
  lemma AnalyzeLevelsKnown(faces: seq<FaceDetector.DetectedFace>, service: (nat, nat) -> Attempt)
    ensures LevelsKnown(Analyze(faces, service))
  {
    forall i | 0 <= i < |faces| ensures IsLevel(Analyze(faces, service)[i].engagementLevel) {
      var r := Analyze(faces, service)[i];
      EngagementTotal(r.emotion);
    }
  }

  // ---- calculate_engagement_stats ----

  /** The statistics dictionary */
  datatype EngagementStats = EngagementStats(
    totalFaces: nat,
    engagedCount: nat,
    disengagedCount: nat,
    unknownCount: nat,
    engagementPercentage: real,
    emotionDistribution: Dict<nat>)

  /** `sum(1 for r in rs if r['engagement_level'] == level)` */
  function CountLevel(rs: seq<FaceResult>, level: string): (n: nat)
    ensures n <= |rs|
  {
    if rs == [] then 0 else CountLevel(rs[..|rs| - 1], level) + if rs[|rs| - 1].engagementLevel == level then 1 else 0
  }

  function EmotionOf(r: FaceResult): string { r.emotion }
  function CountOne(n: nat, r: FaceResult): nat { n + 1 }
  function AsInt(n: nat): int { n }
  function One(r: FaceResult): int { 1 }

  /** `emotion_counts` after the loop of lines 223-225 */
  function EmotionHistogram(rs: seq<FaceResult>): Dict<nat> {
    Tally(rs, EmotionOf, 0, CountOne)
  }

  /** The number of results whose emotion is `e` */
  function CountEmotion(rs: seq<FaceResult>, e: string): nat {
    |Select(rs, EmotionOf, e)|
  }

  lemma {:induction false} FoldCountOne(xs: seq<FaceResult>)
    ensures Fold(xs, 0, CountOne) == |xs|
  {
    if xs != [] {
      FoldCountOne(xs[..|xs| - 1]);
    }
  }

  lemma {:induction false} SumOfOne(xs: seq<FaceResult>)
    ensures SumOf(xs, One) == |xs|
  {
    if xs != [] {
      SumOfOne(xs[..|xs| - 1]);
    }
  }

  /** The emotion histogram: one key per emotion that occurs, "error" included,
      each holding its number of faces, and the counts add up to the faces */
  lemma HistogramCounts(rs: seq<FaceResult>)
    ensures DistinctKeys(EmotionHistogram(rs))
    ensures forall e :: e in Keys(EmotionHistogram(rs)) <==> exists i :: 0 <= i < |rs| && rs[i].emotion == e
    ensures forall e :: Get(EmotionHistogram(rs), e, 0) == CountEmotion(rs, e)
    ensures Total(EmotionHistogram(rs), AsInt) == |rs|
  {
    TallyKeys(rs, EmotionOf, 0, CountOne);
    forall e ensures Get(EmotionHistogram(rs), e, 0) == CountEmotion(rs, e) {
      TallyGet(rs, EmotionOf, 0, CountOne, e);
      FoldCountOne(Select(rs, EmotionOf, e));
    }
    TallyTotal(rs, EmotionOf, 0, CountOne, AsInt, One);
    SumOfOne(rs);
  }

  /** With every level one of the three, the three counts add up to the faces */
  lemma {:induction false} LevelCountsAddUp(rs: seq<FaceResult>)
    ensures LevelsKnown(rs) ==> CountLevel(rs, Engaged) + CountLevel(rs, Disengaged) + CountLevel(rs, Unknown) == |rs|
  {
    if rs != [] {
      var init := rs[..|rs| - 1];
      assert LevelsKnown(rs) ==> LevelsKnown(init) by {
        if LevelsKnown(rs) {
          forall i | 0 <= i < |init| ensures IsLevel(init[i].engagementLevel) {
            assert init[i] == rs[i];
          }
        }
      }
      LevelCountsAddUp(init);
    }
  }

  /** The statistics `calculate_engagement_stats` computes (lines 193-237) */
  function Stats(rs: seq<FaceResult>): (s: EngagementStats)
    ensures s.totalFaces == |rs|
    ensures rs == [] ==> s == EngagementStats(0, 0, 0, 0, 0.0, [])
    ensures LevelsKnown(rs) ==> s.engagedCount + s.disengagedCount + s.unknownCount == s.totalFaces
    ensures s.engagementPercentage == Percentage(s.engagedCount, s.totalFaces)
    ensures DistinctKeys(s.emotionDistribution)
    ensures forall e :: e in Keys(s.emotionDistribution) <==> exists i :: 0 <= i < |rs| && rs[i].emotion == e
    ensures forall e :: Get(s.emotionDistribution, e, 0) == CountEmotion(rs, e)
    ensures Total(s.emotionDistribution, AsInt) == |rs|
  {
    var engaged := CountLevel(rs, Engaged);
    var percentage := Percentage(engaged, |rs|);
    HistogramCounts(rs);
    LevelCountsAddUp(rs);
    EngagementStats(|rs|, engaged, CountLevel(rs, Disengaged), CountLevel(rs, Unknown),
                    percentage, EmotionHistogram(rs))
  }

  /** The engagement percentage is the share of engaged faces, out of 100 */
  lemma StatsPercentage(rs: seq<FaceResult>)
    ensures 0.0 <= Stats(rs).engagementPercentage <= 100.0
    ensures rs != [] ==> Stats(rs).engagementPercentage * (|rs| as real) == (Stats(rs).engagedCount as real) * 100.0
  {
    var s := Stats(rs);
    assert s.engagedCount <= s.totalFaces == |rs|;
  }

  /** `calculate_engagement_stats` (lines 193-237) */
  method CalculateEngagementStats(rs: seq<FaceResult>) returns (s: EngagementStats)
    ensures s == Stats(rs)
    ensures forall e :: Get(s.emotionDistribution, e, 0) == CountEmotion(rs, e)
    ensures Total(s.emotionDistribution, AsInt) == s.totalFaces
  {
    var total := |rs|;
    if total == 0 {
      return EngagementStats(0, 0, 0, 0, 0.0, []);
    }
    var engaged := CountLevel(rs, Engaged);
    var disengaged := CountLevel(rs, Disengaged);
    var unknown := CountLevel(rs, Unknown);
    var counts := CountEmotions(rs);
    var percentage := Percentage(engaged, total);
    s := EngagementStats(total, engaged, disengaged, unknown, percentage, counts);
  }

  /** The loop of lines 223-225 that fills `emotion_counts` */
  method CountEmotions(rs: seq<FaceResult>) returns (counts: Dict<nat>)
    ensures counts == EmotionHistogram(rs)
  {
    counts := [];
    var i := 0;
    while i < |rs|
      invariant 0 <= i <= |rs|
      invariant counts == Tally(rs[..i], EmotionOf, 0, CountOne)
    {
      var emotion := rs[i].emotion;
      TallySnoc(rs[..i], rs[i], EmotionOf, 0, CountOne);
      assert rs[..i + 1] == rs[..i] + [rs[i]];
      counts := Put(counts, emotion, Get(counts, emotion, 0) + 1);
      i := i + 1;
    }
    assert rs[..|rs|] == rs;
  }

  /** The pipeline's consistency check never fires: an analysed image's three
      counts add up to its number of faces */
  lemma AnalysisCountsAddUp(faces: seq<FaceDetector.DetectedFace>, service: (nat, nat) -> Attempt)
    ensures var s := Stats(Analyze(faces, service));
      s.totalFaces == |faces| && s.engagedCount + s.disengagedCount + s.unknownCount == |faces|
  {
    AnalyzeLevelsKnown(faces, service);
  }
}

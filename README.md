# SmartAttendance analysis core in Dafny

SmartAttendance takes a classroom photo and reports how engaged the students
are. It works in four steps:

1. A Haar cascade finds faces. Each rectangle is clamped to the image, and
   empty crops are dropped.
2. A remote facial-expression classifier labels each face. Each face gets at
   most three requests, so a failed request is retried at most twice.
3. Each emotion is mapped to `engaged`, `disengaged` or `unknown`.
4. The per-image statistics are computed and stored in a session document.
   Per-day trends, a dashboard, institution-wide analytics and a student's
   attendance summary are computed from the stored sessions.

This project models that core and proves what it promises. The modules follow
the backend's files:

- `Common` holds the optional and result values, ASCII lower-casing and the
  percentage formula the backend uses everywhere.
- `Dict` models a Python dictionary. It is an association list that keeps
  insertion order. The group-by loop the backend writes three times is one
  fold, `Tally`, with lemmas for its keys, entries and totals.
- `Config` holds the emotion lists and the minimum face size.
- `FaceDetector` is the clamp/crop/skip loop of `detect_faces`.
- `FerModel` models the retry loop, prediction sorting, the engagement
  mapping, per-face analysis and the statistics.
- `Database` is the session store as a class with two maps, plus the per-day
  trends fold.
- `DatabaseAnalytics` holds the institution analytics and the student
  attendance summary.
- `App` holds `allowed_file`, the upload pipeline and the dashboard
  statistics.

The loops of the source are methods with loop invariants. Each method is
proved equal to a specification function. The source's promises are proved
about those functions as lemmas.

Foreign calls become inputs:

- The classifier endpoint is a function from (face index, attempt number) to
  the outcome of that request.
- The decoded image is its shape, or `None` when `cv2.imread` fails.
- The cascade's output is a sequence of rectangles.
- A Firestore query's stream is a sequence of sessions. Its `where` clauses
  are filters over that sequence. A query that raises is `None`.
- Each `datetime.utcnow()` is an `Instant` parameter: a day key plus seconds.

## Model

| member | source | states |
|---|---|---|
| Common.Percentage | backend/fer_model.py:227 | `part / whole * 100` is 0 for an empty whole; otherwise it times `whole` gives `part * 100`; it is never negative and at most 100 when `part <= whole` |
| Dict.GetPut | backend/fer_model.py:225 | after `d[k] = v`, looking up `k` gives `v` and any other key gives what it gave before |
| Dict.TallyKeys | backend/database.py:176-182 | the group-by dictionary has distinct keys, and a key is present iff some item of the stream maps to it |
| Dict.TallyGet | backend/database.py:176-188 | the entry for key `k` is the fold, from the zero entry, of exactly the items with key `k`, in stream order |
| Dict.TallyTotal | backend/database.py:176-188 | a measure that each item raises by a fixed amount sums, over all entries, to the sum over the stream |
| FaceDetector.DetectFaces | backend/face_detector.py:49-107 | an unreadable image is an error before any detection; otherwise the faces are, in order, the clamped non-empty rectangles, and there are no more than the raw rectangles |
| FaceDetector.EmitIff | backend/face_detector.py:75-93 | a cascade rectangle of positive size is kept iff its clamped origin lies inside the image |
| FaceDetector.EmitInBounds | backend/face_detector.py:75-96 | a kept rectangle's box is exactly the clamped integers; it lies inside the image with a positive size, its crop is exactly that box, and its confidence is 0.9 |
| FaceDetector.ValidatedInBounds | backend/face_detector.py:73-104 | every emitted face has 0 <= x, 0 <= y, 0 < w, 0 < h, x + w <= width and y + h <= height, a crop of exactly its box, and confidence 0.9 |
| FaceDetector.ValidatedAppend | backend/face_detector.py:73-104 | detector order is kept: the faces of two runs of rectangles are the faces of the first followed by those of the second |
| FaceDetector.ValidatedFromRaw | backend/face_detector.py:73-88 | every emitted face is the clamp of one of the detector's rectangles, cropped with `image[y:y+h, x:x+w]` |
| FaceDetector.ClampShiftsLeftEdge | backend/face_detector.py:75-77 | a rectangle hanging off the left edge is moved to column 0 without losing width |
| FerModel.SortDescending | backend/fer_model.py:103 | the sorted predictions are in non-increasing score order and are a permutation of the input |
| FerModel.SortStable | backend/fer_model.py:103 | sorting keeps the input order among predictions with equal scores |
| FerModel.FirstMaxIndex | backend/fer_model.py:103-106 | the index it finds holds a maximum score, and every earlier prediction scores strictly less |
| FerModel.SortHead | backend/fer_model.py:103-106 | the top prediction is the first prediction of maximum score in the input |
| FerModel.LowerSortCommute | backend/fer_model.py:108-114 | lower-casing the labels after sorting equals sorting the lower-cased predictions |
| FerModel.ProcessPredictions | backend/fer_model.py:95-115 | an empty list gives `unknown`, 0.0 and no predictions; otherwise all predictions are the lower-cased input permuted into non-increasing score order with ties in input order, and the top emotion and score are the first entry, which is the first input of maximum score |
| FerModel.PredictEmotion | backend/fer_model.py:53-83 | the loop's result, request count and sleep count are those of the retry specification; at most `max_retries` requests are made, none when it is not positive; it succeeds iff some attempt within the budget answers 200 |
| FerModel.RetryFirstSuccess | backend/fer_model.py:53-70 | the first 200 answer wins: its processed predictions are returned after one request per attempt so far, with one sleep per earlier 503 |
| FerModel.RetryAllFail | backend/fer_model.py:65-83 | with no 200 answer every attempt is made; a 503 sleeps unless it is the last attempt; the last attempt's outcome decides the error: a 503 gives "Max retries exceeded", a timeout "API request timeout", another status "API request failed", any other exception itself |
| FerModel.RetryBound | backend/fer_model.py:53-83 | at most `max_retries` requests, fewer sleeps than requests, and "Max retries exceeded" with zero requests when `max_retries <= 0` |
| FerModel.RetrySucceedsIff | backend/fer_model.py:53-83 | the retry loop returns predictions iff some attempt within the budget answers 200 |
| FerModel.GetEngagementLevel | backend/fer_model.py:127-132 | the level is `engaged` iff the emotion is in the engaged list; `disengaged` iff it is not but is in the disengaged list; `unknown` iff it is in neither |
| FerModel.EngagementTotal | backend/config.py:36-37 | every string gets one of the three levels, and a disengaged emotion is never also an engaged one |
| FerModel.AnalyzeFaces | backend/fer_model.py:144-181 | one result per face, in order, each the outcome of that face's retry run, with `face_id` the index and the box and detection confidence copied |
| FerModel.AnalyzeFace | backend/fer_model.py:146-179 | one face's entry: a successful retry run gives the processed emotion and score with its level; a failing run gives the error entry |
| FerModel.AnalyzeIsolated | backend/fer_model.py:146-179 | a face's result depends only on the answers to that face's requests, so a failing face changes no other result |
| FerModel.AnalyzeEntries | backend/fer_model.py:150-179 | a classified face gets the engagement level of its emotion and all predictions; a face whose classification raises gets emotion `error`, score 0.0, level `unknown` and the exception |
| FerModel.AnalyzeLevelsKnown | backend/fer_model.py:154-177 | every analysed face carries one of the three engagement levels |
| FerModel.HistogramCounts | backend/fer_model.py:222-225 | the emotion distribution has one key per emotion that occurs, `error` included; each key counts its faces, and the counts add up to the number of faces |
| FerModel.LevelCountsAddUp | backend/fer_model.py:208-219 | when every level is one of the three, engaged + disengaged + unknown equals the number of faces |
| FerModel.Stats | backend/fer_model.py:193-237 | total faces is the input length; an empty input gives the all-zero record; the level counts add up; the percentage is engaged / total * 100, 0 for no faces; the distribution counts each emotion and sums to the total |
| FerModel.StatsPercentage | backend/fer_model.py:227 | the engagement percentage lies in [0, 100], and for a non-empty image it times the number of faces gives engaged * 100 |
| FerModel.CountEmotions | backend/fer_model.py:222-225 | the counting loop builds exactly the emotion histogram |
| FerModel.CalculateEngagementStats | backend/fer_model.py:193-237 | the loop computes the statistics of the specification, with each emotion's count and the counts summing to the total |
| FerModel.AnalysisCountsAddUp | backend/fer_model.py:216-219 | for an analysed image the count-mismatch warning never fires |
| Database.NewSession | backend/database.py:46-51 | the document `create_session` writes has exactly four fields: it is `processing`, timestamped, with class and image name defaulting to `Unknown`, and has no statistics, completion time or institution |
| Database.SessionStore.CreateSession | backend/database.py:46-57 | the store gains exactly that new document under the new id; no other session and no face record changes |
| Database.SessionStore.SaveAnalysisResults | backend/database.py:69-87 | updating a missing session is an error and changes nothing; otherwise the session becomes `completed` with the statistics and completion time, and one face record per result is added after the existing ones |
| Database.TrendQuery | backend/database.py:166-168 | a session is considered iff it is completed and not older than the window start |
| Database.GetEngagementTrends | backend/database.py:164-190 | the loop builds exactly the group-by-day fold of the considered sessions |
| Database.TrendDays | backend/database.py:170-188 | one entry per distinct day key; each day's faces, engaged, disengaged and session counts are the sums over exactly that day's sessions, with a missing statistics field counting 0 |
| Database.TrendTotals | backend/database.py:176-188 | summed over the days, the session counts give the number of sessions considered and the face counts give their total faces |
| Database.TrendSessionsHaveStatistics | backend/database.py:70-74 | as long as the store keeps its invariant, every session the trends query reads from it was completed by a save and so carries statistics and a completion time |
| DatabaseAnalytics.InstitutionQuery | backend/database_analytics.py:17-21 | a session is considered iff it belongs to the institution, is not older than the cutoff and is completed |
| DatabaseAnalytics.UploadsOutsideInstitutions | backend/database_analytics.py:18 | a session created by an upload, before or after its results are saved, never matches an institution's query, since nothing writes its `institution_id` |
| DatabaseAnalytics.GetInstitutionAnalytics | backend/database_analytics.py:12-75 | a failed query gives `{}`; otherwise the totals are the session count and the sums of faces, engaged and disengaged; the average is engaged / students * 100, or 0 without students; the classes map is the per-class fold with averages; the recent sessions are the first 10 |
| DatabaseAnalytics.Accumulate | backend/database_analytics.py:28-51 | the first loop keeps every session in order, sums faces, engaged and disengaged over the stream, and builds exactly the per-class fold |
| DatabaseAnalytics.SetClassAverages | backend/database_analytics.py:53-57 | the averaging loop gives every class entry its average engaged / students * 100, and leaves an entry without students unchanged; the keys and their order stay as they were |
| DatabaseAnalytics.InstitutionClassKeys | backend/database_analytics.py:39-47 | one class entry per class name that occurs, with a missing name counting as `Unknown` |
| DatabaseAnalytics.InstitutionClassEntries | backend/database_analytics.py:39-57 | each class entry counts its sessions, sums its students and engaged students, and has average engaged / students * 100, or 0 without students |
| DatabaseAnalytics.InstitutionClassTotals | backend/database_analytics.py:40-60 | the per-class sessions, students and engaged students add up to the overall totals |
| DatabaseAnalytics.GetStudentAttendance | backend/database_analytics.py:87-135 | a missing student or a failed query gives `{}`; otherwise total classes is the number of records, present counts records with `was_present`; attendance is present / total * 100 and engagement is engaged / present * 100, each 0 when its divisor is 0 |
| DatabaseAnalytics.AttendanceBounds | backend/database_analytics.py:112-120 | the attendance percentage lies in [0, 100]; the engagement percentage does too when no absent record is marked engaged |
| DatabaseAnalytics.EngagementCanExceedHundred | backend/database_analytics.py:115-120 | engaged records are counted whether or not the student was present, so two absent engaged records and one present record give 200% |
| App.AllowedFile | backend/app.py:58-60 | a file name is allowed iff it contains a '.' and the text after its last '.', lower-cased, is png, jpg or jpeg |
| App.AllowedFileIgnoresCase | backend/app.py:60 | the extension is compared lower-cased, so "a.JPG" is accepted |
| App.AllowedFileLastExtension | backend/app.py:60 | only the text after the last '.' counts, so "a.jpg.exe" is rejected |
| App.AllowedFileNeedsDot | backend/app.py:60 | a name without '.' is rejected, as "noext" is |
| App.NoFaceStats | backend/app.py:118-126 | the record saved for a photo without faces is the one the statistics give for no faces: all counts 0, percentage 0.0, empty distribution |
| App.UploadImage | backend/app.py:79-169 | a missing file, an empty name and a disallowed name are the three distinct 400 answers and touch no session; otherwise exactly one session changes: it is created named after the class (default `Unknown Class`); an unreadable image leaves it `processing` with no face records; no faces completes it with the zero record and adds no face record; otherwise it is completed with the statistics of the analysis of the detected faces, and one face record per result is added after any existing ones |
| App.AnalyzeSession | backend/app.py:114-160 | on an existing session: an unreadable image changes nothing; no detected face completes the session with the zero record and no face record; otherwise the faces are analysed, their statistics computed, and both saved, with every other session and face list unchanged |
| App.SaveNoFaces | backend/app.py:118-126 | the session is completed with the statistics of no faces, and its face list gains nothing |
| App.AnalyzeAndSave | backend/app.py:140-146 | the results are the analysis of the faces, the statistics are those of the results, the session is completed with them and one face record per result is appended |
| App.SortByKeyAscending | backend/app.py:247 | sorting a dictionary's items lists them in strictly ascending key order |
| App.SortedTrends | backend/app.py:246-253 | trends built entry by entry from the sorted items are one per day, strictly ascending by day, and are exactly the formatted day entries |
| App.FormatTrends | backend/app.py:246-253 | one trend per day entry, in strictly ascending day order, copying total faces, engaged and disengaged, and nothing else |
| App.SumRecent | backend/app.py:234-240 | the counting loop counts the sessions with statistics and sums their faces and engaged faces, a missing statistics field counting 0 |
| App.GetDashboardStats | backend/app.py:215-264 | over the 100 newest sessions, the session total counts those with statistics, the student total sums their faces, and the percentage is engaged / faces * 100, or 0 without faces; the trends are the formatted per-day fold; the recent sessions are the 5 newest |
| App.DashboardPercentageBound | backend/app.py:243 | when every saved record has no more engaged faces than faces, as the statistics guarantee, the dashboard percentage lies in [0, 100] |

## Left out

- HTTP transport, JPEG encoding and BGR to RGB conversion in `predict_emotion` (backend/fer_model.py:41-60). Each request is an abstract outcome, and `time.sleep(2)` is a counted event.
- FerModel.AnalyzeFaces, FerModel.RetryAllFail: exceptions are the `Failure` datatype, not their message text.
- Detector construction, `cv2.imread`, `cvtColor`, `detectMultiScale` and `draw_faces` (backend/face_detector.py:18-66, 109-147). These are OpenCV calls, so the image shape and the raw rectangles are inputs. Pixel data is left out too: a crop is the region it denotes.
- FaceDetector.EmitIff, FaceDetector.EmitInBounds, FaceDetector.ValidatedInBounds: these assume the cascade's rectangles are at least `MIN_FACE_SIZE` on each side, which OpenCV promises and the source does not check.
- Flask routing, CORS and no-cache headers, `secure_filename`, `uuid`, file saving, `send_file`, JSON bodies and the error handlers in backend/app.py. The saved file name and the session id are inputs.
- App.UploadImage: writing the annotated image after the save is not modelled, so an exception there (still a 500 in the source) is not covered.
- App.GetDashboardStats: the `days` query parameter is already parsed. `get_recent_sessions` is the sessions collection given newest first; its Firestore ordering is not modelled.
- `get_session`, `get_session_faces`, `get_recent_sessions`, `delete_session` and `create_attendance_record`. These are Firestore reads, deletes and writes without logic of their own.
- The Firestore client, singleton initialisation, batches and query execution. Queries are input sequences; a document's extra `id` field is not modelled.
- Database.SessionStore.SaveAnalysisResults: one instant `now` stands for every clock reading of a save. The source reads `datetime.utcnow()` separately for `completed_at` (backend/database.py:72) and again for each face record (backend/database.py:84), so those times may differ slightly.
- backend/auth.py in full. It is password hashing and JWT via libraries, wall-clock expiry and Firestore lookups.
- backend/config.py's environment loading and `validate`. Only the constants at lines 36-41 are used.
- desktop_app.py, launch.py and backend/run_server.py. These are process launching, threads, a web view and sleeps.
- Float rounding (`round(..., 2)`) and float formatting. Percentages are exact reals, and scores are reals compared only by order.
- `print` logging, and `strftime`: a day key is an opaque string.
- Common.Lower: only ASCII letters are lower-cased. For `allowed_file` this is exact, since no other character lower-cases to a letter of png, jpg or jpeg.

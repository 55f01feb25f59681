# LSC Interpreter: a Dafny model of the backend's pre-processing and the mobile client's logic

LSC Interpreter recognises Colombian Sign Language (Lengua de Señas
Colombiana) from short videos. It has two parts:

- A FastAPI backend (`backend/api.py`). It extracts hand keypoints from each uploaded
  video, classifies the (30 × 126) keypoint sequence into a word, and can
  turn a sequence of words into a sentence with a T5 model.
- A React Native client (`lsc-app-frontend`). It records a video capped at
  five seconds, uploads it and shows the result, after a start screen that checks that the
  server is reachable.

This project models the deterministic logic around the models, as pure
functions over immutable datatypes, and proves what that logic guarantees.

Backend (`backend/api.py`):

- `Keypoints` covers `extraer_keypoints_video`:
  - per-frame normalisation to exactly 126 values;
  - the sampling interval and the cap of 30 sampled frames;
  - padding with the last row, or with a zero row.

  It also covers the (30, 126) shape check in `predecir_palabra`. The
  composite result is that extraction always passes that check. This makes
  the "no keypoints" branches of both endpoints unreachable.
- `Upload` covers the extension whitelist of `/predict`. It includes a
  model of `posixpath.splitext` and of `str.lower`, and proves an exact
  characterisation of the accepted file names.
- `Backend` covers three endpoints:
  - `/predict`: status codes and the exception mapping;
  - `/predict-sequence`: per-file details, the threshold filter, the counts
    and the phrase with its fallback;
  - `/palabras-disponibles`: the sorted vocabulary, proved equal to the
    unique sorted permutation in `Sorting`.
- `Text` covers the string built-ins these rely on: `" ".join`,
  `str.split`, `str.lower`/`str.upper` on a character subset, Python's
  string ordering and JavaScript's decimal rendering of a length.

Client (`lsc-app-frontend`):

- `Client` covers `src/services/api.ts`:
  - `predictSign`: fails fast on a missing file, builds the form and the
    error message;
  - `checkHealth`;
  - `getAvailableWords`.
- `CameraView`, `CameraScreen`, `HomeScreen` and `App` cover the UI state
  machines. Each is a record plus pure transition functions, with an
  `Event`/`Step`/`Run` layer. Invariants are proved over every run of
  enabled events, for example:
  - at most one video callback per recording;
  - exactly one prediction request per recorded video;
  - no result in camera mode or under the spinner;
  - no navigation to the camera while the server check runs;
  - a fresh screen after each navigation;
  - recordings, requests and alerts that a left recording screen keeps
    running, traced back to that exit.

Inputs instead of calls: the video decoder, the hand detector, the
classifier, T5, the file system and every HTTP exchange are not called. What
each returns or raises is a parameter of the function that uses it.

Two details of the client's error and status handling:

- `Client.Rethrown`: the message of an Axios failure in `predictSign` is
  `"Error de predicción: "` followed by the response's `detail`, or else by
  the transport message.
- `Client.CheckHealth`: true only for status 200, not for other 2xx statuses.

The two sides disagree on the wire, and each side is modelled as its own
code does:

- `/predict` answers `{success, palabra, confianza, frames_procesados}`
  (`Backend.WordPrediction`). The client declares
  `{palabras, frase, confianza, tiempo_procesamiento}` (`Client.Prediction`).
- `/palabras-disponibles` answers an object `{total, palabras}`. The client
  reads the body as an array, so `Client.LengthText` renders the object's
  missing `length` as `undefined`.
- `checkHealth` reads only the status of `/health` and ignores its
  `models_loaded` field.

## Model

| member | source | states |
|---|---|---|
| `Keypoints.NormalizeFrame` | backend/api.py:153-160 | every frame becomes exactly 126 values; position i holds the detector's i-th value while there is one and 0.0 after it |
| `Keypoints.NormalizeKeepsPrefix` | backend/api.py:155-160 | a short detection is kept and followed by zeros, a long one is cut to its first 126 values, an empty one becomes 126 zeros |
| `Keypoints.NormalizeIdempotent` | backend/api.py:153-160 | normalising an already normalised row changes nothing |
| `Keypoints.FrameInterval` | backend/api.py:134 | the stride is at least 1; it is 1 for at most 30 reported frames, and otherwise the largest d with 30·d not above the reported count |
| `Keypoints.SampleFrom` | backend/api.py:136-164 | the sampling loop extends what it has collected, never holds more than 30 rows, row k is the normalised detection of frame k·interval, and it stops only at 30 rows or when no further multiple of the interval is readable |
| `Keypoints.SampleFrames` | backend/api.py:131-164 | the sampled rows are the normalised detections of frames 0, d, 2d, … in order, at most 30 of them, stopping early only when the frames run out |
| `Keypoints.SamplingFillsAccurateVideo` | backend/api.py:131-142 | when the container's frame count is accurate and at least 30, sampling alone yields all 30 rows |
| `Keypoints.PadWith` | backend/api.py:172-173 | padding reaches 30 rows, keeps the rows it was given as a prefix and adds only copies of the padding row |
| `Keypoints.ExtractKeypoints` | backend/api.py:169-175 | the extracted sequence always has shape (30, 126), begins with the sampled rows unchanged, and continues with copies of the last sampled row, or of a zero row when nothing was sampled |
| `Keypoints.PredictWord` | backend/api.py:178-196 | any shape but (30, 126) raises a ValueError before the classifier is consulted; otherwise the classifier's word and confidence are returned, or its exception propagates |
| `Keypoints.ExtractionPassesShapeCheck` | backend/api.py:184-185 | after extraction the shape check never fires: the result is exactly the classifier's verdict |
| `Upload.SplitExt` | backend/api.py:300 | `os.path.splitext` cuts the name into a root and an extension that concatenate back to it; the extension is non-empty exactly when a character other than a dot lies between the last separator and the last dot, and it then starts at that last dot |
| `Upload.SplitExtShape` | backend/api.py:300 | a non-empty extension is one dot followed by characters that are neither dots nor separators |
| `Upload.AcceptedIff` | backend/api.py:299-301 | a name is accepted exactly when its last four characters, lower-cased, are `.mp4`, `.mov`, `.avi` or `.mkv` and the last path component before them has a character other than a dot |
| `Text.Lower` | backend/api.py:300 | `str.lower` keeps the length, leaves no ASCII capital and no Kelvin sign behind, turns each capital into its small letter and changes no other character |
| `Text.LowerIdempotent` | backend/api.py:300 | lower-casing an already lower-cased name changes nothing |
| `Text.Upper` | backend/api.py:207 | `str.upper` keeps the length, leaves none of the small letters it handles (ASCII, and U+00E0..U+00FE except U+00F7) behind, turns each into its capital and keeps every other character, spaces included; 'ß', 'ÿ' and 'µ' stay as they are, unlike Python |
| `Text.UpperIdempotent` | backend/api.py:207 | upper-casing an already upper-cased gloss changes nothing |
| `Text.SplitJoin` | backend/api.py:427 | joining fields that do not contain the separator and splitting again gives back the fields |
| `Text.LessEqTotal` | backend/api.py:271 | Python's string order compares any two strings |
| `Text.LessEqTransitive` | backend/api.py:271 | Python's string order is transitive |
| `Text.LessEqAntisymmetric` | backend/api.py:271 | two strings each `<=` the other are equal |
| `Text.ParseDecimalOfDecimal` | lsc-app-frontend/src/screens/HomeScreen.tsx:106 | the decimal rendering of a count reads back as that count |
| `Sorting.Sort` | backend/api.py:271 | `sorted` returns a permutation of the labels in non-decreasing order |
| `Sorting.SortedUnique` | backend/api.py:271 | two sorted permutations of the same strings are equal, so the listing does not depend on the dictionary's order |
| `Backend.PredictVideo` | backend/api.py:279-336 | 503 without a classifier; 400 with the whitelist detail for a rejected name; otherwise `success` true with the classifier's word and confidence and 30 processed frames, a 400 for a ValueError, or a 500 prefixed "Error procesando video: " for any other exception |
| `Backend.PredictVideoBadRequest` | backend/api.py:299-305 | a 400 comes back exactly when the models are loaded and either the name fails the whitelist or processing raised a ValueError |
| `Backend.ProcessFile` | backend/api.py:375-414 | each detail carries position index + 1 and the file name; it is scored exactly when processing succeeds, with `aceptada` exactly when Python's `>=` holds between the confidence and the threshold (never for NaN or +inf, always for -inf), and otherwise carries the exception's text |
| `Backend.AcceptedWordsAppend` | backend/api.py:398-401 | appending a detail extends the detected words by its word exactly when it is accepted |
| `Backend.AcceptedPositionsPick` | backend/api.py:395-401 | each listed position holds an accepted detail, and the k-th detected word is that detail's word |
| `Backend.AcceptedPositionsIncreasing` | backend/api.py:375-401 | the positions of the detected words strictly increase, so the words keep the upload order |
| `Backend.AcceptedPositionsComplete` | backend/api.py:400-401 | every accepted detail contributes its word |
| `Backend.AcceptedWordsSubsequence` | backend/api.py:395-401 | the detected words are read off the accepted details at strictly increasing positions, and every accepted detail contributes |
| `Backend.GlossPromptLists` | backend/api.py:206-208 | after its instruction prefix, the T5 prompt splits at spaces into exactly the upper-cased words, one per accepted word |
| `Backend.GenerarFrase` | backend/api.py:199-223 | no words give the empty phrase without consulting the model; otherwise the generated text, or the exception T5 raised |
| `Backend.Phrase` | backend/api.py:421-427 | no accepted words give ""; a failing generator gives the words joined by single spaces; otherwise the generated text |
| `Backend.FallbackPhraseSplits` | backend/api.py:425-427 | the fallback phrase splits at spaces back into exactly the accepted words when none contains a space |
| `Backend.PredictSequence` | backend/api.py:344-437 | 503 without models, 400 for no files; otherwise `success` true, one detail per file in upload order judged against the given threshold or, when none is given, the double 0.7 (its exact binary value, just below 7/10), the accepted words, `total_videos` = number of files, `videos_aceptados` = number of accepted words, and the phrase for those words; a NaN or +inf threshold accepts nothing and gives the empty phrase, a -inf one accepts every scored video |
| `Backend.DefaultBelowSevenTenths` | backend/api.py:347 | the default threshold is the double 0.7, strictly below 7/10, so a confidence between the two is accepted |
| `Backend.PalabrasDisponibles` | backend/api.py:264-276 | 503 without labels; otherwise the labels as a sorted permutation, with `total` their number |
| `Client.Rethrown` | lsc-app-frontend/src/services/api.ts:38-43 | an Axios error becomes an Error prefixed "Error de predicción: " with a truthy `detail`, else the transport message; anything else is rethrown unchanged |
| `Client.PredictSign` | lsc-app-frontend/src/services/api.ts:17-45 | a request is sent exactly when the file exists; a missing file throws "El archivo de video no existe"; a response's data is returned unchanged; failures go through the catch block |
| `Client.MissingFileMessageUnprefixed` | lsc-app-frontend/src/services/api.ts:23-27 | the missing-file error is not an Axios error, so its message does not carry the prediction-error prefix |
| `Client.UploadNameAccepted` | lsc-app-frontend/src/services/api.ts:30-34 | the upload is one part named `file`, and its fixed name `sign_video.mp4` passes the backend's whitelist |
| `Client.CheckHealth` | lsc-app-frontend/src/services/api.ts:47-54 | online only for a response, and for a response exactly when the status is 200; a rejection means offline |
| `Client.GetAvailableWords` | lsc-app-frontend/src/services/api.ts:56-64 | never fails: the response body unchanged, or the empty array for any error |
| `Client.LengthText` | lsc-app-frontend/src/screens/HomeScreen.tsx:106 | an array's length is rendered in decimal digits that read back as the length; an object renders as `undefined` |
| `CameraView.Render` | lsc-app-frontend/src/components/CameraView.tsx:43-90 | no permission object shows the loading view, a refused permission the prompt, and only a granted one the live camera |
| `CameraView.StartRecording` | lsc-app-frontend/src/components/CameraView.tsx:16-24 | without a camera ref nothing happens; otherwise the flag rises and a recording capped at 5 seconds starts |
| `CameraView.FinishRecording` | lsc-app-frontend/src/components/CameraView.tsx:26-34 | the flag drops on every path; the callback fires exactly for a result with a non-empty URI and receives it; an alert shows exactly when recording raised |
| `CameraView.StopRecording` | lsc-app-frontend/src/components/CameraView.tsx:37-41 | the camera is told to stop exactly when a ref exists and a recording is running |
| `CameraView.RunBounds` | lsc-app-frontend/src/components/CameraView.tsx:16-41 | over any run the camera ref stays behind a granted permission, no recording starts without it, and callbacks never outnumber the recordings started |
| `CameraView.OneCallbackPerRecording` | lsc-app-frontend/src/components/CameraView.tsx:26-28 | from the initial state, there are never more video callbacks than recordings |
| `CameraScreen.AlertMessage` | lsc-app-frontend/src/screens/CameraScreen.tsx:33 | the alert shows an Error's own message, and "No se pudo procesar el video" for anything else thrown |
| `CameraScreen.VideoRecorded` | lsc-app-frontend/src/screens/CameraScreen.tsx:21-24 | a recorded video leaves camera mode and starts the spinner, touching nothing else |
| `CameraScreen.PredictionSettled` | lsc-app-frontend/src/screens/CameraScreen.tsx:26-47 | the spinner stops on both paths; success stores the prediction; failure keeps the result and raises the alert |
| `CameraScreen.TryAgain` | lsc-app-frontend/src/screens/CameraScreen.tsx:50-53 | trying again returns to camera mode with no result, so no stale result survives |
| `CameraScreen.Render` | lsc-app-frontend/src/screens/CameraScreen.tsx:55-146 | exactly one of camera, spinner, result card or nothing is shown, in that priority |
| `CameraScreen.HandleVideoRecorded` | lsc-app-frontend/src/screens/CameraScreen.tsx:21-48 | with `predictSign` inlined: the spinner ends off, a request goes out exactly when the file exists, a new result appears only from a response, a missing file alerts its own message, and an Axios failure alerts a prefixed message |
| `CameraScreen.RunBounds` | lsc-app-frontend/src/screens/CameraScreen.tsx:21-53 | over any run camera mode and the spinner exclude a result and each other, each video sends exactly one request, and the one unsettled request is the one the spinner waits for |
| `CameraScreen.RequestsMatchVideos` | lsc-app-frontend/src/screens/CameraScreen.tsx:21-27 | from the initial screen one request goes out per video and all but the pending one have settled |
| `HomeScreen.BeginCheck` | lsc-app-frontend/src/screens/HomeScreen.tsx:24-25 | starting a check turns the spinner on and adds one check in flight, leaving the status alone |
| `HomeScreen.HealthArrived` | lsc-app-frontend/src/screens/HomeScreen.tsx:27-37 | when a health check settles the status is shown at once; online goes on to wait for the words with the spinner as it was, anything else ends that check and stops the spinner |
| `HomeScreen.WordsArrived` | lsc-app-frontend/src/screens/HomeScreen.tsx:31-37 | when a word fetch settles the spinner stops; the words replace the list whatever the status shows by then, or a failure marks the server offline and keeps the list |
| `HomeScreen.FinishCheck` | lsc-app-frontend/src/screens/HomeScreen.tsx:26-38 | one check with nothing between its two waits: the spinner stops; the server counts as online exactly when health says so and the word fetch returns; words are replaced only then, and are otherwise unchanged |
| `HomeScreen.InterleavedChecks` | lsc-app-frontend/src/screens/HomeScreen.tsx:24-39 | two overlapping checks can leave the card offline with a freshly fetched word list, a state no single check produces |
| `HomeScreen.CheckServerStatus` | lsc-app-frontend/src/screens/HomeScreen.tsx:24-39 | with the client's functions, the status is what `checkHealth` reports and the words are fetched only when it is true |
| `HomeScreen.StatusTextFaces` | lsc-app-frontend/src/screens/HomeScreen.tsx:103-106 | the card's title tells checking, connected and disconnected apart; connected with an array it starts with the word count in decimal |
| `HomeScreen.StartPress` | lsc-app-frontend/src/screens/HomeScreen.tsx:41-54 | the start button navigates exactly when the server is known online; unknown or offline shows the alert |
| `HomeScreen.RunBounds` | lsc-app-frontend/src/screens/HomeScreen.tsx:20-153 | over any run, with the stages of overlapping checks interleaved in any order, the spinner shows only with a check in flight, each check started is settled or still in flight, and each navigation without a confirmed server went through "Continuar", and no navigation happens while the spinner shows, as the start button is disabled then |
| `App.SwitchRemounts` | lsc-app-frontend/App.tsx:14-18 | switching screens mounts the new one fresh: the camera screen with no result, the home screen checking again; home hands over only for a confirmed server or "Continuar"; only the camera screen's buttons or a late alert's "Volver" lead back, and "Volver" on the home screen changes nothing |
| `App.RunInvariant` | lsc-app-frontend/App.tsx:9-18 | whatever the user does and however late work settles, the mounted screen's invariant holds, and every stray recording, stray request and late alert is accounted to a camera screen left while recording or waiting |
| `App.QuietRun` | lsc-app-frontend/src/screens/CameraScreen.tsx:26-44 | from a state with nothing left behind, a run that never leaves a recording or waiting camera screen shows no late alert and leaves no request in flight |
| `App.LaunchInvariant` | lsc-app-frontend/App.tsx:9 | the app starts on the home screen with its check running and nothing left behind, and every run from there keeps the invariants |

## Left out

- Hand detection (MediaPipe), video decoding (OpenCV), classification (Keras), the label lookup and T5 tokenisation and generation. They are foreign libraries with floating-point numerics, so their results and exceptions are inputs. In particular, T5's outcome on the prompt `Backend.GlossPrompt` is one `Generation` value per request. The prompt's 512-token truncation and the generation settings are not modelled.
- Keypoint values are `real`. The float32 conversion of `np.array` and NaN are not modelled. Values are only copied, never computed on.
- Temporary files, `await file.read()`, the unlinking in the `finally` blocks, and model loading at start-up are I/O.
- The `/`, `/health` endpoints and `backend/config.py` are not modelled; `/health` appears only in the remark on the wire above.
- The `InputLayer` patch, FastAPI/CORS wiring and the `uvicorn` start-up are not modelled.
- `backend/test_api.py` is a client of a live server and is not part of this model.
- `Backend.PredictSequence`: a finite threshold and a confidence are `real`s holding the exact value of their floats, and the default is the exact value of the double 0.7; NaN and infinite thresholds are modelled, but the classifier's confidence is always finite, so a NaN confidence is not modelled.
- `Backend.ProcessFile`: as above, a NaN confidence is not modelled; every comparison with it would be false.
- `App.RunInvariant`: a late alert is modal in the app, but the model still lets the mounted screen react while one shows. This only adds runs, so the invariants cover every run of the app.
- `App.LaunchInvariant`: a camera screen left in camera mode counts as leaving a recording running even when none had started; the camera component's `isRecording` is not carried into the app.
- `Keypoints.PredictWord`: the ValueError's text leaves out the offending shape, which the source interpolates. The branch is unreachable after extraction.
- `Upload.SplitExt`: models POSIX paths only, and assumes the upload has a file name. FastAPI's `filename` of `None` is not modelled.
- `Text.Lower`: models ASCII capitals and the Kelvin sign, the one non-ASCII character whose lower case is a single ASCII letter. Other Unicode lowerings, including the two-character lower case of U+0130, cannot turn a name into an allowed extension and are left as they are.
- `Text.Upper`: models ASCII and Latin-1 letters only. 'ß', 'ÿ' and 'µ' stay unchanged, where Python gives "SS", 'Ÿ' and 'Μ', and no other script is upper-cased. It affects only the T5 prompt.
- The interleaving of asynchronous callbacks is modelled event by event, one event per `await` after which the screen state changes, not as concurrent JavaScript. Axios configuration, its 30-second timeout and `expo-file-system` internals are inputs.
- `CameraView`: the permission request button is modelled as a new permission value arriving. Camera facing is not modelled.
- `ResultCard.tsx`, `GradientButton.tsx`, styles, icons, gradients and layout are presentational.
- Console logging is not modelled.

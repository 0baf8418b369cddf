# Virtual try-on backend: a Dafny model of its decision logic

The system is a small Express backend. It receives a person photo and a garment
photo, stages both images in Firebase Storage, or serves them locally when
Firebase is not configured, and runs the IDM-VTON model on Replicate. It then
removes its temporary files and answers in JSON. This project models the rules
that decide what happens on each path. The Firebase SDK, the Replicate client
and the filesystem are outside the model, and the outcomes they produce come in
as parameters. The calls made into the SDK and the model client are recorded as
a trace (`Effects.Call`). The filesystem is a set of existing paths; the
handler returns the set left on disk after its cleanup, and no unlink appears
in the trace.

Modules, following the source layout:

- `Base` (`base.dfy`): `Option`, `Result` and an HTTP `Response`.
- `Text` (`text.dfy`): the JavaScript and Node string operations the code
  depends on: `split('/')`, `join('/')`, `slice(-2)`, `path.basename`,
  `path.extname`, `toLowerCase` and `includes`. It also holds the split/join
  round-trip lemmas.
- `Effects` (`effects.dfy`): the calls into the storage SDK and the model
  client, plus the keys a trace writes and deletes.
- `FirebaseService` (`firebase_service.dfy`) models `src/services/firebaseService.js`:
  - the four-credential configuration predicate;
  - the content-type table;
  - storage keys and public URLs, and the key `deleteFile` recovers from a URL;
  - `uploadFile`, `deleteFile` and `getBucketInfo`.
- `ReplicateService` (`replicate_service.dfy`) models `src/services/replicateService.js`:
  - the local fallback in `uploadImageToStorage`;
  - the `generateTryOn` state machine: checks, staging, model input, and
    cleanup on failure;
  - `getStorageInfo`;
  - the status and cancel pass-throughs.
- `TryOnController` (`try_on_controller.dfy`) models `src/controllers/tryOnController.js`:
  - request validation;
  - local file cleanup, as a method with a loop;
  - the reply shapes of the four handlers.
- `ErrorHandler` (`error_handler.dfy`) models `src/middleware/errorHandler.js`:
  - the first-match-wins classification of an error;
  - the reply for each rule;
  - the 404 handler.

Three behaviours of the code are easy to misread:

- A failed upload does not reach the caller with its original error.
  `uploadImageToStorage` replaces every upload error with the fixed message
  "Failed to upload image to storage" (`ReplicateService.UploadImageToStorage`).
- When one upload succeeds and the other fails, the object that was written is
  not deleted by anyone. `uploadedUrls` is only assigned after both uploads
  succeed, so the orchestrator's cleanup sees an empty list
  (`ReplicateService.PartialStagingLeavesObject`).
- The cleanup guard is `isConfigured()`, not `initialized`. This never lets a
  configured but uninitialised backend delete anything: there `uploadFile`
  throws before any call, so staging fails with `uploadedUrls` still empty
  and nothing is cleaned (`ReplicateService.UninitialisedBackendFailsAtStaging`).

## Model

| member | source | states |
|---|---|---|
| FirebaseService.ConfiguredIffAllCredentialsSet | src/services/firebaseService.js:162-169 | `isConfigured()` (`IsConfigured`) holds exactly when every one of the four credentials is non-empty |
| FirebaseService.ClearingAnyCredentialUnconfigures | src/services/firebaseService.js:162-169 | emptying any single credential makes the backend unconfigured; filling the only missing credential makes it configured |
| FirebaseService.Initialize | src/services/firebaseService.js:16-60 | the bucket is opened only when the backend is configured and the SDK does not throw, and it is the bucket named by `storageBucket` |
| FirebaseService.ContentType | src/services/firebaseService.js:146-156 | `.jpg`/`.jpeg` give image/jpeg, `.png`, `.webp` and `.gif` give their image types, each exactly when the lower-cased extension is one of them; every other extension gives application/octet-stream |
| FirebaseService.ContentTypeIgnoresCase | src/services/firebaseService.js:146-156 | renaming `dir/stem.EXT` to `dir/stem.ext`, with the extension lower-cased, never changes the content type a file is served as |
| FirebaseService.ContentTypeOfName | src/services/firebaseService.js:146-156 | the content type of `dir/stem.ext` is the table entry for the lower-cased `.ext`, or application/octet-stream when there is none: neither the directory nor the stem matters |
| FirebaseService.ContentTypeOfUpperCaseJpg | src/services/firebaseService.js:146-155 | a file `dir/stem.JPG` is served as image/jpeg, whatever the directory and stem |
| FirebaseService.ContentTypeOfDotFile | src/services/firebaseService.js:146-155 | a file named `.png` has no extension in Node's sense, so it is served as application/octet-stream |
| FirebaseService.StorageKey | src/services/firebaseService.js:80 | every storage key lies under the `uploads/` directory |
| FirebaseService.GeneratedKeysDistinct | src/services/firebaseService.js:78-100 | two generated names `<uuid>-<basename>` (`UniqueFileName`) with different uuids give different keys and different public URLs, even for two different files that share a base name |
| FirebaseService.KeyFromUrlRoundTrip | src/services/firebaseService.js:100-125 | for a slash-free object name, the last two segments of the public URL `https://storage.googleapis.com/<bucket>/<key>` (`PublicUrl`) are exactly the storage key |
| FirebaseService.KeyFromUrlJoinsLastTwo | src/services/firebaseService.js:124-125 | the key `deleteFile` takes from a URL (`KeyFromUrl`) is its last two `/`-separated segments joined by `/`, or the URL itself when it has no slash |
| FirebaseService.GeneratedKeyRoundTrip | src/services/firebaseService.js:79-125 | the key `deleteFile` derives from the URL of a generated upload is the key the object was written under |
| FirebaseService.ExplicitNestedNameMissesObject | src/services/firebaseService.js:124-125 | an explicit file name containing a slash does not round-trip: the derived key drops the `uploads/` directory and names a different object |
| FirebaseService.UploadFile | src/services/firebaseService.js:68-109 | the initialisation check comes before the existence check, and neither touches the SDK; every failure carries the fixed prefix; success happens exactly when both SDK steps succeed; the URL is built from the bucket name and key alone; the write carries the content type and original name and is followed by make-public |
| FirebaseService.NoDeletesInUpload | src/services/firebaseService.js:68-109 | an upload only writes and publishes, and never deletes |
| FirebaseService.DeleteFile | src/services/firebaseService.js:116-139 | never fails: an uninitialised backend answers false without a call; otherwise exactly one delete of the derived key, answering true exactly when that delete succeeds |
| FirebaseService.DeleteHitsUploadedObject | src/services/firebaseService.js:85-129 | deleting the URL of a generated upload deletes the very object the upload wrote |
| FirebaseService.GetBucketInfo | src/services/firebaseService.js:175-190 | an open bucket reports its name, the project id and configured/initialised true; otherwise it reports `isConfigured()`, initialised false, and a message that depends only on `isConfigured()` |
| FirebaseService.BucketInfoReportsConfiguration | src/services/firebaseService.js:175-190 | on any backend that initialisation can produce, `configured` equals `isConfigured()`; a message appears exactly when no bucket is open; an open bucket is reported under its configured name |
| Text.Split | src/services/firebaseService.js:124 | `split('/')` yields at least one piece, no piece contains a slash, and a slash-free string splits to itself |
| Text.JoinSplit | src/services/firebaseService.js:124-125 | joining the pieces of a split with `/` (`Join`) gives back the original string |
| Text.SplitJoin | src/services/firebaseService.js:124-125 | splitting a join of slash-free pieces gives back the pieces |
| Text.SplitAtSlash | src/services/firebaseService.js:124 | splitting `x/y` gives the pieces of `x` followed by the pieces of `y` |
| Text.LastTwo | src/services/firebaseService.js:125 | `slice(-2)` keeps the last two elements, or all of them when there are fewer, and they are a suffix of the input |
| Text.Basename | src/services/firebaseService.js:79 | the base name never contains a slash |
| Text.BasenameInDirectory | src/services/firebaseService.js:79 | the base name of `dir/name` is `name`, whatever the directory |
| Text.Extname | src/services/firebaseService.js:147 | an extension is empty or starts with its only dot, and it is a suffix of the base name |
| Text.ExtnameOfName | src/services/firebaseService.js:147 | the extension of `dir/stem.ext` is `.ext` whenever the stem is a proper name |
| Text.Lower | src/services/firebaseService.js:147 | lower-casing keeps the length and maps each character on its own |
| Text.IncludesIffOccurs | src/middleware/errorHandler.js:44 | `message.includes('replicate')` (`Includes`) holds exactly when the word occurs at some position of the message |
| ReplicateService.UploadImageToStorage | src/services/replicateService.js:22-41 | unconfigured: the localhost URL and no call; configured: `uploadFile`'s calls and URL, with every failure replaced by the fixed staging error |
| ReplicateService.Description | src/services/replicateService.js:76-97 | the description is the prompt when it is non-empty and `garment` otherwise, so it is never empty |
| ReplicateService.DeleteAll | src/services/replicateService.js:107-109 | one delete per URL, in order, each of the key derived from that URL; no call at all on an uninitialised backend |
| ReplicateService.Fail | src/services/replicateService.js:101-113 | the error re-thrown is the one caught; the URLs cleaned are the staged ones exactly when the backend is configured; the trace so far is kept as a prefix |
| ReplicateService.GenerateTryOn | src/services/replicateService.js:50-114 | the person file is checked before the garment file and a missing file makes no call; a result echoes exactly what the last call sent to the model, with the output passed through; cleanup only follows a failed model run on a configured backend, covers two URLs, and re-throws the run's error |
| ReplicateService.Submit | src/services/replicateService.js:64-113 | the staging calls come first; a failed upload ends the request with the staging error, no model run and no cleanup; a success echoes what the last call sent to the model, with the output unchanged; cleanup only follows a failed run on a configured backend, covers two URLs and re-throws the run's error |
| ReplicateService.FailedRunCleansStaged | src/services/replicateService.js:70-113 | after two staged uploads and a failed run, the run's error is re-thrown, and on a configured backend both URLs are cleaned, person first, after the run; on an unconfigured one nothing is cleaned |
| ReplicateService.FailedRunDeletesWhatWasWritten | src/services/replicateService.js:70-113 | when the staging wrote two keys and the URLs lead back to them, the cleanup after a failed run deletes exactly those two keys |
| ReplicateService.SuccessfulRun | src/services/replicateService.js:70-99 | a successful run answers with the model's output and an echo of the person URL, garment URL and description, after exactly the staging calls and one model run, with nothing cleaned |
| ReplicateService.SuccessfulRunDeletesNothing | src/services/replicateService.js:70-99 | a successful run after staging that only wrote and published makes no delete call: cleanup lives only in the `catch` block |
| ReplicateService.StagingFailureDeletesNothing | src/services/replicateService.js:64-110 | when either upload fails, the request ends with the staging error and its only calls are the uploads' writes and make-public calls: it deletes nothing and never runs the model |
| ReplicateService.UninitialisedBackendFailsAtStaging | src/services/replicateService.js:64-113 | a configured backend whose SDK did not initialise fails every request with no call at all, with the staging error when both files exist, and cleans nothing |
| ReplicateService.PartialStagingLeavesObject | src/services/replicateService.js:65-110 | when the person upload succeeds and the garment upload fails, the person object is written and never deleted |
| ReplicateService.SubmitFailureDeletesExactlyStaged | src/services/replicateService.js:70-113 | when the model run fails after both uploads reached Firebase, the person URL and then the garment URL are cleaned, the keys deleted are exactly the keys written, and the run's error is re-thrown |
| ReplicateService.LocalFallbackNeverDeletes | src/services/replicateService.js:104-110 | on an unconfigured backend a request never writes or deletes an object, whatever fails |
| ReplicateService.DeleteOutcomesIgnored | src/services/replicateService.js:101-113 | which deletes fail changes neither the outcome nor the calls of a request |
| ReplicateService.SuccessMapsInputs | src/services/replicateService.js:65-99 | on success the model gets the garment URL as `garm_img` and the person URL as `human_img`, the result echoes both with the output unchanged, and nothing is deleted |
| ReplicateService.LocalFallbackUrls | src/services/replicateService.js:25-32 | without Firebase both images are served at `http://localhost:<port>/uploads/<basename>` (`LocalUrl`) and nothing is uploaded |
| ReplicateService.GetStorageInfo | src/services/replicateService.js:150-162 | the descriptor is the Firebase one, with `type` `firebase` and the bucket info, exactly when the backend is configured; otherwise it is the local one, with `type` `local` and `http://localhost:<port>/uploads` |
| ReplicateService.GetPredictionStatus | src/services/replicateService.js:121-129 | one status call for the id, whose answer or error is passed on unchanged |
| ReplicateService.CancelPrediction | src/services/replicateService.js:136-144 | one cancel call for the id, whose answer or error is passed on unchanged |
| TryOnController.AllPaths | src/controllers/tryOnController.js:87 | the list holds the path of every file of every field, and nothing else |
| TryOnController.Field | src/controllers/tryOnController.js:32-40 | `req.files[name]` is present exactly when some field has that name, and then it is the files of such a field |
| TryOnController.Check | src/controllers/tryOnController.js:32-50 | missing files exactly when `req.files` or either field is absent; with both fields, a disallowed person type, or a disallowed garment type after an allowed person type, is the 400 `BadMimeType`; a missing first file where the checks read it throws (`NoFirst`), and nothing else does; both first files present with allowed types are accepted, passing those files and the prompt defaulted to the empty string |
| TryOnController.CheckAcceptsExactlyValidUploads | src/controllers/tryOnController.js:32-50 | the checks accept a request exactly when both fields have a first file of an allowed type, stated without their order; any other request with both fields ends as `BadMimeType` or `NoFirst` |
| TryOnController.PromptDefaultsToGarment | src/controllers/tryOnController.js:41-63 | an absent prompt reaches the model as `garment`, and a non-empty one reaches it verbatim |
| TryOnController.Details | src/controllers/tryOnController.js:94 | `details` is present exactly in development, and then it is the error message |
| TryOnController.CleanupFiles | src/controllers/tryOnController.js:10-21 | every listed path that exists is unlinked; one whose unlink throws stays on disk without stopping the rest; nothing else is touched |
| TryOnController.HandleGenerateTryOn | src/controllers/tryOnController.js:29-97 | a request failing validation answers 400 with no call and no cleanup; on success the two paths are removed and the reply carries the service result and storage info; on failure every uploaded path is removed and the reply is 500 |
| TryOnController.GetPredictionStatus | src/controllers/tryOnController.js:104-138 | an empty id answers 400 without a call; otherwise one status call, with the fields mapped and the timestamps renamed, or 500 |
| TryOnController.CancelPrediction | src/controllers/tryOnController.js:145-173 | an empty id answers 400 without a call; otherwise one cancel call, whose answer is returned unchanged, or 500 |
| TryOnController.HealthCheck | src/controllers/tryOnController.js:180-190 | always 200, carrying the current storage descriptor and timestamp |
| ErrorHandler.FirstMatch | src/middleware/errorHandler.js:9-60 | a reference definition: a rule of the list that applies while no earlier rule of the list does, or none exactly when no rule applies |
| ErrorHandler.Classify | src/middleware/errorHandler.js:9-60 | the handler's chain of checks always picks a rule that applies to the error |
| ErrorHandler.ClassifyIsFirstMatch | src/middleware/errorHandler.js:9-60 | the chain of checks picks the first applicable rule in the order Multer, validation, Replicate, default |
| ErrorHandler.FirstMatchWins | src/middleware/errorHandler.js:9-60 | when a rule applies and no earlier rule does, that rule is the one chosen |
| ErrorHandler.OtherMulterCodesFallThrough | src/middleware/errorHandler.js:10-32 | a Multer error with any other code is handled exactly like an unnamed error with the same message and status |
| ErrorHandler.Handle | src/middleware/errorHandler.js:6-61 | the three Multer rules and validation errors are exactly the 400 replies with details; a Replicate error gives 500 with the message only in development; otherwise the status and message default to 500 and "Internal server error", and the stack appears only in development |
| ErrorHandler.NotFound | src/middleware/errorHandler.js:66-73 | 404, echoing the original URL and the method |

## Left out

- The Firebase Admin SDK is not modelled. Its calls (`bucket.upload`, `makePublic`, `bucket.file().delete()`) appear as trace entries, and their outcomes are parameters (`UploadEnv`, the set of keys whose delete fails).
- Initialisation is modelled only as its result (`FirebaseService.Initialize`), because the SDK is foreign code. This covers the open bucket or its absence, and whether the SDK threw. The service-account object and the reuse of an existing app are not modelled.
- The Replicate client is not modelled. `run`, `predictions.get` and `predictions.cancel` become trace entries, and their answers or errors are parameters.
- The filesystem is a set of existing paths. `existsSync` is membership. An unlink failure is a path in a given set.
- `uuidv4()` and `new Date().toISOString()` are parameters: the upload's uuid and the health-check timestamp. The `uploadedAt` metadata of an upload is not recorded.
- `Promise.all` is modelled as "both finish, then combine", with the person branch's calls listed first. Both staging errors carry the same fixed message, so it does not matter which branch rejects first.
- `src/server.js`, `src/routes/tryOnRoutes.js` and `test-firebase.js` are not part of this model. They are Express wiring, multer setup, signal handling and status printing.
- Console logging is left out. It has no effect on any result.
- ErrorHandler.Handle: the megabyte figure in the file-size message is a string parameter. The source computes it as a floating-point division of the configured limit.
- Text.Lower: lower-cases ASCII letters only. JavaScript's `toLowerCase` also maps non-ASCII letters, but every extension in the content-type table is ASCII.
- Every JSON body leaves out the constant `success` flag. The port is a string, as it appears in the URLs.
- Request fields are strings or absent. A non-string `textPrompt` and a non-array entry in `req.files` are not modelled.
- TryOnController.GetPredictionStatus: an empty string stands for every falsy `predictionId`. Express route parameters are strings.

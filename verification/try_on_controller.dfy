/** The HTTP handlers (src/controllers/tryOnController.js): validate the upload,
    call the orchestration, remove the local temporary files, and shape the JSON
    replies; plus the prediction status, cancel and health handlers. */
module TryOnController {
  import opened Base
  import opened Effects
  import opened FirebaseService
  import opened ReplicateService

  /** One file multer stored on disk. */
  datatype UploadedFile = UploadedFile(filename: string, path: string, mimetype: string)

  /** One entry of `req.files`: a form field and the files received for it. */
  datatype FileField = FileField(name: string, files: seq<UploadedFile>)

  /** The parts of a request the handler reads: `req.files` (absent when the
      request carried no files) and `req.body.textPrompt`. */
  datatype TryOnRequest = TryOnRequest(files: Option<seq<FileField>>, textPrompt: Option<string>)

  const PersonField := "personImage"
  const GarmentField := "garmentImage"
  const AllowedMimes := ["image/jpeg", "image/jpg", "image/png", "image/webp"]

  const BothRequired := "Both person image and garment image are required"
  const InvalidType := "Invalid file type. Only JPEG, PNG, and WebP images are allowed."
  const GenerateFailed := "Failed to generate virtual try-on"
  const GeneratedMessage := "Virtual try-on generated successfully"
  /** The `TypeError` raised by reading `.mimetype` of a missing first file. */
  const NoFirstFile := "Cannot read properties of undefined (reading 'mimetype')"
  const IdRequired := "Prediction ID is required"
  const StatusFailed := "Failed to get prediction status"
  const CancelFailed := "Failed to cancel prediction"
  const Canceled := "Prediction canceled successfully"
  const HealthyMessage := "Try-on service is healthy"
  const Version := "1.0.0"

  /** `req.files[name]`: the files of the first field with that name. */
  function Field(fields: seq<FileField>, name: string): (r: Option<seq<UploadedFile>>)
    ensures r.Some? <==> exists i :: 0 <= i < |fields| && fields[i].name == name
    ensures r.Some? ==> exists i :: 0 <= i < |fields| && fields[i].name == name && fields[i].files == r.value
  {
    if |fields| == 0 then None
    else if fields[0].name == name then Some(fields[0].files)
    else
      var r := Field(fields[1..], name);
      assert forall i :: 1 <= i < |fields| ==> fields[1..][i - 1] == fields[i];
      r
  }

  /** `Object.values(req.files).flat().map(file => file.path)`: every stored
      file's path, field by field. */
  function AllPaths(fields: seq<FileField>): (paths: seq<string>)
    ensures forall i, j :: 0 <= i < |fields| && 0 <= j < |fields[i].files| ==> fields[i].files[j].path in paths
    ensures forall p :: p in paths ==>
      exists i, j :: 0 <= i < |fields| && 0 <= j < |fields[i].files| && fields[i].files[j].path == p
  {
    if |fields| == 0 then []
    else
      var here := seq(|fields[0].files|, j requires 0 <= j < |fields[0].files| => fields[0].files[j].path);
      var rest := AllPaths(fields[1..]);
      assert forall i :: 1 <= i < |fields| ==> fields[1..][i - 1] == fields[i];
      assert forall p :: p in rest ==>
        exists i, j :: 1 <= i < |fields| && 0 <= j < |fields[i].files| && fields[i].files[j].path == p;
      assert forall j :: 0 <= j < |fields[0].files| ==> fields[0].files[j].path == here[j];
      assert forall i, j :: 1 <= i < |fields| && 0 <= j < |fields[i].files| ==>
        fields[i].files[j] == fields[1..][i - 1].files[j];
      here + rest
  }

  /** How the handler's checks end before the service is called. */
  datatype Checked =
    | MissingFiles
    | BadMimeType
    /** `req.files.<field>[0]` was undefined, so reading `.mimetype` threw. */
    | NoFirst
    | Accepted(person: UploadedFile, garment: UploadedFile, textPrompt: string)

  /** `req.files` is present and has both image fields. */
  predicate BothFields(req: TryOnRequest)
  {
    req.files.Some? && Field(req.files.value, PersonField).Some? && Field(req.files.value, GarmentField).Some?
  }

  /** `req.files.personImage`. */
  function PersonFiles(req: TryOnRequest): seq<UploadedFile>
    requires BothFields(req)
  {
    Field(req.files.value, PersonField).value
  }

  /** `req.files.garmentImage`. */
  function GarmentFiles(req: TryOnRequest): seq<UploadedFile>
    requires BothFields(req)
  {
    Field(req.files.value, GarmentField).value
  }

  /** The request checks in source order: both fields present, then the
      person's MIME type, then the garment's (`||` short-circuits). */
  function Check(req: TryOnRequest): (c: Checked)
    ensures c.Accepted? ==>
      && req.files.Some?
      && Field(req.files.value, PersonField).Some? && |Field(req.files.value, PersonField).value| >= 1
      && Field(req.files.value, PersonField).value[0] == c.person
      && Field(req.files.value, GarmentField).Some? && |Field(req.files.value, GarmentField).value| >= 1
      && Field(req.files.value, GarmentField).value[0] == c.garment
      && c.person.mimetype in AllowedMimes && c.garment.mimetype in AllowedMimes
      && (c.textPrompt == "" <==> req.textPrompt.None? || req.textPrompt == Some(""))
      && (c.textPrompt != "" ==> req.textPrompt == Some(c.textPrompt))
    ensures c == MissingFiles <==>
      req.files.None? || Field(req.files.value, PersonField).None? || Field(req.files.value, GarmentField).None?
    // reading `.mimetype` of a missing first file throws, unless `||` never reaches it
    ensures c == NoFirst <==>
      && BothFields(req)
      && (|PersonFiles(req)| == 0 || (PersonFiles(req)[0].mimetype in AllowedMimes && |GarmentFiles(req)| == 0))
    // the person's type is checked first, then the garment's
    ensures BothFields(req) && |PersonFiles(req)| >= 1 && PersonFiles(req)[0].mimetype !in AllowedMimes ==>
      c == BadMimeType
    ensures
      && BothFields(req) && |PersonFiles(req)| >= 1 && |GarmentFiles(req)| >= 1
      && GarmentFiles(req)[0].mimetype !in AllowedMimes
      ==> c == BadMimeType
    ensures
      && BothFields(req) && |PersonFiles(req)| >= 1 && |GarmentFiles(req)| >= 1
      && PersonFiles(req)[0].mimetype in AllowedMimes && GarmentFiles(req)[0].mimetype in AllowedMimes
      ==> c.Accepted?
  {
    if req.files.None? then MissingFiles
    else
      var person := Field(req.files.value, PersonField);
      var garment := Field(req.files.value, GarmentField);
      if person.None? || garment.None? then MissingFiles
      else
        var textPrompt := if req.textPrompt.Some? then req.textPrompt.value else "";
        if |person.value| == 0 then NoFirst
        else if person.value[0].mimetype !in AllowedMimes then BadMimeType
        else if |garment.value| == 0 then NoFirst
        else if garment.value[0].mimetype !in AllowedMimes then BadMimeType
        else
          Accepted(person.value[0], garment.value[0], textPrompt)
  }

  /** What the handler is meant to accept, stated without the order of its
      checks: both fields, each with a first file of an allowed type. */
  predicate ValidUpload(req: TryOnRequest)
  {
    && BothFields(req)
    && |PersonFiles(req)| >= 1 && PersonFiles(req)[0].mimetype in AllowedMimes
    && |GarmentFiles(req)| >= 1 && GarmentFiles(req)[0].mimetype in AllowedMimes
  }

  /** The checks accept exactly the valid uploads, and pass on their first files;
      every other request with both fields is a 400 (`BadMimeType`) unless a
      first file is missing where the checks read it (`NoFirst`). */
  lemma CheckAcceptsExactlyValidUploads(req: TryOnRequest)
    ensures Check(req).Accepted? <==> ValidUpload(req)
    ensures Check(req).Accepted? ==>
      Check(req).person == PersonFiles(req)[0] && Check(req).garment == GarmentFiles(req)[0]
    ensures BothFields(req) && !ValidUpload(req) ==> Check(req) in {BadMimeType, NoFirst}
  {
  }

  /** An absent or empty `textPrompt` reaches the model as the description
      `'garment'`; any other prompt reaches it verbatim. */
  lemma PromptDefaultsToGarment(req: TryOnRequest)
    requires Check(req).Accepted?
    ensures req.textPrompt.None? ==> Description(Check(req).textPrompt) == DefaultDescription
    ensures req.textPrompt.Some? && req.textPrompt.value != "" ==>
      Description(Check(req).textPrompt) == req.textPrompt.value
  {
  }

  /** The JSON bodies the handlers send; absent fields are `None`. */
  datatype Body =
    | Unsuccessful(error: string, details: Option<string>)
    | Generated(outputUrl: Output, input: Echo, storage: StorageInfo, message: string)
    | StatusView(view: PredictionView)
    | CancelView(canceled: Prediction, message: string)
    | Healthy(message: string, timestamp: string, version: string, storage: StorageInfo)

  /** The `data` of a status reply, with the timestamps renamed to camelCase. */
  datatype PredictionView = PredictionView(id: string, status: string, output: Option<Output>, error: Option<string>,
                                           createdAt: string, completedAt: Option<string>)

  /** `details` of a 500 reply: the error message in development only. */
  function Details(nodeEnv: Option<string>, message: string): (d: Option<string>)
    ensures d.Some? <==> nodeEnv == Some("development")
    ensures d.Some? ==> d.value == message
  {
    if nodeEnv == Some("development") then Some(message) else None
  }

  /** `cleanupFiles(filePaths)`: unlink every listed path that exists; an unlink
      that throws (a path in `unlinkFails`) is logged and the loop goes on.
      Returns the files left on disk and the paths an unlink was tried on. */
  method CleanupFiles(files: set<string>, filePaths: seq<string>, unlinkFails: set<string>)
    returns (remaining: set<string>, tried: seq<string>)
    ensures remaining == files - (set p | p in filePaths && p !in unlinkFails)
    ensures forall p :: p in tried ==> p in filePaths && p in files
    ensures forall p :: p in filePaths && p in files ==> p in tried
  {
    remaining := files;
    tried := [];
    var i := 0;
    while i < |filePaths|
      invariant 0 <= i <= |filePaths|
      invariant remaining == files - (set p | p in filePaths[..i] && p !in unlinkFails)
      invariant forall p :: p in tried ==> p in filePaths[..i] && p in files
      invariant forall p :: p in filePaths[..i] && p in files ==> p in tried
    {
      var path := filePaths[i];
      if path in remaining {
        tried := tried + [path];
        if path !in unlinkFails {
          remaining := remaining - {path};
        }
      }
      assert filePaths[..i + 1] == filePaths[..i] + [path];
      i := i + 1;
    }
    assert filePaths[..i] == filePaths;
  }

  /** The route handler `generateTryOn(req, res)`. `files` are the paths on
      disk; `nodeEnv` is `process.env.NODE_ENV`. Returns the reply, the paths
      left on disk and the calls made into the storage SDK and the model client. */
  method HandleGenerateTryOn(fb: Service, port: string, nodeEnv: Option<string>, files: set<string>,
                             req: TryOnRequest, remote: Remote, unlinkFails: set<string>)
    returns (res: Response<Body>, remaining: set<string>, calls: seq<Call>)
    // a request rejected by validation reaches no service and removes nothing
    ensures Check(req).MissingFiles? ==>
      res == Response(400, Unsuccessful(BothRequired, None)) && remaining == files && calls == []
    ensures Check(req).BadMimeType? ==>
      res == Response(400, Unsuccessful(InvalidType, None)) && remaining == files && calls == []
    // an exception in the handler removes every uploaded file and answers 500
    ensures Check(req).NoFirst? ==>
      && res == Response(500, Unsuccessful(GenerateFailed, Details(nodeEnv, NoFirstFile)))
      && calls == []
      && remaining == files - (set p | p in AllPaths(req.files.value) && p !in unlinkFails)
    ensures Check(req).Accepted? ==>
      var c := Check(req);
      var t := ReplicateService.GenerateTryOn(fb, port, files, c.person.path, c.garment.path, c.textPrompt, remote);
      && calls == t.calls
      && (t.result.Success? ==>
            && res == Response(200, Generated(t.result.value.outputUrl, t.result.value.input,
                                              GetStorageInfo(fb, port), GeneratedMessage))
            && remaining == files - (set p | p in [c.person.path, c.garment.path] && p !in unlinkFails))
      && (t.result.Failure? ==>
            && res == Response(500, Unsuccessful(GenerateFailed, Details(nodeEnv, t.result.error)))
            && remaining == files - (set p | p in AllPaths(req.files.value) && p !in unlinkFails))
  {
    var checked := Check(req);
    var tried: seq<string>;
    match checked
    case MissingFiles =>
      res, remaining, calls := Response(400, Unsuccessful(BothRequired, None)), files, [];
    case BadMimeType =>
      res, remaining, calls := Response(400, Unsuccessful(InvalidType, None)), files, [];
    case NoFirst =>
      remaining, tried := CleanupFiles(files, AllPaths(req.files.value), unlinkFails);
      res, calls := Response(500, Unsuccessful(GenerateFailed, Details(nodeEnv, NoFirstFile))), [];
    case Accepted(person, garment, textPrompt) =>
      var t := ReplicateService.GenerateTryOn(fb, port, files, person.path, garment.path, textPrompt, remote);
      calls := t.calls;
      if t.result.Success? {
        remaining, tried := CleanupFiles(files, [person.path, garment.path], unlinkFails);
        var storageInfo := GetStorageInfo(fb, port);
        res := Response(200, Generated(t.result.value.outputUrl, t.result.value.input, storageInfo, GeneratedMessage));
      } else {
        remaining, tried := CleanupFiles(files, AllPaths(req.files.value), unlinkFails);
        res := Response(500, Unsuccessful(GenerateFailed, Details(nodeEnv, t.result.error)));
      }
  }

  /** The outcome of a status or cancel request: the reply and the client calls. */
  datatype Handled = Handled(response: Response<Body>, calls: seq<Call>)

  /** `getPredictionStatus(req, res)`, with `answer` what the client returns. */
  function GetPredictionStatus(predictionId: string, nodeEnv: Option<string>, answer: Result<Prediction, string>): (h: Handled)
    ensures predictionId == "" ==> h == Handled(Response(400, Unsuccessful(IdRequired, None)), [])
    ensures predictionId != "" ==> h.calls == [GetPrediction(predictionId)]
    ensures predictionId != "" && answer.Success? ==>
      var p := answer.value;
      h.response == Response(200, StatusView(PredictionView(p.id, p.status, p.output, p.error, p.created_at, p.completed_at)))
    ensures predictionId != "" && answer.Failure? ==>
      h.response == Response(500, Unsuccessful(StatusFailed, Details(nodeEnv, answer.error)))
  {
    if predictionId == "" then Handled(Response(400, Unsuccessful(IdRequired, None)), [])
    else
      var fetched := ReplicateService.GetPredictionStatus(predictionId, answer);
      match fetched.result
      case Success(p) =>
        Handled(Response(200, StatusView(PredictionView(p.id, p.status, p.output, p.error, p.created_at, p.completed_at))), fetched.calls)
      case Failure(e) =>
        Handled(Response(500, Unsuccessful(StatusFailed, Details(nodeEnv, e))), fetched.calls)
  }

  /** `cancelPrediction(req, res)`: the client's answer is returned unchanged. */
  function CancelPrediction(predictionId: string, nodeEnv: Option<string>, answer: Result<Prediction, string>): (h: Handled)
    ensures predictionId == "" ==> h == Handled(Response(400, Unsuccessful(IdRequired, None)), [])
    ensures predictionId != "" ==> h.calls == [Effects.CancelPrediction(predictionId)]
    ensures predictionId != "" && answer.Success? ==> h.response == Response(200, CancelView(answer.value, Canceled))
    ensures predictionId != "" && answer.Failure? ==>
      h.response == Response(500, Unsuccessful(CancelFailed, Details(nodeEnv, answer.error)))
  {
    if predictionId == "" then Handled(Response(400, Unsuccessful(IdRequired, None)), [])
    else
      var fetched := ReplicateService.CancelPrediction(predictionId, answer);
      match fetched.result
      case Success(p) => Handled(Response(200, CancelView(p, Canceled)), fetched.calls)
      case Failure(e) => Handled(Response(500, Unsuccessful(CancelFailed, Details(nodeEnv, e))), fetched.calls)
  }

  /** `healthCheck(req, res)`, with `timestamp` the current time. */
  function HealthCheck(fb: Service, port: string, timestamp: string): (res: Response<Body>)
    ensures res.status == 200
    ensures res.body.Healthy? && res.body.storage == GetStorageInfo(fb, port) && res.body.timestamp == timestamp
  {
    Response(200, Healthy(HealthyMessage, timestamp, Version, GetStorageInfo(fb, port)))
  }
}

/** The Express error middleware (src/middleware/errorHandler.js): map an
    error to a status and a JSON body by the first rule that matches, and the
    404 handler. */
module ErrorHandler {
  import opened Base
  import opened Text

  /** The error fields the handler reads; an absent or falsy field is "" or 0. */
  datatype Error = Error(name: string, code: string, message: string, statusCode: nat, stack: string)

  /** The replies: `{error, details}` for the recognised errors, `{error, stack?}`
      for the rest, `{error, path, method}` for an unknown route. */
  datatype Body =
    | Detailed(error: string, details: string)
    | Plain(error: string, stack: Option<string>)
    | RouteNotFound(error: string, path: string, httpMethod: string)

  /** The handler's rules, in the order it tries them. */
  datatype Rule = FileTooLarge | TooManyFiles | UnexpectedField | Validation | ReplicateApi | Fallback

  const Rules := [FileTooLarge, TooManyFiles, UnexpectedField, Validation, ReplicateApi, Fallback]

  /** When a rule applies to an error, on its own. */
  predicate Matches(rule: Rule, e: Error)
  {
    match rule
    case FileTooLarge => e.name == "MulterError" && e.code == "LIMIT_FILE_SIZE"
    case TooManyFiles => e.name == "MulterError" && e.code == "LIMIT_FILE_COUNT"
    case UnexpectedField => e.name == "MulterError" && e.code == "LIMIT_UNEXPECTED_FILE"
    case Validation => e.name == "ValidationError"
    case ReplicateApi => e.message != "" && Includes(e.message, "replicate")
    case Fallback => true
  }

  /** The first rule of `rules` that applies to `e`. */
  function FirstMatch(rules: seq<Rule>, e: Error): (r: Option<Rule>)
    ensures r.Some? ==> r.value in rules && Matches(r.value, e)
    ensures r.None? <==> forall i :: 0 <= i < |rules| ==> !Matches(rules[i], e)
    ensures r.Some? ==> exists i :: 0 <= i < |rules| && rules[i] == r.value && NoneMatchBefore(rules, e, i)
  {
    if |rules| == 0 then None
    else if Matches(rules[0], e) then
      assert rules[0] == rules[0] && NoneMatchBefore(rules, e, 0);
      Some(rules[0])
    else
      var r := FirstMatch(rules[1..], e);
      assert forall i :: 1 <= i < |rules| ==> rules[i] == rules[1..][i - 1];
      if r.Some? then
        var i :| 0 <= i < |rules[1..]| && rules[1..][i] == r.value && NoneMatchBefore(rules[1..], e, i);
        assert rules[i + 1] == r.value && NoneMatchBefore(rules, e, i + 1);
        r
      else r
  }

  /** No rule before position `i` applies. */
  predicate NoneMatchBefore(rules: seq<Rule>, e: Error, i: nat)
    requires i <= |rules|
  {
    forall j :: 0 <= j < i ==> !Matches(rules[j], e)
  }

  /** The handler's chain of `if`s, written as in the source. */
  function Classify(e: Error): (rule: Rule)
    ensures Matches(rule, e)
  {
    if e.name == "MulterError" && e.code == "LIMIT_FILE_SIZE" then FileTooLarge
    else if e.name == "MulterError" && e.code == "LIMIT_FILE_COUNT" then TooManyFiles
    else if e.name == "MulterError" && e.code == "LIMIT_UNEXPECTED_FILE" then UnexpectedField
    else if e.name == "ValidationError" then Validation
    else if e.message != "" && Includes(e.message, "replicate") then ReplicateApi
    else Fallback
  }

  /** The chain of `if`s picks the first applicable rule of `Rules`. */
  lemma ClassifyIsFirstMatch(e: Error)
    ensures FirstMatch(Rules, e) == Some(Classify(e))
  {
    var i := match Classify(e)
      case FileTooLarge => 0
      case TooManyFiles => 1
      case UnexpectedField => 2
      case Validation => 3
      case ReplicateApi => 4
      case Fallback => 5;
    FirstMatchIsEarliest(Rules, e, i);
  }

  /** First match wins: the rule chosen is the earliest in `Rules` that applies. */
  lemma FirstMatchWins(e: Error, i: nat)
    requires i < |Rules| && Matches(Rules[i], e)
    requires forall j :: 0 <= j < i ==> !Matches(Rules[j], e)
    ensures Classify(e) == Rules[i]
  {
    FirstMatchIsEarliest(Rules, e, i);
    ClassifyIsFirstMatch(e);
  }

  lemma {:induction false} FirstMatchIsEarliest(rules: seq<Rule>, e: Error, i: nat)
    requires i < |rules| && Matches(rules[i], e)
    requires forall j :: 0 <= j < i ==> !Matches(rules[j], e)
    ensures FirstMatch(rules, e) == Some(rules[i])
  {
    if i > 0 {
      FirstMatchIsEarliest(rules[1..], e, i - 1);
    }
  }

  /** A multer error with any other code is handled exactly as an error of no
      particular name with the same message and status would be. */
  lemma OtherMulterCodesFallThrough(e: Error)
    requires e.name == "MulterError"
    requires e.code !in {"LIMIT_FILE_SIZE", "LIMIT_FILE_COUNT", "LIMIT_UNEXPECTED_FILE"}
    ensures Classify(e) in {ReplicateApi, Fallback}
    ensures forall nodeEnv, size :: Handle(e, nodeEnv, size) == Handle(e.(name := ""), nodeEnv, size)
  {
  }

  const Development := "development"

  /** `errorHandler(err, req, res, next)`. `nodeEnv` is `config.server.nodeEnv`;
      `maxFileSizeMb` is the configured limit as rendered in megabytes. */
  function Handle(e: Error, nodeEnv: string, maxFileSizeMb: string): (res: Response<Body>)
    ensures Classify(e) in {FileTooLarge, TooManyFiles, UnexpectedField, Validation} <==> res.status == 400 && res.body.Detailed?
    ensures Classify(e) == FileTooLarge ==>
      res.body == Detailed("File too large", "Maximum file size is " + maxFileSizeMb + "MB")
    ensures Classify(e) == TooManyFiles ==> res.body == Detailed("Too many files", "Maximum number of files exceeded")
    ensures Classify(e) == UnexpectedField ==> res.body == Detailed("Unexpected file field", "Invalid file field name")
    ensures Classify(e) == Validation ==> res.body == Detailed("Validation error", e.message)
    ensures Classify(e) == ReplicateApi ==>
      res == Response(500, Detailed("Replicate API error",
                                    if nodeEnv == Development then e.message else "Service temporarily unavailable"))
    ensures Classify(e) == Fallback ==>
      && res.status == (if e.statusCode != 0 then e.statusCode else 500)
      && res.body == Plain(if e.message != "" then e.message else "Internal server error",
                           if nodeEnv == Development then Some(e.stack) else None)
  {
    match Classify(e)
    case FileTooLarge => Response(400, Detailed("File too large", "Maximum file size is " + maxFileSizeMb + "MB"))
    case TooManyFiles => Response(400, Detailed("Too many files", "Maximum number of files exceeded"))
    case UnexpectedField => Response(400, Detailed("Unexpected file field", "Invalid file field name"))
    case Validation => Response(400, Detailed("Validation error", e.message))
    case ReplicateApi =>
      Response(500, Detailed("Replicate API error",
                             if nodeEnv == Development then e.message else "Service temporarily unavailable"))
    case Fallback =>
      var statusCode := if e.statusCode != 0 then e.statusCode else 500;
      var message := if e.message != "" then e.message else "Internal server error";
      Response(statusCode, Plain(message, if nodeEnv == Development then Some(e.stack) else None))
  }

  /** `notFoundHandler(req, res)`. */
  function NotFound(originalUrl: string, httpMethod: string): (res: Response<Body>)
    ensures res.status == 404
    ensures res.body.RouteNotFound? && res.body.path == originalUrl && res.body.httpMethod == httpMethod
  {
    Response(404, RouteNotFound("Route not found", originalUrl, httpMethod))
  }
}

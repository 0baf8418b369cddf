/** The try-on orchestration (src/services/replicateService.js): stage both
    images, run the IDM-VTON model on their URLs, and on failure delete what was
    staged before re-throwing; plus the storage descriptor and the prediction
    status/cancel pass-throughs. */
module ReplicateService {
  import opened Base
  import opened Text
  import opened Effects
  import opened FirebaseService

  const Model := "cuuupid/idm-vton:0513734a452173b8173e907e3a59d19a36266e55b48528559432bd21c7d7e985"

  const StagingFailed := "Failed to upload image to storage"
  const PersonMissing := "Person image file not found"
  const GarmentMissing := "Garment image file not found"
  const DefaultDescription := "garment"
  const LocalHost := "http://localhost:"

  /** `http://localhost:<port>/uploads/<basename>`, where the server serves its
      upload directory itself. */
  function LocalUrl(port: string, imagePath: string): string
  {
    LocalHost + port + "/" + UploadDir + [Slash] + Basename(imagePath)
  }

  /** `uploadImageToStorage(imagePath)`: the local URL when Firebase is not
      configured (nothing is uploaded), otherwise `uploadFile`'s URL, with every
      upload error replaced by one fixed error. */
  function UploadImageToStorage(fb: Service, port: string, files: set<string>, imagePath: string, env: UploadEnv): (u: Upload)
    ensures !IsConfigured(fb.config) ==> u == Upload(Success(LocalUrl(port, imagePath)), [])
    ensures u.result.Failure? ==> u.result.error == StagingFailed
    ensures IsConfigured(fb.config) ==> u.calls == UploadFile(fb, files, imagePath, None, env).calls
    ensures IsConfigured(fb.config) ==> (u.result.Success? <==> UploadFile(fb, files, imagePath, None, env).result.Success?)
    ensures IsConfigured(fb.config) && u.result.Success? ==> u.result == UploadFile(fb, files, imagePath, None, env).result
  {
    if !IsConfigured(fb.config) then
      Upload(Success(LocalUrl(port, imagePath)), [])
    else
      var up := UploadFile(fb, files, imagePath, None, env);
      match up.result
      case Success(url) => up
      case Failure(_) => Upload(Failure(StagingFailed), up.calls)
  }

  /** `textPrompt || 'garment'`. */
  function Description(textPrompt: string): (d: string)
    ensures d != ""
    ensures textPrompt != "" ==> d == textPrompt
    ensures textPrompt == "" ==> d == DefaultDescription
  {
    if textPrompt != "" then textPrompt else DefaultDescription
  }

  /** Whatever the model returns: one URL or a list of them. */
  datatype Output = Single(url: string) | Many(urls: seq<string>)

  /** The `input` echo of a successful result. */
  datatype Echo = Echo(humanImg: string, garmentImg: string, garmentDescription: string)

  datatype TryOnResult = TryOnResult(outputUrl: Output, input: Echo)

  /** What the world supplies to one `generateTryOn` call: the two uploads'
      outcomes, the model run's outcome, and the object keys whose delete fails. */
  datatype Remote = Remote(person: UploadEnv, garment: UploadEnv, run: Result<Output, string>, failingDeletes: set<string>)

  /** The result or the error `generateTryOn` ends with, the URLs handed to
      `deleteFile` on the way, and every SDK/client call in order. */
  datatype TryOn = TryOn(result: Result<TryOnResult, string>, deleted: seq<string>, calls: seq<Call>)

  /** `Promise.all(urls.map(deleteFile))`: one `deleteFile` per URL, in order;
      the booleans they return are discarded by the caller. */
  function DeleteAll(fb: Service, urls: seq<string>, failing: set<string>): (calls: seq<Call>)
    ensures fb.Initialized() ==>
      |calls| == |urls| && forall i :: 0 <= i < |urls| ==> calls[i] == BucketDelete(KeyFromUrl(urls[i]))
    ensures !fb.Initialized() ==> calls == []
  {
    if |urls| == 0 then []
    else DeleteFile(fb, urls[0], failing).calls + DeleteAll(fb, urls[1..], failing)
  }

  /** The `catch` block: clean up `uploadedUrls` when Firebase is configured and
      there is something to clean, then re-throw `error` unchanged. */
  function Fail(fb: Service, uploadedUrls: seq<string>, error: string, calls: seq<Call>, remote: Remote): (t: TryOn)
    ensures t.result == Failure(error)
    ensures t.deleted == (if IsConfigured(fb.config) then uploadedUrls else [])
    ensures |t.calls| >= |calls| && t.calls[..|calls|] == calls
  {
    if IsConfigured(fb.config) && |uploadedUrls| > 0 then
      TryOn(Failure(error), uploadedUrls, calls + DeleteAll(fb, uploadedUrls, remote.failingDeletes))
    else
      TryOn(Failure(error), [], calls)
  }

  /** `generateTryOn(personImagePath, garmentImagePath, textPrompt)`. The two
      uploads run side by side; the person branch's calls are listed first.
      `uploadedUrls` is only set once both uploads have succeeded. */
  function GenerateTryOn(fb: Service, port: string, files: set<string>, personPath: string, garmentPath: string,
                         textPrompt: string, remote: Remote): (t: TryOn)
    // the local existence checks come first and make no call at all
    ensures personPath !in files ==> t == TryOn(Failure(PersonMissing), [], [])
    ensures personPath in files && garmentPath !in files ==> t == TryOn(Failure(GarmentMissing), [], [])
    // a result, when there is one, echoes exactly what was sent to the model
    ensures t.result.Success? ==>
      && t.deleted == []
      && |t.calls| >= 1
      && t.calls[|t.calls| - 1] == RunModel(Model, ModelInput(t.result.value.input.garmentImg,
                                                            t.result.value.input.humanImg,
                                                            t.result.value.input.garmentDescription))
      && t.result.value.input.garmentDescription == Description(textPrompt)
      && remote.run == Success(t.result.value.outputUrl)
    // cleanup touches at most the two staged URLs, and only when configured
    ensures t.deleted != [] ==> IsConfigured(fb.config) && |t.deleted| == 2 && remote.run.Failure?
    ensures t.result.Failure? && remote.run.Failure? && t.deleted != [] ==> t.result.error == remote.run.error
  {
    if personPath !in files then Fail(fb, [], PersonMissing, [], remote)
    else if garmentPath !in files then Fail(fb, [], GarmentMissing, [], remote)
    else
      Submit(fb, UploadImageToStorage(fb, port, files, personPath, remote.person),
             UploadImageToStorage(fb, port, files, garmentPath, remote.garment), textPrompt, remote)
  }

  /** The rest of `generateTryOn` once `Promise.all` has settled, given the
      person and garment staging outcomes. */
  function Submit(fb: Service, human: Upload, garm: Upload, textPrompt: string, remote: Remote): (t: TryOn)
    // the staging calls come first, and a staging failure is reported before the model is run
    ensures |t.calls| >= |human.calls + garm.calls| && t.calls[..|human.calls + garm.calls|] == human.calls + garm.calls
    ensures human.result.Failure? || garm.result.Failure? ==>
      t == TryOn(Failure(StagingFailed), [], human.calls + garm.calls)
    ensures t.result.Success? ==>
      && t.deleted == []
      && |t.calls| >= 1
      && t.calls[|t.calls| - 1] == RunModel(Model, ModelInput(t.result.value.input.garmentImg,
                                                            t.result.value.input.humanImg,
                                                            t.result.value.input.garmentDescription))
      && t.result.value.input.garmentDescription == Description(textPrompt)
      && remote.run == Success(t.result.value.outputUrl)
    ensures t.deleted != [] ==> IsConfigured(fb.config) && |t.deleted| == 2 && remote.run.Failure?
    ensures t.result.Failure? && remote.run.Failure? && t.deleted != [] ==> t.result.error == remote.run.error
  {
    var staging := human.calls + garm.calls;
    if human.result.Failure? || garm.result.Failure? then
      Fail(fb, [], StagingFailed, staging, remote)
    else
      var humanImgUrl, garmImgUrl := human.result.value, garm.result.value;
      var uploadedUrls := [humanImgUrl, garmImgUrl];
      var description := Description(textPrompt);
      var calls := staging + [RunModel(Model, ModelInput(garmImgUrl, humanImgUrl, description))];
      match remote.run
      case Success(output) =>
        TryOn(Success(TryOnResult(output, Echo(humanImgUrl, garmImgUrl, description))), [], calls)
      case Failure(e) =>
        Fail(fb, uploadedUrls, e, calls, remote)
  }

  /** Whatever the two staging outcomes, a failed model run re-throws the run's
      own error after handing both staged URLs, person first, to `deleteFile`
      when Firebase is configured, and nothing otherwise. */
  lemma FailedRunCleansStaged(fb: Service, human: Upload, garm: Upload, textPrompt: string, remote: Remote)
    requires human.result.Success? && garm.result.Success? && remote.run.Failure?
    ensures var t := Submit(fb, human, garm, textPrompt, remote);
      var urls := [human.result.value, garm.result.value];
      var run := RunModel(Model, ModelInput(garm.result.value, human.result.value, Description(textPrompt)));
      && t.result == Failure(remote.run.error)
      && t.deleted == (if IsConfigured(fb.config) then urls else [])
      && t.calls == human.calls + garm.calls + [run]
                    + (if IsConfigured(fb.config) then DeleteAll(fb, urls, remote.failingDeletes) else [])
  {
  }

  /** When the staging wrote two objects and their URLs lead back to their keys,
      the cleanup after a failed run deletes exactly the objects written. */
  lemma FailedRunDeletesWhatWasWritten(fb: Service, human: Upload, garm: Upload, textPrompt: string,
                                       remote: Remote, k1: string, k2: string)
    requires human.result.Success? && garm.result.Success? && remote.run.Failure?
    requires IsConfigured(fb.config) && fb.Initialized()
    requires KeyFromUrl(human.result.value) == k1 && KeyFromUrl(garm.result.value) == k2
    requires DeletedKeys(human.calls + garm.calls) == [] && UploadedKeys(human.calls + garm.calls) == [k1, k2]
    ensures var t := Submit(fb, human, garm, textPrompt, remote);
      DeletedKeys(t.calls) == [k1, k2] && UploadedKeys(t.calls) == [k1, k2]
  {
    var run := RunModel(Model, ModelInput(garm.result.value, human.result.value, Description(textPrompt)));
    var dels := DeleteAll(fb, [human.result.value, garm.result.value], remote.failingDeletes);
    assert dels == [BucketDelete(k1), BucketDelete(k2)];
    FailedRunCleansStaged(fb, human, garm, textPrompt, remote);
    TraceKeysAfterFailedRun(human.calls + garm.calls, run, k1, k2);
  }

  /** A successful run returns the model's output unchanged with the echo of its
      input, after exactly the staging calls and the one model run. */
  lemma SuccessfulRun(fb: Service, human: Upload, garm: Upload, textPrompt: string, remote: Remote)
    requires human.result.Success? && garm.result.Success? && remote.run.Success?
    ensures var t := Submit(fb, human, garm, textPrompt, remote);
      && t.result == Success(TryOnResult(remote.run.value,
                                         Echo(human.result.value, garm.result.value, Description(textPrompt))))
      && t.deleted == []
      && t.calls == human.calls + garm.calls
                    + [RunModel(Model, ModelInput(garm.result.value, human.result.value, Description(textPrompt)))]
  {
  }

  /** A staging failure (either upload) ends the request with the fixed staging
      error before the model is run, and deletes nothing: `uploadedUrls` is still
      empty when the `catch` block runs. */
  lemma StagingFailureDeletesNothing(fb: Service, port: string, files: set<string>, personPath: string,
                                     garmentPath: string, textPrompt: string, remote: Remote)
    requires personPath in files && garmentPath in files
    requires UploadImageToStorage(fb, port, files, personPath, remote.person).result.Failure?
          || UploadImageToStorage(fb, port, files, garmentPath, remote.garment).result.Failure?
    ensures var t := GenerateTryOn(fb, port, files, personPath, garmentPath, textPrompt, remote);
      && t.result == Failure(StagingFailed)
      && t.deleted == []
      && t.calls == UploadImageToStorage(fb, port, files, personPath, remote.person).calls
                  + UploadImageToStorage(fb, port, files, garmentPath, remote.garment).calls
      && forall c :: c in t.calls ==> c.BucketUpload? || c.MakePublic?
  {
    var human := UploadImageToStorage(fb, port, files, personPath, remote.person);
    var garm := UploadImageToStorage(fb, port, files, garmentPath, remote.garment);
    var t := GenerateTryOn(fb, port, files, personPath, garmentPath, textPrompt, remote);
    assert t == TryOn(Failure(StagingFailed), [], human.calls + garm.calls);
    StagingCallsDeleteNothing(fb, port, files, personPath, garmentPath, remote);
  }

  /** As written, a request whose person image was uploaded and made public but
      whose garment upload failed leaves the person object in the bucket: it was
      written, and nothing deletes it. */
  lemma PartialStagingLeavesObject(fb: Service, port: string, files: set<string>, personPath: string,
                                   garmentPath: string, textPrompt: string, remote: Remote)
    requires personPath in files && garmentPath in files && IsConfigured(fb.config)
    requires UploadImageToStorage(fb, port, files, personPath, remote.person).result.Success?
    requires UploadImageToStorage(fb, port, files, garmentPath, remote.garment).result.Failure?
    ensures var t := GenerateTryOn(fb, port, files, personPath, garmentPath, textPrompt, remote);
      && StorageKey(UniqueFileName(personPath, None, remote.person.uuid)) in UploadedKeys(t.calls)
      && DeletedKeys(t.calls) == []
  {
    var human := UploadImageToStorage(fb, port, files, personPath, remote.person);
    var garm := UploadImageToStorage(fb, port, files, garmentPath, remote.garment);
    StagingFailureDeletesNothing(fb, port, files, personPath, garmentPath, textPrompt, remote);
    NoDeleteCallsNoDeletedKeys(human.calls + garm.calls);
    assert human.calls[0] in human.calls + garm.calls;
  }

  /** When the model run fails after both images reached Firebase, `deleteFile`
      is called on the person URL and then the garment URL, the objects deleted
      are exactly the two objects written, and the run's own error is re-thrown. */
  lemma SubmitFailureDeletesExactlyStaged(fb: Service, port: string, files: set<string>, personPath: string,
                                          garmentPath: string, textPrompt: string, remote: Remote)
    requires personPath in files && garmentPath in files && IsConfigured(fb.config)
    requires UploadImageToStorage(fb, port, files, personPath, remote.person).result.Success?
    requires UploadImageToStorage(fb, port, files, garmentPath, remote.garment).result.Success?
    requires remote.run.Failure?
    requires Slash !in remote.person.uuid && Slash !in remote.garment.uuid
    ensures var t := GenerateTryOn(fb, port, files, personPath, garmentPath, textPrompt, remote);
      && t.result == Failure(remote.run.error)
      && t.deleted == [UploadImageToStorage(fb, port, files, personPath, remote.person).result.value,
                       UploadImageToStorage(fb, port, files, garmentPath, remote.garment).result.value]
      && DeletedKeys(t.calls) == UploadedKeys(t.calls)
      && DeletedKeys(t.calls) == [StorageKey(UniqueFileName(personPath, None, remote.person.uuid)),
                                  StorageKey(UniqueFileName(garmentPath, None, remote.garment.uuid))]
  {
    var human := UploadImageToStorage(fb, port, files, personPath, remote.person);
    var garm := UploadImageToStorage(fb, port, files, garmentPath, remote.garment);
    var k1 := StorageKey(UniqueFileName(personPath, None, remote.person.uuid));
    var k2 := StorageKey(UniqueFileName(garmentPath, None, remote.garment.uuid));
    GeneratedKeyRoundTrip(fb.bucket.value, personPath, remote.person.uuid);
    GeneratedKeyRoundTrip(fb.bucket.value, garmentPath, remote.garment.uuid);
    StagingKeys(fb, port, files, personPath, garmentPath, remote);
    FailedRunCleansStaged(fb, human, garm, textPrompt, remote);
    FailedRunDeletesWhatWasWritten(fb, human, garm, textPrompt, remote, k1, k2);
  }

  /** Two successful stagings write the two generated keys and delete nothing. */
  lemma StagingKeys(fb: Service, port: string, files: set<string>, personPath: string,
                    garmentPath: string, remote: Remote)
    requires IsConfigured(fb.config)
    requires UploadImageToStorage(fb, port, files, personPath, remote.person).result.Success?
    requires UploadImageToStorage(fb, port, files, garmentPath, remote.garment).result.Success?
    ensures var staging := UploadImageToStorage(fb, port, files, personPath, remote.person).calls
                         + UploadImageToStorage(fb, port, files, garmentPath, remote.garment).calls;
      && DeletedKeys(staging) == []
      && UploadedKeys(staging) == [StorageKey(UniqueFileName(personPath, None, remote.person.uuid)),
                                   StorageKey(UniqueFileName(garmentPath, None, remote.garment.uuid))]
  {
    var human := UploadImageToStorage(fb, port, files, personPath, remote.person);
    var garm := UploadImageToStorage(fb, port, files, garmentPath, remote.garment);
    UploadedKeysOfUpload(fb, files, personPath, remote.person);
    UploadedKeysOfUpload(fb, files, garmentPath, remote.garment);
    StagingCallsDeleteNothing(fb, port, files, personPath, garmentPath, remote);
    ConcatenatedKeys(human.calls, garm.calls,
                     StorageKey(UniqueFileName(personPath, None, remote.person.uuid)),
                     StorageKey(UniqueFileName(garmentPath, None, remote.garment.uuid)));
  }

  /** Two delete-free traces writing one key each write both keys, in order. */
  lemma ConcatenatedKeys(a: seq<Call>, b: seq<Call>, k1: string, k2: string)
    requires forall c :: c in a + b ==> c.BucketUpload? || c.MakePublic?
    requires UploadedKeys(a) == [k1] && UploadedKeys(b) == [k2]
    ensures DeletedKeys(a + b) == [] && UploadedKeys(a + b) == [k1, k2]
  {
    NoDeleteCallsNoDeletedKeys(a + b);
    UploadedKeysAppend(a, b);
  }

  lemma UploadedKeysOfUpload(fb: Service, files: set<string>, path: string, env: UploadEnv)
    requires UploadFile(fb, files, path, None, env).result.Success?
    ensures UploadedKeys(UploadFile(fb, files, path, None, env).calls) == [StorageKey(UniqueFileName(path, None, env.uuid))]
  {
    var u := UploadFile(fb, files, path, None, env);
    assert u.calls[1..] == [u.calls[1]];
    assert u.calls[1..][1..] == [];
    assert UploadedKeys(u.calls[1..]) == [];
  }

  /** Keys of a trace made of a staging phase, the model run and two deletes. */
  lemma TraceKeysAfterFailedRun(staging: seq<Call>, run: Call, k1: string, k2: string)
    requires run.RunModel? && DeletedKeys(staging) == [] && UploadedKeys(staging) == [k1, k2]
    ensures DeletedKeys(staging + [run] + [BucketDelete(k1), BucketDelete(k2)]) == [k1, k2]
    ensures UploadedKeys(staging + [run] + [BucketDelete(k1), BucketDelete(k2)]) == [k1, k2]
  {
    var tail := [BucketDelete(k1), BucketDelete(k2)];
    DeletedKeysAppend(staging, [run]);
    DeletedKeysAppend(staging + [run], tail);
    UploadedKeysAppend(staging, [run]);
    UploadedKeysAppend(staging + [run], tail);
    assert DeletedKeys(tail) == [k1] + DeletedKeys([BucketDelete(k2)]);
    assert UploadedKeys(tail) == UploadedKeys([BucketDelete(k2)]);
  }

  /** Under the local fallback a failed run deletes nothing: the cleanup guard
      is `isConfigured()`. */
  lemma LocalFallbackNeverDeletes(fb: Service, port: string, files: set<string>, personPath: string,
                                  garmentPath: string, textPrompt: string, remote: Remote)
    requires !IsConfigured(fb.config)
    ensures var t := GenerateTryOn(fb, port, files, personPath, garmentPath, textPrompt, remote);
      t.deleted == [] && DeletedKeys(t.calls) == [] && UploadedKeys(t.calls) == []
  {
    var t := GenerateTryOn(fb, port, files, personPath, garmentPath, textPrompt, remote);
    if personPath in files && garmentPath in files {
      var input := ModelInput(LocalUrl(port, garmentPath), LocalUrl(port, personPath), Description(textPrompt));
      assert t.calls == [RunModel(Model, input)];
    }
  }

  /** A configured backend whose SDK failed to initialise never reaches its
      cleanup: `uploadFile` throws before any call, so staging fails while
      `uploadedUrls` is still empty. */
  lemma UninitialisedBackendFailsAtStaging(fb: Service, port: string, files: set<string>, personPath: string,
                                           garmentPath: string, textPrompt: string, remote: Remote)
    requires IsConfigured(fb.config) && !fb.Initialized()
    ensures var t := GenerateTryOn(fb, port, files, personPath, garmentPath, textPrompt, remote);
      && t.result.Failure?
      && (personPath in files && garmentPath in files ==> t.result.error == StagingFailed)
      && t.deleted == []
      && t.calls == []
  {
  }

  /** Delete outcomes never reach the caller: whichever deletes fail, the
      request ends the same way and makes the same calls. */
  lemma DeleteOutcomesIgnored(fb: Service, port: string, files: set<string>, personPath: string,
                              garmentPath: string, textPrompt: string, remote: Remote, failing: set<string>)
    ensures GenerateTryOn(fb, port, files, personPath, garmentPath, textPrompt, remote)
         == GenerateTryOn(fb, port, files, personPath, garmentPath, textPrompt, remote.(failingDeletes := failing))
  {
    var r2 := remote.(failingDeletes := failing);
    assert r2.person == remote.person && r2.garment == remote.garment && r2.run == remote.run;
    forall urls: seq<string> | true
      ensures DeleteAll(fb, urls, remote.failingDeletes) == DeleteAll(fb, urls, failing)
    {
      DeleteAllIgnoresOutcomes(fb, urls, remote.failingDeletes, failing);
    }
  }

  lemma {:induction false} DeleteAllIgnoresOutcomes(fb: Service, urls: seq<string>, f1: set<string>, f2: set<string>)
    ensures DeleteAll(fb, urls, f1) == DeleteAll(fb, urls, f2)
  {
    if |urls| > 0 {
      DeleteAllIgnoresOutcomes(fb, urls[1..], f1, f2);
    }
  }

  /** The happy path: the model gets the garment URL as `garm_img` and the person
      URL as `human_img` (never swapped), and the result echoes both with the
      model's output passed through unchanged. */
  lemma SuccessMapsInputs(fb: Service, port: string, files: set<string>, personPath: string,
                          garmentPath: string, textPrompt: string, remote: Remote)
    requires personPath in files && garmentPath in files
    requires UploadImageToStorage(fb, port, files, personPath, remote.person).result.Success?
    requires UploadImageToStorage(fb, port, files, garmentPath, remote.garment).result.Success?
    requires remote.run.Success?
    ensures var personUrl := UploadImageToStorage(fb, port, files, personPath, remote.person).result.value;
      var garmentUrl := UploadImageToStorage(fb, port, files, garmentPath, remote.garment).result.value;
      var t := GenerateTryOn(fb, port, files, personPath, garmentPath, textPrompt, remote);
      && t.result == Success(TryOnResult(remote.run.value, Echo(personUrl, garmentUrl, Description(textPrompt))))
      && RunModel(Model, ModelInput(garmentUrl, personUrl, Description(textPrompt))) in t.calls
      && forall c :: c in t.calls ==> !c.BucketDelete?
  {
    var human := UploadImageToStorage(fb, port, files, personPath, remote.person);
    var garm := UploadImageToStorage(fb, port, files, garmentPath, remote.garment);
    SuccessfulRun(fb, human, garm, textPrompt, remote);
    StagingCallsDeleteNothing(fb, port, files, personPath, garmentPath, remote);
    SuccessfulRunDeletesNothing(fb, human, garm, textPrompt, remote);
  }

  /** A successful run after delete-free staging makes no delete call. */
  lemma SuccessfulRunDeletesNothing(fb: Service, human: Upload, garm: Upload, textPrompt: string, remote: Remote)
    requires human.result.Success? && garm.result.Success? && remote.run.Success?
    requires forall c :: c in human.calls + garm.calls ==> c.BucketUpload? || c.MakePublic?
    ensures forall c :: c in Submit(fb, human, garm, textPrompt, remote).calls ==> !c.BucketDelete?
  {
    var run := RunModel(Model, ModelInput(garm.result.value, human.result.value, Description(textPrompt)));
    SuccessfulRun(fb, human, garm, textPrompt, remote);
    assert forall c :: c in (human.calls + garm.calls) + [run] ==> c in human.calls + garm.calls || c == run;
  }

  lemma StagingCallsDeleteNothing(fb: Service, port: string, files: set<string>, personPath: string,
                                  garmentPath: string, remote: Remote)
    ensures var staging := UploadImageToStorage(fb, port, files, personPath, remote.person).calls
                         + UploadImageToStorage(fb, port, files, garmentPath, remote.garment).calls;
      forall c :: c in staging ==> c.BucketUpload? || c.MakePublic?
  {
    NoDeletesInUpload(fb, files, personPath, remote.person);
    NoDeletesInUpload(fb, files, garmentPath, remote.garment);
  }

  /** Without Firebase the images are served from the server itself: each URL is
      `http://localhost:<port>/uploads/<basename>` and nothing is uploaded. */
  lemma LocalFallbackUrls(fb: Service, port: string, files: set<string>, personPath: string,
                          garmentPath: string, textPrompt: string, remote: Remote)
    requires !IsConfigured(fb.config) && personPath in files && garmentPath in files
    requires remote.run.Success?
    ensures var t := GenerateTryOn(fb, port, files, personPath, garmentPath, textPrompt, remote);
      && t.result.Success?
      && t.result.value.input == Echo(LocalUrl(port, personPath), LocalUrl(port, garmentPath), Description(textPrompt))
      && UploadedKeys(t.calls) == []
  {
  }

  /** `getStorageInfo()`: `type: 'firebase'` plus the bucket info when
      configured, otherwise `type: 'local'` with the local upload URL. */
  datatype StorageInfo = FirebaseStorage(bucket: BucketInfo) | LocalStorage(url: string)
  {
    /** The descriptor's `type` field. */
    function Type(): string
    {
      match this
      case FirebaseStorage(_) => "firebase"
      case LocalStorage(_) => "local"
    }
  }

  function GetStorageInfo(fb: Service, port: string): (info: StorageInfo)
    ensures info.FirebaseStorage? <==> IsConfigured(fb.config)
    ensures info.FirebaseStorage? ==> info.bucket == GetBucketInfo(fb) && info.bucket.configured
    ensures info.LocalStorage? ==> info.url == LocalHost + port + "/" + UploadDir
    ensures info.Type() == (if IsConfigured(fb.config) then "firebase" else "local")
  {
    if IsConfigured(fb.config) then FirebaseStorage(GetBucketInfo(fb))
    else LocalStorage(LocalHost + port + "/" + UploadDir)
  }

  /** A prediction as the Replicate client returns it (snake_case fields). */
  datatype Prediction = Prediction(
    id: string,
    status: string,
    output: Option<Output>,
    error: Option<string>,
    created_at: string,
    completed_at: Option<string>)

  /** `getPredictionStatus(id)` / `cancelPrediction(id)`: one client call, whose
      answer or error is passed on unchanged. */
  datatype Fetched = Fetched(result: Result<Prediction, string>, calls: seq<Call>)

  function GetPredictionStatus(id: string, answer: Result<Prediction, string>): (f: Fetched)
    ensures f.calls == [GetPrediction(id)]
    ensures f.result == answer
  {
    Fetched(answer, [GetPrediction(id)])
  }

  function CancelPrediction(id: string, answer: Result<Prediction, string>): (f: Fetched)
    ensures f.calls == [Effects.CancelPrediction(id)]
    ensures f.result == answer
  {
    Fetched(answer, [Effects.CancelPrediction(id)])
  }
}

/** The calls the service makes into code it does not own (the Firebase Admin
    SDK and the Replicate client). The model records them, in the order they are
    issued, so that contracts can say which calls a request makes. */
module Effects {

  /** The `input` object handed to the try-on model. */
  datatype ModelInput = ModelInput(garmImg: string, humanImg: string, garmentDes: string)

  datatype Call =
    /** `bucket.upload(source, { destination, metadata })`. */
    | BucketUpload(source: string, destination: string, contentType: string, originalName: string)
    /** `file.makePublic()` on the object just written. */
    | MakePublic(destination: string)
    /** `bucket.file(key).delete()`. */
    | BucketDelete(key: string)
    /** `replicate.run(model, { input })`. */
    | RunModel(model: string, input: ModelInput)
    /** `replicate.predictions.get(id)`. */
    | GetPrediction(id: string)
    /** `replicate.predictions.cancel(id)`. */
    | CancelPrediction(id: string)

  /** The object keys a trace deletes, in order; `DeletedKeysMembers` and
      `DeletedKeysAppend` characterise it. */
  function DeletedKeys(calls: seq<Call>): seq<string>
  {
    if |calls| == 0 then []
    else
      var rest := DeletedKeys(calls[1..]);
      if calls[0].BucketDelete? then [calls[0].key] + rest else rest
  }

  /** The object keys a trace writes, in order; `UploadedKeysMembers` and
      `UploadedKeysAppend` characterise it. */
  function UploadedKeys(calls: seq<Call>): seq<string>
  {
    if |calls| == 0 then []
    else
      var rest := UploadedKeys(calls[1..]);
      if calls[0].BucketUpload? then [calls[0].destination] + rest else rest
  }

  /** A key is deleted by a trace exactly when the trace holds a delete of it. */
  lemma {:induction false} DeletedKeysMembers(calls: seq<Call>, k: string)
    ensures k in DeletedKeys(calls) <==> BucketDelete(k) in calls
  {
    if |calls| > 0 {
      DeletedKeysMembers(calls[1..], k);
      assert calls == [calls[0]] + calls[1..];
    }
  }

  /** A trace without a delete call deletes no key. */
  lemma NoDeleteCallsNoDeletedKeys(calls: seq<Call>)
    requires forall c :: c in calls ==> c.BucketUpload? || c.MakePublic?
    ensures DeletedKeys(calls) == []
  {
    if DeletedKeys(calls) != [] {
      DeletedKeysMembers(calls, DeletedKeys(calls)[0]);
    }
  }

  /** A key is written by a trace exactly when the trace holds an upload to it. */
  lemma {:induction false} UploadedKeysMembers(calls: seq<Call>, k: string)
    ensures k in UploadedKeys(calls) <==> exists c :: c in calls && c.BucketUpload? && c.destination == k
  {
    if |calls| > 0 {
      UploadedKeysMembers(calls[1..], k);
      assert calls == [calls[0]] + calls[1..];
      assert forall c :: c in calls <==> c == calls[0] || c in calls[1..];
    }
  }

  lemma {:induction false} DeletedKeysAppend(a: seq<Call>, b: seq<Call>)
    ensures DeletedKeys(a + b) == DeletedKeys(a) + DeletedKeys(b)
  {
    if |a| > 0 {
      var ab := a + b;
      assert ab[0] == a[0] && ab[1..] == a[1..] + b;
      DeletedKeysAppend(a[1..], b);
      if a[0].BucketDelete? {
        var k := [a[0].key];
        assert k + (DeletedKeys(a[1..]) + DeletedKeys(b)) == (k + DeletedKeys(a[1..])) + DeletedKeys(b);
      }
    } else {
      assert a + b == b;
    }
  }

  lemma {:induction false} UploadedKeysAppend(a: seq<Call>, b: seq<Call>)
    ensures UploadedKeys(a + b) == UploadedKeys(a) + UploadedKeys(b)
  {
    if |a| > 0 {
      var ab := a + b;
      assert ab[0] == a[0] && ab[1..] == a[1..] + b;
      UploadedKeysAppend(a[1..], b);
      if a[0].BucketUpload? {
        var k := [a[0].destination];
        assert k + (UploadedKeys(a[1..]) + UploadedKeys(b)) == (k + UploadedKeys(a[1..])) + UploadedKeys(b);
      }
    } else {
      assert a + b == b;
    }
  }
}

/** `POST /api/swap/image` (app/api/swap/image/route.ts): reads the two images and the
    quality from the multipart form, picks the face-swap model, inlines each image as a
    base64 data URL and starts a prediction with the model host. The route checks
    neither the usage limit nor records usage. */
module SwapRoute {
  import opened Common
  import opened Schema
  import Base64
  import UsageTracker

  /** An uploaded file: its MIME type and its bytes. */
  datatype Upload = Upload(mimeType: string, bytes: seq<Byte>)

  /** A multipart form value: a file, or a plain text field. */
  datatype FormValue = FileValue(file: Upload) | TextValue(text: string)

  type Part = (string, FormValue)

  /** The prediction the model host returns. */
  datatype Prediction = Prediction(id: string, status: string)

  datatype SwapReply =
    | Started(predictionId: string, predictionStatus: string, model: string, estimatedTime: string)
    | Failed(status: int, error: string)

  const DefaultImageModel := "easel/advanced-face-swap"
  const EconomyImageModel := "codeplugtech/face-swap"
  const DefaultVideoModel := "arabyai-replicate/roop_face_swap"
  const ImagesRequired := "Source and target images are required"
  const InternalError := "Internal server error"

  /** `formData.get(name)`: the first value under that name. */
  function Get(parts: seq<Part>, name: string): (r: Option<FormValue>)
    ensures r.Some? ==> exists i :: 0 <= i < |parts| && parts[i] == (name, r.value)
    ensures r.None? <==> forall i :: 0 <= i < |parts| ==> parts[i].0 != name
  {
    if parts == [] then None
    else if parts[0].0 == name then Some(parts[0].1)
    else
      var r := Get(parts[1..], name);
      assert forall i :: 1 <= i < |parts| ==> parts[1..][i - 1] == parts[i];
      r
  }

  /** JavaScript truthiness of a form value: a missing one and an empty text are falsy. */
  predicate Truthy(v: Option<FormValue>)
  {
    v.Some? && !(v.value.TextValue? && v.value.text == "")
  }

  /** `formData.get('quality') as string || 'high'`: a missing or empty quality is
      "high"; a file in that field is truthy and is no quality name at all. */
  function Quality(parts: seq<Part>): (q: Option<string>)
    ensures !Truthy(Get(parts, "quality")) ==> q == Some("high")
    ensures Get(parts, "quality") == Some(TextValue("high")) ==> q == Some("high")
  {
    var v := Get(parts, "quality");
    if !Truthy(v) then Some("high")
    else if v.value.TextValue? then Some(v.value.text)
    else None
  }

  /** `quality === 'high' ? DEFAULT_IMAGE_MODEL : ECONOMY_IMAGE_MODEL`. */
  function ChooseModel(quality: Option<string>): (m: string)
    ensures m == DefaultImageModel <==> quality == Some("high")
    ensures m == DefaultImageModel || m == EconomyImageModel
  {
    if quality == Some("high") then DefaultImageModel else EconomyImageModel
  }

  /** `uploadImageTemporary`: the image inlined as `data:<type>;base64,<payload>` with
      the padded base64 of section 4 of RFC 4648. */
  function DataUrl(u: Upload): string
  {
    "data:" + u.mimeType + ";base64," + Base64.Encode(u.bytes)
  }

  /** `getEstimatedTime`: the three-entry table, and 約 30 秒 for any other model. */
  function EstimatedTime(model: string): (t: string)
    ensures model == DefaultImageModel ==> t == "約 30 秒"
    ensures model == EconomyImageModel ==> t == "約 39 秒"
    ensures model == DefaultVideoModel ==> t == "約 73 秒"
    ensures model !in {DefaultImageModel, EconomyImageModel, DefaultVideoModel} ==> t == "約 30 秒"
  {
    var times := map[DefaultImageModel := "約 30 秒", EconomyImageModel := "約 39 秒",
                      DefaultVideoModel := "約 73 秒"];
    if model in times then times[model] else "約 30 秒"
  }

  /** The route's reply. `form` is `None` when the body cannot be read as form data;
      `createFaceSwap` is the model host, `None` when its call throws. A text value in
      an image field that is not empty passes the presence check and then fails in
      `file.arrayBuffer()`, giving 500. */
  function SwapReplyOf(form: Option<seq<Part>>, createFaceSwap: (string, string, string) -> Option<Prediction>)
    : (r: SwapReply)
    ensures form.Some? && (!Truthy(Get(form.value, "sourceImage")) || !Truthy(Get(form.value, "targetImage")))
            ==> r == Failed(400, ImagesRequired)
    ensures r.Started? ==>
      && form.Some?
      && Get(form.value, "sourceImage").Some? && Get(form.value, "sourceImage").value.FileValue?
      && Get(form.value, "targetImage").Some? && Get(form.value, "targetImage").value.FileValue?
      && r.model == ChooseModel(Quality(form.value))
      && r.estimatedTime == EstimatedTime(r.model)
      && createFaceSwap(r.model, DataUrl(Get(form.value, "sourceImage").value.file),
                        DataUrl(Get(form.value, "targetImage").value.file))
         == Some(Prediction(r.predictionId, r.predictionStatus))
    ensures r.Failed? ==> r.status == 400 || r == Failed(500, InternalError)
    ensures form.None? ==> r == Failed(500, InternalError)
    ensures form.Some? && Truthy(Get(form.value, "sourceImage")) && Truthy(Get(form.value, "targetImage"))
            && (Get(form.value, "sourceImage").value.TextValue? || Get(form.value, "targetImage").value.TextValue?)
            ==> r == Failed(500, InternalError)
    ensures form.Some? && Get(form.value, "sourceImage").Some? && Get(form.value, "sourceImage").value.FileValue?
            && Get(form.value, "targetImage").Some? && Get(form.value, "targetImage").value.FileValue?
            ==> (r.Started? <==> createFaceSwap(ChooseModel(Quality(form.value)),
                                                DataUrl(Get(form.value, "sourceImage").value.file),
                                                DataUrl(Get(form.value, "targetImage").value.file)).Some?)
  {
    if form.None? then Failed(500, InternalError)
    else
      var sourceImage := Get(form.value, "sourceImage");
      var targetImage := Get(form.value, "targetImage");
      var quality := Quality(form.value);
      if !Truthy(sourceImage) || !Truthy(targetImage) then Failed(400, ImagesRequired)
      else
        var model := ChooseModel(quality);
        if !sourceImage.value.FileValue? || !targetImage.value.FileValue? then Failed(500, InternalError)
        else
          var prediction := createFaceSwap(model, DataUrl(sourceImage.value.file), DataUrl(targetImage.value.file));
          if prediction.None? then Failed(500, InternalError)
          else Started(prediction.value.id, prediction.value.status, model, EstimatedTime(model))
  }

  /** The data URL's length is the header plus 4·⌈n/3⌉ payload characters. */
  lemma DataUrlLength(u: Upload)
    ensures |DataUrl(u)| == 13 + |u.mimeType| + 4 * ((|u.bytes| + 2) / 3)
  {
  }

  /** The payload after the header decodes back to the uploaded bytes. */
  lemma DataUrlRoundTrip(u: Upload)
    ensures DataUrl(u)[13 + |u.mimeType|..] == Base64.Encode(u.bytes)
    ensures Base64.Decode(DataUrl(u)[13 + |u.mimeType|..]) == Some(u.bytes)
  {
    var header := "data:" + u.mimeType + ";base64,";
    assert DataUrl(u) == header + Base64.Encode(u.bytes);
    assert (header + Base64.Encode(u.bytes))[|header|..] == Base64.Encode(u.bytes);
    Base64.DecodeEncode(u.bytes);
  }

  /** Two uploads of the same type inline to the same URL only when their bytes agree. */
  lemma DataUrlInjective(u: Upload, v: Upload)
    requires u.mimeType == v.mimeType && DataUrl(u) == DataUrl(v)
    ensures u.bytes == v.bytes
  {
    DataUrlRoundTrip(u);
    DataUrlRoundTrip(v);
  }

  /** The quota is not wired to this route: a user whom the usage gate refuses (the
      month's uses spent, or no ACTIVE subscription) still gets a prediction started
      from a well-formed request. The reply reads neither table and writes no usage. */
  lemma ExhaustedQuotaStillSwaps(subs: seq<Subscription>, usage: UsageTable, userId: string, kind: string,
                                 now: UsageTracker.Now, source: Upload, target: Upload,
                                 createFaceSwap: (string, string, string) -> Option<Prediction>)
    requires UsageTracker.ValidNow(now)
    requires !UsageTracker.CheckUsageLimit(subs, usage, userId, kind, now, false, false).canUse
    requires createFaceSwap(DefaultImageModel, DataUrl(source), DataUrl(target)).Some?
    ensures SwapReplyOf(Some([("sourceImage", FileValue(source)), ("targetImage", FileValue(target))]),
                        createFaceSwap).Started?
  {
    var parts := [("sourceImage", FileValue(source)), ("targetImage", FileValue(target))];
    assert Get(parts, "sourceImage") == Some(FileValue(source));
    assert parts[1..] == [("targetImage", FileValue(target))];
    assert Get(parts, "targetImage") == Some(FileValue(target));
    assert Get(parts, "quality").None?;
  }
}

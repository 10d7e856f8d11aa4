/** The browser-side face-swap store (stores/face-swap-store.ts): the chosen images and
    their previews, the swap in progress with its progress bar and error message, the
    history of finished swaps, and the poll loop that follows a prediction until it
    ends. Each HTTP exchange is an input: the reply to the swap request, and the
    sequence of replies the status endpoint gives, one per poll. */
module FaceSwapStore {
  import opened Common
  import opened Schema
  import ImageUpload
  import SwapRoute

  datatype SwapStatus = Pending | Processing | Completed | SwapFailed

  /** A swap as the page shows it and the history keeps it. */
  datatype SwapResult = SwapResult(
    id: string,
    status: SwapStatus,
    sourceImageUrl: string,
    targetImageUrl: string,
    resultImageUrl: Option<string>,
    model: string,
    quality: string,
    createdAt: string,
    completedAt: Option<string>,
    error: Option<string>)

  datatype UserUsage = UserUsage(current: int, limit: int, plan: string, canUse: bool)

  datatype UserSubscription = UserSubscription(
    id: string, plan: Plan, status: Status, currentPeriodStart: string, currentPeriodEnd: string)

  /** Every field of the store. */
  datatype State = State(
    currentSwap: Option<SwapResult>,
    swapHistory: seq<SwapResult>,
    isLoading: bool,
    progress: int,
    error: Option<string>,
    sourceImage: Option<ImageUpload.File>,
    targetImage: Option<ImageUpload.File>,
    sourceImagePreview: Option<string>,
    targetImagePreview: Option<string>,
    userUsage: Option<UserUsage>,
    userSubscription: Option<UserSubscription>)

  /** The part of the store written to local storage. */
  datatype Persisted = Persisted(
    swapHistory: seq<SwapResult>,
    userUsage: Option<UserUsage>,
    userSubscription: Option<UserSubscription>)

  /** The reply to `POST /api/swap/image` as the store reads it. `StartThrown` is a
      request that rejects or a body that is not JSON (read before the status is
      looked at), carrying the error's message; `usage` is `data.usage.current` when
      `data.usage` is present. */
  datatype StartResponse =
    | StartThrown(message: string)
    | StartReply(ok: bool, status: int, success: bool, error: Option<string>, usage: Option<int>,
                 predictionId: string, model: string)

  /** One reply of `GET /api/status/<id>`: a rejected request or unreadable body, or
      the response's `ok`, the body's `success` and `error`, and the prediction's
      status, output, error and completion time. */
  datatype PollResponse =
    | PollThrown(message: string)
    | PollReply(ok: bool, success: bool, error: Option<string>, status: string,
                output: Option<string>, predictionError: Option<string>, completedAt: Option<string>)

  const ChooseBothImages := "請選擇來源圖片和目標圖片"
  const QuotaReached := "已達到本月使用上限，請升級方案或等待下月重置"
  const LoginNeeded := "請先登入才能使用此服務"
  const SubscriptionProblem := "訂閱狀態異常，請檢查您的訂閱方案"
  const RequestFailed := "換臉請求失敗"
  const SwapRefused := "換臉失敗"
  const StatusUnavailable := "無法獲取處理狀態"
  const StatusCheckFailed := "狀態檢查失敗"
  const ProcessingFailed := "處理失敗"
  const TimedOut := "處理超時，請稍後再試"

  /** `maxAttempts`: polls that may see the prediction still running. */
  const MaxAttempts: nat := 60

  const Initial := State(None, [], false, 0, None, None, None, None, None, None, None)

  /** Each chosen image has a preview, and only a chosen image has one. */
  predicate Consistent(s: State)
  {
    && (s.sourceImage.Some? <==> s.sourceImagePreview.Some?)
    && (s.targetImage.Some? <==> s.targetImagePreview.Some?)
  }

  /** `partialize`: the history and the user's usage and subscription. */
  function Partialize(s: State): Persisted
  {
    Persisted(s.swapHistory, s.userUsage, s.userSubscription)
  }

  /** `setSourceImage`: `objectUrl` is the blob URL `URL.createObjectURL` makes. */
  function WithSource(s: State, file: Option<ImageUpload.File>, objectUrl: string): (r: State)
    ensures r.sourceImage == file
    ensures r.sourceImagePreview.None? <==> file.None?
    ensures file.Some? ==> r.sourceImagePreview == Some(objectUrl)
    ensures r.error.None?
    ensures r == s.(sourceImage := file, sourceImagePreview := r.sourceImagePreview, error := None)
    ensures Consistent(s) ==> Consistent(r)
  {
    s.(sourceImage := file, sourceImagePreview := if file.Some? then Some(objectUrl) else None, error := None)
  }

  /** `setTargetImage`, the same for the target image. */
  function WithTarget(s: State, file: Option<ImageUpload.File>, objectUrl: string): (r: State)
    ensures r.targetImage == file
    ensures r.targetImagePreview.None? <==> file.None?
    ensures file.Some? ==> r.targetImagePreview == Some(objectUrl)
    ensures r.error.None?
    ensures r == s.(targetImage := file, targetImagePreview := r.targetImagePreview, error := None)
    ensures Consistent(s) ==> Consistent(r)
  {
    s.(targetImage := file, targetImagePreview := if file.Some? then Some(objectUrl) else None, error := None)
  }

  /** The message `startSwap` shows for a reply, `None` when the swap was accepted. */
  function StartFailure(response: StartResponse): (m: Option<string>)
    ensures response.StartThrown? ==> m == Some(response.message)
    ensures response.StartReply? && !response.ok ==>
      m == Some(if response.status == 429 then QuotaReached
                else if response.status == 401 then LoginNeeded
                else if response.status == 403 then SubscriptionProblem
                else OrDefault(response.error, RequestFailed))
    ensures response.StartReply? && response.ok && !response.success ==> m == Some(OrDefault(response.error, SwapRefused))
    ensures m.None? <==> response.StartReply? && response.ok && response.success
  {
    match response
    case StartThrown(message) => Some(message)
    case StartReply(ok, status, success, error, _, _, _) =>
      if !ok then
        if status == 429 then Some(QuotaReached)
        else if status == 401 then Some(LoginNeeded)
        else if status == 403 then Some(SubscriptionProblem)
        else Some(OrDefault(error, RequestFailed))
      else if !success then Some(OrDefault(error, SwapRefused))
      else None
  }

  /** `startSwap`'s effect on the store, and the prediction it then starts polling.
      `createdAt` is the ISO time stamp of the moment the reply arrives. */
  function StartEffect(s: State, quality: string, response: StartResponse, createdAt: string): (r: (State, Option<string>))
    requires Consistent(s)
    ensures s.sourceImage.None? || s.targetImage.None? ==> r == (s.(error := Some(ChooseBothImages)), None)
    ensures s.sourceImage.Some? && s.targetImage.Some? && StartFailure(response).Some? ==>
      r == (s.(error := StartFailure(response), isLoading := false, progress := 0), None)
    ensures r.1.Some? <==> s.sourceImage.Some? && s.targetImage.Some? && StartFailure(response).None?
    ensures r.1.Some? ==>
      && r.1 == Some(response.predictionId)
      && r.0.currentSwap == Some(SwapResult(response.predictionId, Processing, s.sourceImagePreview.value,
                                           s.targetImagePreview.value, None, response.model, quality,
                                           createdAt, None, None))
      && r.0.isLoading && r.0.progress == 30 && r.0.error.None?
      && r.0.swapHistory == s.swapHistory && r.0.userSubscription == s.userSubscription
      && r.0.userUsage == (if s.userUsage.Some? && response.usage.Some?
                           then Some(s.userUsage.value.(current := response.usage.value)) else s.userUsage)
    ensures Consistent(r.0)
  {
    if s.sourceImage.None? || s.targetImage.None? then (s.(error := Some(ChooseBothImages)), None)
    else
      var failure := StartFailure(response);
      if failure.Some? then (s.(error := failure, isLoading := false, progress := 0), None)
      else
        var usage := if s.userUsage.Some? && response.usage.Some?
                     then Some(s.userUsage.value.(current := response.usage.value)) else s.userUsage;
        var newSwap := SwapResult(response.predictionId, Processing, s.sourceImagePreview.value,
                                  s.targetImagePreview.value, None, response.model, quality, createdAt, None, None);
        (s.(userUsage := usage, isLoading := true, error := None, currentSwap := Some(newSwap), progress := 30),
         Some(response.predictionId))
  }

  /** `progressMap[status] || 50`: failed and canceled map to 0, which is falsy, so
      they show 50 like any status the map does not name. */
  function ProgressFor(status: string): (p: int)
    ensures status == "starting" ==> p == 40
    ensures status == "processing" ==> p == 70
    ensures status == "succeeded" ==> p == 100
    ensures status !in {"starting", "processing", "succeeded"} ==> p == 50
  {
    var progressMap := map["starting" := 40, "processing" := 70, "succeeded" := 100, "failed" := 0, "canceled" := 0];
    if status in progressMap && progressMap[status] != 0 then progressMap[status] else 50
  }

  /** The outcome of one poll: the new state, and the attempt count to poll again
      with, or `None` when polling stops. */
  datatype Step = Step(state: State, again: Option<nat>)

  /** Stop polling after showing `message`. */
  function Abort(s: State, message: string): State
  {
    s.(error := Some(message), isLoading := false, progress := 0)
  }

  /** One poll, made after `attempts` earlier polls that saw the prediction running. */
  function PollStep(s: State, response: PollResponse, attempts: nat): (st: Step)
    requires attempts < MaxAttempts
    ensures st.again.Some? ==> st.again.value == attempts + 1 < MaxAttempts
    ensures st.again.Some? ==> st.state == s.(progress := st.state.progress) && st.state.isLoading == s.isLoading
    ensures st.state.swapHistory == s.swapHistory
         || (st.state.currentSwap.Some? && st.state.swapHistory == [st.state.currentSwap.value] + s.swapHistory)
    ensures st.state.swapHistory != s.swapHistory ==> st.again.None? && !st.state.isLoading
    ensures st.state.userUsage == s.userUsage && st.state.userSubscription == s.userSubscription
    ensures st.state.sourceImage == s.sourceImage && st.state.targetImage == s.targetImage
    ensures st.state.sourceImagePreview == s.sourceImagePreview && st.state.targetImagePreview == s.targetImagePreview
    ensures response.PollThrown? ==> st == Step(Abort(s, response.message), None)
    ensures response.PollReply? && !response.ok ==> st == Step(Abort(s, StatusUnavailable), None)
    ensures response.PollReply? && response.ok && !response.success ==>
      st == Step(Abort(s, OrDefault(response.error, StatusCheckFailed)), None)
  {
    match response
    case PollThrown(message) => Step(Abort(s, message), None)
    case PollReply(ok, success, error, status, output, predictionError, completedAt) =>
      if !ok then Step(Abort(s, StatusUnavailable), None)
      else if !success then Step(Abort(s, OrDefault(error, StatusCheckFailed)), None)
      else if s.currentSwap.None? then Step(s, None)
      else
        var current := s.currentSwap.value;
        var shown := s.(progress := ProgressFor(status));
        if status == "succeeded" then
          var completed := current.(status := Completed, resultImageUrl := output, completedAt := completedAt);
          Step(shown.(currentSwap := Some(completed), swapHistory := [completed] + s.swapHistory,
                      isLoading := false, progress := 100), None)
        else if status == "failed" then
          var message := OrDefault(predictionError, ProcessingFailed);
          var failed := current.(status := SwapFailed, error := Some(message), completedAt := completedAt);
          Step(shown.(currentSwap := Some(failed), swapHistory := [failed] + s.swapHistory,
                      isLoading := false, progress := 0, error := Some(message)), None)
        else if status == "processing" || status == "starting" then
          if attempts + 1 < MaxAttempts then Step(shown, Some(attempts + 1))
          else Step(Abort(shown, TimedOut), None)
        else Step(shown, None)
  }

  /** The polls made while `responses` lasts: the final state and how many replies
      were read. Polling stops at the first step that does not ask for another. */
  function PollRun(s: State, responses: seq<PollResponse>, attempts: nat): (State, nat)
    requires attempts < MaxAttempts
    decreases |responses|
  {
    if responses == [] then (s, 0)
    else
      var st := PollStep(s, responses[0], attempts);
      if st.again.None? then (st.state, 1)
      else
        var run := PollRun(st.state, responses[1..], st.again.value);
        (run.0, run.1 + 1)
  }

  /** `clearCurrentSwap`. */
  function Cleared(s: State): (r: State)
    ensures r.currentSwap.None? && !r.isLoading && r.progress == 0 && r.error.None?
    ensures Partialize(r) == Partialize(s)
  {
    s.(currentSwap := None, isLoading := false, progress := 0, error := None)
  }

  /** A prediction is polled at most 60 times, and never more often than there are
      replies. */
  lemma {:induction false} AtMostSixtyPolls(s: State, responses: seq<PollResponse>, attempts: nat)
    requires attempts < MaxAttempts
    ensures PollRun(s, responses, attempts).1 <= MaxAttempts - attempts
    ensures PollRun(s, responses, attempts).1 <= |responses|
    decreases |responses|
  {
    if responses != [] {
      var st := PollStep(s, responses[0], attempts);
      if st.again.Some? {
        AtMostSixtyPolls(st.state, responses[1..], st.again.value);
      }
    }
  }

  /** A whole poll run adds at most one swap to the history, in front of the older
      entries, and that swap is the one left current; the user's usage and
      subscription are untouched, and so are the images. */
  lemma {:induction false} HistoryGrowsByAtMostOne(s: State, responses: seq<PollResponse>, attempts: nat)
    requires attempts < MaxAttempts
    ensures var r := PollRun(s, responses, attempts).0;
      && (r.swapHistory == s.swapHistory
          || (r.currentSwap.Some? && r.swapHistory == [r.currentSwap.value] + s.swapHistory))
      && Partialize(r).userUsage == s.userUsage && Partialize(r).userSubscription == s.userSubscription
      && r.sourceImage == s.sourceImage && r.targetImage == s.targetImage
      && (Consistent(s) ==> Consistent(r))
    decreases |responses|
  {
    if responses != [] {
      var st := PollStep(s, responses[0], attempts);
      if st.again.Some? {
        HistoryGrowsByAtMostOne(st.state, responses[1..], st.again.value);
      }
    }
  }

  /** The running reply: the prediction is still being processed. */
  const StillRunning := PollReply(true, true, None, "processing", None, None, None)

  /** A prediction that never finishes times out: after the 60th poll that sees it
      running the loop stops with the time-out message and the spinner off, and the
      history is as it was. */
  lemma {:induction false} RunningForeverTimesOut(s: State, responses: seq<PollResponse>, attempts: nat)
    requires attempts < MaxAttempts
    requires s.currentSwap.Some?
    requires |responses| >= MaxAttempts - attempts
    requires forall i :: 0 <= i < |responses| ==> responses[i] == StillRunning
    ensures PollRun(s, responses, attempts).1 == MaxAttempts - attempts
    ensures PollRun(s, responses, attempts).0 == s.(progress := 0, isLoading := false, error := Some(TimedOut))
    decreases |responses|
  {
    var st := PollStep(s, responses[0], attempts);
    assert responses[0] == StillRunning;
    if attempts + 1 < MaxAttempts {
      assert st.state == s.(progress := 70);
      RunningForeverTimesOut(st.state, responses[1..], attempts + 1);
    }
  }

  /** A canceled prediction, or one with a status the store does not know, ends the
      polling with the bar at 50 and the spinner left as it was. */
  lemma CanceledKeepsSpinner(s: State, attempts: nat, status: string, output: Option<string>,
                             predictionError: Option<string>, completedAt: Option<string>)
    requires attempts < MaxAttempts
    requires s.currentSwap.Some?
    requires status !in {"starting", "processing", "succeeded", "failed"}
    ensures var r := PollRun(s, [PollReply(true, true, None, status, output, predictionError, completedAt)], attempts);
      r == (s.(progress := 50), 1) && r.0.isLoading == s.isLoading
  {
    var rs := [PollReply(true, true, None, status, output, predictionError, completedAt)];
    assert PollStep(s, rs[0], attempts) == Step(s.(progress := 50), None);
  }

  /** A prediction that succeeds on the first poll completes the current swap: it
      keeps its id, takes the output as its result, and heads the history. */
  lemma SucceededCompletes(s: State, attempts: nat, output: Option<string>, completedAt: Option<string>)
    requires attempts < MaxAttempts
    requires s.currentSwap.Some?
    ensures var r := PollRun(s, [PollReply(true, true, None, "succeeded", output, None, completedAt)], attempts).0;
      && r.currentSwap.Some? && r.currentSwap.value.id == s.currentSwap.value.id
      && r.currentSwap.value.status == Completed && r.currentSwap.value.resultImageUrl == output
      && r.swapHistory == [r.currentSwap.value] + s.swapHistory
      && !r.isLoading && r.progress == 100 && r.error == s.error
  {
    var rs := [PollReply(true, true, None, "succeeded", output, None, completedAt)];
    var st := PollStep(s, rs[0], attempts);
    assert st.again.None?;
  }

  /** A prediction that fails shows its error, or 處理失敗, both on the swap recorded
      in the history and as the store's message. */
  lemma FailedRecordsError(s: State, attempts: nat, predictionError: Option<string>, completedAt: Option<string>)
    requires attempts < MaxAttempts
    requires s.currentSwap.Some?
    ensures var r := PollRun(s, [PollReply(true, true, None, "failed", None, predictionError, completedAt)], attempts).0;
      && r.currentSwap.Some? && r.currentSwap.value.status == SwapFailed
      && r.swapHistory == [r.currentSwap.value] + s.swapHistory
      && r.currentSwap.value.error == r.error == Some(OrDefault(predictionError, ProcessingFailed))
      && !r.isLoading && r.progress == 0
  {
    var rs := [PollReply(true, true, None, "failed", None, predictionError, completedAt)];
    var st := PollStep(s, rs[0], attempts);
    assert st.again.None?;
  }

  /** The swap route's reply as the store reads it. */
  function ResponseOf(reply: SwapRoute.SwapReply): StartResponse
  {
    match reply
    case Started(predictionId, _, model, _) => StartReply(true, 200, true, None, None, predictionId, model)
    case Failed(status, error) => StartReply(false, status, false, Some(error), None, "", "")
  }

  /** Against the swap route as it stands, a refusal shows the route's own message,
      since the route answers only 400 or 500 and never 429, 401 or 403; and the
      usage shown is never refreshed, since the route sends none. */
  lemma StoreAgainstSwapRoute(s: State, quality: string, reply: SwapRoute.SwapReply, createdAt: string)
    requires Consistent(s)
    requires reply.Failed? ==> reply.status == 400 || reply.status == 500
    requires reply.Failed? ==> reply.error != ""
    ensures reply.Failed? ==> StartFailure(ResponseOf(reply)) == Some(reply.error)
    ensures reply.Started? ==> StartFailure(ResponseOf(reply)).None?
    ensures StartEffect(s, quality, ResponseOf(reply), createdAt).0.userUsage == s.userUsage
  {
  }

  /** The store itself. Its fields are those of `State`; `Snapshot` reads them all. */
  class Store {
    var currentSwap: Option<SwapResult>
    var swapHistory: seq<SwapResult>
    var isLoading: bool
    var progress: int
    var error: Option<string>
    var sourceImage: Option<ImageUpload.File>
    var targetImage: Option<ImageUpload.File>
    var sourceImagePreview: Option<string>
    var targetImagePreview: Option<string>
    var userUsage: Option<UserUsage>
    var userSubscription: Option<UserSubscription>

    function Snapshot(): State
      reads this
    {
      State(currentSwap, swapHistory, isLoading, progress, error, sourceImage, targetImage,
            sourceImagePreview, targetImagePreview, userUsage, userSubscription)
    }

    predicate Valid()
      reads this
    {
      Consistent(Snapshot())
    }

    constructor ()
      ensures Valid() && Snapshot() == Initial
    {
      currentSwap := None;
      swapHistory := [];
      isLoading := false;
      progress := 0;
      error := None;
      sourceImage := None;
      targetImage := None;
      sourceImagePreview := None;
      targetImagePreview := None;
      userUsage := None;
      userSubscription := None;
    }

    method SetSourceImage(file: Option<ImageUpload.File>, objectUrl: string)
      requires Valid()
      modifies this
      ensures Valid() && Snapshot() == WithSource(old(Snapshot()), file, objectUrl)
    {
      var preview := if file.Some? then Some(objectUrl) else None;
      sourceImage := file;
      sourceImagePreview := preview;
      error := None;
    }

    method SetTargetImage(file: Option<ImageUpload.File>, objectUrl: string)
      requires Valid()
      modifies this
      ensures Valid() && Snapshot() == WithTarget(old(Snapshot()), file, objectUrl)
    {
      var preview := if file.Some? then Some(objectUrl) else None;
      targetImage := file;
      targetImagePreview := preview;
      error := None;
    }

    /** `startSwap`; `poll` is the prediction whose status polling then begins. */
    method StartSwap(quality: string, response: StartResponse, createdAt: string) returns (poll: Option<string>)
      requires Valid()
      modifies this
      ensures Valid() && (Snapshot(), poll) == StartEffect(old(Snapshot()), quality, response, createdAt)
    {
      if sourceImage.None? || targetImage.None? {
        error := Some(ChooseBothImages);
        return None;
      }
      isLoading := true;
      error := None;
      progress := 10;
      var failure := StartFailure(response);
      if failure.Some? {
        error := failure;
        isLoading := false;
        progress := 0;
        return None;
      }
      if response.usage.Some? && userUsage.Some? {
        userUsage := Some(userUsage.value.(current := response.usage.value));
      }
      currentSwap := Some(SwapResult(response.predictionId, Processing, sourceImagePreview.value,
                                     targetImagePreview.value, None, response.model, quality, createdAt, None, None));
      progress := 30;
      poll := Some(response.predictionId);
    }

    /** One poll of the status endpoint. */
    method PollOnce(response: PollResponse, attempts: nat) returns (again: Option<nat>)
      requires Valid() && attempts < MaxAttempts
      modifies this
      ensures Valid() && Step(Snapshot(), again) == PollStep(old(Snapshot()), response, attempts)
    {
      if response.PollThrown? {
        error, isLoading, progress := Some(response.message), false, 0;
        return None;
      }
      if !response.ok {
        error, isLoading, progress := Some(StatusUnavailable), false, 0;
        return None;
      }
      if !response.success {
        error, isLoading, progress := Some(OrDefault(response.error, StatusCheckFailed)), false, 0;
        return None;
      }
      if currentSwap.None? {
        return None;
      }
      var current := currentSwap.value;
      progress := ProgressFor(response.status);
      if response.status == "succeeded" {
        var completed := current.(status := Completed, resultImageUrl := response.output,
                                  completedAt := response.completedAt);
        currentSwap := Some(completed);
        swapHistory := [completed] + swapHistory;
        isLoading := false;
        progress := 100;
        again := None;
      } else if response.status == "failed" {
        var message := OrDefault(response.predictionError, ProcessingFailed);
        var failed := current.(status := SwapFailed, error := Some(message), completedAt := response.completedAt);
        currentSwap := Some(failed);
        swapHistory := [failed] + swapHistory;
        isLoading := false;
        progress := 0;
        error := Some(message);
        again := None;
      } else if response.status == "processing" || response.status == "starting" {
        var count := attempts + 1;
        if count < MaxAttempts {
          again := Some(count);
        } else {
          error, isLoading, progress := Some(TimedOut), false, 0;
          again := None;
        }
      } else {
        again := None;
      }
    }

    /** `checkSwapStatus`: polls once per reply in `responses` until a poll stops the
        loop or the replies run out; `polls` is how many replies were read. */
    method CheckSwapStatus(responses: seq<PollResponse>) returns (polls: nat)
      requires Valid()
      modifies this
      ensures Valid() && (Snapshot(), polls) == PollRun(old(Snapshot()), responses, 0)
      ensures polls <= MaxAttempts
    {
      ghost var run := PollRun(Snapshot(), responses, 0);
      AtMostSixtyPolls(Snapshot(), responses, 0);
      var attempts: nat := 0;
      var polling := true;
      polls := 0;
      while polling && polls < |responses|
        invariant Valid()
        invariant polls <= |responses|
        invariant polling ==> attempts < MaxAttempts
        invariant polling ==> PollRun(Snapshot(), responses[polls..], attempts).0 == run.0
        invariant polling ==> PollRun(Snapshot(), responses[polls..], attempts).1 + polls == run.1
        invariant !polling ==> (Snapshot(), polls) == run
        decreases |responses| - polls, polling
      {
        assert responses[polls..][0] == responses[polls];
        assert responses[polls..][1..] == responses[polls + 1..];
        var again := PollOnce(responses[polls], attempts);
        polls := polls + 1;
        if again.None? {
          polling := false;
        } else {
          attempts := again.value;
        }
      }
      if polling {
        assert responses[polls..] == [];
      }
    }

    method ClearCurrentSwap()
      requires Valid()
      modifies this
      ensures Valid() && Snapshot() == Cleared(old(Snapshot()))
    {
      currentSwap := None;
      isLoading := false;
      progress := 0;
      error := None;
    }

    /** `setError`: showing a message, or clearing it, also stops the spinner. */
    method SetError(message: Option<string>)
      requires Valid()
      modifies this
      ensures Valid() && Snapshot() == old(Snapshot()).(error := message, isLoading := false)
    {
      error := message;
      isLoading := false;
    }

    function Persist(): (p: Persisted)
      reads this
      ensures p == Partialize(Snapshot())
    {
      Persisted(swapHistory, userUsage, userSubscription)
    }
  }
}

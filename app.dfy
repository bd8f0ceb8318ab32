/** The orchestrator: the `App` component's state and its handlers. The settled outcome of
    `analyzeImage` and of `fileToDataUrl`, the fresh ids and the clock are inputs to each handler. */
module Orchestrator {
  import opened Wrappers
  import opened Types
  import opened Text
  import History
  import Gemini
  import Toasts

  /** How the awaited `analyzeImage(file, key)` settled: with a reply object, or by throwing
      (`message` is the `Error`'s message; `None` when something other than an `Error` was thrown). */
  datatype AnalysisOutcome = Replied(response: AIResponse) | Threw(message: Option<string>)

  /** The promise of the client's `AnalyzeImage`, settled: a failure is an `Error` with its message. */
  function OutcomeOf(r: Result<AIResponse>): AnalysisOutcome {
    match r
    case Success(v) => Replied(v)
    case Failure(m) => Threw(Some(m))
  }

  /** Everything one run of `runAnalysis` needs from outside: how the analysis settled, what
      `fileToDataUrl` produced (`None` when it rejected), the new entry's id and time, whether the
      history write succeeds, and the id of the toast it shows. */
  datatype Attempt = Attempt(
    outcome: AnalysisOutcome,
    dataUrl: Option<string>,
    entryId: string,
    timestamp: int,
    writeOk: bool,
    toastId: string)

  const SomethingWentWrong: string := "Something went wrong."
  const AnalysisCompleteMessage: string := "Analysis complete!"
  const KeySavedMessage: string := "API key saved!"
  const LoadedFromHistoryMessage: string := "Loaded from history"

  /** The result a settled attempt leaves: the reply, only when it is result-shaped. */
  function SettledResult(outcome: AnalysisOutcome): (r: Option<AnalysisResult>)
    ensures r.Some? ==> outcome.Replied? && r.value == outcome.response
    ensures outcome.Threw? ==> r.None?
  {
    match outcome
    case Replied(r) => if IsAnalysisError(r) then None else Some(r)
    case Threw(_) => None
  }

  /** The toast a settled attempt shows. */
  function SettledToast(outcome: AnalysisOutcome, id: string): (t: Toasts.Toast)
    ensures t.id == id && t.kind != Toasts.Info
    ensures t.kind == Toasts.Success <==> outcome.Replied? && !IsAnalysisError(outcome.response)
  {
    match outcome
    case Replied(r) =>
      if IsAnalysisError(r) then Toasts.Toast(id, Toasts.Error, r.error.value)
      else Toasts.Toast(id, Toasts.Success, AnalysisCompleteMessage)
    case Threw(m) => Toasts.Toast(id, Toasts.Error, m.GetOr(SomethingWentWrong))
  }

  /** Whether a settled attempt calls `saveToHistory`: only a result-shaped reply whose image could be read. */
  predicate SavesHistory(a: Attempt) {
    a.outcome.Replied? && !IsAnalysisError(a.outcome.response) && a.dataUrl.Some?
  }

  /** The entry such an attempt saves. */
  function EntryOf(a: Attempt): HistoryEntry
    requires SavesHistory(a)
  {
    HistoryEntry(a.entryId, a.timestamp, a.dataUrl.value, a.outcome.response)
  }

  /** Exactly the result-shaped replies are kept, and exactly they get the success toast; every
      other outcome shows an error toast. */
  lemma ResultKeptIffSuccessToast(outcome: AnalysisOutcome, id: string)
    ensures SettledResult(outcome).Some? <==> outcome.Replied? && !IsAnalysisError(outcome.response)
    ensures SettledResult(outcome).Some? ==> SettledResult(outcome).value == outcome.response
    ensures SettledToast(outcome, id).kind == Toasts.Success <==> SettledResult(outcome).Some?
    ensures SettledToast(outcome, id).kind != Toasts.Success ==> SettledToast(outcome, id).kind == Toasts.Error
    ensures SettledToast(outcome, id).id == id
  {
  }

  /** An error-shaped reply leaves no result, shows its `error` text, and writes no history. */
  lemma ErrorReplyWritesNothing(a: Attempt)
    requires a.outcome.Replied? && IsAnalysisError(a.outcome.response)
    ensures SettledResult(a.outcome) == None && !SavesHistory(a)
    ensures SettledToast(a.outcome, a.toastId).message == a.outcome.response.error.value
  {
  }

  /** A thrown error leaves no result and shows its message, or the generic one. */
  lemma ThrownShowsMessage(a: Attempt)
    requires a.outcome.Threw?
    ensures SettledResult(a.outcome) == None && !SavesHistory(a)
    ensures a.outcome.message.Some? ==> SettledToast(a.outcome, a.toastId).message == a.outcome.message.value
    ensures a.outcome.message.None? ==> SettledToast(a.outcome, a.toastId).message == SomethingWentWrong
  {
  }

  /** A failure of the analysis client reaches the user as an error toast carrying the client's message. */
  lemma ClientFailureToast(message: string, id: string)
    ensures SettledToast(OutcomeOf(Failure(message)), id) == Toasts.Toast(id, Toasts.Error, message)
    ensures SettledResult(OutcomeOf(Failure(message))) == None
  {
  }

  class App {
    var selectedFile: Option<ImageFile>
    var preview: Option<string>
    var isAnalyzing: bool
    var result: Option<AnalysisResult>
    var apiKey: Option<string>
    var showKeyModal: bool
    /** The `analyzeImage(file, key)` calls issued so far: the network requests. */
    ghost var requests: seq<(ImageFile, string)>

    const keys: Gemini.KeyStore
    const history: History.HistoryStore
    const bus: Toasts.ToastBus

    /** The first render followed by the mount effect `setApiKey(getStoredApiKey())`. */
    constructor (keys: Gemini.KeyStore, history: History.HistoryStore, bus: Toasts.ToastBus)
      ensures this.keys == keys && this.history == history && this.bus == bus
      ensures selectedFile == None && preview == None && !isAnalyzing && result == None
      ensures apiKey == keys.GetStoredApiKey() && !showKeyModal && requests == []
    {
      this.keys := keys;
      this.history := history;
      this.bus := bus;
      selectedFile, preview, isAnalyzing, result := None, None, false, None;
      apiKey := keys.GetStoredApiKey();
      showKeyModal := false;
      requests := [];
    }

    /** The history store can take the attempt's entry: it is well formed and the id is fresh. */
    ghost predicate Ready(a: Attempt)
      reads this, history
    {
      history.Valid() && a.entryId !in History.Ids(history.Entries())
    }

    /** The history slot after an attempt settled. */
    twostate predicate HistoryAfter(a: Attempt)
      reads this, history
    {
      if SavesHistory(a) && a.writeOk
      then history.slot == History.Saved(History.Prepended(old(history.Entries()), EntryOf(a)))
      else history.slot == old(history.slot)
    }

    /** One whole `runAnalysis(file, key)`: one request issued, `isAnalyzing` false again, the result
        and the history slot as the outcome decides, and `earlier` followed by the outcome's toast delivered. */
    twostate predicate RanAnalysis(file: ImageFile, key: string, a: Attempt, earlier: seq<Toasts.Toast>)
      reads this, history, bus, bus.listeners
    {
      && requests == old(requests) + [(file, key)]
      && !isAnalyzing
      && result == SettledResult(a.outcome)
      && HistoryAfter(a)
      && history.Valid()
      && bus.Delivered(earlier + [SettledToast(a.outcome, a.toastId)])
    }

    /** The first steps of `runAnalysis`, up to the awaited call: `isAnalyzing` on, the result cleared,
        the request issued. */
    method BeginAnalysis(file: ImageFile, key: string)
      modifies this
      ensures isAnalyzing && result == None
      ensures requests == old(requests) + [(file, key)]
      ensures selectedFile == old(selectedFile) && preview == old(preview)
      ensures apiKey == old(apiKey) && showKeyModal == old(showKeyModal)
    {
      isAnalyzing := true;
      result := None;
      requests := requests + [(file, key)];
    }

    /** The rest of `runAnalysis`, once the call settled: an error-shaped reply shows its error; a
        result-shaped one is kept, announced and saved to history (a failure there changes nothing
        else); a throw shows its message and leaves the result as it was; and in every case
        `isAnalyzing` ends false. */
    method SettleAnalysis(a: Attempt)
      requires Ready(a)
      modifies this, history, bus.listeners
      ensures !isAnalyzing
      ensures result == if a.outcome.Threw? then old(result) else SettledResult(a.outcome)
      ensures HistoryAfter(a) && history.Valid()
      ensures bus.Delivered([SettledToast(a.outcome, a.toastId)])
      ensures requests == old(requests)
      ensures selectedFile == old(selectedFile) && preview == old(preview)
      ensures apiKey == old(apiKey) && showKeyModal == old(showKeyModal)
    {
      match a.outcome {
        case Replied(response) =>
          if IsAnalysisError(response) {
            bus.ToastError(response.error.value, a.toastId);
            result := None;
          } else {
            result := Some(response);
            bus.ToastSuccess(AnalysisCompleteMessage, a.toastId);
            if a.dataUrl.Some? {
              var _ := history.SaveToHistory(response, a.dataUrl.value, a.entryId, a.timestamp, a.writeOk);
            }
          }
        case Threw(message) =>
          bus.ToastError(message.GetOr(SomethingWentWrong), a.toastId);
      }
      isAnalyzing := false;
    }

    /** `runAnalysis(file, key)`. */
    method RunAnalysis(file: ImageFile, key: string, a: Attempt)
      requires Ready(a)
      modifies this, history, bus.listeners
      ensures RanAnalysis(file, key, a, [])
      ensures selectedFile == old(selectedFile) && preview == old(preview)
      ensures apiKey == old(apiKey) && showKeyModal == old(showKeyModal)
    {
      BeginAnalysis(file, key);
      SettleAnalysis(a);
      assert [] + [SettledToast(a.outcome, a.toastId)] == [SettledToast(a.outcome, a.toastId)];
    }

    /** `handleImageSelected`: records the file and its preview and clears the result; with no key
        it opens the key dialog and issues no request, otherwise it runs the analysis. */
    method HandleImageSelected(file: ImageFile, previewUrl: string, a: Attempt)
      requires Ready(a)
      modifies this, history, bus.listeners
      ensures selectedFile == Some(file) && preview == Some(previewUrl) && apiKey == old(apiKey)
      ensures var key := keys.GetStoredApiKey();
        if Truthy(key) then RanAnalysis(file, key.value, a, []) && showKeyModal == old(showKeyModal)
        else && showKeyModal && result == None && isAnalyzing == old(isAnalyzing)
             && requests == old(requests) && history.slot == old(history.slot) && bus.Delivered([])
    {
      selectedFile := Some(file);
      preview := Some(previewUrl);
      result := None;
      var key := keys.GetStoredApiKey();
      if !Truthy(key) {
        showKeyModal := true;
        return;
      }
      RunAnalysis(file, key.value, a);
    }

    /** `handleKeySaved`: records the key, announces it, and runs the analysis when a file is selected. */
    method HandleKeySaved(key: string, savedToastId: string, a: Attempt)
      requires Ready(a)
      modifies this, history, bus.listeners
      ensures apiKey == Some(key) && selectedFile == old(selectedFile) && preview == old(preview)
      ensures showKeyModal == old(showKeyModal)
      ensures var saved := Toasts.Toast(savedToastId, Toasts.Success, KeySavedMessage);
        if old(selectedFile).Some? then RanAnalysis(old(selectedFile).value, key, a, [saved])
        else && bus.Delivered([saved]) && requests == old(requests) && result == old(result)
             && isAnalyzing == old(isAnalyzing) && history.slot == old(history.slot)
    {
      apiKey := Some(key);
      var saved := Toasts.Toast(savedToastId, Toasts.Success, KeySavedMessage);
      bus.ToastSuccess(KeySavedMessage, savedToastId);
      if selectedFile.Some? {
        ghost var mid := map c | c in bus.listeners :: c.toasts;
        assert forall c :: c in bus.listeners ==> mid[c] == old(c.toasts) + [saved];
        RunAnalysis(selectedFile.value, key, a);
        assert forall c :: c in bus.listeners ==> c.toasts == mid[c] + [SettledToast(a.outcome, a.toastId)];
      }
    }

    /** `handleRetry`: runs the analysis again only when a file is selected and the key is not empty. */
    method HandleRetry(a: Attempt)
      requires Ready(a)
      modifies this, history, bus.listeners
      ensures selectedFile == old(selectedFile) && preview == old(preview) && apiKey == old(apiKey)
      ensures showKeyModal == old(showKeyModal)
      ensures if old(selectedFile).Some? && Truthy(old(apiKey))
        then RanAnalysis(old(selectedFile).value, old(apiKey).value, a, [])
        else && requests == old(requests) && result == old(result) && isAnalyzing == old(isAnalyzing)
             && history.slot == old(history.slot) && bus.Delivered([])
    {
      if selectedFile.Some? && Truthy(apiKey) {
        RunAnalysis(selectedFile.value, apiKey.value, a);
      }
    }

    /** `handleReset`: forgets the file, its preview and the result. */
    method HandleReset()
      modifies this
      ensures selectedFile == None && preview == None && result == None
      ensures isAnalyzing == old(isAnalyzing) && apiKey == old(apiKey) && showKeyModal == old(showKeyModal)
      ensures requests == old(requests)
    {
      selectedFile := None;
      preview := None;
      result := None;
    }

    /** `handleHistorySelect`: shows a past result in place of the current file. */
    method HandleHistorySelect(past: AnalysisResult, toastId: string)
      modifies this, bus.listeners
      ensures result == Some(past) && selectedFile == None && preview == None
      ensures isAnalyzing == old(isAnalyzing) && apiKey == old(apiKey) && showKeyModal == old(showKeyModal)
      ensures requests == old(requests)
      ensures bus.Delivered([Toasts.Toast(toastId, Toasts.Info, LoadedFromHistoryMessage)])
    {
      result := Some(past);
      selectedFile := None;
      preview := None;
      bus.ToastInfo(LoadedFromHistoryMessage, toastId);
    }

    /** The navigation bar's key button: `setShowKeyModal(true)`. */
    method OpenKeyModal()
      modifies this`showKeyModal
      ensures showKeyModal
    {
      showKeyModal := true;
    }

    /** The dialog's `onClose`: `setShowKeyModal(false)`. */
    method CloseKeyModal()
      modifies this`showKeyModal
      ensures !showKeyModal
    {
      showKeyModal := false;
    }
  }
}

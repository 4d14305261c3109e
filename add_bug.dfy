/** The bug creation page of the client (`AddBug`): the draft form, the
    dictation join, the classification of a submit's outcome into a banner,
    and the suggestion panel that reveals a fixed list five entries at a time.

    The create request, the speech recogniser, the visibility observer and the
    banner timer are not modelled: their results arrive as parameters of the
    events below. */
module AddBug {
  import opened Wrappers
  import opened JsBuiltins

  /** The example descriptions offered beside the form. */
  const PredefinedBugs: seq<string> := [
    "UI button not responsive on mobile view",
    "Login page takes too long to load",
    "Data is not saving after form submission",
    "App crashes when clicking on 'Submit'",
    "Text overlapping in dark mode",
    "User profile images not loading properly",
    "Notifications are not showing up in real-time",
    "Sorting function is not working correctly",
    "Search results show irrelevant data",
    "Logout button is not working sometimes"
  ]

  /** How many suggestions each reveal adds. */
  const PageSize: nat := 5

  /** The priority a fresh draft starts with. */
  const DefaultPriority := "low"

  function Min(a: int, b: int): int
  {
    if a <= b then a else b
  }

  /** `predefinedBugs.slice(0, 5)`: the suggestions shown on mount. */
  function InitialSuggestions(): (r: seq<string>)
    ensures r == PredefinedBugs[..PageSize]
  {
    Slice(PredefinedBugs, 0, PageSize)
  }

  /** The updater the observer passes to `setBugSuggestions`:
      `[...prev, ...predefinedBugs.slice(prev.length, prev.length + 5)]`. */
  function NextSuggestions(prev: seq<string>): (r: seq<string>)
    ensures prev <= r
    ensures |r| <= |prev| + PageSize
    ensures |prev| >= |PredefinedBugs| ==> r == prev
  {
    prev + Slice(PredefinedBugs, |prev|, |prev| + PageSize)
  }

  /** A reveal keeps the panel a prefix of the fixed list, never drops what
      was shown, and adds min(5, remaining) entries. */
  lemma NextSuggestionsSpec(prev: seq<string>)
    requires prev <= PredefinedBugs
    ensures prev <= NextSuggestions(prev) <= PredefinedBugs
    ensures |NextSuggestions(prev)| == |prev| + Min(PageSize, |PredefinedBugs| - |prev|)
  {
    var next := NextSuggestions(prev);
    var hi := Min(|prev| + PageSize, |PredefinedBugs|);
    assert next == PredefinedBugs[..|prev|] + PredefinedBugs[|prev|..hi];
    assert next == PredefinedBugs[..hi];
  }

  /** Once everything is shown, a reveal changes nothing. */
  lemma NextSuggestionsAtEnd(prev: seq<string>)
    requires |prev| >= |PredefinedBugs|
    ensures NextSuggestions(prev) == prev
  {
  }

  /** The panel after `k` reveals from the initial one. */
  function AfterReveals(k: nat): seq<string>
  {
    if k == 0 then InitialSuggestions() else NextSuggestions(AfterReveals(k - 1))
  }

  /** After `k` reveals the panel shows the first min(5 (k + 1), 10) entries. */
  lemma {:induction false} AfterRevealsShows(k: nat)
    ensures AfterReveals(k) == PredefinedBugs[..Min(PageSize * (k + 1), |PredefinedBugs|)]
  {
    if k > 0 {
      AfterRevealsShows(k - 1);
      NextSuggestionsSpec(AfterReveals(k - 1));
    }
  }

  /** The fixed list has no repeated entry. */
  lemma PredefinedDistinct()
    ensures forall i, j :: 0 <= i < j < |PredefinedBugs| ==> PredefinedBugs[i] != PredefinedBugs[j]
  {
  }

  /** A reveal never adds an entry that is already shown. */
  lemma NextSuggestionsNoRepeats(prev: seq<string>)
    requires prev <= PredefinedBugs
    ensures forall i, j :: 0 <= i < j < |NextSuggestions(prev)| ==> NextSuggestions(prev)[i] != NextSuggestions(prev)[j]
  {
    NextSuggestionsSpec(prev);
    PredefinedDistinct();
    var next := NextSuggestions(prev);
    forall i, j | 0 <= i < j < |next| ensures next[i] != next[j] {
      assert next[i] == PredefinedBugs[i] && next[j] == PredefinedBugs[j];
    }
  }

  /** The spinner under the panel: shown while entries remain to reveal. */
  predicate ShowsLoader(suggestions: seq<string>): (r: bool)
    ensures suggestions <= PredefinedBugs ==> (r <==> suggestions != PredefinedBugs)
  {
    |suggestions| < |PredefinedBugs|
  }

  /** The spinner shows before the first reveal and never after it. */
  lemma LoaderOnlyBeforeFirstReveal(k: nat)
    ensures ShowsLoader(AfterReveals(k)) <==> k == 0
  {
    AfterRevealsShows(k);
  }

  /** The dictation updater: `prev ? prev + " " + transcript : transcript`. */
  function AppendTranscript(prev: string, transcript: string): (r: string)
    ensures prev <= r
    ensures prev == "" ==> r == transcript
    ensures prev != "" ==> r[|prev|..] == " " + transcript
  {
    if prev != "" then prev + " " + transcript else transcript
  }

  /** Two dictations in a row into a non-empty draft join all three pieces
      with single spaces. */
  lemma TwoDictations(prev: string, t1: string, t2: string)
    requires prev != ""
    ensures AppendTranscript(AppendTranscript(prev, t1), t2) == prev + " " + t1 + " " + t2
  {
    assert |AppendTranscript(prev, t1)| > 0;
  }

  /** A reply from the create endpoint: its status, whether its body carries a
      `bugDTO`, and its body's `message` field. */
  datatype HttpReply = HttpReply(status: int, hasBugDTO: bool, message: Option<string>)

  /** What the `try` block of `handleSubmit` sees: the awaited response, or
      the error thrown with the server's `message` when there was one. */
  datatype SubmitOutcome =
    | Responded(status: int, hasBugDTO: bool)
    | Threw(serverMessage: Option<string>)

  /** axios resolves with a 2xx reply and rejects otherwise; no reply at all
      (a network failure) rejects without a response. */
  function Settle(reply: Option<HttpReply>): (o: SubmitOutcome)
    ensures reply.None? ==> o == Threw(None)
    ensures reply.Some? && 200 <= reply.value.status < 300 ==> o == Responded(reply.value.status, reply.value.hasBugDTO)
    ensures reply.Some? && !(200 <= reply.value.status < 300) ==> o == Threw(reply.value.message)
  {
    match reply
    case None => Threw(None)
    case Some(r) =>
      if 200 <= r.status < 300 then Responded(r.status, r.hasBugDTO) else Threw(r.message)
  }

  datatype MessageType = SuccessMessage | ErrorMessage

  /** The banner a settled submit shows and whether it clears the draft. */
  datatype Feedback = Feedback(message: string, messageType: MessageType, resetDraft: bool)

  const SuccessText := "Bug successfully added!"
  const RejectedText := "Failed to add bug. Try again."
  const FallbackText := "Failed to create bug. Please try again."

  /** The branches of `handleSubmit` after the request settles. */
  function Classify(o: SubmitOutcome): (r: Feedback)
    ensures r.resetDraft <==> o.Responded? && o.status == 201 && o.hasBugDTO
    ensures r.messageType == SuccessMessage <==> r.resetDraft
    ensures o.Responded? && !r.resetDraft ==> r.message == RejectedText
    ensures o.Threw? && o.serverMessage.Some? && o.serverMessage.value != "" ==>
      r.message == "Error: " + o.serverMessage.value
    ensures o.Threw? && (o.serverMessage.None? || o.serverMessage.value == "") ==>
      r.message == FallbackText
  {
    match o
    case Responded(status, hasBugDTO) =>
      if status == 201 && hasBugDTO then Feedback(SuccessText, SuccessMessage, true)
      else Feedback(RejectedText, ErrorMessage, false)
    case Threw(m) =>
      if m.Some? && m.value != "" then Feedback("Error: " + m.value, ErrorMessage, false)
      else Feedback(FallbackText, ErrorMessage, false)
  }

  /** The success text is shown exactly when the draft is cleared: no server
      message can impersonate it, since server text is always prefixed. */
  lemma SuccessTextOnlyOnSuccess(o: SubmitOutcome)
    ensures Classify(o).message == SuccessText <==> Classify(o).resetDraft
  {
    var r := Classify(o);
    if o.Threw? && o.serverMessage.Some? && o.serverMessage.value != "" {
      assert r.message[0] == 'E' != SuccessText[0];
    }
  }

  /** Only a 201 that carries the created bug clears the draft; any reply the
      server sends otherwise, or no reply, leaves it. */
  lemma OnlyCreatedResets(reply: Option<HttpReply>)
    ensures Classify(Settle(reply)).resetDraft <==>
      reply.Some? && reply.value.status == 201 && reply.value.hasBugDTO
  {
  }

  /** A 500 whose body says "db down" is shown as "Error: db down". */
  lemma ServerMessageShown()
    ensures Classify(Settle(Some(HttpReply(500, false, Some("db down"))))).message == "Error: db down"
  {
  }

  /** The body of the create request. */
  datatype CreateRequest = CreateRequest(reportedBy: int, description: string, priority: string)

  /** The state of the `AddBug` page. */
  class AddBugForm {
    var description: string
    var priority: string
    var loading: bool
    var message: Option<string>
    var messageType: Option<MessageType>
    var bugSuggestions: seq<string>

    /** The panel is always a non-empty prefix of the fixed list. */
    ghost predicate Valid()
      reads this
    {
      bugSuggestions <= PredefinedBugs && PageSize <= |bugSuggestions|
    }

    constructor ()
      ensures Valid()
      ensures description == "" && priority == DefaultPriority && !loading
      ensures message == None && messageType == None
      ensures bugSuggestions == PredefinedBugs[..PageSize]
    {
      description, priority, loading := "", DefaultPriority, false;
      message, messageType := None, None;
      bugSuggestions := InitialSuggestions();
    }

    /** The observer sees the last suggestion: reveal the next batch. */
    method LoadMore()
      requires Valid()
      modifies this
      ensures Valid()
      ensures bugSuggestions == NextSuggestions(old(bugSuggestions))
      ensures |bugSuggestions| == |old(bugSuggestions)| + Min(PageSize, |PredefinedBugs| - |old(bugSuggestions)|)
      ensures description == old(description) && priority == old(priority) && loading == old(loading)
      ensures message == old(message) && messageType == old(messageType)
    {
      NextSuggestionsSpec(bugSuggestions);
      bugSuggestions := NextSuggestions(bugSuggestions);
    }

    /** Whether the spinner is rendered. */
    function Loader(): (shown: bool)
      reads this
      requires Valid()
      ensures shown <==> bugSuggestions != PredefinedBugs
    {
      ShowsLoader(bugSuggestions)
    }

    /** Typing in the description box. */
    method EditDescription(text: string)
      requires Valid()
      modifies this
      ensures Valid()
      ensures description == text
      ensures priority == old(priority) && loading == old(loading) && message == old(message)
      ensures messageType == old(messageType) && bugSuggestions == old(bugSuggestions)
    {
      description := text;
    }

    /** Choosing a priority. */
    method SelectPriority(value: string)
      requires Valid()
      modifies this
      ensures Valid()
      ensures priority == value
      ensures description == old(description) && loading == old(loading) && message == old(message)
      ensures messageType == old(messageType) && bugSuggestions == old(bugSuggestions)
    {
      priority := value;
    }

    /** A recognised utterance is appended to the draft. */
    method Dictate(transcript: string)
      requires Valid()
      modifies this
      ensures Valid()
      ensures description == AppendTranscript(old(description), transcript)
      ensures old(description) <= description
      ensures priority == old(priority) && loading == old(loading) && message == old(message)
      ensures messageType == old(messageType) && bugSuggestions == old(bugSuggestions)
    {
      description := AppendTranscript(description, transcript);
    }

    /** Clicking the suggestion at `i` replaces the draft with it. */
    method PickSuggestion(i: nat)
      requires Valid()
      requires i < |bugSuggestions|
      modifies this
      ensures Valid()
      ensures description == old(bugSuggestions)[i]
      ensures priority == old(priority) && loading == old(loading) && message == old(message)
      ensures messageType == old(messageType) && bugSuggestions == old(bugSuggestions)
    {
      description := bugSuggestions[i];
    }

    /** The synchronous start of `handleSubmit`: the button disables, the old
        banner goes, and the request carries the current draft. The page only
        lets a submit through with a non-empty description (the `required`
        text area) and while no submit is pending (the disabled button). */
    method BeginSubmit(userId: int) returns (request: CreateRequest)
      requires Valid()
      requires description != "" && !loading
      modifies this
      ensures Valid()
      ensures request == CreateRequest(userId, old(description), old(priority))
      ensures loading && message == None
      ensures description == old(description) && priority == old(priority)
      ensures messageType == old(messageType) && bugSuggestions == old(bugSuggestions)
    {
      loading := true;
      message := None;
      request := CreateRequest(userId, description, priority);
    }

    /** The rest of `handleSubmit` once the request settles. */
    method FinishSubmit(o: SubmitOutcome)
      requires Valid()
      modifies this
      ensures Valid()
      ensures message == Some(Classify(o).message) && messageType == Some(Classify(o).messageType)
      ensures !loading
      ensures Classify(o).resetDraft ==> description == "" && priority == DefaultPriority
      ensures !Classify(o).resetDraft ==> description == old(description) && priority == old(priority)
      ensures bugSuggestions == old(bugSuggestions)
    {
      var fb := Classify(o);
      message := Some(fb.message);
      messageType := Some(fb.messageType);
      if fb.resetDraft {
        description := "";
        priority := DefaultPriority;
      }
      loading := false;
    }

    /** The three-second timer after a submit hides the banner. */
    method MessageTimerFired()
      requires Valid()
      modifies this
      ensures Valid()
      ensures message == None
      ensures description == old(description) && priority == old(priority) && loading == old(loading)
      ensures messageType == old(messageType) && bugSuggestions == old(bugSuggestions)
    {
      message := None;
    }
  }
}

/** The composer of apps/web/src/PostMessage.jsx: a text field with a length
    cap, an emoji picker, one optional image, and a post button whose outcome
    is reported in a toast. The network request is an outcome parameter and
    each handler is one atomic step. */
module PostMessage {
  import opened Json
  import MessageService

  const DefaultMaxCharacters := 250
  const DefaultRecipientName := "default"
  /** The helper text turns red below this many remaining characters. */
  const WarningThreshold := 20
  const SuccessToast := "Your message was posted successfully!"
  const FailurePrefix := "Failed to send message: "

  /** `parseInt(VITE_MAX_MESSAGE_LENGTH) || 250`, where `parsed` is what
      `parseInt` returned (None for NaN). A parsed 0 is falsy too. */
  function MaxCharacters(parsed: Option<int>): (max: int)
    ensures max != 0
    ensures parsed.None? || parsed.value == 0 ==> max == DefaultMaxCharacters
    ensures parsed.Some? && parsed.value != 0 ==> max == parsed.value
  {
    if parsed.Some? && parsed.value != 0 then parsed.value else DefaultMaxCharacters
  }

  /** `VITE_DEFAULT_RECIPIENT || 'default'`. */
  function DefaultRecipient(configured: Option<string>): (recipient: string)
    ensures recipient != ""
    ensures configured.Some? && configured.value != "" ==> recipient == configured.value
    ensures configured.None? || configured.value == "" ==> recipient == DefaultRecipientName
  {
    if configured.Some? && configured.value != "" then configured.value else DefaultRecipientName
  }

  datatype Severity = Success | Error

  /** What the POST request comes to. `Answered` is a response with its
      status and the `message` field of its JSON body (None when absent or
      when the body does not parse); `Thrown` is any rejected promise — a
      network failure, or an ok response whose body does not parse. */
  datatype PostOutcome = Answered(status: nat, messageField: Option<string>) | Thrown(errorMessage: string)

  /** The component's state cells; `pickerOpen` is `Boolean(anchorEl)`. */
  datatype Form = Form(
    message: string,
    image: Option<string>,
    pickerOpen: bool,
    toastOpen: bool,
    toastMessage: string,
    toastSeverity: Severity)

  const InitialForm := Form("", None, false, false, "", Success)

  datatype FormEvent =
    | Typed(value: string)
    | EmojiButtonClicked
    | PickerClosed
    | EmojiSelected(emoji: string)
    | ImageChosen(file: Option<string>)
    | ImageRemoved
    | Posted(outcome: PostOutcome)
    | ToastClosed(reason: Option<string>)

  /** `response.ok`. */
  predicate ResponseOk(status: nat)
  {
    200 <= status <= 299
  }

  predicate PostSucceeded(outcome: PostOutcome)
  {
    outcome.Answered? && ResponseOk(outcome.status)
  }

  /** `remainingChars`. */
  function RemainingChars(message: string, max: int): int
  {
    max - |message|
  }

  /** The helper text's error flag. */
  predicate LengthWarning(message: string, max: int)
  {
    RemainingChars(message, max) < WarningThreshold
  }

  /** The post button's `disabled={!message}`. */
  predicate PostDisabled(f: Form)
  {
    f.message == ""
  }

  /** The image input's and its icon's `disabled={Boolean(image)}`. */
  predicate ImageInputDisabled(f: Form)
  {
    f.image.Some? && f.image.value != ""
  }

  /** The text of the error toast: `error.message` of the thrown error. */
  function FailureText(outcome: PostOutcome): (text: string)
    requires !PostSucceeded(outcome)
  {
    match outcome
    case Thrown(m) => FailurePrefix + m
    case Answered(status, field) =>
      if field.Some? && field.value != "" then FailurePrefix + field.value
      else FailurePrefix + "Error: " + DecimalString(status)
  }

  /** One handler, as the code has it. */
  function Apply(f: Form, max: int, e: FormEvent): Form
  {
    match e
    case Typed(value) => if |value| <= max then f.(message := value) else f
    case EmojiButtonClicked => f.(pickerOpen := true)
    case PickerClosed => f.(pickerOpen := false)
    case EmojiSelected(emoji) => f.(message := f.message + emoji, pickerOpen := false)
    case ImageChosen(file) => if file.Some? then f.(image := file) else f
    case ImageRemoved => f.(image := None)
    case Posted(outcome) =>
      if f.message == "" then f
      else if PostSucceeded(outcome) then
        f.(message := "", image := None, toastOpen := true, toastMessage := SuccessToast, toastSeverity := Success)
      else
        f.(message := "", image := None, toastOpen := true, toastMessage := FailureText(outcome), toastSeverity := Error)
    case ToastClosed(reason) => if reason == Some("clickaway") then f else f.(toastOpen := false)
  }

  /** Emoji selection as evidently intended: the same length gate as a typed
      edit. Every other handler is as the code has it. */
  function ApplyIntended(f: Form, max: int, e: FormEvent): Form
  {
    match e
    case EmojiSelected(emoji) =>
      var value := f.message + emoji;
      f.(message := if |value| <= max then value else f.message, pickerOpen := false)
    case _ => Apply(f, max, e)
  }

  function RunForm(f: Form, max: int, events: seq<FormEvent>): Form
    decreases |events|
  {
    if events == [] then f else RunForm(Apply(f, max, events[0]), max, events[1..])
  }

  function RunIntended(f: Form, max: int, events: seq<FormEvent>): Form
    decreases |events|
  {
    if events == [] then f else RunIntended(ApplyIntended(f, max, events[0]), max, events[1..])
  }

  /** The length cap the text field is meant to keep; the empty initial
      message is allowed even when the configured cap is negative. */
  predicate WithinCap(message: string, max: int)
  {
    message == "" || |message| <= max
  }

  predicate NoEmoji(events: seq<FormEvent>)
  {
    forall i | 0 <= i < |events| :: !events[i].EmojiSelected?
  }

  /** The JSON body `handlePost` sends: recipient, content and image; no
      sender. */
  function Outgoing(f: Form, recipient: string): MessageService.Submission
  {
    MessageService.Submission(Str(recipient), Undefined, Str(f.message),
                              if f.image.Some? then Str(f.image.value) else Null)
  }

  // ---------------------------------------------------------------------
  // The component

  class Composer {
    const maxCharacters: int
    const recipient: string
    var message: string
    var image: Option<string>
    var pickerOpen: bool
    var toastOpen: bool
    var toastMessage: string
    var toastSeverity: Severity

    function State(): Form
      reads this
    {
      Form(message, image, pickerOpen, toastOpen, toastMessage, toastSeverity)
    }

    /** Mount, with what `parseInt` made of the configured maximum and the
        configured default recipient. */
    constructor (parsedMax: Option<int>, configuredRecipient: Option<string>)
      ensures maxCharacters == MaxCharacters(parsedMax)
      ensures recipient == DefaultRecipient(configuredRecipient)
      ensures State() == InitialForm
    {
      maxCharacters := MaxCharacters(parsedMax);
      recipient := DefaultRecipient(configuredRecipient);
      message, image, pickerOpen := "", None, false;
      toastOpen, toastMessage, toastSeverity := false, "", Success;
    }

    /** The text field's `onChange`. */
    method OnChange(value: string)
      modifies this`message
      ensures State() == Apply(old(State()), maxCharacters, Typed(value))
    {
      if |value| <= maxCharacters {
        message := value;
      }
    }

    method HandleEmojiButtonClick()
      modifies this`pickerOpen
      ensures State() == Apply(old(State()), maxCharacters, EmojiButtonClicked)
    {
      pickerOpen := true;
    }

    method HandleCloseEmojiPicker()
      modifies this`pickerOpen
      ensures State() == Apply(old(State()), maxCharacters, PickerClosed)
    {
      pickerOpen := false;
    }

    method HandleEmojiSelect(emoji: string)
      modifies this`message, this`pickerOpen
      ensures State() == Apply(old(State()), maxCharacters, EmojiSelected(emoji))
    {
      message := message + emoji;
      HandleCloseEmojiPicker();
    }

    /** `handleImageChange` with the file read as a data URL; None when no
        file was chosen. */
    method HandleImageChange(file: Option<string>)
      modifies this`image
      ensures State() == Apply(old(State()), maxCharacters, ImageChosen(file))
    {
      if file.Some? {
        image := file;
      }
    }

    /** The Remove button under the preview. */
    method RemoveImage()
      modifies this`image
      ensures State() == Apply(old(State()), maxCharacters, ImageRemoved)
    {
      image := None;
    }

    /** `handlePost`; `sent` is the request body, None when nothing is sent. */
    method HandlePost(outcome: PostOutcome) returns (sent: Option<MessageService.Submission>)
      modifies this`message, this`image, this`toastOpen, this`toastMessage, this`toastSeverity
      ensures State() == Apply(old(State()), maxCharacters, Posted(outcome))
      ensures sent == if old(message) == "" then None else Some(Outgoing(old(State()), recipient))
    {
      if message == "" {
        return None;
      }
      sent := Some(Outgoing(State(), recipient));
      if PostSucceeded(outcome) {
        message := "";
        image := None;
        toastMessage := SuccessToast;
        toastSeverity := Success;
        toastOpen := true;
      } else {
        toastMessage := FailureText(outcome);
        toastSeverity := Error;
        toastOpen := true;
      }
      message := "";
      image := None;
    }

    method HandleCloseToast(reason: Option<string>)
      modifies this`toastOpen
      ensures State() == Apply(old(State()), maxCharacters, ToastClosed(reason))
    {
      if reason == Some("clickaway") {
        return;
      }
      toastOpen := false;
    }
  }

  // ---------------------------------------------------------------------
  // Properties

  /** A typed edit is taken exactly when it fits the cap; otherwise the
      message stays as it was. */
  lemma TypedEditGate(f: Form, max: int, value: string)
    ensures Apply(f, max, Typed(value)).message == value <==> |value| <= max || value == f.message
    ensures |value| > max ==> Apply(f, max, Typed(value)) == f
  {
  }

  /** `remainingChars` is what is left of the cap; it is never negative
      while the message is within the cap. */
  lemma RemainingCharsMeaning(message: string, max: int)
    ensures RemainingChars(message, max) + |message| == max
    ensures WithinCap(message, max) && message != "" ==> RemainingChars(message, max) >= 0
  {
  }

  /** The helper text shows as an error exactly when fewer than 20
      characters remain. */
  lemma LengthWarningMeaning(message: string, max: int)
    ensures LengthWarning(message, max) <==> |message| > max - WarningThreshold
    ensures max >= WarningThreshold && message == "" ==> !LengthWarning(message, max)
  {
  }

  /** Every handler but emoji selection keeps the message within the cap. */
  lemma StepKeepsCap(f: Form, max: int, e: FormEvent)
    requires WithinCap(f.message, max)
    requires !e.EmojiSelected?
    ensures WithinCap(Apply(f, max, e).message, max)
  {
  }

  /** Typed edits, posts, image and toast handling keep the cap over any
      session; only emoji selection can break it. */
  lemma {:induction false} CapHeldWithoutEmoji(f: Form, max: int, events: seq<FormEvent>)
    requires WithinCap(f.message, max)
    requires NoEmoji(events)
    ensures WithinCap(RunForm(f, max, events).message, max)
    decreases |events|
  {
    if events != [] {
      assert !events[0].EmojiSelected?;
      StepKeepsCap(f, max, events[0]);
      assert NoEmoji(events[1..]) by {
        forall i | 0 <= i < |events[1..]| ensures !events[1..][i].EmojiSelected? {
          assert events[1..][i] == events[i + 1];
        }
      }
      CapHeldWithoutEmoji(Apply(f, max, events[0]), max, events[1..]);
    }
  }

  /** As written, selecting an emoji when the message is at the cap makes it
      longer than the cap. */
  lemma EmojiOverflowsCap(f: Form, max: int, emoji: string)
    requires |f.message| == max && emoji != ""
    ensures !WithinCap(Apply(f, max, EmojiSelected(emoji)).message, max)
    ensures RemainingChars(Apply(f, max, EmojiSelected(emoji)).message, max) < 0
  {
  }

  /** With the intended emoji gate, every session keeps the cap. */
  lemma {:induction false} IntendedKeepsCap(f: Form, max: int, events: seq<FormEvent>)
    requires WithinCap(f.message, max)
    ensures WithinCap(RunIntended(f, max, events).message, max)
    decreases |events|
  {
    if events != [] {
      var next := ApplyIntended(f, max, events[0]);
      if !events[0].EmojiSelected? {
        StepKeepsCap(f, max, events[0]);
      }
      assert WithinCap(next.message, max);
      IntendedKeepsCap(next, max, events[1..]);
    }
  }

  /** The post button is disabled exactly when `handlePost` would do
      nothing. */
  lemma PostDisabledMeansNoOp(f: Form, max: int, outcome: PostOutcome)
    ensures PostDisabled(f) <==> Apply(f, max, Posted(outcome)) == f
  {
  }

  /** After a post attempt the form is cleared and a toast is open, whether
      the request succeeded or not; the toast is a success exactly when the
      response was ok. */
  lemma PostOutcomeToast(f: Form, max: int, outcome: PostOutcome)
    requires !PostDisabled(f)
    ensures var g := Apply(f, max, Posted(outcome));
      && g.message == "" && g.image == None && g.toastOpen
      && (g.toastSeverity == Success <==> PostSucceeded(outcome))
      && (g.toastSeverity == Success ==> g.toastMessage == SuccessToast)
      && (g.toastSeverity == Error ==> g.toastMessage[..|FailurePrefix|] == FailurePrefix)
  {
  }

  /** A non-ok response whose body has no `message` field, such as the
      service's 400 and 500 answers (they carry `error`), shows the status. */
  lemma StatusShownWithoutMessageField(f: Form, max: int, status: nat)
    requires !PostDisabled(f) && !ResponseOk(status)
    ensures Apply(f, max, Posted(Answered(status, None))).toastMessage == FailurePrefix + "Error: " + DecimalString(status)
  {
  }

  /** Image selection is disabled while an image is present; Remove clears
      it and re-enables selection. */
  lemma ImageGuards(f: Form, max: int, url: string)
    requires url != ""
    ensures ImageInputDisabled(Apply(f, max, ImageChosen(Some(url))))
    ensures Apply(f, max, ImageRemoved).image == None && !ImageInputDisabled(Apply(f, max, ImageRemoved))
  {
  }

  /** A click-away leaves the toast as it is; any other close shuts it. */
  lemma ToastCloseRule(f: Form, max: int, reason: Option<string>)
    ensures Apply(f, max, ToastClosed(reason)).toastOpen == (f.toastOpen && reason == Some("clickaway"))
    ensures Apply(f, max, ToastClosed(reason)).(toastOpen := f.toastOpen) == f
  {
  }

  /** What the composer sends always passes the service's validation: the
      post guard rules out an empty message and the recipient is never empty. */
  lemma SentSubmissionAccepted(f: Form, configured: Option<string>)
    requires !PostDisabled(f)
    ensures MessageService.Accepts(Outgoing(f, DefaultRecipient(configured)))
  {
  }
}

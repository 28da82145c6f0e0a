/** The input and status state machine of the chat page, the same in both
    front ends: the `isInitializing` and `isLoading` flags that `setStatus`
    assigns, the send-button predicate of `updateSendButton`, and the guard
    of `sendMessage`. */
module Status {
  import opened Text

  /** The two flags of the page. */
  datatype Flags = Flags(isInitializing: bool, isLoading: bool)

  /** The classes of the status dot: `status-dot`, plus `loading` or `error`. */
  datatype Dot = Plain | Loading | Failed

  /** The flags after `setStatus(status, …)` from flags `f`. */
  function StatusFlags(status: string, f: Flags): (r: Flags)
    ensures status == "loading" ==> r == Flags(true, false)
    ensures status == "processing" ==> r == Flags(false, true)
    ensures status == "error" || status == "ready" ==> r == Flags(false, false)
    ensures status !in {"loading", "processing", "error", "ready"} ==> r == f
  {
    if status == "loading" then Flags(true, false)
    else if status == "processing" then Flags(false, true)
    else if status == "error" || status == "ready" then Flags(false, false)
    else f
  }

  /** At most one flag is set. */
  predicate Exclusive(f: Flags) {
    !(f.isInitializing && f.isLoading)
  }

  /** Every status keeps the flags exclusive, and a known status forgets
      the flags it found. */
  lemma StatusFlagsExclusive(status: string, f: Flags, g: Flags)
    requires Exclusive(f)
    ensures Exclusive(StatusFlags(status, f))
    ensures status in {"loading", "processing", "error", "ready"} ==>
      StatusFlags(status, f) == StatusFlags(status, g)
  {
  }

  /** Repeating a status changes nothing. */
  lemma StatusFlagsIdempotent(status: string, f: Flags)
    ensures StatusFlags(status, StatusFlags(status, f)) == StatusFlags(status, f)
  {
  }

  /** The send button of `updateSendButton` is disabled while the page is
      initializing or loading, or when the input is blank. */
  function SendDisabled(f: Flags, input: string): (r: bool)
    ensures !r <==> !f.isInitializing && !f.isLoading && !AllSpace(input)
  {
    TrimSpec(input);
    f.isInitializing || f.isLoading || Trim(input) == ""
  }

  /** Whether `sendMessage` sends: the trimmed input is not empty and
      neither flag is set. */
  predicate CanSend(f: Flags, input: string) {
    Trim(input) != "" && !f.isInitializing && !f.isLoading
  }

  /** The button is enabled exactly when pressing it would send. */
  lemma ButtonAgreesWithGuard(f: Flags, input: string)
    ensures !SendDisabled(f, input) <==> CanSend(f, input)
  {
    TrimSpec(input);
  }

  /** The module-level flags and the status and input elements of the page,
      and the tagged lines it has written to the console bridge. */
  class StatusController {
    var isInitializing: bool
    var isLoading: bool
    var input: string
    var inputDisabled: bool
    var progressVisible: bool
    var dot: Dot
    var statusText: string
    var sendDisabled: bool
    var bridge: seq<string>

    function State(): Flags
      reads this
    {
      Flags(isInitializing, isLoading)
    }

    /** The flags are exclusive and the button shows `SendDisabled`. */
    predicate Valid()
      reads this
    {
      Exclusive(State()) && sendDisabled == SendDisabled(State(), input)
    }

    /** The page as loaded: initializing, with an empty input, after the
        `updateSendButton` of the load handler. */
    constructor ()
      ensures Valid()
      ensures isInitializing && !isLoading && input == "" && sendDisabled
      ensures !inputDisabled && !progressVisible && dot == Plain && statusText == "" && bridge == []
    {
      isInitializing := true;
      isLoading := false;
      input := "";
      inputDisabled := false;
      progressVisible := false;
      dot := Plain;
      statusText := "";
      bridge := [];
      sendDisabled := true;
    }

    /** `updateSendButton`. */
    method UpdateSendButton()
      modifies this
      ensures sendDisabled == SendDisabled(State(), input)
      ensures State() == old(State()) && input == old(input) && inputDisabled == old(inputDisabled)
      ensures progressVisible == old(progressVisible) && dot == old(dot)
      ensures statusText == old(statusText) && bridge == old(bridge)
    {
      var hasText := |Trim(input)| > 0;
      sendDisabled := isInitializing || isLoading || !hasText;
    }

    /** `window.setStatus(status, text)`. */
    method SetStatus(status: string, text: string)
      requires Valid()
      modifies this
      ensures Valid()
      ensures State() == StatusFlags(status, old(State()))
      ensures dot == (if status == "loading" || status == "processing" then Loading
                      else if status == "error" then Failed else Plain)
      ensures inputDisabled == (if status == "loading" || status == "processing" then true
                                else if status == "error" || status == "ready" then false
                                else old(inputDisabled))
      ensures progressVisible == (if status == "loading" then true
                                  else if status == "error" || status == "ready" then false
                                  else old(progressVisible))
      ensures statusText == text && input == old(input) && bridge == old(bridge)
    {
      dot := Plain;
      if status == "loading" {
        dot := Loading;
        isInitializing := true;
        isLoading := false;
        inputDisabled := true;
        progressVisible := true;
      } else if status == "processing" {
        dot := Loading;
        isLoading := true;
        isInitializing := false;
        inputDisabled := true;
      } else if status == "error" {
        dot := Failed;
        isLoading := false;
        isInitializing := false;
        inputDisabled := false;
        progressVisible := false;
      } else if status == "ready" {
        isInitializing := false;
        isLoading := false;
        inputDisabled := false;
        progressVisible := false;
      }
      statusText := text;
      UpdateSendButton();
    }

    /** Typing into the input: the `input` handler (`autoResizeTextarea`)
        ends with `updateSendButton`. */
    method OnInput(value: string)
      requires Valid()
      modifies this
      ensures Valid()
      ensures input == value && State() == old(State())
      ensures inputDisabled == old(inputDisabled) && progressVisible == old(progressVisible)
      ensures dot == old(dot) && statusText == old(statusText) && bridge == old(bridge)
    {
      input := value;
      UpdateSendButton();
    }

    /** `sendMessage`: refused while the trimmed input is empty or a flag is
        set; otherwise the input is cleared, loading starts, and one
        `SEND_MESSAGE:` line carries the trimmed text. */
    method SendMessage()
      requires Valid()
      modifies this
      ensures Valid()
      ensures !CanSend(old(State()), old(input)) ==>
        State() == old(State()) && input == old(input) && bridge == old(bridge)
        && sendDisabled == old(sendDisabled)
      ensures CanSend(old(State()), old(input)) ==>
        State() == Flags(false, true) && input == "" && sendDisabled
        && bridge == old(bridge) + ["SEND_MESSAGE:" + Trim(old(input))]
      ensures inputDisabled == old(inputDisabled) && progressVisible == old(progressVisible)
      ensures dot == old(dot) && statusText == old(statusText)
    {
      var message := Trim(input);
      if message == "" || isInitializing || isLoading {
        return;
      }
      input := "";
      isLoading := true;
      UpdateSendButton();
      bridge := bridge + ["SEND_MESSAGE:" + message];
    }

    /** The deferred end of setup that `updateProgress` schedules once the
        `complete` step reaches 100%. */
    method FinishSetup()
      requires Valid()
      modifies this
      ensures Valid()
      ensures !progressVisible && !isInitializing && isLoading == old(isLoading)
      ensures input == old(input) && inputDisabled == old(inputDisabled)
      ensures dot == old(dot) && statusText == old(statusText) && bridge == old(bridge)
    {
      progressVisible := false;
      isInitializing := false;
      UpdateSendButton();
    }
  }
}

/** The dashboard's Telegram-linking dialog: the PIN field keeps only digits,
    at most six; submitting checks the length, marks the form as loading,
    sends the PIN and shows the verification outcome. The HTTP call itself is
    not modelled: its outcome is a parameter. */
module TelegramLink {
  import opened JsonRecords
  import opened Text

  /** The characters of `s` that are ASCII digits, in order (`replace(/\D/g, '')`). */
  function Digits(s: string): (d: string)
    ensures |d| <= |s|
    ensures forall i :: 0 <= i < |d| ==> IsDigit(d[i])
  {
    if s == [] then []
    else if IsDigit(s[0]) then [s[0]] + Digits(s[1..])
    else Digits(s[1..])
  }

  /** The number of ASCII digits in `s`. */
  function DigitCount(s: string): nat
  {
    if s == [] then 0 else (if IsDigit(s[0]) then 1 else 0) + DigitCount(s[1..])
  }

  /** Filtering keeps every digit, so a string of digits is its own filter. */
  lemma {:induction false} DigitsOfDigits(s: string)
    requires forall i :: 0 <= i < |s| ==> IsDigit(s[i])
    ensures Digits(s) == s
  {
    if s != [] {
      DigitsOfDigits(s[1..]);
    }
  }

  /** Filtering distributes over concatenation: digits keep their order. */
  lemma {:induction false} DigitsOfConcat(a: string, b: string)
    ensures Digits(a + b) == Digits(a) + Digits(b)
  {
    if a == [] {
      assert a + b == b;
    } else {
      assert (a + b)[0] == a[0];
      assert (a + b)[1..] == a[1..] + b;
      DigitsOfConcat(a[1..], b);
    }
  }

  /** The filter keeps exactly the digits: its length is the digit count. */
  lemma {:induction false} DigitsLength(s: string)
    ensures |Digits(s)| == DigitCount(s)
  {
    if s != [] {
      DigitsLength(s[1..]);
    }
  }

  /** `handlePinChange`'s `replace(/\D/g, '').slice(0, 6)`. */
  function SanitizePin(value: string): (pin: string)
    ensures |pin| <= 6
    ensures forall i :: 0 <= i < |pin| ==> IsDigit(pin[i])
  {
    var digits := Digits(value);
    if |digits| <= 6 then digits else digits[..6]
  }

  /** The sanitised PIN is the first min(6, number of digits) digits of the
      input in their original order, and sanitising twice changes nothing. */
  lemma SanitizePinProperties(value: string)
    ensures var pin := SanitizePin(value);
            && |pin| == (if DigitCount(value) < 6 then DigitCount(value) else 6)
            && pin <= Digits(value)
            && SanitizePin(pin) == pin
  {
    DigitsLength(value);
    DigitsOfDigits(SanitizePin(value));
  }

  /** A PIN typed with separators keeps only its digits, in order. */
  lemma SanitizeDropsSeparators(a: string, b: string)
    requires forall i :: 0 <= i < |a| ==> IsDigit(a[i])
    requires forall i :: 0 <= i < |b| ==> IsDigit(b[i])
    requires |a| + |b| <= 6
    ensures SanitizePin(a + " - " + b) == a + b
  {
    DigitsOfConcat(a + " - ", b);
    DigitsOfConcat(a, " - ");
    DigitsOfDigits(a);
    DigitsOfDigits(b);
    assert Digits(" - ") == [];
  }

  datatype MessageKind = Blank | Error | Success

  /** The `message` state: a kind and a text. */
  datatype Message = Message(kind: MessageKind, text: string)

  const NoMessage := Message(Blank, "")
  const WrongLength := Message(Error, "PIN must be 6 digits")
  const Linked := Message(Success, "Successfully linked to Telegram!")
  const InvalidPin := "Invalid or expired PIN"
  const VerifyFailed := "Failed to verify PIN. Please try again."

  /** What the awaited verify call produced: a response with its `success`
      flag and optional `message`, or a thrown error whose response may carry
      a message. */
  datatype VerifyOutcome = Responded(success: bool, message: Option<string>) | Threw(message: Option<string>)

  /** JavaScript `m || fallback` for a possibly missing string. */
  function TextOr(m: Option<string>, fallback: string): (text: string)
    ensures m.Some? && m.value != "" ==> text == m.value
    ensures m.None? || m.value == "" ==> text == fallback
  {
    if m.Some? && m.value != "" then m.value else fallback
  }

  /** The message the form shows once the verify call has settled. */
  function OutcomeMessage(outcome: VerifyOutcome): (message: Message)
    ensures message.kind == Success <==> outcome.Responded? && outcome.success
    ensures message.kind == Success ==> message == Linked
    ensures outcome == Responded(false, outcome.message) ==> message == Message(Error, TextOr(outcome.message, InvalidPin))
    ensures outcome.Threw? ==> message == Message(Error, TextOr(outcome.message, VerifyFailed))
    ensures message.text != ""
  {
    match outcome
    case Responded(success, m) => if success then Linked else Message(Error, TextOr(m, InvalidPin))
    case Threw(m) => Message(Error, TextOr(m, VerifyFailed))
  }

  /** The dialog's state: the PIN field, the loading flag and the message,
      and whether the dialog has called its parent's `onClose`. */
  class TelegramLinkForm {
    var pin: string
    var loading: bool
    var message: Message
    var closeRequested: bool

    /** The PIN field only ever holds at most six digits. */
    predicate Valid()
      reads this
    {
      |pin| <= 6 && forall i :: 0 <= i < |pin| ==> IsDigit(pin[i])
    }

    /** The submit button is enabled only when not loading and the PIN has
        exactly six characters. */
    function SubmitEnabled(): (enabled: bool)
      reads this
      ensures enabled <==> !loading && |pin| == 6
    {
      !(loading || |pin| != 6)
    }

    constructor ()
      ensures Valid() && pin == "" && !loading && message == NoMessage && !closeRequested
    {
      pin := "";
      loading := false;
      message := NoMessage;
      closeRequested := false;
    }

    /** `handlePinChange`: store the sanitised value and clear the message. */
    method HandlePinChange(value: string)
      modifies this
      ensures Valid()
      ensures pin == SanitizePin(value) && message == NoMessage && loading == old(loading)
      ensures closeRequested == old(closeRequested)
    {
      pin := SanitizePin(value);
      message := NoMessage;
    }

    /** The synchronous part of `handleSubmit`: a PIN of the wrong length
        shows the error and sends nothing; otherwise the form starts loading
        with a cleared message, and the PIN is the one to send. */
    method BeginSubmit() returns (request: Option<string>)
      requires Valid()
      modifies this
      ensures Valid() && pin == old(pin) && closeRequested == old(closeRequested)
      ensures |pin| != 6 ==> request == None && message == WrongLength && loading == old(loading)
      ensures |pin| == 6 ==> request == Some(pin) && loading && message == NoMessage
    {
      if |pin| != 6 {
        message := WrongLength;
        return None;
      }
      loading := true;
      message := NoMessage;
      request := Some(pin);
    }

    /** The rest of `handleSubmit` once the call has settled: the outcome's
        message, and, in `finally`, loading is cleared on every outcome.
        `armed` says whether the two-second success timer was started. */
    method FinishSubmit(outcome: VerifyOutcome) returns (armed: bool)
      requires Valid()
      modifies this
      ensures Valid() && pin == old(pin) && closeRequested == old(closeRequested)
      ensures message == OutcomeMessage(outcome) && !loading
      ensures armed <==> outcome.Responded? && outcome.success
    {
      armed := false;
      if outcome.Responded? && outcome.success {
        message := Linked;
        armed := true;
      } else if outcome.Responded? {
        message := Message(Error, TextOr(outcome.message, InvalidPin));
      } else {
        message := Message(Error, TextOr(outcome.message, VerifyFailed));
      }
      loading := false;
    }

    /** The timer two seconds after a successful link clears the PIN and
        asks the parent to close the dialog. */
    method SuccessTimeout()
      modifies this
      ensures pin == "" && Valid() && loading == old(loading) && message == old(message)
      ensures closeRequested
    {
      pin := "";
      closeRequested := true;
    }

    /** The whole of `handleSubmit` for a given outcome of the verify call:
        it returns the PIN it sent, if any, and whether it started the
        success timer. */
    method HandleSubmit(outcome: VerifyOutcome) returns (sent: Option<string>, armed: bool)
      requires Valid()
      modifies this
      ensures Valid() && pin == old(pin) && closeRequested == old(closeRequested)
      ensures sent.Some? <==> |old(pin)| == 6
      ensures sent.Some? ==> sent.value == pin && message == OutcomeMessage(outcome) && !loading
      ensures sent.None? ==> message == WrongLength && loading == old(loading)
      ensures armed <==> sent.Some? && outcome.Responded? && outcome.success
    {
      armed := false;
      sent := BeginSubmit();
      if sent.Some? {
        armed := FinishSubmit(outcome);
      }
    }
  }

  /** Whenever the button is enabled, submitting sends the PIN. */
  method SubmitFromEnabledButton(form: TelegramLinkForm, outcome: VerifyOutcome) returns (sent: Option<string>)
    requires form.Valid() && form.SubmitEnabled()
    modifies form
    ensures sent == Some(form.pin) && !form.loading
  {
    var armed;
    sent, armed := form.HandleSubmit(outcome);
  }
}

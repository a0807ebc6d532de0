/** The one-time-password page: six single-character cells, a resend
    countdown and the submit check.

    The email read from session storage is a constructor parameter; the
    calls to `login` and `sendOtp` become their outcomes, passed in; one
    interval firing is one `Tick`. Keyboard focus moves are left out. */
module Otp {
  import opened Optional
  import opened Text

  const CellCount := 6
  const ResendSeconds := 30
  const IncompleteMessage := "Please enter the complete 6-digit OTP"
  const InvalidMessage := "Invalid OTP. Please try again."
  const LoginErrorMessage := "An error occurred. Please try again later."
  const ResendFailedMessage := "Failed to resend OTP"

  /** `otp.join('')`. */
  function Concat(cells: seq<string>): (r: string)
    ensures (forall i :: 0 <= i < |cells| ==> AllDigits(cells[i])) ==> AllDigits(r)
  {
    if cells == [] then "" else cells[0] + Concat(cells[1..])
  }

  /** The cells only ever hold digits. */
  ghost predicate DigitCells(cells: seq<string>) {
    |cells| == CellCount && forall i :: 0 <= i < |cells| ==> AllDigits(cells[i])
  }

  /** `handleChange(index, value)`: a value made only of digits (the empty
      one included) goes into that cell; anything else is ignored. */
  function ChangeCell(cells: seq<string>, index: nat, value: string): (r: seq<string>)
    requires index < |cells|
    ensures AllDigits(value) ==> r == cells[index := value]
    ensures !AllDigits(value) ==> r == cells
  {
    if AllDigits(value) then cells[index := value] else cells
  }

  /** The cells a paste fills in: one digit per cell, and only when the
      trimmed text is exactly six digits. */
  function PastedCells(text: string): (r: Option<seq<string>>)
  {
    var t := Trim(text);
    if |t| == CellCount && AllDigits(t) then Some(seq(CellCount, i requires 0 <= i < CellCount => [t[i]]))
    else None
  }

  /** Edits keep every cell a string of digits, and leave the other cells alone. */
  lemma ChangeKeepsDigits(cells: seq<string>, index: nat, value: string)
    requires DigitCells(cells) && index < |cells|
    ensures DigitCells(ChangeCell(cells, index, value))
    ensures forall j :: 0 <= j < |cells| && j != index ==> ChangeCell(cells, index, value)[j] == cells[j]
  {
  }

  lemma {:induction false} ConcatSingles(t: string)
    ensures Concat(seq(|t|, i requires 0 <= i < |t| => [t[i]])) == t
    decreases |t|
  {
    if t != "" {
      var cells := seq(|t|, i requires 0 <= i < |t| => [t[i]]);
      ConcatSingles(t[1..]);
      assert cells[1..] == seq(|t[1..]|, i requires 0 <= i < |t[1..]| => [t[1..][i]]);
    }
  }

  /** An accepted paste puts exactly the trimmed text into the cells, one
      digit in each, so that submitting next sends it; a paste that is not
      six digits once trimmed is refused. */
  lemma PasteRoundTrip(text: string)
    ensures PastedCells(text).Some? <==> |Trim(text)| == CellCount && AllDigits(Trim(text))
    ensures PastedCells(text).Some? ==>
      var cells := PastedCells(text).value;
      DigitCells(cells) && Concat(cells) == Trim(text) && forall i :: 0 <= i < CellCount ==> |cells[i]| == 1
  {
    var t := Trim(text);
    if |t| == CellCount && AllDigits(t) {
      ConcatSingles(t);
    }
  }

  /** One firing of the countdown interval: at 1 or less the count stops at
      0 and resend is enabled again, otherwise it goes down by one. The
      interval runs only while resend is disabled. */
  datatype Countdown = Countdown(seconds: int, resendDisabled: bool)

  function CountdownTick(c: Countdown): (r: Countdown)
    ensures !c.resendDisabled ==> r == c
    ensures c.resendDisabled && c.seconds <= 1 ==> r == Countdown(0, false)
    ensures c.resendDisabled && c.seconds > 1 ==> r == Countdown(c.seconds - 1, true)
  {
    if !c.resendDisabled then c
    else if c.seconds <= 1 then Countdown(0, false)
    else Countdown(c.seconds - 1, true)
  }

  function Ticks(c: Countdown, k: nat): Countdown
    decreases k
  {
    if k == 0 then c else Ticks(CountdownTick(c), k - 1)
  }

  /** From n seconds (n at least 1) resend stays disabled for n - 1 ticks,
      counting down one per tick, and the n-th tick enables it at 0. */
  lemma {:induction false} CountdownRunsOut(n: nat, k: nat)
    requires n >= 1 && k <= n
    ensures k < n ==> Ticks(Countdown(n, true), k) == Countdown(n - k, true)
    ensures k == n ==> Ticks(Countdown(n, true), k) == Countdown(0, false)
    decreases k
  {
    if k > 0 {
      if n == 1 {
        assert Ticks(Countdown(n, true), 1) == Ticks(Countdown(0, false), 0);
      } else {
        CountdownRunsOut(n - 1, k - 1);
      }
    }
  }

  /** The resend button is hidden for the first 29 ticks after the page
      opens, and shown after the 30th. */
  lemma ResendAfterThirtyTicks()
    ensures Ticks(Countdown(ResendSeconds, true), ResendSeconds - 1).resendDisabled
    ensures Ticks(Countdown(ResendSeconds, true), ResendSeconds) == Countdown(0, false)
  {
    CountdownRunsOut(ResendSeconds, ResendSeconds - 1);
    CountdownRunsOut(ResendSeconds, ResendSeconds);
  }

  /** What the `login` call did. */
  datatype LoginOutcome = LoggedIn | Refused | Threw

  /** What the page asked for: the login attempt with the code, and where it navigated. */
  datatype SubmitEffect = SubmitEffect(attempt: Option<string>, navigateTo: Option<string>)

  /** `handleSubmit`: the error message it leaves and what it asked for. */
  function SubmitResult(cells: seq<string>, outcome: LoginOutcome): (r: (string, SubmitEffect))
    ensures |Concat(cells)| != CellCount <==> r.1.attempt.None?
    ensures |Concat(cells)| != CellCount ==> r.0 == IncompleteMessage && r.1.navigateTo.None?
    ensures r.1.attempt.Some? ==> r.1.attempt.value == Concat(cells)
    ensures r.1.navigateTo.Some? <==> |Concat(cells)| == CellCount && outcome == LoggedIn
  {
    var code := Concat(cells);
    if |code| != CellCount then (IncompleteMessage, SubmitEffect(None, None))
    else match outcome
      case LoggedIn => ("", SubmitEffect(Some(code), Some("/dashboard")))
      case Refused => (InvalidMessage, SubmitEffect(Some(code), None))
      case Threw => (LoginErrorMessage, SubmitEffect(Some(code), None))
  }

  /** Any code that gets sent is six digits. */
  lemma SentCodeIsSixDigits(cells: seq<string>, outcome: LoginOutcome)
    requires DigitCells(cells)
    ensures var r := SubmitResult(cells, outcome);
      r.1.attempt.Some? ==> |r.1.attempt.value| == CellCount && AllDigits(r.1.attempt.value)
  {
  }

  /** The page's state cells. */
  datatype OtpState = OtpState(cells: seq<string>, error: string, loading: bool, countdown: Countdown)

  function InitialState(): (s: OtpState)
    ensures DigitCells(s.cells) && forall i :: 0 <= i < CellCount ==> s.cells[i] == ""
    ensures s.countdown == Countdown(ResendSeconds, true) && s.error == "" && !s.loading
  {
    OtpState(["", "", "", "", "", ""], "", false, Countdown(ResendSeconds, true))
  }

  class OtpPage {
    var cells: seq<string>
    var error: string
    var loading: bool
    var countdown: int
    var resendDisabled: bool
    /** What session storage held under the user's email key. */
    const email: Option<string>

    function State(): OtpState
      reads this
    {
      OtpState(cells, error, loading, Countdown(countdown, resendDisabled))
    }

    ghost predicate Valid()
      reads this
    {
      DigitCells(cells)
    }

    function HasEmail(): bool {
      email.Some? && email.value != ""
    }

    constructor (storedEmail: Option<string>)
      ensures Valid() && State() == InitialState() && email == storedEmail
    {
      cells := ["", "", "", "", "", ""];
      error := "";
      loading := false;
      countdown := ResendSeconds;
      resendDisabled := true;
      email := storedEmail;
    }

    method HandleChange(index: nat, value: string)
      requires Valid() && index < CellCount
      modifies this
      ensures Valid()
      ensures State() == old(State()).(cells := ChangeCell(old(cells), index, value))
    {
      if !AllDigits(value) {
        return;
      }
      var newCells := cells;
      newCells := newCells[index := value];
      cells := newCells;
    }

    method HandlePaste(text: string)
      requires Valid()
      modifies this
      ensures Valid()
      ensures PastedCells(text).None? ==> State() == old(State())
      ensures PastedCells(text).Some? ==> State() == old(State()).(cells := PastedCells(text).value)
    {
      var pasted := Trim(text);
      if |pasted| == CellCount && AllDigits(pasted) {
        cells := seq(CellCount, i requires 0 <= i < CellCount => [pasted[i]]);
        PasteRoundTrip(text);
      }
    }

    /** One firing of the interval. */
    method Tick()
      modifies this
      ensures State() == old(State()).(countdown := CountdownTick(old(State()).countdown))
    {
      if resendDisabled {
        if countdown <= 1 {
          resendDisabled := false;
          countdown := 0;
        } else {
          countdown := countdown - 1;
        }
      }
    }

    /** `handleResendOtp`, given whether `sendOtp` succeeded. Without an
        email it only navigates to the login page. */
    method Resend(sent: bool) returns (sentTo: Option<string>, navigateTo: Option<string>)
      modifies this
      ensures !HasEmail() ==> State() == old(State()) && sentTo == None && navigateTo == Some("/login")
      ensures HasEmail() ==> sentTo == email && navigateTo == None && !loading && cells == old(cells)
      ensures HasEmail() && sent ==> State().countdown == Countdown(ResendSeconds, true) && error == ""
      ensures HasEmail() && !sent ==> State().countdown == old(State()).countdown && error == ResendFailedMessage
    {
      if !HasEmail() {
        return None, Some("/login");
      }
      loading := true;
      sentTo := email;
      navigateTo := None;
      if sent {
        resendDisabled := true;
        countdown := ResendSeconds;
        error := "";
      } else {
        error := ResendFailedMessage;
      }
      loading := false;
    }

    /** `handleSubmit`, given what `login` would do with the code. */
    method Submit(outcome: LoginOutcome) returns (effect: SubmitEffect)
      requires Valid()
      modifies this
      ensures Valid()
      ensures (error, effect) == SubmitResult(old(cells), outcome)
      ensures cells == old(cells) && State().countdown == old(State()).countdown
      ensures loading == (old(loading) && |Concat(old(cells))| != CellCount)
    {
      error := "";
      var code := Concat(cells);
      if |code| != CellCount {
        error := IncompleteMessage;
        return SubmitEffect(None, None);
      }
      loading := true;
      match outcome {
        case LoggedIn =>
          effect := SubmitEffect(Some(code), Some("/dashboard"));
        case Refused =>
          error := InvalidMessage;
          effect := SubmitEffect(Some(code), None);
        case Threw =>
          error := LoginErrorMessage;
          effect := SubmitEffect(Some(code), None);
      }
      loading := false;
    }
  }
}

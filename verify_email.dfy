/**
 * The six-slot PIN entry of `src/pages/VerifyEmailPage.jsx`: typing into
 * one slot, pasting a whole code, submitting, and the reset after a failed
 * verification.
 */
module VerifyEmail {
  import opened Wrappers
  import opened Text

  const SLOTS := 6
  const EMPTY_PIN: seq<string> := ["", "", "", "", "", ""]

  const MSG_INCOMPLETE := "Please enter all 6 digits"
  const MSG_NO_EMAIL := "Email not provided. Please register again."

  /** `/^\d$/`: exactly one digit. */
  predicate IsDigitString(v: string) { |v| == 1 && IsDigit(v[0]) }

  /** A slot holds nothing or one digit. */
  predicate SlotOk(v: string) { v == "" || IsDigitString(v) }

  predicate WellFormed(pin: seq<string>) {
    |pin| == SLOTS && forall i :: 0 <= i < |pin| ==> SlotOk(pin[i])
  }

  /** `pin.join('')`. */
  function Joined(pin: seq<string>): string
    decreases |pin|
  {
    if pin == [] then "" else pin[0] + Joined(pin[1..])
  }

  /** For a well-formed pin, the joined code has six characters exactly when every slot is filled. */
  lemma {:induction false} JoinedLength(pin: seq<string>)
    requires forall i :: 0 <= i < |pin| ==> SlotOk(pin[i])
    ensures |Joined(pin)| <= |pin|
    ensures |Joined(pin)| == |pin| <==> forall i :: 0 <= i < |pin| ==> pin[i] != ""
    ensures AllDigits(Joined(pin))
    decreases |pin|
  {
    if pin != [] {
      JoinedLength(pin[1..]);
      assert forall i :: 1 <= i < |pin| ==> pin[i] == pin[1..][i - 1];
      var j := Joined(pin[1..]);
      assert Joined(pin) == pin[0] + j;
      forall k | 0 <= k < |pin[0] + j| ensures IsDigit((pin[0] + j)[k]) {
        if k >= |pin[0]| { assert (pin[0] + j)[k] == j[k - |pin[0]|]; }
      }
    }
  }

  /** `handlePinChange`: a non-digit or multi-character value is ignored; otherwise only slot `index` changes. */
  function PinChange(pin: seq<string>, index: nat, value: string): (r: seq<string>)
    requires index < |pin|
    ensures |r| == |pin|
  {
    if value != "" && !IsDigitString(value) then pin else pin[index := value]
  }

  lemma PinChangeKeepsWellFormed(pin: seq<string>, index: nat, value: string)
    requires WellFormed(pin) && index < SLOTS
    ensures WellFormed(PinChange(pin, index, value))
    ensures value != "" && !IsDigitString(value) ==> PinChange(pin, index, value) == pin
    ensures SlotOk(value) ==> PinChange(pin, index, value)[index] == value
    ensures forall j :: 0 <= j < SLOTS && j != index ==> PinChange(pin, index, value)[j] == pin[j]
  {
  }

  /** The first six pasted characters, if they are all digits (at least one). */
  function PastedDigits(clip: string): Option<string> {
    var p := if |clip| <= SLOTS then clip else clip[..SLOTS];
    if |p| >= 1 && AllDigits(p) then Some(p) else None
  }

  /** The pin a paste produces: one digit per slot, padded with empty slots. */
  function PastedPin(clip: string): (r: Option<seq<string>>)
    ensures r.Some? ==> WellFormed(r.value)
    ensures r.None? <==> PastedDigits(clip).None?
  {
    match PastedDigits(clip)
    case None => None
    case Some(p) =>
      Some(seq(SLOTS, i requires 0 <= i < SLOTS => if i < |p| then [p[i]] else ""))
  }

  /** A paste puts its digits first, in order, and joins back to exactly them. */
  lemma PasteJoinsToDigits(clip: string)
    requires PastedDigits(clip).Some?
    ensures var p := PastedDigits(clip).value;
      |p| <= SLOTS && p == clip[..|p|] && Joined(PastedPin(clip).value) == p
  {
    var p := PastedDigits(clip).value;
    var pin := PastedPin(clip).value;
    JoinedPrefix(pin, p, 0);
  }

  lemma {:induction false} JoinedPrefix(pin: seq<string>, p: string, k: nat)
    requires |p| <= |pin| && k <= |pin|
    requires forall i :: 0 <= i < |pin| ==> pin[i] == if i < |p| then [p[i]] else ""
    ensures Joined(pin[k..]) == if k < |p| then p[k..] else ""
    decreases |pin| - k
  {
    if k < |pin| {
      JoinedPrefix(pin, p, k + 1);
      assert pin[k..][1..] == pin[k + 1..];
      if k < |p| {
        assert p[k..] == [p[k]] + p[k + 1..];
      }
    } else {
      assert pin[k..] == [];
    }
  }

  /** The input focused after a valid paste. */
  function PasteFocus(clip: string): (i: Option<int>)
    ensures i.Some? <==> PastedDigits(clip).Some?
    ensures i.Some? ==> 1 <= i.value <= 5
  {
    match PastedDigits(clip)
    case None => None
    case Some(p) => Some(if |p| < 5 then |p| else 5)
  }

  /** What a submit does: report the first problem, or call verification with the joined code. */
  datatype SubmitOutcome = Invalid(error: string) | Verify(email: string, code: string)

  function Submit(pin: seq<string>, email: string): SubmitOutcome {
    var code := Joined(pin);
    if |code| != SLOTS then Invalid(MSG_INCOMPLETE)
    else if email == "" then Invalid(MSG_NO_EMAIL)
    else Verify(email, code)
  }

  /** A well-formed pin is submitted exactly when all six slots are filled and an email is known. */
  lemma SubmitIff(pin: seq<string>, email: string)
    requires WellFormed(pin)
    ensures Submit(pin, email).Verify? <==> (forall i :: 0 <= i < SLOTS ==> pin[i] != "") && email != ""
    ensures Submit(pin, email).Verify? ==> |Submit(pin, email).code| == 6 && AllDigits(Submit(pin, email).code)
    ensures (exists i :: 0 <= i < SLOTS && pin[i] == "") ==> Submit(pin, email) == Invalid(MSG_INCOMPLETE)
  {
    JoinedLength(pin);
  }

  /** The page's pin state. */
  class PinEntry {
    var pin: seq<string>

    ghost predicate Valid()
      reads this
    {
      WellFormed(pin)
    }

    constructor ()
      ensures pin == EMPTY_PIN && Valid()
    {
      pin := EMPTY_PIN;
    }

    method HandlePinChange(index: nat, value: string)
      requires Valid() && index < SLOTS
      modifies this
      ensures Valid() && pin == PinChange(old(pin), index, value)
    {
      if value != "" && !IsDigitString(value) {
        return;
      }
      var newPin := pin;
      newPin := newPin[index := value];
      pin := newPin;
    }

    /** `handlePaste`: splits the digits into slots and pads with empty slots up to six. */
    method HandlePaste(clip: string) returns (focus: Option<int>)
      requires Valid()
      modifies this
      ensures Valid()
      ensures PastedPin(clip).Some? ==> pin == PastedPin(clip).value
      ensures PastedPin(clip).None? ==> pin == old(pin)
      ensures focus == PasteFocus(clip)
    {
      var pasted := if |clip| <= SLOTS then clip else clip[..SLOTS];
      focus := None;
      if |pasted| >= 1 && AllDigits(pasted) {
        var newPin := seq(|pasted|, i requires 0 <= i < |pasted| => [pasted[i]]);
        while |newPin| < SLOTS
          invariant |pasted| <= |newPin| <= SLOTS
          invariant forall i :: 0 <= i < |newPin| ==> newPin[i] == if i < |pasted| then [pasted[i]] else ""
        {
          newPin := newPin + [""];
        }
        pin := newPin;
        focus := Some(if |pasted| < 5 then |pasted| else 5);
      }
    }

    /** After a failed verification all six slots are emptied. */
    method OnVerifyFailed()
      modifies this
      ensures pin == EMPTY_PIN && Valid()
    {
      pin := EMPTY_PIN;
    }
  }
}

/**
 * The password strength meter of
 * `src/components/common/PasswordStrengthMeter.jsx`: a strength bar driven
 * by an external score in 0..4, and a checklist of five requirements.
 */
module StrengthMeter {
  import opened Wrappers
  import opened Text
  import ValidationSchemas
  import PasswordForms

  const LABELS := ["Very Weak", "Weak", "Fair", "Strong", "Very Strong"]

  /** One checklist line. */
  datatype Requirement = Requirement(caption: string, met: bool)

  /** The checklist; its "special character" is any character outside `[A-Za-z0-9]`. */
  function Requirements(password: string): seq<Requirement> {
    [ Requirement("At least 12 characters", |password| >= 12),
      Requirement("Contains uppercase letter", HasUpper(password)),
      Requirement("Contains lowercase letter", HasLower(password)),
      Requirement("Contains number", HasDigit(password)),
      Requirement("Contains special character", exists i :: 0 <= i < |password| && !IsAlphanumeric(password[i])) ]
  }

  /** What the meter shows for a non-empty password. */
  datatype MeterView = MeterView(strength: string, widthPercent: int, requirements: seq<Requirement>, showSuggestions: bool)

  /**
   * The component: nothing for an empty password; otherwise the label and
   * width for the score, the checklist, and the suggestions box when the
   * score is below 3 and there is at least one suggestion.
   */
  function Render(password: string, score: int, suggestionCount: nat): Option<MeterView>
    requires 0 <= score <= 4
  {
    if password == "" then None
    else Some(MeterView(LABELS[score], (score + 1) * 100 / 5, Requirements(password), suggestionCount > 0 && score < 3))
  }

  /** The bar grows by a fifth per score step, up to full width, and each step changes the label. */
  lemma WidthGrowsWithScore(password: string, score: int, suggestionCount: nat)
    requires password != "" && 0 <= score < 4
    ensures Render(password, score + 1, suggestionCount).value.widthPercent
      == Render(password, score, suggestionCount).value.widthPercent + 20
    ensures Render(password, score + 1, suggestionCount).value.strength
      != Render(password, score, suggestionCount).value.strength
    ensures Render(password, 4, suggestionCount).value.widthPercent == 100
  {
  }

  /**
   * The checklist and the forms disagree on what is special: `~` ticks the
   * meter's special-character line, yet the forms reject a password whose
   * only symbol it is.
   */
  lemma AlphanumericIsNotSpecial(c: char)
    requires IsAlphanumeric(c) || c == '~'
    ensures !ValidationSchemas.InClass(ValidationSchemas.Special, c)
  {
    var set_ := ValidationSchemas.SPECIAL_CHARS;
    forall i | 0 <= i < |set_| ensures set_[i] != c {
      assert !IsAlphanumeric(set_[i]) && set_[i] != '~';
    }
  }

  /**
   * The checklist follows the forms' rules: its first four lines are ticked
   * exactly when the password passes the forms' length (12), upper-case,
   * lower-case and digit rules, and a password that passes all the forms'
   * rules ticks every line, because every special character of the forms
   * lies outside `[A-Za-z0-9]`.
   */
  lemma ChecklistFollowsFormRules(password: string)
    ensures |Requirements(password)| == 5
    ensures (forall k :: 0 <= k < 4 ==> Requirements(password)[k].met) <==>
      && |password| >= 12
      && ValidationSchemas.Has(password, ValidationSchemas.UpperLetter)
      && ValidationSchemas.Has(password, ValidationSchemas.LowerLetter)
      && ValidationSchemas.Has(password, ValidationSchemas.Digit)
    ensures ValidationSchemas.Has(password, ValidationSchemas.Special) ==> Requirements(password)[4].met
    ensures PasswordForms.StrongEnough(password, 12) ==>
      forall k :: 0 <= k < |Requirements(password)| ==> Requirements(password)[k].met
  {
    var rs := Requirements(password);
    assert rs[0].met && rs[1].met && rs[2].met && rs[3].met ==> forall k :: 0 <= k < 4 ==> rs[k].met;
    if ValidationSchemas.Has(password, ValidationSchemas.Special) {
      var i :| 0 <= i < |password| && ValidationSchemas.InClass(ValidationSchemas.Special, password[i]);
      if IsAlphanumeric(password[i]) {
        AlphanumericIsNotSpecial(password[i]);
      }
    }
  }

  lemma TildeCountsOnlyForTheMeter()
    ensures Requirements("Abcdefghijk1~")[4].met
    ensures PasswordForms.ChangePasswordSubmit("old", "Abcdefghijk1~", "Abcdefghijk1~")
      == PasswordForms.Rejected(PasswordForms.MSG_SPECIAL)
  {
    var p := "Abcdefghijk1~";
    assert !IsAlphanumeric(p[12]);
    assert ValidationSchemas.InClass(ValidationSchemas.UpperLetter, p[0]);
    assert ValidationSchemas.InClass(ValidationSchemas.LowerLetter, p[1]);
    assert ValidationSchemas.InClass(ValidationSchemas.Digit, p[11]);
    assert !ValidationSchemas.Has(p, ValidationSchemas.Special) by {
      forall i | 0 <= i < |p| ensures !ValidationSchemas.InClass(ValidationSchemas.Special, p[i]) {
        AlphanumericIsNotSpecial(p[i]);
      }
    }
  }
}

/**
 * The pure logic of the security settings page
 * (`src/pages/user/SecuritySettingsPage.jsx`): the one-time-code input
 * filter, the dispatch of the password dialog, the backup-code count line
 * and the text of the backup-code download.
 */
module SecuritySettings {
  import opened Wrappers
  import opened Text

  const TOTP_LENGTH := 6

  /** `replace(/\D/g, '')`: every character that is not an ASCII digit is dropped. */
  function DigitsOnly(s: string): (r: string)
    ensures AllDigits(r) && |r| <= |s|
  {
    if s == "" then "" else (if IsDigit(s[0]) then [s[0]] else "") + DigitsOnly(s[1..])
  }

  /** The one-time-code input: the digits typed, in order, cut to the first six. */
  function TotpInput(v: string): (r: string)
    ensures |r| <= TOTP_LENGTH && AllDigits(r)
  {
    var d := DigitsOnly(v);
    if |d| <= TOTP_LENGTH then d else d[..TOTP_LENGTH]
  }

  /** The filter works piece by piece: filtering a concatenation concatenates the filtered pieces. */
  lemma {:induction false} DigitsOnlyAppend(a: string, b: string)
    ensures DigitsOnly(a + b) == DigitsOnly(a) + DigitsOnly(b)
  {
    if a == "" {
      assert a + b == b;
    } else {
      assert (a + b)[1..] == a[1..] + b;
      DigitsOnlyAppend(a[1..], b);
    }
  }

  /** A digit is kept and anything else dropped, which with `DigitsOnlyAppend` fixes the filter. */
  lemma DigitsOnlySingle(c: char)
    ensures DigitsOnly([c]) == if IsDigit(c) then [c] else ""
  {
    assert [c][1..] == "";
  }

  /** A string of digits passes the filter unchanged. */
  lemma {:induction false} DigitsOnlyKeepsDigits(s: string)
    requires AllDigits(s)
    ensures DigitsOnly(s) == s
  {
    if s != "" {
      DigitsOnlyKeepsDigits(s[1..]);
      assert s == [s[0]] + s[1..];
    }
  }

  /** Filtering what the input already shows changes nothing. */
  lemma TotpInputIdempotent(v: string)
    ensures TotpInput(TotpInput(v)) == TotpInput(v)
  {
    DigitsOnlyKeepsDigits(TotpInput(v));
  }

  /** The input shows a prefix of the typed digits: all of them when there are at most six. */
  lemma TotpInputIsDigitPrefix(v: string)
    ensures |TotpInput(v)| == (if |DigitsOnly(v)| <= TOTP_LENGTH then |DigitsOnly(v)| else TOTP_LENGTH)
    ensures TotpInput(v) == DigitsOnly(v)[..|TotpInput(v)|]
  {
  }

  // ---------------------------------------------------------------- the password dialog

  datatype Dispatch = DisableTotp | RegenerateCodes | DoNothing

  /** `handlePasswordSubmit`: the remembered action picks the request the password goes with. */
  function PasswordSubmit(passwordAction: Option<string>): Dispatch {
    if passwordAction == Some("disable-totp") then DisableTotp
    else if passwordAction == Some("regenerate-codes") then RegenerateCodes
    else DoNothing
  }

  lemma PasswordSubmitIff(passwordAction: Option<string>)
    ensures PasswordSubmit(passwordAction) == DisableTotp <==> passwordAction == Some("disable-totp")
    ensures PasswordSubmit(passwordAction) == RegenerateCodes <==> passwordAction == Some("regenerate-codes")
    ensures PasswordSubmit(passwordAction) == DoNothing <==>
      passwordAction !in {Some("disable-totp"), Some("regenerate-codes")}
  {
    assert "disable-totp"[0] != "regenerate-codes"[0];
  }

  // ---------------------------------------------------------------- backup codes

  const LOW_THRESHOLD := 3

  /** The "Low" badge. */
  predicate ShowsLowBadge(backupCodesCount: int) { backupCodesCount < LOW_THRESHOLD }

  /** The plural ending of "backup code". */
  function Plural(backupCodesCount: int): string { if backupCodesCount != 1 then "s" else "" }

  function DigitChar(d: nat): char
    requires d < 10
  {
    "0123456789"[d]
  }

  /** Decimal text of a count. */
  function Decimal(n: nat): (r: string)
    ensures |r| >= 1 && AllDigits(r)
  {
    if n < 10 then [DigitChar(n)] else Decimal(n / 10) + [DigitChar(n % 10)]
  }

  /** "N backup code(s) remaining". */
  function CountLine(backupCodesCount: nat): string {
    Decimal(backupCodesCount) + " backup code" + Plural(backupCodesCount) + " remaining"
  }

  /** The line says "codes" exactly when the count is not one, and the badge shows below three. */
  lemma CountLineWording(n: nat)
    ensures CountLine(n) == Decimal(n) + (if n == 1 then " backup code remaining" else " backup codes remaining")
    ensures ShowsLowBadge(n) <==> n in {0, 1, 2}
    ensures n == 1 ==> CountLine(n) == "1 backup code remaining"
  {
    if n == 1 {
      assert Decimal(1) == "1";
    }
  }

  const DOWNLOAD_HEADER := "Shopping Platform - Backup Codes\n\n"
  const DOWNLOAD_FOOTER := "\n\nKeep these codes in a safe place. Each code can only be used once."

  /** The downloaded file: a header, one code per line, a footer. */
  function DownloadContent(codes: seq<string>): string {
    DOWNLOAD_HEADER + Join(codes, "\n") + DOWNLOAD_FOOTER
  }

  /**
   * The file gives the codes back: between the header and the footer, the
   * lines are exactly the codes, in order, as long as no code holds a line
   * break.
   */
  lemma DownloadRecoversCodes(codes: seq<string>)
    requires |codes| >= 1
    requires forall k, i :: 0 <= k < |codes| && 0 <= i < |codes[k]| ==> codes[k][i] != '\n'
    ensures var c := DownloadContent(codes);
      && StartsWith(c, DOWNLOAD_HEADER)
      && |c| >= |DOWNLOAD_HEADER| + |DOWNLOAD_FOOTER|
      && c[|c| - |DOWNLOAD_FOOTER|..] == DOWNLOAD_FOOTER
      && Split(c[|DOWNLOAD_HEADER|..|c| - |DOWNLOAD_FOOTER|], '\n') == codes
  {
    var body := Join(codes, "\n");
    var c := DownloadContent(codes);
    assert c[..|DOWNLOAD_HEADER|] == DOWNLOAD_HEADER;
    assert c[|DOWNLOAD_HEADER|..|c| - |DOWNLOAD_FOOTER|] == body;
    assert "\n" == ['\n'];
    SplitJoin(codes, '\n');
  }
}

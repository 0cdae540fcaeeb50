/**
 * The part of `sendRequest` that the reconciliation engine depends on:
 * a response whose status is not in 200..299 is turned into an error
 * whose message is "Response status: " followed by the status in decimal.
 */
module Http {
  import opened Wrappers

  /** `response.ok` of the fetch API. */
  predicate IsOk(status: nat) {
    200 <= status <= 299
  }

  /** The OK statuses are exactly the 2xx class. */
  lemma OkIsSuccessClass(status: nat)
    ensures IsOk(status) <==> status / 100 == 2
  {
  }

  const StatusPrefix := "Response status: "

  predicate IsDigits(s: string) {
    forall i :: 0 <= i < |s| ==> '0' <= s[i] <= '9'
  }

  function DigitChar(d: nat): (c: char)
    requires d < 10
    ensures '0' <= c <= '9' && c as int - '0' as int == d
  {
    ('0' as int + d) as char
  }

  /** The decimal text of a number, as JavaScript's template literal writes it. */
  function NatToDecimal(n: nat): (s: string)
    ensures |s| > 0 && IsDigits(s)
    ensures s[0] != '0' || n == 0
    decreases n
  {
    if n < 10 then [DigitChar(n)] else NatToDecimal(n / 10) + [DigitChar(n % 10)]
  }

  /** Reads a string of decimal digits back as a number. */
  function DecimalToNat(s: string): nat
    requires IsDigits(s)
    decreases |s|
  {
    if s == [] then 0
    else DecimalToNat(s[..|s| - 1]) * 10 + (s[|s| - 1] as int - '0' as int)
  }

  lemma {:induction false} DecimalRoundTrip(n: nat)
    ensures DecimalToNat(NatToDecimal(n)) == n
    decreases n
  {
    var s := NatToDecimal(n);
    if n >= 10 {
      assert s[..|s| - 1] == NatToDecimal(n / 10);
      DecimalRoundTrip(n / 10);
    } else {
      assert s[..|s| - 1] == [];
    }
  }

  /** The message of the error thrown for a non-OK response. */
  function StatusMessage(status: nat): (m: string)
    ensures |m| > |StatusPrefix| && m[..|StatusPrefix|] == StatusPrefix
    ensures IsDigits(m[|StatusPrefix|..])
  {
    StatusPrefix + NatToDecimal(status)
  }

  /** Recovers the status from an error message, if the message is one of StatusMessage's. */
  function ParseStatusMessage(m: string): Option<nat> {
    if |m| > |StatusPrefix| && m[..|StatusPrefix|] == StatusPrefix && IsDigits(m[|StatusPrefix|..])
    then Some(DecimalToNat(m[|StatusPrefix|..]))
    else None
  }

  /** The status can be read back from the message, so distinct statuses give distinct messages. */
  lemma StatusMessageRoundTrip(status: nat)
    ensures ParseStatusMessage(StatusMessage(status)) == Some(status)
  {
    var m := StatusMessage(status);
    assert m[..|StatusPrefix|] == StatusPrefix;
    assert m[|StatusPrefix|..] == NatToDecimal(status);
    DecimalRoundTrip(status);
  }

  lemma StatusMessageInjective(s1: nat, s2: nat)
    ensures StatusMessage(s1) == StatusMessage(s2) <==> s1 == s2
  {
    StatusMessageRoundTrip(s1);
    StatusMessageRoundTrip(s2);
  }
}

/**
 * The bot's replies, reduced to tags with the values their templates
 * substitute. Only the zero padding of minutes is spelled out as text.
 */
module Replies {
  import opened CommandParser

  datatype Reply =
    | Welcome
    | TimeSet(hours: nat, minutes: string)
    | TimeFormatError
    | WakeupRecorded(userName: string)
    | AlreadyReported
    | NoTimeSet
    | GoodSleepAccepted(userName: string)
    | GoodSleepPastDeadline
    | GoodSleepWeeklyLimit
    | GoodSleepCancelled(userName: string)
    | GoodSleepNotUsed
    | RecordStatus(streak: int, best: int)
    | GroupOnly
    | UserSettings(userName: string, hours: nat, minutes: string)
    | HelpText
    | UnknownCommand
    | NoReply

  function DigitChar(d: nat): (c: char)
    requires d < 10
    ensures IsDigit(c) && c as int - '0' as int == d
  {
    ('0' as int + d) as char
  }

  /** A number as JavaScript renders it in a template: decimal, no leading zeros. */
  function NatToDecimal(n: nat): string
    decreases n
  {
    if n < 10 then [DigitChar(n)] else NatToDecimal(n / 10) + [DigitChar(n % 10)]
  }

  /** Rendering a number and reading it back with parseInt gives the number. */
  lemma {:induction false} DecimalRoundTrip(n: nat)
    ensures AllDigits(NatToDecimal(n)) && DigitsValue(NatToDecimal(n)) == n
    ensures n < 10 ==> |NatToDecimal(n)| == 1
    ensures 10 <= n < 100 ==> |NatToDecimal(n)| == 2
    decreases n
  {
    if n >= 10 {
      DecimalRoundTrip(n / 10);
      var s := NatToDecimal(n);
      assert s[..|s| - 1] == NatToDecimal(n / 10);
    }
  }

  /** Minutes below ten get a leading zero ("7" becomes "07"). */
  function PadMinutes(m: nat): (s: string)
    ensures m < 100 ==> |s| == 2 && AllDigits(s) && DigitsValue(s) == m
  {
    DecimalRoundTrip(m);
    if m < 10 then
      var s := "0" + NatToDecimal(m);
      assert s[..1] == "0";
      s
    else NatToDecimal(m)
  }
}

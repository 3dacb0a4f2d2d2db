/**
 * Classification of an incoming text message into exactly one intent.
 *
 * The checks run in a fixed priority order: first the wake-up-time pattern
 * (1-2 digits, ':' or '時', 0-2 digits, then "に起きる", found anywhere in the
 * text), then a wake keyword found as a substring, then exact matches against
 * the keyword lists for good-sleep, cancel, record, settings and help.
 */
module CommandParser {
  import opened Wrappers

  /** What a text message asks for. Hours and minutes are the raw parsed digits. */
  datatype Intent =
    | SetWakeupTime(hours: nat, minutes: nat)
    | WakeupReport
    | GoodSleep
    | GoodSleepCancel
    | RecordCheck
    | SettingsCheck
    | Help
    | Unknown

  const WakeKeywords: seq<string> := ["起きた", "起床", "おはよう", "朝"]
  const GoodSleepKeywords: seq<string> := ["ぐっすり", "明日パス", "明日休み"]
  const GoodSleepCancelKeywords: seq<string> := ["ぐっすり取消", "ぐっすり取り消し", "ぐっすりキャンセル"]
  const RecordKeywords: seq<string> := ["記録確認", "記録"]
  const SettingsKeywords: seq<string> := ["設定確認", "設定"]
  const HelpKeywords: seq<string> := ["使い方", "ヘルプ", "help"]

  /** The literal that ends the wake-up-time pattern. */
  const Suffix: string := "に起きる"

  // ---------------------------------------------------------------------
  // Decimal digits
  // ---------------------------------------------------------------------

  /** An ASCII decimal digit (what `\d` matches in a non-Unicode regex). */
  predicate IsDigit(c: char) {
    '0' <= c <= '9'
  }

  predicate AllDigits(s: string) {
    forall k :: 0 <= k < |s| ==> IsDigit(s[k])
  }

  function Pow10(k: nat): (p: nat)
    ensures p >= 1
  {
    if k == 0 then 1 else 10 * Pow10(k - 1)
  }

  /** The base-10 value of a digit string, as parseInt(s, 10) reads it; "" reads as 0. */
  function DigitsValue(s: string): (n: nat)
    requires AllDigits(s)
    ensures n < Pow10(|s|)
  {
    if |s| == 0 then 0
    else 10 * DigitsValue(s[..|s| - 1]) + (s[|s| - 1] as int - '0' as int)
  }

  // ---------------------------------------------------------------------
  // The wake-up-time pattern: declarative description
  // ---------------------------------------------------------------------

  /** The separator between hours and minutes: ':' or '時'. */
  predicate IsSeparator(c: char) {
    c == ':' || c == '時'
  }

  /**
   * The pattern matches at position `i` with hour digits `hd` and minute
   * digits `md`: text[i..] begins with hd, a separator, md and the suffix.
   */
  ghost predicate PatternAt(text: string, i: int, hd: string, md: string) {
    && 0 <= i
    && 1 <= |hd| <= 2 && AllDigits(hd)
    && |md| <= 2 && AllDigits(md)
    && i + |hd| + 1 + |md| + |Suffix| <= |text|
    && IsSeparator(text[i + |hd|])
    && text[i .. i + |hd| + 1 + |md| + |Suffix|] == hd + [text[i + |hd|]] + md + Suffix
  }

  ghost predicate AnyMatchAt(text: string, i: int) {
    exists hd, md :: PatternAt(text, i, hd, md)
  }

  /** The pattern matches at `i` and its groups read as hours `h` and minutes `m`. */
  ghost predicate MatchesAt(text: string, i: int, h: nat, m: nat) {
    exists hd, md :: PatternAt(text, i, hd, md) && DigitsValue(hd) == h && DigitsValue(md) == m
  }

  /** `i` is the first position at or after `from` where the pattern matches. */
  ghost predicate LeftmostFrom(text: string, from: int, i: int, h: nat, m: nat) {
    from <= i && MatchesAt(text, i, h, m) && forall j :: from <= j < i ==> !AnyMatchAt(text, j)
  }

  ghost predicate NoPattern(text: string) {
    forall i :: !AnyMatchAt(text, i)
  }

  /** The number of consecutive digits starting at position `p`. */
  function DigitRun(text: string, p: nat): nat
    decreases |text| - p
  {
    if p < |text| && IsDigit(text[p]) then 1 + DigitRun(text, p + 1) else 0
  }

  /** Exactly `k` digits followed by a non-digit make a digit run of length `k`. */
  lemma {:induction false} DigitRunExact(text: string, p: nat, k: nat)
    requires p + k < |text| && AllDigits(text[p .. p + k]) && !IsDigit(text[p + k])
    ensures DigitRun(text, p) == k
    decreases k
  {
    if k > 0 {
      assert text[p] == text[p .. p + k][0];
      assert text[p + 1 .. p + k] == text[p .. p + k][1..];
      DigitRunExact(text, p + 1, k - 1);
    }
  }

  /** Minute digits followed by the suffix form a digit run of exactly that length. */
  lemma MinutesRun(text: string, p: nat, k: nat)
    ensures MinutesAndSuffix(text, p, k) ==> DigitRun(text, p) == k
  {
    if MinutesAndSuffix(text, p, k) {
      assert text[p + k] == text[p + k .. p + k + |Suffix|][0];
      DigitRunExact(text, p, k);
    }
  }

  /** At a given position the pattern can match in at most one way. */
  lemma PatternUnique(text: string, i: nat, hd: string, md: string, hd': string, md': string)
    requires PatternAt(text, i, hd, md) && PatternAt(text, i, hd', md')
    ensures hd == hd' && md == md'
  {
    // Both hour groups are the whole digit run at i, as a separator is no digit.
    ChecksFromPattern(text, i, hd, md);
    ChecksFromPattern(text, i, hd', md');
    DigitRunExact(text, i, |hd|);
    DigitRunExact(text, i, |hd'|);
    // Both minute groups are the whole digit run after the separator.
    var p := i + |hd| + 1;
    MinutesRun(text, p, |md|);
    MinutesRun(text, p, |md'|);
  }

  /** The leftmost match, and the values it reads, are unique. */
  lemma LeftmostUnique(text: string, from: int, i: int, h: nat, m: nat, i': int, h': nat, m': nat)
    requires LeftmostFrom(text, from, i, h, m) && LeftmostFrom(text, from, i', h', m')
    ensures i == i' && h == h' && m == m'
  {
    var hd, md :| PatternAt(text, i, hd, md) && DigitsValue(hd) == h && DigitsValue(md) == m;
    var hd', md' :| PatternAt(text, i', hd', md') && DigitsValue(hd') == h' && DigitsValue(md') == m';
    if i < i' {
      assert AnyMatchAt(text, i);
      assert false;
    } else if i' < i {
      assert AnyMatchAt(text, i');
      assert false;
    }
    PatternUnique(text, i, hd, md, hd', md');
  }

  // ---------------------------------------------------------------------
  // The wake-up-time pattern: the backtracking matcher at one position
  // ---------------------------------------------------------------------

  /** From position `p`: exactly `k` digits, then the suffix. */
  predicate MinutesAndSuffix(text: string, p: nat, k: nat) {
    p + k + |Suffix| <= |text| && AllDigits(text[p .. p + k]) && text[p + k .. p + k + |Suffix|] == Suffix
  }

  /**
   * With the hour digits text[i..e] chosen: a separator at `e`, then the
   * minute digits, tried greedily with two, one and no digits. An empty
   * minute group reads as 0.
   */
  function MatchAfterHours(text: string, i: nat, e: nat): Option<(nat, nat)>
    requires i < e <= |text| && AllDigits(text[i..e])
  {
    if e < |text| && IsSeparator(text[e]) then
      var h := DigitsValue(text[i..e]);
      var p := e + 1;
      if MinutesAndSuffix(text, p, 2) then Some((h, DigitsValue(text[p .. p + 2])))
      else if MinutesAndSuffix(text, p, 1) then Some((h, DigitsValue(text[p .. p + 1])))
      else if MinutesAndSuffix(text, p, 0) then Some((h, 0))
      else None
    else None
  }

  /** The pattern tried at position `i`: two hour digits first, then one. */
  function MatchAt(text: string, i: nat): Option<(nat, nat)> {
    if i < |text| && IsDigit(text[i]) then
      var two := if i + 1 < |text| && IsDigit(text[i + 1]) then MatchAfterHours(text, i, i + 2) else None;
      if two.Some? then two else MatchAfterHours(text, i, i + 1)
    else None
  }

  /** The concrete checks at hour end `e` and minute length `k` make a declarative match. */
  lemma PatternFromChecks(text: string, i: nat, e: nat, k: nat)
    requires i < e <= i + 2 && e < |text| && AllDigits(text[i..e]) && IsSeparator(text[e])
    requires k <= 2 && MinutesAndSuffix(text, e + 1, k)
    ensures PatternAt(text, i, text[i..e], text[e + 1 .. e + 1 + k])
  {
    var n := e + 1 + k + |Suffix|;
    assert text[i..n] == text[i..e] + [text[e]] + text[e + 1 .. e + 1 + k] + text[e + 1 + k .. n];
  }

  /** A declarative match yields the concrete checks the matcher performs. */
  lemma ChecksFromPattern(text: string, i: nat, hd: string, md: string)
    requires PatternAt(text, i, hd, md)
    ensures var e := i + |hd|;
      && e < |text| && text[i..e] == hd && IsSeparator(text[e])
      && MinutesAndSuffix(text, e + 1, |md|) && text[e + 1 .. e + 1 + |md|] == md
  {
    var e := i + |hd|;
    var n := e + 1 + |md| + |Suffix|;
    var head := hd + [text[e]];
    var s := text[i..n];
    assert s == head + md + Suffix;
    assert s[..|hd|] == hd by { assert s[..|hd|] == head[..|hd|]; }
    assert s[|head| .. |head| + |md|] == md;
    assert s[|head| + |md| ..] == Suffix;
    assert text[i..e] == s[..|hd|];
    assert text[e + 1 .. e + 1 + |md|] == s[|head| .. |head| + |md|];
    assert text[e + 1 + |md| .. n] == s[|head| + |md| ..];
  }

  /** The matcher succeeds exactly where the pattern matches, reading its groups. */
  lemma MatchAtCorrect(text: string, i: nat)
    ensures MatchAt(text, i).Some? ==> MatchesAt(text, i, MatchAt(text, i).value.0, MatchAt(text, i).value.1)
    ensures MatchAt(text, i).None? ==> !AnyMatchAt(text, i)
  {
    var r := MatchAt(text, i);
    if r.Some? {
      var e := if i + 1 < |text| && IsDigit(text[i + 1]) && MatchAfterHours(text, i, i + 2).Some? then i + 2 else i + 1;
      assert r == MatchAfterHours(text, i, e);
      var k := if MinutesAndSuffix(text, e + 1, 2) then 2 else if MinutesAndSuffix(text, e + 1, 1) then 1 else 0;
      PatternFromChecks(text, i, e, k);
      assert DigitsValue(text[e + 1 .. e + 1 + k]) == r.value.1;
    } else if AnyMatchAt(text, i) {
      var hd, md :| PatternAt(text, i, hd, md);
      MatchAtComplete(text, i, hd, md);
      assert false;
    }
  }

  /** Wherever the pattern matches, the matcher returns the values of its groups. */
  lemma MatchAtComplete(text: string, i: nat, hd: string, md: string)
    requires PatternAt(text, i, hd, md)
    ensures MatchAt(text, i) == Some((DigitsValue(hd), DigitsValue(md)))
  {
    ChecksFromPattern(text, i, hd, md);
    var e := i + |hd|;
    assert IsDigit(text[i]) by { assert text[i] == hd[0]; }
    if |hd| == 2 {
      assert IsDigit(text[i + 1]) by { assert text[i + 1] == hd[1]; }
    } else {
      assert !IsDigit(text[i + 1]);
    }
    // Only the minute length of md passes the check, as the digit run after the separator is |md| long.
    MinutesRun(text, e + 1, 0);
    MinutesRun(text, e + 1, 1);
    MinutesRun(text, e + 1, 2);
    MinutesRun(text, e + 1, |md|);
  }

  // ---------------------------------------------------------------------
  // Leftmost search over start positions (String.prototype.match without /g)
  // ---------------------------------------------------------------------

  /** The first match at or after `from`, with the values of its groups. */
  function FindFrom(text: string, from: nat): (r: Option<(nat, nat)>)
    requires from <= |text|
    ensures r.Some? ==> exists i :: LeftmostFrom(text, from, i, r.value.0, r.value.1)
    ensures r.None? ==> forall j :: from <= j ==> !AnyMatchAt(text, j)
    decreases |text| - from
  {
    MatchAtCorrect(text, from);
    var here := MatchAt(text, from);
    if here.Some? then
      assert LeftmostFrom(text, from, from, here.value.0, here.value.1);
      here
    else if from == |text| then
      assert forall j :: from < j ==> !AnyMatchAt(text, j);
      None
    else
      var r := FindFrom(text, from + 1);
      assert r.Some? ==> exists i :: LeftmostFrom(text, from, i, r.value.0, r.value.1) by {
        if r.Some? {
          var i :| LeftmostFrom(text, from + 1, i, r.value.0, r.value.1);
          assert LeftmostFrom(text, from, i, r.value.0, r.value.1);
        }
      }
      r
  }

  /** At most two digits each, so both groups read as numbers below 100. */
  lemma MatchValuesBelow100(text: string, i: int, h: nat, m: nat)
    requires MatchesAt(text, i, h, m)
    ensures h < 100 && m < 100
  {
    var hd, md :| PatternAt(text, i, hd, md) && DigitsValue(hd) == h && DigitsValue(md) == m;
    assert Pow10(2) == 100;
    assert Pow10(|hd|) <= 100 && Pow10(|md|) <= 100;
  }

  /** The leftmost match in the whole text. */
  function FindTimeSetting(text: string): (r: Option<(nat, nat)>)
    ensures r.Some? ==> exists i :: LeftmostFrom(text, 0, i, r.value.0, r.value.1)
    ensures r.None? <==> NoPattern(text)
    ensures r.Some? ==> r.value.0 < 100 && r.value.1 < 100
  {
    var r := FindFrom(text, 0);
    if r.Some? then
      assert !NoPattern(text) && r.value.0 < 100 && r.value.1 < 100 by {
        var i :| LeftmostFrom(text, 0, i, r.value.0, r.value.1);
        assert AnyMatchAt(text, i);
        MatchValuesBelow100(text, i, r.value.0, r.value.1);
      }
      r
    else r
  }

  // ---------------------------------------------------------------------
  // Keywords
  // ---------------------------------------------------------------------

  /** `k` occurs in `text` starting at position `i`. */
  ghost predicate OccursAt(text: string, k: string, i: int) {
    0 <= i && i + |k| <= |text| && text[i .. i + |k|] == k
  }

  /** Substring search, as String.prototype.includes. */
  function Contains(text: string, k: string): bool
    decreases |text|
  {
    if k <= text then true
    else if text == [] then false
    else Contains(text[1..], k)
  }

  lemma {:induction false} ContainsIff(text: string, k: string)
    ensures Contains(text, k) <==> exists i :: OccursAt(text, k, i)
    decreases |text|
  {
    if k <= text {
      assert text[0..|k|] == k;
      assert OccursAt(text, k, 0);
    } else if text == [] {
    } else {
      ContainsIff(text[1..], k);
      OccurrenceShifts(text, k);
    }
  }

  /** Past a first character that does not start `k`, the occurrences of `k` are those of the rest, shifted by one. */
  lemma OccurrenceShifts(text: string, k: string)
    requires text != [] && !(k <= text)
    ensures (exists i :: OccursAt(text, k, i)) <==> exists i :: OccursAt(text[1..], k, i)
  {
    forall i | OccursAt(text, k, i)
      ensures OccursAt(text[1..], k, i - 1)
    {
      assert text[1..][i - 1 .. i - 1 + |k|] == text[i .. i + |k|];
    }
    forall i | OccursAt(text[1..], k, i)
      ensures OccursAt(text, k, i + 1)
    {
      assert text[1..][i .. i + |k|] == text[i + 1 .. i + 1 + |k|];
    }
  }

  /** Some wake keyword occurs somewhere in the text. */
  ghost predicate MentionsWakeKeyword(text: string) {
    exists j, i :: 0 <= j < |WakeKeywords| && OccursAt(text, WakeKeywords[j], i)
  }

  /** isWakeupReport: some wake keyword is contained in the text. */
  predicate IsWakeupReport(text: string) {
    exists j | 0 <= j < |WakeKeywords| :: Contains(text, WakeKeywords[j])
  }

  lemma WakeupReportIff(text: string)
    ensures IsWakeupReport(text) <==> MentionsWakeKeyword(text)
  {
    forall j | 0 <= j < |WakeKeywords|
      ensures Contains(text, WakeKeywords[j]) <==> exists i :: OccursAt(text, WakeKeywords[j], i)
    {
      ContainsIff(text, WakeKeywords[j]);
    }
  }

  // ---------------------------------------------------------------------
  // The classifier
  // ---------------------------------------------------------------------

  /**
   * The intent of a message. A pattern match always wins, even over a wake
   * keyword; a wake keyword anywhere wins over the exact-match lists.
   */
  function Classify(text: string): (r: Intent)
    ensures r.SetWakeupTime? <==> !NoPattern(text)
    ensures r.SetWakeupTime? ==> exists i :: LeftmostFrom(text, 0, i, r.hours, r.minutes)
    ensures r.SetWakeupTime? ==> r.hours < 100 && r.minutes < 100
    ensures r == WakeupReport <==> NoPattern(text) && MentionsWakeKeyword(text)
    ensures r == GoodSleep <==>
      NoPattern(text) && !MentionsWakeKeyword(text) && text in GoodSleepKeywords
    ensures r == GoodSleepCancel <==>
      NoPattern(text) && !MentionsWakeKeyword(text) && text !in GoodSleepKeywords
      && text in GoodSleepCancelKeywords
    ensures r == RecordCheck <==>
      NoPattern(text) && !MentionsWakeKeyword(text) && text !in GoodSleepKeywords
      && text !in GoodSleepCancelKeywords && text in RecordKeywords
    ensures r == SettingsCheck <==>
      NoPattern(text) && !MentionsWakeKeyword(text) && text !in GoodSleepKeywords
      && text !in GoodSleepCancelKeywords && text !in RecordKeywords && text in SettingsKeywords
    ensures r == Help <==>
      NoPattern(text) && !MentionsWakeKeyword(text) && text !in GoodSleepKeywords
      && text !in GoodSleepCancelKeywords && text !in RecordKeywords && text !in SettingsKeywords
      && text in HelpKeywords
    ensures r == Unknown <==>
      NoPattern(text) && !MentionsWakeKeyword(text) && text !in GoodSleepKeywords
      && text !in GoodSleepCancelKeywords && text !in RecordKeywords && text !in SettingsKeywords
      && text !in HelpKeywords
  {
    WakeupReportIff(text);
    var found := FindTimeSetting(text);
    if found.Some? then SetWakeupTime(found.value.0, found.value.1)
    else if IsWakeupReport(text) then WakeupReport
    else if text in GoodSleepKeywords then GoodSleep
    else if text in GoodSleepCancelKeywords then GoodSleepCancel
    else if text in RecordKeywords then RecordCheck
    else if text in SettingsKeywords then SettingsCheck
    else if text in HelpKeywords then Help
    else Unknown
  }

  /** Where the pattern matches at the very start, those values are the intent. */
  lemma ClassifyMatchAtStart(text: string, hd: string, md: string)
    requires PatternAt(text, 0, hd, md)
    ensures Classify(text) == SetWakeupTime(DigitsValue(hd), DigitsValue(md))
  {
    var r := Classify(text);
    assert AnyMatchAt(text, 0);
    var i :| LeftmostFrom(text, 0, i, r.hours, r.minutes);
    assert LeftmostFrom(text, 0, 0, DigitsValue(hd), DigitsValue(md));
    LeftmostUnique(text, 0, i, r.hours, r.minutes, 0, DigitsValue(hd), DigitsValue(md));
  }
}

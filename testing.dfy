/**
 * The testing page: its list is a `Boards.Board`; this module adds the
 * status labels, the duration format and the per-status actions.
 */
module Testing {
  import opened Wrappers
  import opened Text
  import opened Boards

  predicate KnownStatus(status: string) {
    status in ["completed", "active", "upcoming", "missed"]
  }

  /** `getStatusText` */
  function StatusText(status: string): (r: string)
    ensures r == "Неизвестно" <==> !KnownStatus(status)
  {
    match status
    case "completed" => "Завершен"
    case "active" => "Активен"
    case "upcoming" => "Предстоящий"
    case "missed" => "Пропущен"
    case _ => "Неизвестно"
  }

  /** Different known statuses get different labels. */
  lemma StatusTextInjective(a: string, b: string)
    requires KnownStatus(a) && KnownStatus(b) && StatusText(a) == StatusText(b)
    ensures a == b
  {
  }

  const Unlimited: string := "Без ограничений"

  /** `formatDuration`: "Без ограничений" for 0, "<h>ч <m>м" from an hour on, "<m> минут" below that. */
  function FormatDuration(minutes: nat): (r: string)
    ensures r == Unlimited <==> minutes == 0
  {
    if minutes == 0 then Unlimited
    else
      var hours := minutes / 60;
      var mins := minutes % 60;
      if hours > 0 then
        var r := NatToString(hours) + "ч " + NatToString(mins) + "м";
        assert r[0] == NatToString(hours)[0] && IsDigit(r[0]) && !IsDigit(Unlimited[0]);
        r
      else
        var r := NatToString(mins) + " минут";
        assert r[0] == NatToString(mins)[0] && IsDigit(r[0]) && !IsDigit(Unlimited[0]);
        r
  }

  /** Reads a formatted duration back as a number of minutes. */
  function ParseDuration(s: string): Option<nat> {
    if s == Unlimited then Some(0)
    else
      var n := DigitRun(s);
      if n == 0 then None
      else
        var value := DecimalValue(s[..n]);
        var rest := s[n..];
        if rest == " минут" then Some(value)
        else if |rest| >= 2 && rest[..2] == "ч " then
          var t := rest[2..];
          var k := DigitRun(t);
          if k > 0 && t[k..] == "м" then Some(value * 60 + DecimalValue(t[..k])) else None
        else None
  }

  /** A formatted duration reads back as exactly the minutes it was made from: hours * 60 + minutes. */
  lemma FormatDurationRoundTrip(minutes: nat)
    ensures ParseDuration(FormatDuration(minutes)) == Some(minutes)
  {
    if minutes > 0 {
      var hours := minutes / 60;
      var mins := minutes % 60;
      var s := FormatDuration(minutes);
      var hs, ms := NatToString(hours), NatToString(mins);
      DecimalRoundTrip(hours);
      DecimalRoundTrip(mins);
      if hours > 0 {
        assert s == hs + ("ч " + ms + "м");
        assert s[0] == hs[0];
        DigitRunOf(hs, "ч " + ms + "м");
        assert s[..|hs|] == hs;
        var rest := s[|hs|..];
        assert rest == "ч " + ms + "м";
        assert rest[..2] == "ч ";
        var t := rest[2..];
        assert t == ms + "м";
        DigitRunOf(ms, "м");
        assert t[..|ms|] == ms;
      } else {
        assert s == ms + " минут";
        assert s[0] == ms[0];
        DigitRunOf(ms, " минут");
        assert s[..|ms|] == ms;
        assert s[|ms|..] == " минут";
      }
    }
  }

  /** Different durations are shown differently. */
  lemma FormatDurationInjective(a: nat, b: nat)
    requires FormatDuration(a) == FormatDuration(b)
    ensures a == b
  {
    FormatDurationRoundTrip(a);
    FormatDurationRoundTrip(b);
  }

  /** The captions of a test's action buttons. */
  function Actions(status: string): (r: seq<string>)
    ensures |r| <= 1
    ensures "Начать тест" in r <==> status == "active"
    ensures "Результаты" in r <==> status == "completed"
  {
    if status == "active" then ["Начать тест"]
    else if status == "completed" then ["Результаты"]
    else []
  }
}

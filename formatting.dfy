/**
 * The two display formatters of src/components/CapsuleDetail.tsx:
 * formatDuration (seconds as m:ss) and formatTimeRemaining (a time
 * difference in milliseconds as "<h>時間<m>分", "<m>分" or "終了").
 * Each is paired with a decoder and proved to round-trip.
 */
module Formatting {
  import opened Wrappers

  // ---------------------------------------------------------------------------
  // Decimal digits
  // ---------------------------------------------------------------------------

  predicate IsDigit(c: char) {
    '0' <= c <= '9'
  }

  predicate AllDigits(s: string) {
    forall i :: 0 <= i < |s| ==> IsDigit(s[i])
  }

  function DigitChar(d: nat): (c: char)
    requires d < 10
    ensures IsDigit(c) && c as int - '0' as int == d
  {
    "0123456789"[d]
  }

  /** The decimal form of a non-negative integer, as a template literal prints it. */
  function NatToString(n: nat): (s: string)
    ensures |s| >= 1 && AllDigits(s)
    ensures s[0] == '0' ==> n == 0
    decreases n
  {
    if n < 10 then [DigitChar(n)] else NatToString(n / 10) + [DigitChar(n % 10)]
  }

  /** The value of a string of decimal digits, leading zeros allowed. */
  function ParseDigits(s: string): nat
    requires AllDigits(s)
    decreases |s|
  {
    if s == [] then 0 else ParseDigits(s[..|s| - 1]) * 10 + (s[|s| - 1] as int - '0' as int)
  }

  lemma {:induction false} NatToStringRoundTrip(n: nat)
    ensures ParseDigits(NatToString(n)) == n
    decreases n
  {
    if n >= 10 {
      NatToStringRoundTrip(n / 10);
      var s := NatToString(n);
      assert s[..|s| - 1] == NatToString(n / 10);
    }
  }

  /** `padStart(2, '0')` */
  function PadStart2(s: string): (r: string)
    ensures |s| >= 2 ==> r == s
    ensures |s| < 2 ==> |r| == 2 && r[2 - |s|..] == s && forall i :: 0 <= i < 2 - |s| ==> r[i] == '0'
  {
    if |s| == 0 then "00" else if |s| == 1 then "0" + s else s
  }

  /** Leading zeros do not change the value. */
  lemma PadStart2Value(s: string)
    requires AllDigits(s)
    ensures AllDigits(PadStart2(s)) && ParseDigits(PadStart2(s)) == ParseDigits(s)
  {
    if |s| == 1 {
      var r := PadStart2(s);
      assert r[..1] == "0";
      assert ParseDigits("0") == 0 by { assert "0"[..0] == ""; }
    } else if |s| == 0 {
      assert "00"[..1] == "0" && "0"[..0] == "";
    }
  }

  // ---------------------------------------------------------------------------
  // formatDuration
  // ---------------------------------------------------------------------------

  /** `${Math.floor(seconds / 60)}:${(seconds % 60).toString().padStart(2, '0')}` */
  function FormatDuration(seconds: nat): string {
    NatToString(seconds / 60) + ":" + PadStart2(NatToString(seconds % 60))
  }

  /** Reads "m:ss" back: digits, a colon, exactly two digits under 60. */
  function ParseDuration(s: string): Option<nat> {
    if |s| >= 4 && s[|s| - 3] == ':' && AllDigits(s[..|s| - 3]) && AllDigits(s[|s| - 2..])
       && ParseDigits(s[|s| - 2..]) < 60
    then Some(ParseDigits(s[..|s| - 3]) * 60 + ParseDigits(s[|s| - 2..]))
    else None
  }

  /** The seconds field is always two digits, and minutes * 60 + seconds gives the input back. */
  lemma FormatDurationRoundTrip(seconds: nat)
    ensures |PadStart2(NatToString(seconds % 60))| == 2
    ensures ParseDuration(FormatDuration(seconds)) == Some(seconds)
  {
    var m, r := NatToString(seconds / 60), PadStart2(NatToString(seconds % 60));
    var s := FormatDuration(seconds);
    assert |NatToString(seconds % 60)| <= 2 by {
      if seconds % 60 >= 10 {
        assert NatToString(seconds % 60) == NatToString(seconds % 60 / 10) + [DigitChar(seconds % 60 % 10)];
      }
    }
    assert s[..|s| - 3] == m;
    assert s[|s| - 2..] == r;
    NatToStringRoundTrip(seconds / 60);
    NatToStringRoundTrip(seconds % 60);
    PadStart2Value(NatToString(seconds % 60));
  }

  lemma FormatDurationExamples()
    ensures FormatDuration(75) == "1:15"
    ensures FormatDuration(3600) == "60:00"
    ensures FormatDuration(1862) == "31:02"
  {
    assert NatToString(75 / 60) == "1";
    assert NatToString(75 % 60) == "15" by { assert NatToString(1) == "1"; }
    assert NatToString(3600 / 60) == "60" by { assert NatToString(6) == "6"; }
    assert NatToString(3600 % 60) == "0";
    assert NatToString(1862 / 60) == "31" by { assert NatToString(3) == "3"; }
    assert NatToString(1862 % 60) == "2";
  }

  // ---------------------------------------------------------------------------
  // formatTimeRemaining
  // ---------------------------------------------------------------------------

  const Over: string := "終了"
  const MillisPerHour: nat := 1000 * 60 * 60
  const MillisPerMinute: nat := 1000 * 60

  /**
   * formatTimeRemaining with the clock reading turned into its argument:
   * diff is end.getTime() - now.getTime() in milliseconds.
   */
  function FormatTimeRemaining(auctionEnded: bool, diff: int): string {
    if auctionEnded then Over
    else if diff <= 0 then Over
    else
      var hours := diff / MillisPerHour;
      var minutes := (diff % MillisPerHour) / MillisPerMinute;
      if hours > 0 then NatToString(hours) + "時間" + NatToString(minutes) + "分"
      else NatToString(minutes) + "分"
  }

  datatype Remaining = Finished | Left(hours: nat, minutes: nat)

  /** The first index of c in s, or -1; the decoder's search for the hours marker. */
  function IndexOf(s: string, c: char): int {
    FirstIndex(s, c)
  }

  /** Reads a formatTimeRemaining text back. */
  function ParseTimeRemaining(s: string): Option<Remaining> {
    if s == Over then Some(Finished)
    else if |s| >= 2 && s[|s| - 1] == '分' then
      var body := s[..|s| - 1];
      var i := IndexOf(body, '時');
      if i < 0 then
        if AllDigits(body) then Some(Left(0, ParseDigits(body))) else None
      else if i + 1 < |body| && body[i + 1] == '間' && i > 0 && AllDigits(body[..i]) && AllDigits(body[i + 2..])
             && |body[i + 2..]| > 0
      then Some(Left(ParseDigits(body[..i]), ParseDigits(body[i + 2..])))
      else None
    else None
  }

  /**
   * The text decodes to "finished" exactly when the auction has ended or the
   * end time has passed, and otherwise to the whole hours left and the whole
   * minutes left over.
   */
  lemma TimeRemainingRoundTrip(auctionEnded: bool, diff: int)
    ensures ParseTimeRemaining(FormatTimeRemaining(auctionEnded, diff))
      == if auctionEnded || diff <= 0 then Some(Finished)
         else Some(Left(diff / MillisPerHour, (diff % MillisPerHour) / MillisPerMinute))
  {
    if !auctionEnded && diff > 0 {
      var hours := diff / MillisPerHour;
      var minutes := (diff % MillisPerHour) / MillisPerMinute;
      var s := FormatTimeRemaining(auctionEnded, diff);
      var h, m := NatToString(hours), NatToString(minutes);
      NatToStringRoundTrip(hours);
      NatToStringRoundTrip(minutes);
      assert s != Over by { assert s[|s| - 1] == '分'; }
      var body := s[..|s| - 1];
      if hours > 0 {
        assert body == h + "時間" + m;
        assert body[|h|] == '時';
        assert forall k :: 0 <= k < |h| ==> body[k] == h[k];
        assert IndexOf(body, '時') == |h|;
        assert body[..|h|] == h;
        assert body[|h| + 2..] == m;
      } else {
        assert body == m;
        assert IndexOf(body, '時') == -1;
      }
    }
  }

  /**
   * Outside the finished case, minutes are below 60 and the shown hours and
   * minutes are the time left rounded down to a whole minute.
   */
  lemma TimeRemainingBounds(diff: int)
    requires diff > 0
    ensures var hours := diff / MillisPerHour;
      var minutes := (diff % MillisPerHour) / MillisPerMinute;
      minutes < 60
      && hours * MillisPerHour + minutes * MillisPerMinute <= diff < hours * MillisPerHour + (minutes + 1) * MillisPerMinute
  {
    var hours := diff / MillisPerHour;
    var rest := diff % MillisPerHour;
    var minutes := rest / MillisPerMinute;
    assert diff == hours * MillisPerHour + rest;
    assert 0 <= rest < MillisPerHour;
    assert rest == minutes * MillisPerMinute + rest % MillisPerMinute;
    assert minutes * MillisPerMinute <= rest < (minutes + 1) * MillisPerMinute;
    assert minutes * MillisPerMinute < 60 * MillisPerMinute;
  }

  /** The hours part is shown exactly when at least one whole hour is left. */
  lemma HoursShownIff(diff: int)
    requires diff > 0
    ensures diff / MillisPerHour > 0 <==> IndexOf(FormatTimeRemaining(false, diff), '時') >= 0
  {
    var hours := diff / MillisPerHour;
    var minutes := (diff % MillisPerHour) / MillisPerMinute;
    var s := FormatTimeRemaining(false, diff);
    var h, m := NatToString(hours), NatToString(minutes);
    if hours > 0 {
      assert s[|h|] == '時';
    } else {
      assert s == m + "分";
      assert forall k :: 0 <= k < |s| ==> s[k] != '時';
    }
  }

  /** The text is '終了' exactly when the auction has ended or no time is left. */
  lemma TimeRemainingOver(auctionEnded: bool, diff: int)
    ensures FormatTimeRemaining(auctionEnded, diff) == Over <==> auctionEnded || diff <= 0
  {
    TimeRemainingRoundTrip(auctionEnded, diff);
  }
}

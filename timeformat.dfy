/** The clock label under each message (`time.ts`): `HH:mm` in local time. Parsing the
    input into a date and converting it to local time is abstracted: the input is the
    local (hours, minutes) of a valid date, or `None` for an invalid one. */
module TimeFormat {
  import opened Wrappers
  import opened Text

  datatype LocalTime = LocalTime(hours: nat, minutes: nat)

  const InvalidDate := "Invalid date value provided"

  /** A number rendered with at least two digits, zero-padded on the left. */
  function TwoDigits(n: nat): (r: string)
    ensures |r| >= 2 && AllDigits(r)
    ensures n < 100 ==> |r| == 2
  {
    PadStartParses(n, 2);
    NatToStringBelow100(n);
    PadStart(NatToString(n), 2, '0')
  }

  /** The padded rendering reads back as the number. */
  lemma TwoDigitsParses(n: nat)
    ensures ParseDecimal(TwoDigits(n)) == n
  {
    PadStartParses(n, 2);
  }

  /** `formatTimestamp`: fails on an invalid date, otherwise joins the padded hours and
      minutes with ':'. */
  function FormatTimestamp(t: Option<LocalTime>): (r: Result<string>)
    ensures t.None? <==> r == Err(InvalidDate)
  {
    match t
    case None => Err(InvalidDate)
    case Some(lt) => Ok(TwoDigits(lt.hours) + ":" + TwoDigits(lt.minutes))
  }

  /** For a clock time the label has the shape `HH:mm`, and both fields read back as the
      hours and minutes. */
  lemma FormatShape(hours: nat, minutes: nat)
    requires hours < 24 && minutes < 60
    ensures FormatTimestamp(Some(LocalTime(hours, minutes))).Ok?
    ensures var s := FormatTimestamp(Some(LocalTime(hours, minutes))).value;
      && |s| == 5 && s[2] == ':'
      && AllDigits(s[..2]) && ParseDecimal(s[..2]) == hours
      && AllDigits(s[3..]) && ParseDecimal(s[3..]) == minutes
  {
    var h, m := TwoDigits(hours), TwoDigits(minutes);
    TwoDigitsParses(hours);
    TwoDigitsParses(minutes);
    JoinFields(h, m);
  }

  /** Two two-character fields joined by ':' sit at indices 0-1 and 3-4. */
  lemma JoinFields(h: string, m: string)
    requires |h| == 2 && |m| == 2
    ensures var s := h + ":" + m; |s| == 5 && s[2] == ':' && s[..2] == h && s[3..] == m
  {
  }

  /** A one-digit number is padded with a single '0'. */
  lemma TwoDigitsOfDigit(n: nat)
    requires n < 10
    ensures TwoDigits(n) == ['0', DigitChar(n)]
  {
    assert NatToString(n) == [DigitChar(n)];
  }

  /** A two-digit number is its two digits, unpadded. */
  lemma TwoDigitsOfPair(t: nat, u: nat)
    requires 1 <= t < 10 && u < 10
    ensures TwoDigits(10 * t + u) == [DigitChar(t), DigitChar(u)]
  {
    var n := 10 * t + u;
    assert n / 10 == t && n % 10 == u;
    assert NatToString(t) == [DigitChar(t)];
    assert NatToString(n) == [DigitChar(t)] + [DigitChar(u)];
  }

  /** Nine hours five minutes is labelled "09:05". */
  lemma FormatMorning()
    ensures FormatTimestamp(Some(LocalTime(9, 5))) == Ok("09:05")
  {
    TwoDigitsOfDigit(9);
    TwoDigitsOfDigit(5);
    assert DigitChar(9) == '9' && DigitChar(5) == '5';
    assert ['0', '9'] + ":" + ['0', '5'] == "09:05";
  }

  /** Fourteen hours forty-five minutes is labelled "14:45". */
  lemma FormatAfternoon()
    ensures FormatTimestamp(Some(LocalTime(14, 45))) == Ok("14:45")
  {
    var h := TwoDigits(14);
    var m := TwoDigits(45);
    assert FormatTimestamp(Some(LocalTime(14, 45))) == Ok(h + ":" + m);
    TwoDigitsOfPair(1, 4);
    TwoDigitsOfPair(4, 5);
    assert DigitChar(1) == '1' && DigitChar(4) == '4' && DigitChar(5) == '5';
    assert h == ['1', '4'];
    assert m == ['4', '5'];
    assert h + ":" + m == "14:45";
  }
}

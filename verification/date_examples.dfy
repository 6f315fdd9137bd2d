/** Worked examples of the delivery date check: the calendar rules and the normalisation. */
module DateExamples {
  import opened Wrappers
  import opened Strings
  import opened Dates

  // Each full-width text below is evaluated through ParseFullWidthDigits,
  // field by field, rather than by unfolding the parser on the literal.

  /** 31 February does not exist in any year. */
  lemma ThirtyFirstFebruaryRejected()
    ensures ParseDate("31-02-2024") == None
  {
    var s := "31-02-2024";
    ParseFullWidthDigits(s, 31, 2, 2024);
  }

  /** 29 February exists in the leap year 2024. */
  lemma LeapDayAccepted()
    ensures ParseDate("29-02-2024") == Some(Date(29, 2, 2024))
  {
    var s := "29-02-2024";
    ParseFullWidthDigits(s, 29, 2, 2024);
  }

  /** 29 February exists in 2000, a century divisible by 400. */
  lemma LeapCenturyAccepted()
    ensures ParseDate("29-02-2000") == Some(Date(29, 2, 2000))
  {
    assert IsLeapYear(2000) by {
      assert 2000 == 4 * 500 + 0 && 2000 == 400 * 5 + 0;
    }
    var s := "29-02-2000";
    ParseFullWidthDigits(s, 29, 2, 2000);
  }

  /** 29 February does not exist in 2023, a common year. */
  lemma CommonYearRejected()
    ensures ParseDate("29-02-2023") == None
  {
    var s := "29-02-2023";
    ParseFullWidthDigits(s, 29, 2, 2023);
  }

  /** 29 February does not exist in 1900, a century not divisible by 400. */
  lemma CommonCenturyRejected()
    ensures ParseDate("29-02-1900") == None
  {
    assert !IsLeapYear(1900) by {
      assert 1900 == 100 * 19 + 0 && 1900 == 400 * 4 + 300;
    }
    var s := "29-02-1900";
    ParseFullWidthDigits(s, 29, 2, 1900);
  }

  /** Day zero is rejected. */
  lemma DayZeroRejected()
    ensures ParseDate("00-01-2024") == None
  {
    var s := "00-01-2024";
    ParseFullWidthDigits(s, 0, 1, 2024);
  }

  /** Year zero is rejected. */
  lemma YearZeroRejected()
    ensures ParseDate("01-01-0000") == None
  {
    var s := "01-01-0000";
    ParseFullWidthDigits(s, 1, 1, 0);
  }

  /** An ordinary two-digit date is accepted. */
  lemma ChristmasAccepted()
    ensures ParseDate("25-12-2024") == Some(Date(25, 12, 2024))
  {
    var s := "25-12-2024";
    ParseFullWidthDigits(s, 25, 12, 2024);
  }

  /** A full-width date is accepted. */
  lemma NewYearAccepted()
    ensures ParseDate("01-01-2025") == Some(Date(1, 1, 2025))
  {
    var s := "01-01-2025";
    ParseFullWidthDigits(s, 1, 1, 2025);
  }

  /** Formatting writes day and month with two digits, the year with four. */
  lemma FormatNewYear()
    ensures FormatDate(Date(1, 1, 2025)) == "01-01-2025"
  {
    var s := "01-01-2025";
    FormatDateDigits(Date(1, 1, 2025), s);
  }

  /** The text of 1 January 2025 with one-digit day and month. */
  lemma OneDigitText()
    ensures DateText("1", "1", 2025) == "1-1-2025"
  {
    FourDigitPad('2', '0', '2', '5', 2025);
  }

  /** One-digit day and month are accepted and normalised to two digits. */
  lemma OneDigitFieldsNormalise()
    ensures ParseDate("1-1-2025") == Some(Date(1, 1, 2025))
    ensures FormatDate(Date(1, 1, 2025)) == "01-01-2025"
  {
    FormatNewYear();
    OneDigitText();
    ParseDateAccepts(Date(1, 1, 2025), "1", "1");
  }
}

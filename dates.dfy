/**
 * `normalize_date`: rewrites a slash-delimited `D/M/YYYY` date as
 * `YYYY-MM-DD`, and hands every other string to a flexible date parser.
 */
module Dates {
  import opened Wrappers
  import opened Text

  /** The flexible parser followed by `strftime('%Y-%m-%d')`; `None` when the
      parser raises. The model treats it as an arbitrary partial function. */
  type DateParser = string -> Option<string>

  /** The message of the error `normalize_date` raises. */
  function InvalidDate(raw: string): string {
    "Invalid date format: " + raw
  }

  /** The one shape the rewriter handles itself: a `/`, exactly three
      `/`-separated parts, and a third part of four characters. */
  predicate SlashShaped(raw: string) {
    '/' in raw && var parts := Split(raw, '/'); |parts| == 3 && |parts[2]| == 4
  }

  function Fallback(raw: string, parse: DateParser): Result<string, string> {
    match parse(raw)
    case Some(iso) => Ok(iso)
    case None => Err(InvalidDate(raw))
  }

  /** `normalize_date(raw)`: `Ok` with the normalized text, or `Err` with the
      message of the `ValueError` it raises. A slash-shaped input is returned
      as `year-zfill(month)-zfill(day)` without any check of the values;
      everything else is what the parser makes of it. */
  function NormalizeDate(raw: string, parse: DateParser): (r: Result<string, string>)
    ensures r.Err? <==> !SlashShaped(raw) && parse(raw).None?
    ensures r.Err? ==> r.error == InvalidDate(raw)
    ensures !SlashShaped(raw) && parse(raw).Some? ==> r == Ok(parse(raw).value)
  {
    if '/' in raw then
      var parts := Split(raw, '/');
      if |parts| == 3 && |parts[2]| == 4 then
        Ok(parts[2] + "-" + ZFill(parts[1], 2) + "-" + ZFill(parts[0], 2))
      else Fallback(raw, parse)
    else if '-' in raw then
      // the `YYYY-MM-DD` branch calls the same parser as the final fallback
      Fallback(raw, parse)
    else Fallback(raw, parse)
  }

  /** `day/month/year` with a four-character year is rewritten as
      `year-MM-DD`, whatever the parser would have said. */
  lemma SlashDate(day: string, month: string, year: string, parse: DateParser)
    requires '/' !in day && '/' !in month && '/' !in year && |year| == 4
    ensures NormalizeDate(day + "/" + month + "/" + year, parse)
         == Ok(year + "-" + ZFill(month, 2) + "-" + ZFill(day, 2))
  {
    var parts := [day, month, year];
    var raw := day + "/" + month + "/" + year;
    assert Join(parts, "/") == raw by {
      assert Join(parts[1..], "/") == month + "/" + year by {
        assert parts[1..][1..] == [year];
      }
    }
    JoinSplit(parts, '/');
    assert raw[|day|] == '/';
  }

  /** Any other input containing `/` (not three parts, or a year that is not
      four characters long) goes to the parser. */
  lemma SlashFallthrough(raw: string, parse: DateParser)
    requires '/' in raw && !SlashShaped(raw)
    ensures NormalizeDate(raw, parse) == Fallback(raw, parse)
  {
  }

  /** A canonical `YYYY-MM-DD` string: digits, with dashes at positions 4 and 7. */
  predicate IsIsoShaped(s: string) {
    |s| == 10 && s[4] == '-' && s[7] == '-'
    && AllDigits(s[..4]) && AllDigits(s[5..7]) && AllDigits(s[8..])
  }

  /** For a numeric `D/M/YYYY` with one- or two-digit day and month, the
      result is a canonical date whose fields carry the input's numbers,
      so a day of 45 or a month of 13 is passed through unchecked. */
  lemma {:induction false} NumericSlashDate(day: string, month: string, year: string, parse: DateParser)
    requires 1 <= |day| <= 2 && 1 <= |month| <= 2 && |year| == 4
    requires AllDigits(day) && AllDigits(month) && AllDigits(year)
    ensures var r := NormalizeDate(day + "/" + month + "/" + year, parse);
      r.Ok? && IsIsoShaped(r.value) && r.value[..4] == year
      && Value(r.value[5..7]) == Value(month) && Value(r.value[8..]) == Value(day)
  {
    assert '/' !in day && '/' !in month && '/' !in year by {
      assert !IsDigit('/');
    }
    SlashDate(day, month, year, parse);
    ZFillDigits(month, 2);
    ZFillDigits(day, 2);
    var m := ZFill(month, 2);
    var d := ZFill(day, 2);
    IsoFields(year, m, d);
  }

  /** Where the three fields sit in `year-MM-DD`. */
  lemma IsoFields(year: string, m: string, d: string)
    requires |year| == 4 && |m| == 2 && |d| == 2
    ensures var s := year + "-" + m + "-" + d;
      |s| == 10 && s[4] == '-' && s[7] == '-' && s[..4] == year && s[5..7] == m && s[8..] == d
  {
    var s := year + "-" + m + "-" + d;
    assert s[..4] == year;
    assert s[5..7] == m;
    assert s[8..] == d;
  }

  /** The day-first example `31/01/2024` becomes `2024-01-31`. */
  lemma DayFirstExample(parse: DateParser)
    ensures NormalizeDate("31" + "/" + "01" + "/" + "2024", parse) == Ok("2024" + "-" + "01" + "-" + "31")
  {
    SlashDate("31", "01", "2024", parse);
  }

  /** No range check: `45/13/2024` is accepted as day 45 of month 13. */
  lemma NoRangeCheckExample(parse: DateParser)
    ensures NormalizeDate("45" + "/" + "13" + "/" + "2024", parse) == Ok("2024" + "-" + "13" + "-" + "45")
  {
    SlashDate("45", "13", "2024", parse);
  }

  /** One-digit fields are zero-padded: `5/3/2024` becomes `2024-03-05`. */
  lemma PaddingExample(parse: DateParser)
    ensures NormalizeDate("5" + "/" + "3" + "/" + "2024", parse) == Ok("2024" + "-" + "03" + "-" + "05")
  {
    SlashDate("5", "3", "2024", parse);
    assert Zeros(1) == "0";
    assert ZFill("3", 2) == "03" && ZFill("5", 2) == "05";
  }

  /** A two-digit year is not slash-shaped, so the parser decides, and its
      failure names the raw input. */
  lemma ShortYearExample(parse: DateParser)
    requires parse("01" + "/" + "31" + "/" + "24").None?
    ensures NormalizeDate("01" + "/" + "31" + "/" + "24", parse)
         == Err(InvalidDate("01" + "/" + "31" + "/" + "24"))
  {
    var ps := ["01", "31", "24"];
    assert Join(ps, "/") == "01" + "/" + "31" + "/" + "24" by {
      assert ps[1..][1..] == ["24"];
    }
    JoinSplit(ps, '/');
    var raw := "01" + "/" + "31" + "/" + "24";
    assert raw[2] == '/';
    assert !SlashShaped(raw);
  }
}

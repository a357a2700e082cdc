/** `datetime.datetime.strptime(s, "%Y-%m-%d %H:%M:%S")`, the parse the
    Otodom summaries run on a listing's creation date. `strptime` turns
    the format into a regular expression, matches it at the start of the
    text, raises `ValueError` when it does not match or leaves text over,
    and raises `ValueError` again when the fields do not make a valid
    `datetime`. */
module Timestamp {
  import opened Wrappers
  import opened Text
  import opened PyJson

  datatype DateTime = DateTime(year: nat, month: nat, day: nat, hour: nat, minute: nat, second: nat)

  predicate IsLeap(y: nat) {
    y % 4 == 0 && (y % 100 != 0 || y % 400 == 0)
  }

  function DaysInMonth(y: nat, m: nat): (n: nat)
    requires 1 <= m <= 12
    ensures 28 <= n <= 31
  {
    if m == 2 then (if IsLeap(y) then 29 else 28)
    else if m == 4 || m == 6 || m == 9 || m == 11 then 30
    else 31
  }

  /** The fields `datetime` accepts: a year from 1, a day that exists in
      its month, and no leap second. */
  predicate Valid(t: DateTime) {
    && 1 <= t.year <= 9999
    && 1 <= t.month <= 12
    && 1 <= t.day <= DaysInMonth(t.year, t.month)
    && t.hour <= 23 && t.minute <= 59 && t.second <= 59
  }

  /** The field values the regular expression admits: four year digits,
      a month `1..12`, a day `1..31`, an hour `0..23`, a minute `0..59`
      and a second `0..61`. */
  predicate InPattern(t: DateTime) {
    && t.year <= 9999 && 1 <= t.month <= 12 && 1 <= t.day <= 31
    && t.hour <= 23 && t.minute <= 59 && t.second <= 61
  }

  /** The ASCII characters `\s` matches. */
  predicate IsSpace(c: char) {
    c == ' ' || ('\U{9}' <= c <= '\U{D}') || ('\U{1C}' <= c <= '\U{1F}')
  }

  /** The number of digits from `i` on. */
  function DigitRun(s: string, i: nat): (n: nat)
    requires i <= |s|
    ensures i + n <= |s|
    ensures forall k | i <= k < i + n :: IsDigit(s[k])
    ensures i + n < |s| ==> !IsDigit(s[i + n])
    decreases |s| - i
  {
    if i < |s| && IsDigit(s[i]) then 1 + DigitRun(s, i + 1) else 0
  }

  /** The number of whitespace characters from `i` on (`\s+` is greedy). */
  function SpaceRun(s: string, i: nat): (n: nat)
    requires i <= |s|
    ensures i + n <= |s|
    ensures forall k | i <= k < i + n :: IsSpace(s[k])
    ensures i + n < |s| ==> !IsSpace(s[i + n])
    decreases |s| - i
  {
    if i < |s| && IsSpace(s[i]) then 1 + SpaceRun(s, i + 1) else 0
  }

  /** A `%m`, `%d`, `%H`, `%M` or `%S` field at `i`, with the position
      after it. Each of those directives is a choice of one- and
      two-digit patterns, and a non-digit always follows the field, so the
      field is the whole run of digits: one or two of them, with a value
      in `lo..hi` (`1..12`, `1..31`, `0..23`, `0..59` and `0..61`). */
  function Number(s: string, i: nat, lo: nat, hi: nat): (r: Option<(nat, nat)>)
    requires i <= |s|
    ensures r.Some? ==> i < r.value.1 <= |s| && r.value.1 <= i + 2 && lo <= r.value.0 <= hi
    ensures r.Some? ==> AllDigits(s[i..r.value.1]) && r.value.0 == DigitsValue(s[i..r.value.1])
    ensures r.Some? ==> r.value.1 < |s| ==> !IsDigit(s[r.value.1])
  {
    var n := DigitRun(s, i);
    assert AllDigits(s[i..i + n]);
    if 1 <= n <= 2 && lo <= DigitsValue(s[i..i + n]) <= hi then Some((DigitsValue(s[i..i + n]), i + n))
    else None
  }

  /** `%d`, which besides the digit forms takes a space and one digit
      from `1` to `9`. */
  function DayNumber(s: string, i: nat): (r: Option<(nat, nat)>)
    requires i <= |s|
    ensures r.Some? ==> i < r.value.1 <= |s| && 1 <= r.value.0 <= 31
  {
    if i < |s| && s[i] == ' ' then
      if DigitRun(s, i + 1) == 1 && s[i + 1] != '0' then Some((DigitValue(s[i + 1]), i + 2)) else None
    else Number(s, i, 1, 31)
  }

  function Pow10(n: nat): nat {
    if n == 0 then 1 else 10 * Pow10(n - 1)
  }

  /** `n` digits denote a number below `10^n`. */
  lemma {:induction false} DigitsValueBelow(s: string)
    requires AllDigits(s)
    ensures DigitsValue(s) < Pow10(|s|)
    decreases |s|
  {
    if |s| > 0 {
      assert AllDigits(s[..|s| - 1]);
      DigitsValueBelow(s[..|s| - 1]);
    }
  }

  predicate CharAt(s: string, i: nat, c: char) {
    i < |s| && s[i] == c
  }

  /** The regular expression `strptime` builds from the format,
      `\d\d\d\d-%m-%d\s+%H:%M:%S`, matched at the start of `s` with no
      text left over; `None` when it does not match. */
  function MatchFormat(s: string): (r: Option<DateTime>)
    ensures r.Some? ==> |s| >= 4 && AllDigits(s[..4]) && r.value.year == DigitsValue(s[..4])
    ensures r.Some? ==> InPattern(r.value)
  {
    if DigitRun(s, 0) != 4 || !CharAt(s, 4, '-') then None
    else
      assert AllDigits(s[..4]);
      DigitsValueBelow(s[..4]);
      var m :- Number(s, 5, 1, 12);
      if !CharAt(s, m.1, '-') then None
      else
        var d :- DayNumber(s, m.1 + 1);
        var w := SpaceRun(s, d.1);
        if w == 0 then None
        else
          var h :- Number(s, d.1 + w, 0, 23);
          if !CharAt(s, h.1, ':') then None
          else
            var mi :- Number(s, h.1 + 1, 0, 59);
            if !CharAt(s, mi.1, ':') then None
            else
              var sec :- Number(s, mi.1 + 1, 0, 61);
              if sec.1 != |s| then None
              else Some(DateTime(DigitsValue(s[..4]), m.0, d.0, h.0, mi.0, sec.0))
  }

  /** `strptime(s, "%Y-%m-%d %H:%M:%S")`: the timestamp the text denotes,
      or `ValueError` when the text does not have the format or names a
      day, year or second `datetime` does not have. */
  function Strptime(s: string): (r: Result<DateTime, Error>)
    ensures r.Ok? ==> Valid(r.value) && |s| >= 4
    ensures r.Ok? ==> MatchFormat(s) == Some(r.value)
    ensures MatchFormat(s).None? ==> r == Err(ValueError)
    ensures r.Err? ==> r.error == ValueError
  {
    match MatchFormat(s)
    case Some(t) => if Valid(t) then Ok(t) else Err(ValueError)
    case None => Err(ValueError)
  }

  // ---------------------------------------------------------------------
  // The canonical text of a timestamp

  /** `%02d`. */
  function Pad2(n: nat): (r: string)
    requires n < 100
    ensures |r| == 2 && AllDigits(r) && DigitsValue(r) == n
  {
    var r := [DigitChar(n / 10), DigitChar(n % 10)];
    assert r[..1] == [DigitChar(n / 10)];
    assert r[..1][..0] == [];
    assert DigitsValue(r[..1]) == n / 10;
    assert DigitsValue(r) == 10 * (n / 10) + n % 10;
    r
  }

  /** `%04d`. */
  function Pad4(n: nat): (r: string)
    requires n < 10000
    ensures |r| == 4 && AllDigits(r) && DigitsValue(r) == n
  {
    var r := Pad2(n / 100) + Pad2(n % 100);
    assert r[..3][..2] == Pad2(n / 100);
    assert r[..3] == Pad2(n / 100) + [r[2]];
    r
  }

  /** `t.strftime("%Y-%m-%d %H:%M:%S")`, the form the timestamps come in. */
  function Format(t: DateTime): (s: string)
    requires InPattern(t)
    ensures |s| == 19
  {
    Pad4(t.year) + "-" + Pad2(t.month) + "-" + Pad2(t.day) + " " + Pad2(t.hour) + ":" + Pad2(t.minute) + ":" + Pad2(t.second)
  }

  /** A run of `n` digits followed by a non-digit or the end is the run
      `DigitRun` finds. */
  lemma {:induction false} DigitRunOf(s: string, i: nat, n: nat)
    requires i + n <= |s|
    requires forall k | i <= k < i + n :: IsDigit(s[k])
    requires i + n < |s| ==> !IsDigit(s[i + n])
    ensures DigitRun(s, i) == n
    decreases n
  {
    if n > 0 {
      DigitRunOf(s, i + 1, n - 1);
    }
  }

  /** A two-digit field within bounds reads back as its value. */
  lemma NumberOfPad2(s: string, i: nat, v: nat, lo: nat, hi: nat)
    requires v < 100 && lo <= v <= hi
    requires i + 2 <= |s| && s[i..i + 2] == Pad2(v)
    requires i + 2 < |s| ==> !IsDigit(s[i + 2])
    ensures Number(s, i, lo, hi) == Some((v, i + 2))
  {
    assert IsDigit(s[i]) && IsDigit(s[i + 1]) by {
      assert s[i] == s[i..i + 2][0] && s[i + 1] == s[i..i + 2][1];
    }
    DigitRunOf(s, i, 2);
  }

  /** Where each field and separator sits in the canonical text. */
  lemma FormatLayout(t: DateTime)
    requires InPattern(t)
    ensures var s := Format(t);
      && s[..4] == Pad4(t.year)
      && s[4] == '-' && s[7] == '-' && s[10] == ' ' && s[13] == ':' && s[16] == ':'
      && s[5..7] == Pad2(t.month) && s[8..10] == Pad2(t.day) && s[11..13] == Pad2(t.hour)
      && s[14..16] == Pad2(t.minute) && s[17..19] == Pad2(t.second)
  {
    var y, mo, d, h, mi, se := Pad4(t.year), Pad2(t.month), Pad2(t.day), Pad2(t.hour), Pad2(t.minute), Pad2(t.second);
    var s := Format(t);
    assert s == y + "-" + mo + "-" + d + " " + h + ":" + mi + ":" + se;
    assert s[..4] == y;
    assert s[5] == mo[0] && s[6] == mo[1];
    assert s[8] == d[0] && s[9] == d[1];
    assert s[11] == h[0] && s[12] == h[1];
    assert s[14] == mi[0] && s[15] == mi[1];
    assert s[17] == se[0] && s[18] == se[1];
  }

  /** The canonical text of any fields the pattern admits matches, with
      those fields. */
  lemma MatchFormatOfFormat(t: DateTime)
    requires InPattern(t)
    ensures MatchFormat(Format(t)) == Some(t)
  {
    var s := Format(t);
    FormatLayout(t);
    assert forall k | 0 <= k < 4 :: IsDigit(s[k]) by {
      assert forall k | 0 <= k < 4 :: s[k] == s[..4][k];
    }
    DigitRunOf(s, 0, 4);
    NumberOfPad2(s, 5, t.month, 1, 12);
    assert s[8] != ' ' by { assert s[8] == s[8..10][0]; }
    NumberOfPad2(s, 8, t.day, 1, 31);
    assert DayNumber(s, 8) == Some((t.day, 10));
    assert !IsSpace(s[11]) by { assert s[11] == s[11..13][0]; }
    assert SpaceRun(s, 11) == 0;
    assert SpaceRun(s, 10) == 1;
    NumberOfPad2(s, 11, t.hour, 0, 23);
    NumberOfPad2(s, 14, t.minute, 0, 59);
    NumberOfPad2(s, 17, t.second, 0, 61);
  }

  /** Parsing the canonical text gives the timestamp back when it is a
      valid `datetime`, and raises `ValueError` when it is not. */
  lemma StrptimeOfFormat(t: DateTime)
    requires InPattern(t)
    ensures Valid(t) ==> Strptime(Format(t)) == Ok(t)
    ensures !Valid(t) ==> Strptime(Format(t)) == Err(ValueError)
  {
    MatchFormatOfFormat(t);
  }

  /** Text that is not a timestamp raises. */
  lemma StrptimeRejectsWords()
    ensures Strptime("yesterday") == Err(ValueError)
  {
    assert DigitRun("yesterday", 0) == 0;
  }

  /** A day its month does not have raises, although the text matches. */
  lemma StrptimeRejectsMissingDay()
    ensures Strptime(Format(DateTime(2023, 2, 29, 10, 0, 0))) == Err(ValueError)
  {
    StrptimeOfFormat(DateTime(2023, 2, 29, 10, 0, 0));
  }
}

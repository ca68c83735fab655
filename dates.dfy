/**
 * The YYYY-MM-DD day keys: how the server and the admin dashboard print a calendar date,
 * and how the dashboard reads one back with `split('-').map(Number)`.
 */
module Dates {
  import opened Common
  import opened Strings

  /** `String(n).padStart(2, '0')`. */
  function Pad2(n: nat): (r: string)
    ensures AllDigits(r) && |r| >= 2
    ensures n < 100 ==> |r| == 2
  {
    var digits := NatToString(n);
    NatToStringShort(n);
    PadStartDigits(digits, 2);
    PadStart(digits, 2, '0')
  }

  lemma {:induction false} NatToStringShort(n: nat)
    ensures n < 10 ==> |NatToString(n)| == 1
    ensures 10 <= n < 100 ==> |NatToString(n)| == 2
    ensures 100 <= n < 1000 ==> |NatToString(n)| == 3
    ensures 1000 <= n < 10000 ==> |NatToString(n)| == 4
  {
    if n >= 10 {
      NatToStringShort(n / 10);
    }
  }

  /** `formatDate` / `formatDateYYYYMMDD` for the local calendar date `year`-`month`-`day`. */
  function FormatDate(year: int, month: nat, day: nat): string
    requires 1 <= month <= 12 && 1 <= day <= 31
  {
    IntToString(year) + "-" + Pad2(month) + "-" + Pad2(day)
  }

  /** For a four-digit year the key is ten characters long, with its dashes at positions 4 and 7. */
  lemma FormatDateShape(year: int, month: nat, day: nat)
    requires 1000 <= year <= 9999 && 1 <= month <= 12 && 1 <= day <= 31
    ensures var s := FormatDate(year, month, day);
            |s| == 10 && s[4] == '-' && s[7] == '-'
            && AllDigits(s[..4]) && AllDigits(s[5..7]) && AllDigits(s[8..])
  {
    NatToStringShort(year);
  }

  /** JavaScript's `Number(s)` on the texts this portal feeds it: None stands for NaN. */
  function NumberText(s: string): (r: Option<int>)
    ensures Trim(s) == "" ==> r == Some(0)
    ensures r.Some? && Trim(s) != "" ==> AllDigits(Trim(s)) && r.value == DigitsValue(Trim(s))
    ensures Trim(s) != "" && AllDigits(Trim(s)) ==> r.Some?
  {
    var t := Trim(s);
    if t == "" then Some(0)
    else if AllDigits(t) then Some(DigitsValue(t))
    else None
  }

  /** `dateStr.split('-').map(Number)`: the first three numbers, None when one is NaN or missing. */
  function ParseDate(s: string): Option<(int, int, int)> {
    var parts := Split(s, '-');
    if |parts| < 3 then None
    else match (NumberText(parts[0]), NumberText(parts[1]), NumberText(parts[2]))
      case (Some(y), Some(m), Some(d)) => Some((y, m, d))
      case _ => None
  }

  lemma Pad2Digits(n: nat)
    requires n < 100
    ensures DigitsValue(Pad2(n)) == n
  {
    if n < 10 {
      Pad2OneDigit(n);
    } else {
      NatToStringShort(n);
      NatToStringValue(n);
      assert Pad2(n) == NatToString(n);
    }
  }

  lemma Pad2OneDigit(n: nat)
    requires n < 10
    ensures DigitsValue(Pad2(n)) == n
  {
    var c := DigitChar(n);
    assert NatToString(n) == [c];
    assert PadStart(['0', c], 2, '0') == ['0', c];
    assert PadStart([c], 2, '0') == ['0', c];
    var r: string := ['0', c];
    assert r[..1] == ['0'];
    assert DigitsValue(['0']) == 0;
    assert DigitsValue(r) == n;
  }

  /** `Number` of a non-empty digit string is its decimal value. */
  lemma NumberTextDigits(s: string)
    requires s != "" && AllDigits(s)
    ensures NumberText(s) == Some(DigitsValue(s))
  {
    forall i | 0 <= i < |s|
      ensures !IsSpace(s[i])
    {
      assert IsDigit(s[i]);
    }
    TrimNoSpace(s);
  }

  lemma Pad2Value(n: nat)
    requires n < 100
    ensures NumberText(Pad2(n)) == Some(n)
  {
    NumberTextDigits(Pad2(n));
    Pad2Digits(n);
  }

  /** The three pieces of a key split back apart at its two dashes. */
  lemma SplitThree(a: string, b: string, c: string)
    requires '-' !in a && '-' !in b && '-' !in c
    ensures Split(a + "-" + b + "-" + c, '-') == [a, b, c]
  {
    var parts := [a, b, c];
    assert Join(parts[2..], '-') == c;
    assert Join(parts[1..], '-') == b + "-" + c;
    assert Join(parts, '-') == a + "-" + b + "-" + c;
    SplitJoin(parts, '-');
  }

  /** Three dash-free pieces that read as numbers parse to those numbers. */
  lemma ParseOfPieces(a: string, b: string, c: string, x: int, y: int, z: int)
    requires '-' !in a && '-' !in b && '-' !in c
    requires NumberText(a) == Some(x) && NumberText(b) == Some(y) && NumberText(c) == Some(z)
    ensures ParseDate(a + "-" + b + "-" + c) == Some((x, y, z))
  {
    var s := a + "-" + b + "-" + c;
    SplitThree(a, b, c);
    var parts := Split(s, '-');
    assert |parts| == 3 && parts[0] == a && parts[1] == b && parts[2] == c;
  }

  /** Reading a key back with `split('-').map(Number)` gives the date it was printed from. */
  lemma ParseFormatDate(year: nat, month: nat, day: nat)
    requires 1 <= month <= 12 && 1 <= day <= 31
    ensures ParseDate(FormatDate(year, month, day)) == Some((year, month, day))
  {
    var y, mm, dd := NatToString(year), Pad2(month), Pad2(day);
    DigitsExclude(y, '-');
    DigitsExclude(mm, '-');
    DigitsExclude(dd, '-');
    NumberTextDigits(y);
    NatToStringValue(year);
    Pad2Value(month);
    Pad2Value(day);
    ParseOfPieces(y, mm, dd, year, month, day);
  }

  /** Different dates get different keys. */
  lemma FormatDateInjective(y1: nat, m1: nat, d1: nat, y2: nat, m2: nat, d2: nat)
    requires 1 <= m1 <= 12 && 1 <= d1 <= 31 && 1 <= m2 <= 12 && 1 <= d2 <= 31
    requires FormatDate(y1, m1, d1) == FormatDate(y2, m2, d2)
    ensures y1 == y2 && m1 == m2 && d1 == d2
  {
    ParseFormatDate(y1, m1, d1);
    ParseFormatDate(y2, m2, d2);
  }
}

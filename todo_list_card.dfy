/**
 * `TodoListCard.getCreateAtString`: the "how long ago" label of a to-do,
 * chosen from the calendar difference between its creation and now.
 *
 * The calendar arithmetic is not modelled: the five difference components
 * are the input, each possibly missing. The ISO-8601 text of the fallback
 * branch is an input too.
 */
module TodoListCard {
  import opened Common
  import opened Decimal

  /** The year, month, day, hour and minute components of the difference; `None` when the calendar leaves one out. */
  datatype Elapsed = Elapsed(year: Option<int>, month: Option<int>, day: Option<int>, hour: Option<int>, minute: Option<int>)

  /** Which label the switch picks, with the number it shows. */
  datatype Label =
    | YearsAgo(n: int)
    | MonthsAgo(n: int)
    | DaysAgo(n: int)
    | HoursAgo(n: int)
    | MinutesAgo(n: int)
    | JustNow
    | IsoDate

  /**
   * The first matching case of the switch: the largest unit that is
   * positive, where missing components count as 0; minutes only when more
   * than 5, and "just now" otherwise.
   */
  function CreateAtLabel(e: Elapsed): (r: Label)
    ensures var y, mo, d, h, mi := e.year.GetOr(0), e.month.GetOr(0), e.day.GetOr(0), e.hour.GetOr(0), e.minute.GetOr(0);
      && (y > 0 ==> r == YearsAgo(y))
      && (y <= 0 && mo > 0 ==> r == MonthsAgo(mo))
      && (y <= 0 && mo <= 0 && d > 0 ==> r == DaysAgo(d))
      && (y <= 0 && mo <= 0 && d <= 0 && h > 0 ==> r == HoursAgo(h))
      && (y <= 0 && mo <= 0 && d <= 0 && h <= 0 ==> (r == MinutesAgo(mi) <==> mi > 5) && (r == JustNow <==> mi <= 5))
  {
    var year := e.year.GetOr(0);
    var month := e.month.GetOr(0);
    var day := e.day.GetOr(0);
    var hour := e.hour.GetOr(0);
    var min := e.minute.GetOr(0);
    if year > 0 then YearsAgo(year)
    else if month > 0 then MonthsAgo(month)
    else if day > 0 then DaysAgo(day)
    else if hour > 0 then HoursAgo(hour)
    else if min > 5 then MinutesAgo(min)
    else if min <= 5 then JustNow
    else IsoDate
  }

  /** The labels the switch can produce: a positive count of a unit, more than 5 minutes, or "just now". */
  predicate Reachable(l: Label) {
    match l
    case YearsAgo(n) => n > 0
    case MonthsAgo(n) => n > 0
    case DaysAgo(n) => n > 0
    case HoursAgo(n) => n > 0
    case MinutesAgo(n) => n > 5
    case JustNow => true
    case IsoDate => false
  }

  /** The ISO-8601 default case is never taken, and every label shows a positive count. */
  lemma NoIsoDate(e: Elapsed)
    ensures Reachable(CreateAtLabel(e))
    ensures CreateAtLabel(e) != IsoDate
  {
  }

  /** The Korean unit after the number. */
  function Suffix(l: Label): string
    requires l.YearsAgo? || l.MonthsAgo? || l.DaysAgo? || l.HoursAgo? || l.MinutesAgo?
  {
    match l
    case YearsAgo(_) => "년 전"
    case MonthsAgo(_) => "개월 전"
    case DaysAgo(_) => "일 전"
    case HoursAgo(_) => "시간 전"
    case MinutesAgo(_) => "분 전"
  }

  /** The displayed text: `"\(n)년 전"` and so on, `"방금 전"`, or the ISO date `isoText`. */
  function LabelText(l: Label, isoText: string): string {
    match l
    case JustNow => "방금 전"
    case IsoDate => isoText
    case _ => IntToString(l.n) + Suffix(l)
  }

  /** Digits followed by a text that starts with a non-digit split in one way only. */
  lemma DigitsPrefixUnique(d1: string, s1: string, d2: string, s2: string)
    requires AllDigits(d1) && AllDigits(d2)
    requires |s1| > 0 && |s2| > 0 && !IsDigit(s1[0]) && !IsDigit(s2[0])
    requires d1 + s1 == d2 + s2
    ensures d1 == d2 && s1 == s2
  {
    assert d1 == (d1 + s1)[..|d1|] && d2 == (d2 + s2)[..|d2|];
    assert s1 == (d1 + s1)[|d1|..] && s2 == (d2 + s2)[|d2|..];
  }

  /** A count label starts with a digit; "just now" does not. */
  lemma TextStart(l: Label, isoText: string)
    requires Reachable(l)
    ensures var t := LabelText(l, isoText); |t| > 0 && (IsDigit(t[0]) <==> l != JustNow)
  {
    if l != JustNow {
      assert LabelText(l, isoText)[0] == NatToString(l.n)[0];
    }
  }

  /** Different labels the switch can produce read differently: the text determines the unit and the number. */
  lemma LabelTextInjective(a: Label, b: Label, isoText: string)
    requires Reachable(a) && Reachable(b)
    requires LabelText(a, isoText) == LabelText(b, isoText)
    ensures a == b
  {
    TextStart(a, isoText);
    TextStart(b, isoText);
    if a != JustNow && b != JustNow {
      DigitsPrefixUnique(NatToString(a.n), Suffix(a), NatToString(b.n), Suffix(b));
      NatToStringValue(a.n);
      NatToStringValue(b.n);
    }
  }
}

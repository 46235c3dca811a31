/** The visa-case record and the display rules of the case table: status
    badge variant and style, row border band, expiration-date chip, the
    "Extension Needed" / "Highest Priority" badges and the days-left text. */
module DataTable {
  import opened Wrappers
  import opened Text

  datatype Person = Person(name: string, department: string, email: Option<string>, phone: Option<string>)

  /** One employee's visa case. `daysLeft` is derived from `expirationDate`
      at evaluation time; `visaStartDate`, e-mail and phone are present only
      on cases built from the employee records. */
  datatype VisaCase = VisaCase(
    id: string,
    employee: Person,
    visaType: string,
    status: string,
    expirationDate: string,
    visaStartDate: Option<string>,
    daysLeft: int)

  datatype Variant = Default | Secondary | Destructive

  /** Badge variant of a status; "Pending", "Processing" and unknown strings share `Secondary`. */
  function StatusVariant(status: string): (v: Variant)
    ensures v == Default <==> status == "Active"
    ensures v == Destructive <==> status == "Expired"
    ensures v == Secondary <==> status != "Active" && status != "Expired"
  {
    match status
    case "Active" => Default
    case "Pending" => Secondary
    case "Expired" => Destructive
    case "Processing" => Secondary
    case _ => Secondary
  }

  /** The custom class string on the status badge (green, or green with a blue border, or none). */
  datatype BadgeStyle = Green | GreenBlueBorder | NoStyle

  function StatusBadgeStyle(status: string): (b: BadgeStyle)
    ensures b != NoStyle <==> status == "Active" || status == "Processing"
    ensures b == Green <==> status == "Active"
  {
    if status == "Active" then Green
    else if status == "Processing" then GreenBlueBorder
    else NoStyle
  }

  datatype Band = RedBand | YellowBand | GreenBand

  /** Left border colour of a row: red up to 30 days (overdue included), yellow to 90, green beyond. */
  function RowBorderColor(daysLeft: int): (b: Band)
    ensures b == RedBand <==> daysLeft <= 30
    ensures b == YellowBand <==> 31 <= daysLeft <= 90
    ensures b == GreenBand <==> daysLeft > 90
  {
    if daysLeft < 0 then RedBand
    else if daysLeft <= 30 then RedBand
    else if daysLeft <= 90 then YellowBand
    else GreenBand
  }

  datatype Chip = RedChip | YellowChip | GrayChip

  /** Colour of the expiration-date chip: red when overdue, yellow up to 60 days, gray beyond. */
  function DateChipStyle(daysLeft: int): (c: Chip)
    ensures c == RedChip <==> daysLeft < 0
    ensures c == YellowChip <==> 0 <= daysLeft <= 60
    ensures c == GrayChip <==> daysLeft > 60
  {
    if daysLeft < 0 then RedChip
    else if daysLeft <= 60 then YellowChip
    else GrayChip
  }

  /** The "Extension Needed" badge: 1 to 180 days left; never beside the red date chip. */
  predicate ShowsExtensionNeeded(daysLeft: int): (b: bool)
    ensures b <==> 0 < daysLeft <= 180
    ensures b ==> DateChipStyle(daysLeft) != RedChip
  {
    daysLeft <= 180 && daysLeft > 0
  }

  /** The "Highest Priority" badge: shown exactly beside the red date chip. */
  predicate ShowsHighestPriority(daysLeft: int): (b: bool)
    ensures b <==> daysLeft < 0
    ensures b <==> DateChipStyle(daysLeft) == RedChip
  {
    daysLeft < 0
  }

  /** The two badges never appear together, and neither appears on the day
      of expiry or more than 180 days out. */
  lemma BadgesExclusive(daysLeft: int)
    ensures !(ShowsExtensionNeeded(daysLeft) && ShowsHighestPriority(daysLeft))
    ensures daysLeft == 0 || daysLeft > 180 ==>
              !ShowsExtensionNeeded(daysLeft) && !ShowsHighestPriority(daysLeft)
    ensures ShowsExtensionNeeded(daysLeft) || ShowsHighestPriority(daysLeft) || daysLeft == 0 || daysLeft > 180
  {
  }

  function Abs(d: int): nat
  {
    if d < 0 then -d else d
  }

  predicate EndsWith(s: string, suffix: string)
  {
    |suffix| <= |s| && s[|s| - |suffix|..] == suffix
  }

  /** The "Days Left" cell: "<|d|> overdue" for a negative count, "<d> days" otherwise.
      The text is the numeral of |d| followed by " overdue" exactly when d < 0,
      and by " days" otherwise. */
  function DaysText(daysLeft: int): (t: string)
    ensures LeadingDigits(t) == NatToString(Abs(daysLeft))
    ensures EndsWith(t, " overdue") <==> daysLeft < 0
    ensures daysLeft >= 0 ==> EndsWith(t, " days")
    ensures |t| == |NatToString(Abs(daysLeft))| + if daysLeft < 0 then 8 else 5
  {
    var n := NatToString(Abs(daysLeft));
    var suffix := if daysLeft < 0 then " overdue" else " days";
    LeadingDigitsOfNumeral(n, suffix);
    assert (n + suffix)[|n + suffix| - |suffix|..] == suffix;
    var t := n + suffix;
    assert t[|t| - 1] == suffix[|suffix| - 1];
    assert EndsWith(t, " overdue") ==> t[|t| - 1] == 'e' by {
      if EndsWith(t, " overdue") {
        assert t[|t| - 8..][7] == 'e';
      }
    }
    n + suffix
  }

  /** Different day counts give different texts. */
  lemma DaysTextInjective(a: int, b: int)
    requires DaysText(a) == DaysText(b)
    ensures a == b
  {
    NatToStringInjective(Abs(a), Abs(b));
    assert (a < 0) == (b < 0);
  }

  datatype Tone = RedText | YellowText | BlackText

  /** Colour of the days-left text: red when overdue, yellow up to 30 days, black otherwise. */
  function DaysTextColor(daysLeft: int): (c: Tone)
    ensures c == RedText <==> daysLeft < 0
    ensures c == YellowText <==> 0 <= daysLeft <= 30
    ensures c == BlackText <==> daysLeft > 30
  {
    if daysLeft < 0 then RedText else if daysLeft <= 30 then YellowText else BlackText
  }
}

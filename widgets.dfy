/** The widget entity (widgets.py): a Widget object built from a name, a part
    count and a creation flag, which stamps exactly one of its two
    timestamps, and its `__repr__` text, together with a reader that
    recovers the four fields from that text. */
module Widgets {
  import opened Text

  /** A character of the text `str(datetime.now())` prints,
      "YYYY-MM-DD HH:MM:SS.ffffff". */
  predicate IsTimeChar(c: char) {
    IsDigit(c) || c == '-' || c == ':' || c == '.' || c == ' '
  }

  /** The clock reading a write stamps, kept as its non-empty text. */
  type Time = s: string | |s| > 0 && forall i :: 0 <= i < |s| ==> IsTimeChar(s[i])
    witness "0"

  /** A timestamp column: `''` until stamped, else the time of the stamp. */
  datatype Stamp = Blank | At(time: Time)

  /** How `'{}'.format` prints a timestamp: `''` prints nothing. */
  function StampText(t: Stamp): (s: string)
    ensures t.Blank? <==> s == ""
    ensures ',' !in s
  {
    match t
    case Blank => ""
    case At(time) => time
  }

  function ParseStamp(s: string): Option<Stamp> {
    if s == "" then Some(Blank)
    else if forall i :: 0 <= i < |s| ==> IsTimeChar(s[i]) then Some(At(s))
    else None
  }

  lemma StampTextRoundTrip(t: Stamp)
    ensures ParseStamp(StampText(t)) == Some(t)
  {
  }

  /** The four fields of a widget, in the order `__repr__` lists them; also
      one row of the `Widgets` table, (name, number_of_parts, date_created,
      date_updated). */
  datatype Row = Row(name: string, parts: int, created: Stamp, updated: Stamp)

  /** The `__repr__` text: `Widget(`, then the name and the decimal part
      count, each between single quotes, then the creation and update stamps
      without quotes, all four separated by a comma and a space, then `)`.
      Its partner is the reader below: the text always gives back exactly
      the four fields, whatever characters the name holds. */
  function WidgetText(name: string, numParts: int, dateCreated: Stamp, dateUpdated: Stamp): (s: string)
    ensures ParseWidgetText(s) == Some(Row(name, numParts, dateCreated, dateUpdated))
  {
    var body := name + "', '" + IntText(numParts) + "', "
      + StampText(dateCreated) + ", " + StampText(dateUpdated);
    var s := "Widget('" + body + ")";
    assert s[..8] == "Widget('" && s[8..|s| - 1] == body && s[|s| - 1] == ')';
    FieldsRoundTrip(name, numParts, dateCreated, dateUpdated);
    s
  }

  /** Reads the fields back from a repr, from the right: neither stamp nor
      the part count holds a comma or a quote, so the update stamp follows
      the last comma, the creation stamp the comma before it, the part count
      the last quote before that, and everything ahead of it is the name. */
  function ParseWidgetText(s: string): Option<Row> {
    if |s| < 9 || s[..8] != "Widget('" || s[|s| - 1] != ')' then None
    else ParseFields(s[8..|s| - 1])
  }

  function ParseFields(s: string): Option<Row> {
    match SplitAtLast(s, ',')
    case None => None
    case Some(split) =>
      var rest := split.1;
      if |rest| < 1 || rest[0] != ' ' then None
      else match ParseStamp(rest[1..])
        case None => None
        case Some(updated) => ParseUpToCreated(split.0, updated)
  }

  function ParseUpToCreated(s: string, dateUpdated: Stamp): Option<Row> {
    match SplitAtLast(s, ',')
    case None => None
    case Some(split) =>
      var rest := split.1;
      if |rest| < 1 || rest[0] != ' ' then None
      else match ParseStamp(rest[1..])
        case None => None
        case Some(created) => ParseUpToParts(split.0, created, dateUpdated)
  }

  function ParseUpToParts(s: string, dateCreated: Stamp, dateUpdated: Stamp): Option<Row> {
    if |s| < 1 || s[|s| - 1] != '\'' then None
    else match SplitAtLast(s[..|s| - 1], '\'')
      case None => None
      case Some(split) =>
        var head := split.0;
        if |head| < 3 || head[|head| - 3..] != "', " then None
        else match ParseInt(split.1)
          case None => None
          case Some(numParts) => Some(Row(head[..|head| - 3], numParts, dateCreated, dateUpdated))
  }

  lemma UpToPartsRoundTrip(name: string, numParts: int, dateCreated: Stamp, dateUpdated: Stamp)
    ensures ParseUpToParts(name + "', '" + IntText(numParts) + "'", dateCreated, dateUpdated)
         == Some(Row(name, numParts, dateCreated, dateUpdated))
  {
    var p := IntText(numParts);
    var head := name + "', ";
    var s := name + "', '" + p + "'";
    assert s[|s| - 1] == '\'' && s[..|s| - 1] == head + ['\''] + p;
    assert '\'' !in p;
    SplitAtLastConcat(head, '\'', p);
    assert head[|head| - 3..] == "', " && head[..|head| - 3] == name;
    IntTextRoundTrip(numParts);
  }

  lemma UpToCreatedRoundTrip(name: string, numParts: int, dateCreated: Stamp, dateUpdated: Stamp)
    ensures ParseUpToCreated(name + "', '" + IntText(numParts) + "', " + StampText(dateCreated), dateUpdated)
         == Some(Row(name, numParts, dateCreated, dateUpdated))
  {
    var front := name + "', '" + IntText(numParts) + "'";
    var rest := " " + StampText(dateCreated);
    assert front + [','] + rest == name + "', '" + IntText(numParts) + "', " + StampText(dateCreated);
    assert ',' !in rest;
    SplitAtLastConcat(front, ',', rest);
    assert rest[1..] == StampText(dateCreated);
    StampTextRoundTrip(dateCreated);
    UpToPartsRoundTrip(name, numParts, dateCreated, dateUpdated);
  }

  lemma FieldsRoundTrip(name: string, numParts: int, dateCreated: Stamp, dateUpdated: Stamp)
    ensures ParseFields(name + "', '" + IntText(numParts) + "', "
                        + StampText(dateCreated) + ", " + StampText(dateUpdated))
         == Some(Row(name, numParts, dateCreated, dateUpdated))
  {
    var front := name + "', '" + IntText(numParts) + "', " + StampText(dateCreated);
    var rest := " " + StampText(dateUpdated);
    assert front + [','] + rest == front + ", " + StampText(dateUpdated);
    assert ',' !in rest;
    SplitAtLastConcat(front, ',', rest);
    assert rest[1..] == StampText(dateUpdated);
    StampTextRoundTrip(dateUpdated);
    UpToCreatedRoundTrip(name, numParts, dateCreated, dateUpdated);
  }

  /** widgets.py `Widget`. */
  class Widget {
    var name: string
    var numParts: int
    var dateCreated: Stamp
    var dateUpdated: Stamp

    /** Exactly one of the two timestamps is set. */
    predicate OneStamp()
      reads this
    {
      dateCreated.At? != dateUpdated.At?
    }

    /** `Widget(name, num_parts, create)`, with `now` the value of
        `datetime.now()` at the call. */
    constructor (name: string, numParts: int, create: bool, now: Time)
      ensures this.name == name && this.numParts == numParts
      ensures create ==> dateCreated == At(now) && dateUpdated == Blank
      ensures !create ==> dateCreated == Blank && dateUpdated == At(now)
      ensures OneStamp()
    {
      this.name := name;
      this.numParts := numParts;
      dateCreated := Blank;
      dateUpdated := Blank;
      new;
      if create {
        dateCreated := At(now);
      } else {
        dateUpdated := At(now);
      }
    }

    /** `__repr__`: lists name, num_parts, date_created, date_updated, and
        reads back as exactly this widget's fields. */
    function Repr(): (s: string)
      reads this
      ensures ParseWidgetText(s) == Some(Row(name, numParts, dateCreated, dateUpdated))
    {
      WidgetText(name, numParts, dateCreated, dateUpdated)
    }
  }
}

/** The dashboard's list of recent events: relative timestamps, the severity
    colour and event icon lookups with their fallbacks, the event-type label
    and the empty state. `now` is a parameter rather than the clock. */
module EventsPanel {
  import opened JsonRecords
  import opened Text

  /** `getSeverityColor`'s table. */
  const SeverityColors: map<string, string> :=
    map["LOW" := "#4facfe", "MEDIUM" := "#f093fb", "HIGH" := "#fa709a", "CRITICAL" := "#ef4444"]

  /** `getEventIcon`'s table; its keys are lower case. */
  const EventIcons: map<string, string> :=
    map["harsh_brake" := "🛑", "harsh_acceleration" := "🚀", "fall_detected" := "⚠️",
        "speeding" := "⚡", "sudden_stop" := "🔴", "sharp_turn" := "↩️"]

  const DefaultIcon: string := "📍"

  /** `colors[severity] || colors.LOW`: a missing severity, or one the table
      does not know, gets the LOW colour. */
  function SeverityColor(severity: Option<string>): (color: string)
    ensures severity.Some? && severity.value in SeverityColors ==> color == SeverityColors[severity.value]
    ensures severity.None? || severity.value !in SeverityColors ==> color == SeverityColors["LOW"]
    ensures color in SeverityColors.Values
  {
    if severity.Some? && severity.value in SeverityColors && SeverityColors[severity.value] != ""
    then SeverityColors[severity.value]
    else SeverityColors["LOW"]
  }

  /** `icons[eventType] || '📍'`. */
  function EventIcon(eventType: string): (icon: string)
    ensures eventType in EventIcons ==> icon == EventIcons[eventType]
    ensures eventType !in EventIcons ==> icon == DefaultIcon
  {
    if eventType in EventIcons && EventIcons[eventType] != "" then EventIcons[eventType] else DefaultIcon
  }

  /** An event type written in upper case is never a key of the icon table,
      so it always gets the default icon. */
  lemma UpperCaseTypesGetDefaultIcon(eventType: string)
    requires |eventType| > 0 && 'A' <= eventType[0] <= 'Z'
    ensures EventIcon(eventType) == DefaultIcon
  {
    assert forall key :: key in EventIcons ==> |key| > 0 && 'a' <= key[0] <= 'z';
  }

  /** `eventType.replace(/_/g, ' ')`. */
  function Label(eventType: string): (shown: string)
    ensures |shown| == |eventType|
    ensures forall i :: 0 <= i < |eventType| ==> shown[i] == if eventType[i] == '_' then ' ' else eventType[i]
  {
    if eventType == [] then []
    else [if eventType[0] == '_' then ' ' else eventType[0]] + Label(eventType[1..])
  }

  /** The label has no underscore left, every other character is kept, and
      relabelling a label changes nothing. */
  lemma LabelProperties(eventType: string)
    ensures forall i :: 0 <= i < |Label(eventType)| ==> Label(eventType)[i] != '_'
    ensures forall i :: 0 <= i < |eventType| && eventType[i] != '_' ==> Label(eventType)[i] == eventType[i]
    ensures Label(Label(eventType)) == Label(eventType)
    ensures Count(eventType, '_') == 0 ==> Label(eventType) == eventType
  {
    var shown := Label(eventType);
    if Count(eventType, '_') == 0 {
      NoUnderscoreAt(eventType);
    }
  }

  /** A string without underscores has none at any index. */
  lemma {:induction false} NoUnderscoreAt(s: string)
    requires Count(s, '_') == 0
    ensures forall i :: 0 <= i < |s| ==> s[i] != '_'
  {
    if s != [] {
      assert s == [s[0]] + s[1..];
      CountOfPrefix(s);
      NoUnderscoreAt(s[1..]);
    }
  }

  /** `Count` splits at the first character. */
  lemma CountOfPrefix(s: string)
    requires s != []
    ensures Count(s, '_') == (if s[0] == '_' then 1 else 0) + Count(s[1..], '_')
  {
  }

  /** How `formatTimestamp` renders an instant relative to now. */
  datatype TimeLabel = JustNow | MinutesAgo(minutes: nat) | HoursAgo(hours: nat) | AbsoluteDate

  const MillisPerMinute: int := 60000
  const MillisPerHour: int := 3600000
  const MillisPerDay: int := 86400000

  /** `formatTimestamp`: the whole minutes since `timestamp`, rounded down;
      under one minute (including the future) is "just now", then minutes,
      then hours, and from a day on the absolute date. */
  function FormatTimestamp(now: int, timestamp: int): (shown: TimeLabel)
    ensures shown == JustNow <==> now - timestamp < MillisPerMinute
    ensures shown.MinutesAgo? ==>
              1 <= shown.minutes < 60
              && shown.minutes * MillisPerMinute <= now - timestamp < (shown.minutes + 1) * MillisPerMinute
    ensures shown.HoursAgo? ==>
              1 <= shown.hours < 24
              && shown.hours * MillisPerHour <= now - timestamp < (shown.hours + 1) * MillisPerHour
    ensures shown == AbsoluteDate <==> now - timestamp >= MillisPerDay
  {
    var diffMins := (now - timestamp) / MillisPerMinute;
    if diffMins < 1 then JustNow
    else if diffMins < 60 then MinutesAgo(diffMins)
    else
      var diffHours := diffMins / 60;
      if diffHours < 24 then HoursAgo(diffHours) else AbsoluteDate
  }

  /** The four buckets cover every difference: below a minute, below an
      hour, below a day, and the rest, each giving its own kind of label. */
  lemma FormatTimestampBuckets(now: int, timestamp: int)
    ensures var d, shown := now - timestamp, FormatTimestamp(now, timestamp);
            && (d < MillisPerMinute ==> shown == JustNow)
            && (MillisPerMinute <= d < MillisPerHour ==> shown == MinutesAgo(d / MillisPerMinute))
            && (MillisPerHour <= d < MillisPerDay ==> shown == HoursAgo(d / MillisPerHour))
            && (MillisPerDay <= d ==> shown == AbsoluteDate)
  {
    var d := now - timestamp;
    if MillisPerHour <= d < MillisPerDay {
      var mins := d / MillisPerMinute;
      assert mins / 60 == d / MillisPerHour by {
        MinutesToHours(d);
      }
    }
  }

  /** Whole hours are whole minutes divided by 60, rounded down. */
  lemma {:induction false} MinutesToHours(d: int)
    requires 0 <= d
    ensures d / MillisPerMinute / 60 == d / MillisPerHour
  {
    var q, r := d / MillisPerHour, d % MillisPerHour;
    assert d == MillisPerHour * q + r && 0 <= r < MillisPerHour;
    var rm := r / MillisPerMinute;
    assert 0 <= rm < 60;
    assert d == MillisPerMinute * (60 * q + rm) + r % MillisPerMinute;
    assert d / MillisPerMinute == 60 * q + rm;
  }

  /** The boundaries: exactly one minute is "1m ago", exactly one hour is
      "1h ago", 59 minutes 59.999 seconds is still minutes, and exactly one
      day is the absolute date. */
  lemma FormatTimestampBoundaries(now: int)
    ensures FormatTimestamp(now, now - 59999) == JustNow
    ensures FormatTimestamp(now, now - 60000) == MinutesAgo(1)
    ensures FormatTimestamp(now, now - 3599999) == MinutesAgo(59)
    ensures FormatTimestamp(now, now - 3600000) == HoursAgo(1)
    ensures FormatTimestamp(now, now - 86399999) == HoursAgo(23)
    ensures FormatTimestamp(now, now - 86400000) == AbsoluteDate
  {
  }

  /** The text shown for a relative time; the absolute date is locale formatting and
      is left as a marker. */
  function TimeText(shown: TimeLabel): (text: string)
    ensures shown == JustNow ==> text == "Just now"
    ensures shown.MinutesAgo? ==> text == Decimal(shown.minutes) + "m ago"
    ensures shown.HoursAgo? ==> text == Decimal(shown.hours) + "h ago"
  {
    match shown
    case JustNow => "Just now"
    case MinutesAgo(m) => Decimal(m) + "m ago"
    case HoursAgo(h) => Decimal(h) + "h ago"
    case AbsoluteDate => "<date> <time>"
  }

  /** The minutes text reads back as the number of minutes. */
  lemma MinutesTextReadsBack(shown: TimeLabel)
    requires shown.MinutesAgo?
    ensures var text := TimeText(shown);
            && |text| > 5 && text[|text| - 5..] == "m ago"
            && DecimalValue(text[..|text| - 5]) == shown.minutes
  {
    var digits := Decimal(shown.minutes);
    var text := TimeText(shown);
    assert text[..|text| - 5] == digits;
    DecimalRoundTrip(shown.minutes);
  }

  /** An event as the panel reads it. */
  datatype EventView = EventView(eventType: string, severity: Option<string>, timestamp: int)

  /** What the panel shows for one event. */
  datatype Card = Card(color: string, icon: string, shown: string, time: TimeLabel)

  datatype Panel = EmptyState | Cards(cards: seq<Card>)

  function CardOf(e: EventView, now: int): Card
  {
    Card(SeverityColor(e.severity), EventIcon(e.eventType), Label(e.eventType), FormatTimestamp(now, e.timestamp))
  }

  /** The panel: the empty state for a missing or empty list, otherwise one
      card per event, in order. */
  function Render(events: Option<seq<EventView>>, now: int): (panel: Panel)
    ensures panel == EmptyState <==> events.None? || events.value == []
    ensures panel.Cards? ==> |panel.cards| == |events.value|
  {
    if events.None? || |events.value| == 0 then EmptyState
    else Cards(seq(|events.value|, i requires 0 <= i < |events.value| => CardOf(events.value[i], now)))
  }

  /** The empty state is shown exactly when there is nothing to list, and
      otherwise each event gets its card at its own position. */
  lemma RenderShowsEveryEvent(events: Option<seq<EventView>>, now: int)
    ensures Render(events, now) == EmptyState <==> events.None? || events.value == []
    ensures Render(events, now).Cards? ==>
              |Render(events, now).cards| == |events.value|
              && forall i :: 0 <= i < |events.value| ==>
                   Render(events, now).cards[i].shown == Label(events.value[i].eventType)
                   && Render(events, now).cards[i].time == FormatTimestamp(now, events.value[i].timestamp)
  {
  }
}

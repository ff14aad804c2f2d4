/** The adapter from stored events to the entries the calendar widget
    consumes: display fields paired with the event they came from. */
module EventTransform {
  import opened Events
  import App

  datatype CalendarEntry = CalendarEntry(title: string, start: int, end: int, resource: TalkEvent)

  /** An entry's display fields are those of the event it carries. */
  predicate Consistent(entry: CalendarEntry) {
    && entry.title == entry.resource.title
    && entry.start == entry.resource.startTime
    && entry.end == entry.resource.endTime
  }

  function ToEntry(e: TalkEvent): (entry: CalendarEntry)
    ensures entry.resource == e && Consistent(entry)
  {
    CalendarEntry(e.title, e.startTime, e.endTime, e)
  }

  /** One calendar entry per stored event, in store order. */
  function ToCalendarEvents(events: seq<TalkEvent>): (r: seq<CalendarEntry>)
    ensures |r| == |events|
    ensures forall i :: 0 <= i < |events| ==> r[i].resource == events[i] && Consistent(r[i])
  {
    if |events| == 0 then [] else [ToEntry(events[0])] + ToCalendarEvents(events[1..])
  }

  /** The events an entry list carries. */
  function Resources(entries: seq<CalendarEntry>): seq<TalkEvent> {
    if |entries| == 0 then [] else [entries[0].resource] + Resources(entries[1..])
  }

  /** The adapter loses nothing: the events come back, in order. */
  lemma {:induction false} ResourcesRoundTrip(events: seq<TalkEvent>)
    ensures Resources(ToCalendarEvents(events)) == events
    decreases |events|
  {
    if |events| > 0 {
      var r := ToCalendarEvents(events);
      assert r[1..] == ToCalendarEvents(events[1..]);
      ResourcesRoundTrip(events[1..]);
    }
  }

  /** The adapter commutes with appending to the store. */
  lemma {:induction false} ToCalendarEventsAppend(a: seq<TalkEvent>, b: seq<TalkEvent>)
    ensures ToCalendarEvents(a + b) == ToCalendarEvents(a) + ToCalendarEvents(b)
    decreases |a|
  {
  }

  /** Creating an event adds exactly one calendar entry, at the end, and
      keeps every earlier entry. */
  lemma CalendarAfterCreate(s: App.AppState, userId: string, draft: EventDraft, freshId: string)
    ensures ToCalendarEvents(App.CreateEvent(s, userId, draft, freshId).events)
      == ToCalendarEvents(s.events) + [ToEntry(App.NewEvent(draft, freshId, userId))]
  {
  }

  /** A subscription moves nothing on the calendar: every entry keeps its
      title and time span; only the carried attendee count changes. */
  lemma CalendarAfterSubscribe(s: App.AppState, eventId: string)
    ensures var before := ToCalendarEvents(s.events);
      var after := ToCalendarEvents(App.Subscribe(s, eventId).events);
      && |after| == |before|
      && forall i :: 0 <= i < |before| ==>
           after[i].title == before[i].title && after[i].start == before[i].start && after[i].end == before[i].end
  {
  }
}

/** Talk events as the store holds them. Times are integers (milliseconds
    since the epoch); ids are opaque strings. */
module Events {
  import opened Wrappers
  import opened Seqs

  /** Who runs a talk: the creating client's identity and a display name. */
  datatype Host = Host(id: string, name: string)

  datatype TalkEvent = TalkEvent(
    id: string,
    title: string,
    description: string,
    startTime: int,
    endTime: int,
    host: Host,
    maxAttendees: int,
    currentAttendees: int)

  /** What the creation form submits: everything except the id, the
      attendee count and the host's id. */
  datatype EventDraft = EventDraft(
    title: string,
    description: string,
    startTime: int,
    endTime: int,
    hostName: string,
    maxAttendees: int)

  predicate UniqueIds(events: seq<TalkEvent>) {
    forall i, j :: 0 <= i < j < |events| ==> events[i].id != events[j].id
  }

  predicate HasId(events: seq<TalkEvent>, id: string) {
    exists i :: 0 <= i < |events| && events[i].id == id
  }

  /** The first event in store order that carries `id`, if any. */
  function FindEvent(events: seq<TalkEvent>, id: string): (r: Option<TalkEvent>)
    ensures r.None? <==> !HasId(events, id)
    ensures r.Some? ==> r.value.id == id && r.value in events
    ensures r.Some? ==> exists k ::
      (0 <= k < |events| && events[k] == r.value && forall j :: 0 <= j < k ==> events[j].id != id)
    ensures forall k :: 0 <= k < |events| && events[k].id == id && UniqueIds(events) ==> r == Some(events[k])
  {
    match FindFirst(events, (e: TalkEvent) => e.id == id)
    case None => None
    case Some(k) => Some(events[k])
  }

  /** An event whose attendance has not passed its capacity. */
  predicate WithinCapacity(e: TalkEvent) {
    e.currentAttendees <= e.maxAttendees
  }
}

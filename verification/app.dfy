/** The top-level controller: the event store, the current view and the
    active stream session, with the transitions its handlers perform. The
    client's identity (`userId`) and every fresh UUID are supplied by the
    caller. */
module App {
  import opened Wrappers
  import opened Seqs
  import opened Events
  import opened Streams
  import SV = StreamView

  datatype View = CalendarView | ListView | CreateView | StreamView

  datatype AppState = AppState(
    events: seq<TalkEvent>,
    view: View,
    activeStream: Option<StreamSession>)

  /** The controller as it first renders: an empty store, the calendar
      view, no session and so no stream screen. */
  function Init(): (s: AppState)
    ensures s.events == [] && UniqueIds(s.events)
    ensures s.view == CalendarView && s.activeStream.None?
    ensures !ScreenShown(s)
  {
    AppState([], CalendarView, None)
  }

  /** The form fields an event was created from. */
  function ToDraft(e: TalkEvent): EventDraft {
    EventDraft(e.title, e.description, e.startTime, e.endTime, e.host.name, e.maxAttendees)
  }

  /** The record the create handler builds: the draft's fields, a fresh id,
      no attendees, and the creating client as host. */
  function NewEvent(draft: EventDraft, id: string, userId: string): (e: TalkEvent)
    ensures e.id == id && e.currentAttendees == 0
    ensures e.host.id == userId && e.host.name == draft.hostName
    ensures ToDraft(e) == draft
  {
    TalkEvent(id, draft.title, draft.description, draft.startTime, draft.endTime,
              Host(userId, draft.hostName), draft.maxAttendees, 0)
  }

  // ---------------------------------------------------------------- create

  function CreateEvent(s: AppState, userId: string, draft: EventDraft, freshId: string): (s': AppState)
    ensures |s'.events| == |s.events| + 1
    ensures s'.events[..|s.events|] == s.events
    ensures s'.events[|s.events|] == NewEvent(draft, freshId, userId)
    ensures s'.view == CalendarView && s'.activeStream == s.activeStream
  {
    s.(events := s.events + [NewEvent(draft, freshId, userId)], view := CalendarView)
  }

  /** A fresh id keeps the store's ids pairwise distinct. */
  lemma CreatePreservesUniqueIds(s: AppState, userId: string, draft: EventDraft, freshId: string)
    requires UniqueIds(s.events) && !HasId(s.events, freshId)
    ensures UniqueIds(CreateEvent(s, userId, draft, freshId).events)
  {
  }

  /** A run of create calls, each given its draft and fresh id. */
  function CreateAll(s: AppState, userId: string, calls: seq<(EventDraft, string)>): AppState
    decreases |calls|
  {
    if |calls| == 0 then s
    else CreateAll(CreateEvent(s, userId, calls[0].0, calls[0].1), userId, calls[1..])
  }

  predicate DistinctIds(calls: seq<(EventDraft, string)>) {
    forall i, j :: 0 <= i < j < |calls| ==> calls[i].1 != calls[j].1
  }

  /** Any run of creates keeps the store in call order: the old events come
      first, unchanged, then one new event per call, in call order. */
  lemma {:induction false} CreateAllKeepsOrder(s: AppState, userId: string, calls: seq<(EventDraft, string)>)
    ensures var r := CreateAll(s, userId, calls);
      && |r.events| == |s.events| + |calls|
      && r.events[..|s.events|] == s.events
      && (forall i :: 0 <= i < |calls| ==> r.events[|s.events| + i] == NewEvent(calls[i].0, calls[i].1, userId))
    decreases |calls|
  {
    if |calls| > 0 {
      var s1 := CreateEvent(s, userId, calls[0].0, calls[0].1);
      CreateAllKeepsOrder(s1, userId, calls[1..]);
      var r := CreateAll(s, userId, calls);
      assert r == CreateAll(s1, userId, calls[1..]);
      assert r.events[..|s1.events|] == s1.events;
      assert r.events[..|s.events|] == s1.events[..|s.events|];
      forall i | 0 <= i < |calls|
        ensures r.events[|s.events| + i] == NewEvent(calls[i].0, calls[i].1, userId)
      {
        if i == 0 {
          assert r.events[|s.events|] == s1.events[|s.events|];
        } else {
          assert calls[1..][i - 1] == calls[i];
        }
      }
    }
  }

  /** Any run of creates with distinct ids not yet in the store leaves the
      ids pairwise distinct. */
  lemma {:induction false} CreateAllUniqueIds(s: AppState, userId: string, calls: seq<(EventDraft, string)>)
    requires UniqueIds(s.events) && DistinctIds(calls)
    requires forall i :: 0 <= i < |calls| ==> !HasId(s.events, calls[i].1)
    ensures UniqueIds(CreateAll(s, userId, calls).events)
    decreases |calls|
  {
    if |calls| > 0 {
      var s1 := CreateEvent(s, userId, calls[0].0, calls[0].1);
      CreatePreservesUniqueIds(s, userId, calls[0].0, calls[0].1);
      var rest := calls[1..];
      forall i | 0 <= i < |rest|
        ensures !HasId(s1.events, rest[i].1)
      {
        assert rest[i] == calls[i + 1];
        forall k | 0 <= k < |s1.events|
          ensures s1.events[k].id != rest[i].1
        {
          if k < |s.events| {
            assert s1.events[k] == s.events[k];
          }
        }
      }
      assert DistinctIds(rest) by {
        forall i, j | 0 <= i < j < |rest| ensures rest[i].1 != rest[j].1 {
          assert rest[i] == calls[i + 1] && rest[j] == calls[j + 1];
        }
      }
      CreateAllUniqueIds(s1, userId, rest);
    }
  }

  // ------------------------------------------------------------- subscribe

  /** The event with one more attendee. */
  function Bumped(e: TalkEvent): TalkEvent {
    e.(currentAttendees := e.currentAttendees + 1)
  }

  /** The store after a subscribe: each event carrying the id is replaced by
      its bumped copy, in place; every other event is kept as it was. */
  function SubscribeEvents(events: seq<TalkEvent>, id: string): (r: seq<TalkEvent>)
    ensures |r| == |events|
    ensures forall i :: 0 <= i < |events| && events[i].id == id ==>
      r[i].currentAttendees == events[i].currentAttendees + 1 &&
      r[i].(currentAttendees := 0) == events[i].(currentAttendees := 0)
    ensures forall i :: 0 <= i < |events| && events[i].id != id ==> r[i] == events[i]
  {
    if |events| == 0 then []
    else [if events[0].id == id then Bumped(events[0]) else events[0]] + SubscribeEvents(events[1..], id)
  }

  /** No capacity check: every matching event gains exactly one attendee. */
  function Subscribe(s: AppState, eventId: string): (s': AppState)
    ensures |s'.events| == |s.events|
    ensures forall i :: 0 <= i < |s.events| ==> s'.events[i].id == s.events[i].id
    ensures forall i :: 0 <= i < |s.events| && s.events[i].id == eventId ==>
      s'.events[i] == Bumped(s.events[i])
    ensures forall i :: 0 <= i < |s.events| && s.events[i].id != eventId ==> s'.events[i] == s.events[i]
    ensures s'.view == s.view && s'.activeStream == s.activeStream
  {
    s.(events := SubscribeEvents(s.events, eventId))
  }

  /** Subscribing to an id the store does not hold changes nothing. */
  lemma SubscribeUnknownIsNoop(s: AppState, eventId: string)
    requires !HasId(s.events, eventId)
    ensures Subscribe(s, eventId) == s
  {
  }

  /** Subscriptions to two ids commute. */
  lemma SubscribeCommutes(s: AppState, a: string, b: string)
    ensures Subscribe(Subscribe(s, a), b) == Subscribe(Subscribe(s, b), a)
  {
  }

  /** Total attendance over the store. */
  function Attendance(events: seq<TalkEvent>): int {
    if |events| == 0 then 0 else events[0].currentAttendees + Attendance(events[1..])
  }

  /** How many events carry `id`. */
  function CountId(events: seq<TalkEvent>, id: string): nat {
    if |events| == 0 then 0 else (if events[0].id == id then 1 else 0) + CountId(events[1..], id)
  }

  lemma {:induction false} SubscribeAttendance(events: seq<TalkEvent>, id: string)
    ensures Attendance(SubscribeEvents(events, id)) == Attendance(events) + CountId(events, id)
    decreases |events|
  {
    if |events| > 0 {
      var r := SubscribeEvents(events, id);
      assert r[1..] == SubscribeEvents(events[1..], id);
      SubscribeAttendance(events[1..], id);
    }
  }

  lemma {:induction false} CountIdUnique(events: seq<TalkEvent>, id: string)
    requires UniqueIds(events)
    ensures CountId(events, id) == (if HasId(events, id) then 1 else 0)
    decreases |events|
  {
    if |events| > 0 {
      CountIdUnique(events[1..], id);
      if events[0].id == id {
        forall k | 0 <= k < |events[1..]|
          ensures events[1..][k].id != id
        {
          assert events[1..][k] == events[k + 1];
        }
      } else {
        assert HasId(events, id) ==> HasId(events[1..], id) by {
          if HasId(events, id) {
            var k :| 0 <= k < |events| && events[k].id == id;
            assert events[1..][k - 1] == events[k];
          }
        }
        assert HasId(events[1..], id) ==> HasId(events, id) by {
          if HasId(events[1..], id) {
            var k :| 0 <= k < |events[1..]| && events[1..][k].id == id;
            assert events[k + 1].id == id;
          }
        }
      }
    }
  }

  /** In a store with distinct ids one subscribe adds exactly one attendee
      overall when the id is known, and none when it is not. */
  lemma SubscribeAddsOne(s: AppState, eventId: string)
    requires UniqueIds(s.events)
    ensures Attendance(Subscribe(s, eventId).events)
      == Attendance(s.events) + (if HasId(s.events, eventId) then 1 else 0)
  {
    SubscribeAttendance(s.events, eventId);
    CountIdUnique(s.events, eventId);
  }

  /** `n` subscribe calls in a row. */
  function SubscribeTimes(s: AppState, eventId: string, n: nat): (r: AppState)
    ensures |r.events| == |s.events|
  {
    if n == 0 then s else Subscribe(SubscribeTimes(s, eventId, n - 1), eventId)
  }

  /** Nothing bounds repeated subscribes: the matching event gains `n`
      attendees whatever its capacity, and every other event is untouched. */
  lemma {:induction false} SubscribeTimesUnbounded(s: AppState, eventId: string, n: nat)
    ensures var r := SubscribeTimes(s, eventId, n);
      && |r.events| == |s.events|
      && (forall i :: 0 <= i < |s.events| && s.events[i].id == eventId ==>
            r.events[i] == s.events[i].(currentAttendees := s.events[i].currentAttendees + n))
      && (forall i :: 0 <= i < |s.events| && s.events[i].id != eventId ==> r.events[i] == s.events[i])
  {
    if n > 0 {
      SubscribeTimesUnbounded(s, eventId, n - 1);
      var prev := SubscribeTimes(s, eventId, n - 1);
      var r := Subscribe(prev, eventId);
      forall i | 0 <= i < |s.events|
        ensures r.events[i] == (if s.events[i].id == eventId
          then s.events[i].(currentAttendees := s.events[i].currentAttendees + n)
          else s.events[i])
      {
        assert prev.events[i].id == s.events[i].id;
      }
    }
  }

  /** Enough direct subscribe calls push any known event past its capacity. */
  lemma SubscribeCanExceedCapacity(s: AppState, k: nat)
    requires k < |s.events| && WithinCapacity(s.events[k])
    ensures var n := s.events[k].maxAttendees - s.events[k].currentAttendees + 1;
      n > 0 && !WithinCapacity(SubscribeTimes(s, s.events[k].id, n).events[k])
  {
    var n := s.events[k].maxAttendees - s.events[k].currentAttendees + 1;
    SubscribeTimesUnbounded(s, s.events[k].id, n);
    var r := SubscribeTimes(s, s.events[k].id, n);
    assert r.events[k] == s.events[k].(currentAttendees := s.events[k].currentAttendees + n);
  }

  // ----------------------------------------------------------- join / leave

  /** The one-participant session the join handler builds for event `e`. */
  function SessionFor(e: TalkEvent, eventId: string, userId: string): StreamSession {
    var isHost := e.host.id == userId;
    StreamSession(eventId, [Participant(userId, if isHost then e.host.name else "Attendee", isHost)], true)
  }

  function JoinStream(s: AppState, userId: string, eventId: string): (s': AppState)
    ensures !HasId(s.events, eventId) ==> s' == s
    ensures HasId(s.events, eventId) ==>
      var e := FindEvent(s.events, eventId).value;
      && s'.events == s.events
      && s'.view == StreamView
      && s'.activeStream.Some?
      && s'.activeStream.value.eventId == eventId
      && s'.activeStream.value.isActive
      && |s'.activeStream.value.participants| == 1
      && s'.activeStream.value.participants[0].id == userId
      && (s'.activeStream.value.participants[0].isHost <==> e.host.id == userId)
      && s'.activeStream.value.participants[0].name == (if e.host.id == userId then e.host.name else "Attendee")
  {
    match FindEvent(s.events, eventId)
    case None => s
    case Some(e) => s.(activeStream := Some(SessionFor(e, eventId, userId)), view := StreamView)
  }

  function LeaveStream(s: AppState): (s': AppState)
    ensures s'.activeStream.None? && s'.view == ListView && s'.events == s.events
  {
    s.(activeStream := None, view := ListView)
  }

  /** The role the stream view is rendered with: the local user's
      participant entry's host flag, false when there is none. */
  function SessionIsHost(session: StreamSession, userId: string): (r: bool)
    ensures (forall j :: 0 <= j < |session.participants| ==> session.participants[j].id != userId) ==> !r
    ensures forall k ::
      (0 <= k < |session.participants| && session.participants[k].id == userId &&
       (forall j :: 0 <= j < k ==> session.participants[j].id != userId)) ==> r == session.participants[k].isHost
  {
    match FindFirst(session.participants, (p: Participant) => p.id == userId)
    case None => false
    case Some(k) => session.participants[k].isHost
  }

  /** The role the stream view derives agrees with the host check made on
      join. */
  lemma JoinedRoleIsHostCheck(s: AppState, userId: string, eventId: string)
    requires HasId(s.events, eventId)
    ensures var s' := JoinStream(s, userId, eventId);
      s'.activeStream.Some? &&
      (SessionIsHost(s'.activeStream.value, userId) <==> FindEvent(s.events, eventId).value.host.id == userId)
  {
  }

  /** Leaving and rejoining builds the same fresh session: nothing of the
      earlier session carries over. */
  lemma RejoinIsFresh(s: AppState, userId: string, eventId: string, screen: Option<SV.Screen>)
    requires HasId(s.events, eventId)
    ensures var once := JoinStream(s, userId, eventId);
      var left := LeaveStream(once);
      var again := JoinStream(left, userId, eventId);
      && again.activeStream == once.activeStream
      && NextScreen(once, screen, left).None?
      && NextScreen(left, NextScreen(once, screen, left), again) == Some(SV.Mount())
  {
  }

  // ---------------------------------------------------------- stream screen

  /** The stream screen is on the page exactly while the view is the stream
      view and a session exists. */
  predicate ScreenShown(s: AppState) {
    s.view == StreamView && s.activeStream.Some?
  }

  /** The stream screen's state across a transition from `before` to
      `after`: it exists only while shown, is kept while it stays shown,
      and is mounted afresh when it appears. */
  function NextScreen(before: AppState, screen: Option<SV.Screen>, after: AppState): (r: Option<SV.Screen>)
    ensures r.Some? <==> ScreenShown(after)
    ensures ScreenShown(after) && !ScreenShown(before) ==> r == Some(SV.Mount())
    ensures ScreenShown(after) && ScreenShown(before) && screen.Some? ==> r == screen
  {
    if !ScreenShown(after) then None
    else if ScreenShown(before) && screen.Some? then screen
    else Some(SV.Mount())
  }
}

/** What one event card shows: the live badge, the host marker, the join
    button and the subscribe button. The current time is a parameter. */
module EventCard {
  import opened Wrappers
  import opened Events
  import App

  /** The talk is on air: `now` lies in its closed time window. */
  predicate IsLive(e: TalkEvent, now: int) {
    e.startTime <= now && now <= e.endTime
  }

  predicate IsHostOf(e: TalkEvent, userId: string) {
    e.host.id == userId
  }

  predicate IsFull(e: TalkEvent) {
    e.currentAttendees >= e.maxAttendees
  }

  datatype SubscribeButton = SubscribeButton(disabled: bool, text: string)

  /** The rendered card: whether the LIVE badge shows, the host line, and
      the label of each button that is shown. */
  datatype Card = Card(
    liveBadge: bool,
    hostLine: string,
    joinButton: Option<string>,
    subscribeButton: Option<SubscribeButton>)

  function Render(e: TalkEvent, userId: string, now: int, showJoinStream: bool, hasJoinCallback: bool): (c: Card)
    ensures c.liveBadge <==> e.startTime <= now <= e.endTime
    ensures c.hostLine == e.host.name + (if e.host.id == userId then " (You)" else "")
    ensures c.joinButton.Some? <==> showJoinStream && hasJoinCallback && e.startTime <= now <= e.endTime
    ensures c.joinButton.Some? ==>
      c.joinButton.value in {"Start Stream", "Join Stream"} &&
      (c.joinButton.value == "Start Stream" <==> e.host.id == userId)
    ensures c.subscribeButton.Some? <==> e.host.id != userId
    ensures c.subscribeButton.Some? ==>
      && (c.subscribeButton.value.disabled <==> e.currentAttendees >= e.maxAttendees)
      && c.subscribeButton.value.text in {"Event Full", "Subscribe to Event"}
      && (c.subscribeButton.value.text == "Event Full" <==> c.subscribeButton.value.disabled)
  {
    var live := IsLive(e, now);
    var host := IsHostOf(e, userId);
    Card(
      live,
      e.host.name + (if host then " (You)" else ""),
      if showJoinStream && live && hasJoinCallback
        then Some(if host then "Start Stream" else "Join Stream")
        else None,
      if host then None
      else Some(SubscribeButton(IsFull(e), if IsFull(e) then "Event Full" else "Subscribe to Event")))
  }

  /** The button guard keeps capacity for a card rendered from the live
      store (the event list): subscribing through its enabled button never
      pushes any event past its capacity. */
  lemma EnabledSubscribeKeepsCapacity(s: App.AppState, k: nat, userId: string, now: int, showJoinStream: bool, hasJoinCallback: bool)
    requires UniqueIds(s.events) && k < |s.events|
    requires forall i :: 0 <= i < |s.events| ==> WithinCapacity(s.events[i])
    requires var c := Render(s.events[k], userId, now, showJoinStream, hasJoinCallback);
      c.subscribeButton.Some? && !c.subscribeButton.value.disabled
    ensures var s' := App.Subscribe(s, s.events[k].id);
      forall i :: 0 <= i < |s'.events| ==> WithinCapacity(s'.events[i])
  {
  }

  /** The calendar's detail card is rendered from a snapshot of the event
      taken when it was selected, and subscribing never refreshes that
      snapshot. Its subscribe button therefore stays enabled while direct
      subscribes through it carry the live event past its capacity. */
  lemma StaleSnapshotBypassesGuard(s: App.AppState, k: nat, userId: string, now: int, showJoinStream: bool, hasJoinCallback: bool)
    requires k < |s.events| && s.events[k].host.id != userId && !IsFull(s.events[k])
    ensures var snapshot := s.events[k];
      var n := snapshot.maxAttendees - snapshot.currentAttendees + 1;
      var s' := App.SubscribeTimes(s, snapshot.id, n);
      && Render(snapshot, userId, now, showJoinStream, hasJoinCallback).subscribeButton
           == Some(SubscribeButton(false, "Subscribe to Event"))
      && s'.events[k].currentAttendees == snapshot.maxAttendees + 1
      && !WithinCapacity(s'.events[k])
  {
    var snapshot := s.events[k];
    var n := snapshot.maxAttendees - snapshot.currentAttendees + 1;
    App.SubscribeTimesUnbounded(s, snapshot.id, n);
    var s' := App.SubscribeTimes(s, snapshot.id, n);
    assert s'.events[k] == snapshot.(currentAttendees := snapshot.currentAttendees + n);
    assert !IsFull(snapshot);
  }

  /** The join button's label matches the role the session then gives the
      user: "Start Stream" exactly when the joined session marks them host. */
  lemma JoinLabelMatchesRole(s: App.AppState, k: nat, userId: string, now: int)
    requires UniqueIds(s.events) && k < |s.events|
    requires Render(s.events[k], userId, now, true, true).joinButton.Some?
    ensures var s' := App.JoinStream(s, userId, s.events[k].id);
      s'.activeStream.Some? &&
      (App.SessionIsHost(s'.activeStream.value, userId) <==>
         Render(s.events[k], userId, now, true, true).joinButton.value == "Start Stream")
  {
  }

  /** Nothing prevents an end time before the start time; such an event is
      never live, so no card ever offers to join it. */
  lemma InvertedWindowNeverJoinable(e: TalkEvent, userId: string, now: int, showJoinStream: bool, hasJoinCallback: bool)
    requires e.endTime < e.startTime
    ensures Render(e, userId, now, showJoinStream, hasJoinCallback).joinButton.None?
    ensures !Render(e, userId, now, showJoinStream, hasJoinCallback).liveBadge
  {
  }

  /** A worked run: a talk for two is created, two other users subscribe,
      and the third visitor finds the button disabled and marked full. */
  lemma TalkForTwoFillsUp(hostId: string, visitorId: string, id: string, t: int)
    requires visitorId != hostId
    ensures var draft := EventDraft("Demo", "", t, t + 3600000, "Alice", 2);
      var s1 := App.CreateEvent(App.Init(), hostId, draft, id);
      var s3 := App.Subscribe(App.Subscribe(s1, id), id);
      && |s3.events| == 1
      && s1.events[0].currentAttendees == 0
      && App.Subscribe(s1, id).events[0].currentAttendees == 1
      && s3.events[0].currentAttendees == 2
      && Render(s3.events[0], visitorId, t, true, true).subscribeButton
           == Some(SubscribeButton(true, "Event Full"))
  {
  }
}

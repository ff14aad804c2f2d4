# Talk Studio state model

A Dafny model of the in-memory state machine of Talk Studio, a browser client
for scheduling talks and hosting a local live-stream preview with chat. The
client keeps all of its state in React components. This model pulls that state
out into immutable records and pure transition functions:

- **Event store** (`App`): the controller's `{events, view, activeStream}`
  record. It models the create, subscribe, join-stream and leave-stream
  handlers, and the host role the stream screen derives from the session.
- **Stream screen** (`StreamView`): the chat log with its single
  featured-message slot, the send and spotlight handlers, and the mic/camera
  toggles over an optional media handle.
- **Chat panel** (`ChatPanel`): the submit guard on trimmed text, with
  JavaScript's `trim` whitespace set written out, and the input reset.
- **Event card** (`EventCard`): the live window, the host check, and which
  buttons appear with which labels.
- **Calendar adapter** (`EventTransform`): the map from events to calendar
  entries.

Record shapes follow `src/types/event.ts`, `src/types/stream.ts` and
`src/types/chat.ts` (modules `Events`, `Streams`, `Chat`). The sequence helper
`Seqs.FindFirst` plays the part of `Array.prototype.find`.

Modelling choices:

- Dates are integers, in milliseconds since the epoch.
- Ids are strings.
- Three inputs are parameters of the operations: the client's identity
  (`userId`), every fresh UUID (`freshId`) and the current time (`now`).
- A message's optional `featured` field is `Option<bool>`. A message counts as
  featured exactly when the field is `Some(true)`, which is JavaScript
  truthiness.
- The featured slot keeps the message record as it was *before* the toggle
  (`src/components/Stream/StreamView.tsx:85` stores `message`, not the updated
  one). So the invariant `StreamView.Valid` says that the slot agrees with the
  featured message on every field except `featured`.
- The spotlight handler flips every message that carries the target id. "At
  most one featured" therefore depends on message ids being distinct. Those ids
  are fresh UUIDs, and `Valid` includes their distinctness.

Behaviours of the code to note:

- The "ignore blank messages" rule sits in the chat panel's submit handler
  (`src/components/Stream/ChatPanel.tsx:27`), not in the send handler.
  `SendMessage` appends whatever it is given, and `SubmitChat` composes the
  two.
- A sent message's sender id is the constant `"you"`
  (`src/components/Stream/StreamView.tsx:68`), not the client's identity.
- The stream screen is on the page only while the view is the stream view
  and a session exists (`src/App.tsx:126`). Leaving removes it, so a rejoin
  mounts a new screen with an empty chat (`App.NextScreen`, `StreamView.Mount`).

## Model

| member | source | states |
|---|---|---|
| App.Init | src/App.tsx:12-16 | the controller starts with an empty store, the calendar view and no session, so no stream screen |
| Seqs.FindFirst | src/App.tsx:42 | the index returned is the first whose element satisfies the predicate; None exactly when no element does |
| Events.FindEvent | src/App.tsx:42 | finds an event with the id exactly when the store holds one, and it is the first such event in store order (with distinct ids, the event at that id's position) |
| App.NewEvent | src/App.tsx:19-27 | the new event has the fresh id, zero attendees, host id = current user, host name from the draft, and the draft's other fields (the draft round-trips through ToDraft) |
| App.CreateEvent | src/App.tsx:18-30 | exactly one event appended at the end, earlier events unchanged and in order; view becomes calendar; session untouched |
| App.CreatePreservesUniqueIds | src/App.tsx:21-28 | an id not yet in the store keeps all store ids pairwise distinct |
| App.CreateAllKeepsOrder | src/App.tsx:18-30 | any run of creates keeps the old events first, then one new event per call in call order |
| App.CreateAllUniqueIds | src/App.tsx:18-30 | any run of creates with distinct fresh ids keeps store ids pairwise distinct |
| App.SubscribeEvents | src/App.tsx:33-37 | same length; each event with the id gains exactly one attendee and nothing else changes; other events are untouched |
| App.Subscribe | src/App.tsx:32-39 | length, order and ids preserved; matching events bumped by one, others unchanged; view and session untouched |
| App.SubscribeUnknownIsNoop | src/App.tsx:33-37 | subscribing to an unknown id leaves the whole state unchanged |
| App.SubscribeCommutes | src/App.tsx:33-37 | two subscriptions give the same state in either order |
| App.SubscribeAttendance | src/App.tsx:33-37 | total attendance grows by the number of events carrying the id |
| App.SubscribeAddsOne | src/App.tsx:33-37 | with distinct ids, total attendance grows by exactly one for a known id and by zero for an unknown one |
| App.SubscribeTimesUnbounded | src/App.tsx:33-37 | n subscribes add exactly n to the matching event with no capacity ceiling; other events untouched |
| App.SubscribeCanExceedCapacity | src/App.tsx:33-37 | direct subscribe calls push any event past maxAttendees, since the handler has no capacity check |
| App.JoinStream | src/App.tsx:41-54 | unknown id: state unchanged; known id: a live session for that id with one participant, the user, host iff the event's host id is the user, named the host name or "Attendee"; view stream; store untouched |
| App.LeaveStream | src/App.tsx:56-59 | session dropped, view list, store untouched |
| App.SessionIsHost | src/App.tsx:130 | the role handed to the stream screen is the host flag of the first participant whose id is the user's, and false when no participant has it |
| App.JoinedRoleIsHostCheck | src/App.tsx:130 | the role the stream screen derives from the session equals the join handler's host check |
| App.RejoinIsFresh | src/App.tsx:41-59 | leaving and rejoining the same event builds the same session as the first join, removes the old stream screen on leave, and mounts a fresh one (empty chat, nothing featured) on rejoin |
| App.NextScreen | src/App.tsx:126-135 | the stream screen exists exactly while the view is the stream view with a session; it is kept while it stays shown and mounted afresh when it appears |
| StreamView.EmptyLog | src/components/Stream/StreamView.tsx:20-21 | a new screen's chat has no messages and an empty featured slot |
| StreamView.FreshScreenValid | src/components/Stream/StreamView.tsx:20-21 | the empty chat satisfies the chat invariant (its base case) |
| StreamView.Mount | src/components/Stream/StreamView.tsx:17-23 | a mounted screen has an empty valid chat, both controls on with no media, tracks in step, and the chat panel closed with an empty input |
| StreamView.ToggleChat | src/components/Stream/StreamView.tsx:126 | opening or closing the chat flips the open flag and empties the input box, keeping the log and controls |
| StreamView.ReopenChatDropsDraft | src/components/Stream/StreamView.tsx:143-152 | closing and reopening the chat loses the half-typed input and nothing else |
| StreamView.NewMessage | src/components/Stream/StreamView.tsx:66-73 | content and host flag copied, sender id "you", sender name "Host" or "You" by role, featured unset |
| StreamView.SendMessage | src/components/Stream/StreamView.tsx:65-75 | exactly one message appended at the end, earlier messages untouched, slot unchanged |
| StreamView.SendPreservesValid | src/components/Stream/StreamView.tsx:65-75 | sending with a fresh id keeps ids distinct, at most one message featured, and the slot in agreement |
| StreamView.ToggleAll | src/components/Stream/StreamView.tsx:80-83 | same length; every field except featured kept; target flag negated (unset counts as false), every other flag cleared |
| StreamView.FeatureMessage | src/components/Stream/StreamView.tsx:77-87 | unknown id: log and slot unchanged; known id: length, order and other fields kept, non-targets unfeatured, target's flag flipped, and the slot becomes empty if the first message with the id was featured, else that message as it was before the toggle |
| StreamView.FeaturePreservesValid | src/components/Stream/StreamView.tsx:77-87 | after any toggle at most one message is featured, and the slot is empty iff none is, otherwise holds the featured message |
| StreamView.FeatureTwice | src/components/Stream/StreamView.tsx:80-85 | toggling one id twice restores its flag and leaves every other message unfeatured; the slot is empty iff nothing is featured |
| StreamView.FeatureThenOther | src/components/Stream/StreamView.tsx:80-85 | toggling id1 then a different id2 leaves exactly id2 featured, with the slot holding id2 |
| StreamView.ToggleMic | src/components/Stream/StreamView.tsx:47-54 | no-op without a media handle; with one, flips the mic flag only and sets every audio track to the new flag, video untouched |
| StreamView.ToggleCamera | src/components/Stream/StreamView.tsx:56-63 | no-op without a media handle; with one, flips the camera flag only and sets every video track to the new flag, audio untouched |
| StreamView.TogglesKeepTracksAgree | src/components/Stream/StreamView.tsx:47-63 | toggles keep track states in step with the controls, and a double toggle restores the controls |
| StreamView.Acquire | src/components/Stream/StreamView.tsx:28-32 | a capture installs a handle whose tracks are all enabled and leaves the control flags as they were |
| StreamView.CaptureOnFreshScreenAgrees | src/components/Stream/StreamView.tsx:17-18 | controls start on, toggles before capture do nothing, and a capture then has every track in step |
| StreamView.FeatureButtonInPanel | src/components/Stream/StreamView.tsx:148 | the panel's spotlight button appears exactly for the host, because the callback is supplied only to the host |
| StreamView.SubmitChat | src/components/Stream/ChatPanel.tsx:25-31 | blank input: log and input unchanged; otherwise exactly one message with the untrimmed text appended and the input cleared |
| StreamView.SubmitChatPreservesValid | src/components/Stream/StreamView.tsx:65-75 | a submit with a fresh id keeps the chat invariant |
| ChatPanel.TrimStart | src/components/Stream/ChatPanel.tsx:27 | result is a suffix of the input, all dropped characters are trimmable, and it does not start with one |
| ChatPanel.TrimEnd | src/components/Stream/ChatPanel.tsx:27 | result is a prefix of the input, all dropped characters are trimmable, and it does not end with one |
| ChatPanel.TrimIsCore | src/components/Stream/ChatPanel.tsx:27 | trim returns the slice between the bounds it names, whose surroundings are all trimmable and whose ends are not |
| ChatPanel.TrimEmptyIffBlank | src/components/Stream/ChatPanel.tsx:27 | trimmed text is empty iff every character is trimmable |
| ChatPanel.Submit | src/components/Stream/ChatPanel.tsx:25-31 | sends iff some character is not trimmable; a send carries the untrimmed text once and resets the input to ""; otherwise nothing is sent and the input is kept (for as long as the panel stays open, see StreamView.ToggleChat) |
| ChatPanel.FeatureButtonShown | src/components/Stream/ChatPanel.tsx:54 | the star button is shown iff the viewer is host and a feature callback is supplied |
| EventCard.Render | src/components/Events/EventCard.tsx:14-68 | live iff start <= now <= end; join button iff showJoinStream, live and a callback, labelled "Start Stream" iff host, else "Join Stream"; subscribe button iff not host, disabled and labelled "Event Full" iff attendees >= capacity |
| EventCard.EnabledSubscribeKeepsCapacity | src/components/Events/EventCard.tsx:62-68 | for a card rendered from the live store (the event list), subscribing through its enabled button keeps every event within capacity |
| EventCard.StaleSnapshotBypassesGuard | src/App.tsx:137-146 | a card rendered from a selected-event snapshot keeps an enabled subscribe button while subscribes through it carry the live event past capacity |
| EventCard.JoinLabelMatchesRole | src/components/Events/EventCard.tsx:52-58 | the join label is "Start Stream" exactly when the session the join builds marks the user host |
| EventCard.InvertedWindowNeverJoinable | src/components/Events/EventCard.tsx:14 | an event ending before it starts is never live and never offers a join button |
| EventCard.TalkForTwoFillsUp | src/components/Events/EventCard.tsx:66-68 | a talk for two, created and subscribed twice, has two attendees and shows a disabled "Event Full" button to a visitor |
| EventTransform.ToEntry | src/utils/eventTransform.ts:12-15 | the entry carries the event and shows its title, start and end |
| EventTransform.ToCalendarEvents | src/utils/eventTransform.ts:10-16 | same length and order; entry i carries event i and shows its title, start and end; empty maps to empty |
| EventTransform.ResourcesRoundTrip | src/utils/eventTransform.ts:15 | the events carried by the entries are exactly the input, in order |
| EventTransform.ToCalendarEventsAppend | src/utils/eventTransform.ts:10-11 | the adapter distributes over concatenation of stores |
| EventTransform.CalendarAfterCreate | src/utils/eventTransform.ts:10-16 | creating an event appends exactly its entry to the calendar and keeps the others |
| EventTransform.CalendarAfterSubscribe | src/utils/eventTransform.ts:10-16 | subscribing changes no entry's title, start or end |

## Left out

- Media capture and teardown (`src/components/Stream/StreamView.tsx:25-45`) are asynchronous browser I/O. The model keeps only `Acquire` for a successful capture. It leaves out the failure path, which only logs. It also leaves out the cleanup closure: it sees `localStream` as null at mount, so the tracks are never stopped.
- `crypto.randomUUID` and `new Date()` are parameters (`freshId`, `now`, `userId`). `alert` after a subscribe is dropped.
- The event form's conversion of `datetime-local` strings and of the capacity field (`src/components/Events/EventForm.tsx:20-28`) depends on JavaScript Date and NaN semantics. The model starts from an already-converted `EventDraft`.
- JavaScript numbers are doubles. Attendee counts and times are unbounded integers here, which agree with doubles below 2^53.
- Invalid dates are not modelled: a NaN time compares false to everything.
- The view buttons in the header only switch views and are not modelled apart from the views the handlers set.
- ChatPanel.Submit: the input it keeps survives only while the panel stays open. Closing the chat unmounts the panel and clears the box, which `StreamView.ToggleChat` models.
- The calendar's selected-event modal (`src/App.tsx:137-146`) is modelled only through `EventCard.StaleSnapshotBypassesGuard`. It renders an `EventCard` from a snapshot taken on selection, and its subscribe and join buttons are wired to the live handlers. Subscribing never refreshes the snapshot, so the modal's card can fall behind the store.
- EventCard.EnabledSubscribeKeepsCapacity: holds only for cards rendered from the live store, as the event list does. The modal's stale card offers no such guard; `EventCard.StaleSnapshotBypassesGuard` shows it being bypassed.
- `CalendarView.tsx`, `utils/calendar.ts`, `ParticipantGrid.tsx` and `FeaturedMessage.tsx` are rendering wrappers and are not part of this model. So are all JSX, styling and date-fns formatting.
- Participants' optional live media handle is not modelled: no participant the client builds carries one.
- Dafny's `char` is a Unicode scalar value and JavaScript strings are UTF-16. The model treats text as a sequence of code points; every trimmable character is a single UTF-16 unit, so this makes no difference to trim.

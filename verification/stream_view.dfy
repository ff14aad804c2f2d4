/** The live-session screen: the chat log with its featured-message slot,
    and the microphone/camera controls over an optional media handle. */
module StreamView {
  import opened Wrappers
  import opened Seqs
  import opened Chat
  import ChatPanel

  /** The messages and the single spotlight slot shown over the video. */
  datatype ChatLog = ChatLog(messages: seq<ChatMessage>, featured: Option<ChatMessage>)

  /** A fresh screen's log: no messages, nothing featured. */
  function EmptyLog(): (c: ChatLog)
    ensures c.messages == [] && c.featured.None?
  {
    ChatLog([], None)
  }

  /** The slot agrees with the log: it is empty exactly when no message is
      featured, and otherwise it holds the featured message (up to its own
      flag, since the slot keeps the record as it was before the toggle). */
  predicate SlotAgrees(c: ChatLog) {
    && (c.featured.None? <==> NoneFeatured(c.messages))
    && (c.featured.Some? ==>
          exists i :: 0 <= i < |c.messages| && IsFeatured(c.messages[i])
                      && Unflagged(c.messages[i]) == Unflagged(c.featured.value))
  }

  /** The chat invariant: distinct message ids, at most one featured
      message, and a slot that agrees with the log. */
  predicate Valid(c: ChatLog) {
    UniqueMessageIds(c.messages) && AtMostOneFeatured(c.messages) && SlotAgrees(c)
  }

  predicate HasMessage(ms: seq<ChatMessage>, id: string) {
    exists i :: 0 <= i < |ms| && ms[i].id == id
  }

  // ------------------------------------------------------------------ send

  /** The message the send handler builds from the typed text. */
  function NewMessage(content: string, isHost: bool, freshId: string, now: int): (m: ChatMessage)
    ensures m.id == freshId && m.content == content && m.isHost == isHost && m.timestamp == now
    ensures m.senderId == "you"
    ensures m.senderName == (if isHost then "Host" else "You")
    ensures !IsFeatured(m) && m.featured.None?
  {
    ChatMessage(freshId, "you", if isHost then "Host" else "You", content, now, isHost, None)
  }

  function SendMessage(c: ChatLog, content: string, isHost: bool, freshId: string, now: int): (c': ChatLog)
    ensures |c'.messages| == |c.messages| + 1
    ensures c'.messages[..|c.messages|] == c.messages
    ensures c'.messages[|c.messages|] == NewMessage(content, isHost, freshId, now)
    ensures c'.featured == c.featured
  {
    c.(messages := c.messages + [NewMessage(content, isHost, freshId, now)])
  }

  /** Sending with a fresh id keeps the chat invariant. */
  lemma SendPreservesValid(c: ChatLog, content: string, isHost: bool, freshId: string, now: int)
    requires Valid(c) && !HasMessage(c.messages, freshId)
    ensures Valid(SendMessage(c, content, isHost, freshId, now))
  {
  }

  // --------------------------------------------------------------- feature

  /** The flag a message carries after toggling `id`: the target's flag is
      negated (an unset flag counts as false), every other flag is cleared. */
  function ToggledFlag(m: ChatMessage, id: string): bool {
    if m.id == id then !IsFeatured(m) else false
  }

  /** The log after a spotlight toggle: every message keeps its place and
      its fields, and only its flag is rewritten by ToggledFlag. */
  function ToggleAll(ms: seq<ChatMessage>, id: string): (r: seq<ChatMessage>)
    ensures |r| == |ms|
    ensures forall i :: 0 <= i < |ms| ==> Unflagged(r[i]) == Unflagged(ms[i])
    ensures forall i :: 0 <= i < |ms| ==> r[i].featured == Some(ToggledFlag(ms[i], id))
  {
    if |ms| == 0 then []
    else [ms[0].(featured := Some(ToggledFlag(ms[0], id)))] + ToggleAll(ms[1..], id)
  }

  /** The host's spotlight toggle. An unknown id changes nothing; otherwise
      every other message is unfeatured, the target's flag flips, and the
      slot is cleared or set to the target as it was before the toggle. */
  function FeatureMessage(c: ChatLog, id: string): (c': ChatLog)
    ensures !HasMessage(c.messages, id) ==> c' == c
    ensures HasMessage(c.messages, id) ==>
      && |c'.messages| == |c.messages|
      && (forall i :: 0 <= i < |c.messages| ==> Unflagged(c'.messages[i]) == Unflagged(c.messages[i]))
      && (forall i :: 0 <= i < |c.messages| && c.messages[i].id != id ==> !IsFeatured(c'.messages[i]))
      && (forall i :: 0 <= i < |c.messages| && c.messages[i].id == id ==>
            IsFeatured(c'.messages[i]) == !IsFeatured(c.messages[i]))
    ensures HasMessage(c.messages, id) ==>
      exists k :: 0 <= k < |c.messages| && c.messages[k].id == id &&
        (forall j :: 0 <= j < k ==> c.messages[j].id != id) &&
        c'.featured == (if IsFeatured(c.messages[k]) then None else Some(c.messages[k]))
  {
    match FindFirst(c.messages, (m: ChatMessage) => m.id == id)
    case None => c
    case Some(k) =>
      var target := c.messages[k];
      ChatLog(ToggleAll(c.messages, id), if IsFeatured(target) then None else Some(target))
  }

  /** Index of the message carrying `id` in a log with distinct ids. */
  lemma IndexOfId(ms: seq<ChatMessage>, id: string) returns (k: nat)
    requires UniqueMessageIds(ms) && HasMessage(ms, id)
    ensures k < |ms| && ms[k].id == id
    ensures forall i :: 0 <= i < |ms| && ms[i].id == id ==> i == k
  {
    k :| 0 <= k < |ms| && ms[k].id == id;
  }

  /** Toggling keeps the chat invariant: in particular at most one message
      is featured afterwards, and the slot names it. */
  lemma FeaturePreservesValid(c: ChatLog, id: string)
    requires Valid(c)
    ensures Valid(FeatureMessage(c, id))
  {
  }

  /** Toggling the same message twice restores its flag and leaves every
      other message unfeatured; in particular a double toggle of a message
      that was not featured leaves nothing featured. */
  lemma FeatureTwice(c: ChatLog, id: string)
    requires Valid(c) && HasMessage(c.messages, id)
    ensures var c2 := FeatureMessage(FeatureMessage(c, id), id);
      && |c2.messages| == |c.messages|
      && (forall i :: 0 <= i < |c.messages| ==>
            IsFeatured(c2.messages[i]) == (c.messages[i].id == id && IsFeatured(c.messages[i])))
      && (NoneFeatured(c2.messages) <==> c2.featured.None?)
  {
  }

  /** Toggling one message and then a different one leaves exactly the
      second featured, and the slot holds it. */
  lemma FeatureThenOther(c: ChatLog, id1: string, id2: string)
    requires Valid(c) && HasMessage(c.messages, id1) && HasMessage(c.messages, id2) && id1 != id2
    ensures var c2 := FeatureMessage(FeatureMessage(c, id1), id2);
      && (forall i :: 0 <= i < |c2.messages| ==> (IsFeatured(c2.messages[i]) <==> c2.messages[i].id == id2))
      && c2.featured.Some? && c2.featured.value.id == id2
  {
    var c1 := FeatureMessage(c, id1);
    FeaturePreservesValid(c, id1);
    forall i | 0 <= i < |c.messages|
      ensures c1.messages[i].id == c.messages[i].id
    {
      assert Unflagged(c1.messages[i]).id == Unflagged(c.messages[i]).id;
    }
    assert HasMessage(c1.messages, id2) by {
      var k :| 0 <= k < |c.messages| && c.messages[k].id == id2;
      assert c1.messages[k].id == id2;
    }
    var c2 := FeatureMessage(c1, id2);
    FeaturePreservesValid(c1, id2);
    forall i | 0 <= i < |c1.messages|
      ensures c2.messages[i].id == c1.messages[i].id
    {
      assert Unflagged(c2.messages[i]).id == Unflagged(c1.messages[i]).id;
    }
    var k2 := IndexOfId(c1.messages, id2);
    assert !IsFeatured(c1.messages[k2]);
    assert IsFeatured(c2.messages[k2]);
    var j :| 0 <= j < |c2.messages| && IsFeatured(c2.messages[j]) && Unflagged(c2.messages[j]) == Unflagged(c2.featured.value);
    assert j == k2;
    assert Unflagged(c2.featured.value).id == c2.featured.value.id;
  }

  // ----------------------------------------------------------------- media

  /** The captured camera/microphone stream: one enabled flag per track. */
  datatype MediaHandle = MediaHandle(audioTracks: seq<bool>, videoTracks: seq<bool>)

  /** The control bar: the handle, present once capture has succeeded, and
      the on/off state of each control. */
  datatype Controls = Controls(handle: Option<MediaHandle>, micOn: bool, cameraOn: bool)

  /** Both controls start on, before any media has been captured. */
  function InitialControls(): Controls {
    Controls(None, true, true)
  }

  function SetAll(tracks: seq<bool>, enabled: bool): (r: seq<bool>)
    ensures |r| == |tracks|
    ensures forall i :: 0 <= i < |r| ==> r[i] == enabled
  {
    seq(|tracks|, _ => enabled)
  }

  function ToggleMic(c: Controls): (c': Controls)
    ensures c.handle.None? ==> c' == c
    ensures c.handle.Some? ==>
      && c'.micOn == !c.micOn && c'.cameraOn == c.cameraOn
      && c'.handle.Some? && c'.handle.value.videoTracks == c.handle.value.videoTracks
      && |c'.handle.value.audioTracks| == |c.handle.value.audioTracks|
      && (forall i :: 0 <= i < |c'.handle.value.audioTracks| ==> c'.handle.value.audioTracks[i] == c'.micOn)
  {
    match c.handle
    case None => c
    case Some(h) => Controls(Some(h.(audioTracks := SetAll(h.audioTracks, !c.micOn))), !c.micOn, c.cameraOn)
  }

  function ToggleCamera(c: Controls): (c': Controls)
    ensures c.handle.None? ==> c' == c
    ensures c.handle.Some? ==>
      && c'.cameraOn == !c.cameraOn && c'.micOn == c.micOn
      && c'.handle.Some? && c'.handle.value.audioTracks == c.handle.value.audioTracks
      && |c'.handle.value.videoTracks| == |c.handle.value.videoTracks|
      && (forall i :: 0 <= i < |c'.handle.value.videoTracks| ==> c'.handle.value.videoTracks[i] == c'.cameraOn)
  {
    match c.handle
    case None => c
    case Some(h) => Controls(Some(h.(videoTracks := SetAll(h.videoTracks, !c.cameraOn))), c.micOn, !c.cameraOn)
  }

  /** Every track's enabled flag matches the control that governs it. */
  predicate TracksAgree(c: Controls) {
    c.handle.Some? ==>
      && (forall i :: 0 <= i < |c.handle.value.audioTracks| ==> c.handle.value.audioTracks[i] == c.micOn)
      && (forall i :: 0 <= i < |c.handle.value.videoTracks| ==> c.handle.value.videoTracks[i] == c.cameraOn)
  }

  /** Toggles keep the tracks in step with the controls, and toggling a
      control twice restores the controls and the tracks. */
  lemma TogglesKeepTracksAgree(c: Controls)
    requires TracksAgree(c)
    ensures TracksAgree(ToggleMic(c)) && TracksAgree(ToggleCamera(c))
    ensures ToggleMic(ToggleMic(c)) == c && ToggleCamera(ToggleCamera(c)) == c
  {
    if c.handle.Some? {
      var h := c.handle.value;
      assert ToggleMic(ToggleMic(c)).handle.value.audioTracks == h.audioTracks;
      assert ToggleCamera(ToggleCamera(c)).handle.value.videoTracks == h.videoTracks;
    }
  }

  /** Successful capture: the stream arrives with every track enabled and
      the controls keep their state. */
  function Acquire(c: Controls, audioCount: nat, videoCount: nat): (c': Controls)
    ensures c'.handle.Some? && c'.micOn == c.micOn && c'.cameraOn == c.cameraOn
    ensures |c'.handle.value.audioTracks| == audioCount && |c'.handle.value.videoTracks| == videoCount
    ensures forall i :: 0 <= i < audioCount ==> c'.handle.value.audioTracks[i]
    ensures forall i :: 0 <= i < videoCount ==> c'.handle.value.videoTracks[i]
  {
    c.(handle := Some(MediaHandle(seq(audioCount, _ => true), seq(videoCount, _ => true))))
  }

  /** Toggles before capture change nothing, so a capture on a freshly
      mounted screen starts with the tracks in step with the controls. */
  lemma CaptureOnFreshScreenAgrees(audioCount: nat, videoCount: nat)
    ensures ToggleMic(InitialControls()) == InitialControls()
    ensures ToggleCamera(InitialControls()) == InitialControls()
    ensures TracksAgree(Acquire(InitialControls(), audioCount, videoCount))
  {
  }

  // ------------------------------------------------------ chat panel wiring

  /** Whether the message list shows the spotlight button: the screen hands
      the panel a feature callback only when the local user hosts. */
  function FeatureButtonInPanel(isHost: bool): (shown: bool)
    ensures shown <==> isHost
  {
    ChatPanel.FeatureButtonShown(isHost, isHost)
  }

  /** Pressing send in the panel: the panel's guard decides whether the
      screen's send handler runs. Returns the log and the input box. */
  function SubmitChat(c: ChatLog, input: string, isHost: bool, freshId: string, now: int): (r: (ChatLog, string))
    ensures ChatPanel.AllTrimmable(input) ==> r.0 == c && r.1 == input
    ensures !ChatPanel.AllTrimmable(input) ==>
      && |r.0.messages| == |c.messages| + 1
      && r.0.messages[..|c.messages|] == c.messages
      && r.0.messages[|c.messages|] == NewMessage(input, isHost, freshId, now)
      && r.0.featured == c.featured
      && r.1 == ""
  {
    var o := ChatPanel.Submit(input);
    match o.sent
    case None => (c, o.input)
    case Some(text) => (SendMessage(c, text, isHost, freshId, now), o.input)
  }

  /** A submit with a fresh id keeps the chat invariant. */
  lemma SubmitChatPreservesValid(c: ChatLog, input: string, isHost: bool, freshId: string, now: int)
    requires Valid(c) && !HasMessage(c.messages, freshId)
    ensures Valid(SubmitChat(c, input, isHost, freshId, now).0)
  {
    if !ChatPanel.AllTrimmable(input) {
      SendPreservesValid(c, input, isHost, freshId, now);
      assert SubmitChat(c, input, isHost, freshId, now).0 == SendMessage(c, input, isHost, freshId, now);
    }
  }

  // ---------------------------------------------------------------- screen

  /** The stream screen's local state: the chat log, the controls, whether
      the chat panel is open, and the text in the panel's input box. */
  datatype Screen = Screen(log: ChatLog, controls: Controls, chatOpen: bool, input: string)

  /** A freshly mounted screen: empty chat with nothing featured, both
      controls on and no media yet, the chat panel closed. */
  function Mount(): (sc: Screen)
    ensures sc.log.messages == [] && sc.log.featured.None? && Valid(sc.log)
    ensures sc.controls.handle.None? && sc.controls.micOn && sc.controls.cameraOn && TracksAgree(sc.controls)
    ensures !sc.chatOpen && sc.input == ""
  {
    Screen(EmptyLog(), InitialControls(), false, "")
  }

  /** The base case of the chat invariant. */
  lemma FreshScreenValid()
    ensures Valid(EmptyLog())
  {
  }

  /** Opening or closing the chat. Closing removes the panel and opening
      builds a new one, so either way the input box is empty afterwards;
      the log and the controls belong to the screen and are kept. */
  function ToggleChat(sc: Screen): (sc': Screen)
    ensures sc'.chatOpen == !sc.chatOpen && sc'.input == ""
    ensures sc'.log == sc.log && sc'.controls == sc.controls
  {
    Screen(sc.log, sc.controls, !sc.chatOpen, "")
  }

  /** Closing and reopening the chat loses any half-typed text and nothing
      else. */
  lemma ReopenChatDropsDraft(sc: Screen)
    requires sc.chatOpen
    ensures ToggleChat(ToggleChat(sc)) == sc.(input := "")
  {
  }
}

/** Chat messages of one stream session. */
module Chat {
  import opened Wrappers

  /** `featured` is optional in the client: None until the host first
      toggles a spotlight, after which every message carries Some(flag). */
  datatype ChatMessage = ChatMessage(
    id: string,
    senderId: string,
    senderName: string,
    content: string,
    timestamp: int,
    isHost: bool,
    featured: Option<bool>)

  /** JavaScript truthiness of the optional flag. */
  predicate IsFeatured(m: ChatMessage) {
    m.featured == Some(true)
  }

  /** A message with its spotlight flag erased: the part of a message that
      no chat operation ever changes. */
  function Unflagged(m: ChatMessage): ChatMessage {
    m.(featured := None)
  }

  predicate UniqueMessageIds(ms: seq<ChatMessage>) {
    forall i, j :: 0 <= i < j < |ms| ==> ms[i].id != ms[j].id
  }

  predicate AtMostOneFeatured(ms: seq<ChatMessage>) {
    forall i, j :: 0 <= i < |ms| && 0 <= j < |ms| && IsFeatured(ms[i]) && IsFeatured(ms[j]) ==> i == j
  }

  predicate NoneFeatured(ms: seq<ChatMessage>) {
    forall i :: 0 <= i < |ms| ==> !IsFeatured(ms[i])
  }
}

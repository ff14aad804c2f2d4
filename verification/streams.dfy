/** The ephemeral live-session record the controller holds while a user is in
    the stream view. A participant's live media handle is not modelled: no
    participant the client builds ever carries one. */
module Streams {

  datatype Participant = Participant(id: string, name: string, isHost: bool)

  datatype StreamSession = StreamSession(
    eventId: string,
    participants: seq<Participant>,
    isActive: bool)
}

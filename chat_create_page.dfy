/**
 * The "Create Chat Room" page (`app/protected/chat/create/page.tsx`): it keeps
 * the two form fields, a loading flag and an error text, and its submit handler
 * trims the fields, refuses a blank name, posts the rest to `/api/chat-rooms`
 * and either shows an error or navigates to the new room.
 *
 * The `fetch` call and the reading of its JSON body are one parameter, the
 * outcome of the request.
 */
module ChatCreatePage {
  import opened Common
  import ChatRoomsApi

  /** A value thrown inside the `try`: an `Error` with its message, or anything else. */
  datatype Thrown = ErrorValue(message: string) | OtherValue

  /** The JSON of a response as the page reads it: reading throws, or it yields
      the `error` field (absent or falsy: `None`) and the text of `data.id`.
      An OK answer without `data.id` is a read that throws. */
  datatype ResponseBody = BodyThrew(thrown: Thrown) | Body(error: Option<string>, dataId: string)

  /** What `fetch` did: it threw, or it answered with `response.ok` and a body. */
  datatype FetchOutcome = FetchThrew(thrown: Thrown) | Responded(ok: bool, body: ResponseBody)

  /** The JSON the page sends. */
  datatype Payload = Payload(name: string, description: string)

  const NameRequiredMessage := "Room name is required"
  const CreateFailedMessage := "Failed to create chat room"
  const UnknownErrorMessage := "An unknown error occurred"

  /** The `catch` clause: an `Error` shows its message, anything else a fixed text. */
  function CaughtMessage(t: Thrown): (m: string)
    ensures t.ErrorValue? ==> m == t.message
    ensures t.OtherValue? ==> m == UnknownErrorMessage
  {
    match t
    case ErrorValue(m) => m
    case OtherValue => UnknownErrorMessage
  }

  /** The message thrown for a non-OK answer: the server's `error` field when it is
      present and non-empty, otherwise the page's own text. */
  function RejectionMessage(error: Option<string>): (m: string)
    ensures error.Some? && error.value != "" ==> m == error.value
    ensures error.None? || error.value == "" ==> m == CreateFailedMessage
  {
    if error.Some? && error.value != "" then error.value else CreateFailedMessage
  }

  /** Whether the client sends a request at all: `name.trim()` is non-empty. */
  predicate ClientSends(name: string)
  {
    Trim(name) != ""
  }

  /** The body the page posts, as the server's handler receives it. */
  function AsRequestBody(p: Payload): ChatRoomsApi.RequestBody
  {
    ChatRoomsApi.Fields(ChatRoomsApi.Str(p.name), ChatRoomsApi.Str(p.description))
  }

  /** The client's check is strictly stronger than the server's: whatever the page
      sends passes the server's name check, while a whitespace-only name, which the
      page refuses, would pass the server's check if posted directly. */
  lemma ClientStricterThanServer(name: string, description: string, user: ChatRoomsApi.UserId)
    ensures ClientSends(name) ==>
      ChatRoomsApi.Admits(Some(user), AsRequestBody(Payload(Trim(name), Trim(description))))
    ensures !ClientSends(name) <==> AllWhitespace(name)
    ensures name != "" && AllWhitespace(name) ==>
      ChatRoomsApi.Admits(Some(user), AsRequestBody(Payload(name, description)))
  {
    TrimEmptyIffAllWhitespace(name);
  }

  class CreateChatRoomPage {
    var name: string
    var description: string
    var isLoading: bool
    /** The error banner; `None` hides it. */
    var error: Option<string>

    constructor ()
      ensures name == "" && description == "" && !isLoading && error.None?
    {
      name, description, isLoading, error := "", "", false, None;
    }

    /** The name input's `onChange`. */
    method SetName(value: string)
      modifies this`name
      ensures name == value
    {
      name := value;
    }

    /** The description input's `onChange`. */
    method SetDescription(value: string)
      modifies this`description
      ensures description == value
    {
      description := value;
    }

    /** `handleSubmit`: returns the payload it posted (if any) and the route it
        navigated to (if any). */
    method HandleSubmit(outcome: FetchOutcome) returns (sent: Option<Payload>, navigateTo: Option<string>)
      modifies this`isLoading, this`error
      ensures !isLoading
      ensures !ClientSends(name) ==> sent.None? && navigateTo.None? && error == Some(NameRequiredMessage)
      ensures ClientSends(name) ==> sent == Some(Payload(Trim(name), Trim(description)))
      ensures ClientSends(name) && outcome.FetchThrew? ==>
        navigateTo.None? && error == Some(CaughtMessage(outcome.thrown))
      ensures ClientSends(name) && outcome.Responded? && outcome.body.BodyThrew? ==>
        navigateTo.None? && error == Some(CaughtMessage(outcome.body.thrown))
      ensures ClientSends(name) && outcome.Responded? && outcome.body.Body? && !outcome.ok ==>
        navigateTo.None? && error == Some(RejectionMessage(outcome.body.error))
      ensures ClientSends(name) && outcome.Responded? && outcome.body.Body? && outcome.ok ==>
        navigateTo == Some("/protected/chat/" + outcome.body.dataId) && error.None?
    {
      isLoading := true;
      error := None;
      sent, navigateTo := None, None;
      var thrown: Option<Thrown> := None;
      if Trim(name) == "" {
        thrown := Some(ErrorValue(NameRequiredMessage));
      } else {
        sent := Some(Payload(Trim(name), Trim(description)));
        match outcome {
          case FetchThrew(t) =>
            thrown := Some(t);
          case Responded(ok, body) =>
            match body {
              case BodyThrew(t) =>
                thrown := Some(t);
              case Body(e, id) =>
                if !ok {
                  thrown := Some(ErrorValue(RejectionMessage(e)));
                } else {
                  navigateTo := Some("/protected/chat/" + id);
                }
            }
        }
      }
      if thrown.Some? {
        error := Some(CaughtMessage(thrown.value));
      }
      isLoading := false;
    }
  }
}

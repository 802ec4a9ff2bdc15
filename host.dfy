/**
 * The host chat client's objects as the plugins see them: a message, the
 * current user (just an id), the dispatcher whose interceptor list the
 * plugins register with, and the message events they react to.
 */
module Host {
  import opened Lists

  /** Snowflake identifiers are opaque strings. */
  type Id = string

  /**
   * A message as carried by a message event. `mentions` lists the ids of the
   * mentioned users in order; `referencedAuthorId` is the author of the
   * message it replies to, when it is a reply.
   */
  datatype Message = Message(
    id: Id,
    authorId: Id,
    channelId: Id,
    guildId: Option<Id>,
    content: string,
    mentions: seq<Id>,
    mentioned: bool,
    referencedAuthorId: Option<Id>)

  /** The raw token `<@id>` that a manual ping of user `id` puts in a message's text. */
  function ManualPing(user: Id): string
  {
    "<@" + user + ">"
  }

  /** The message's text holds a manual ping of `user`. */
  predicate ManuallyPinged(m: Message, user: Id)
  {
    Includes(m.content, ManualPing(user))
  }

  /** The three event types whose messages the mention filters look at. */
  predicate IsMessageEvent(eventType: string)
  {
    eventType in ["MESSAGE_CREATE", "MESSAGE_UPDATE", "LOAD_MESSAGES_SUCCESS"]
  }

  /** The host's dispatcher; interceptors are known by their function names. */
  class Dispatcher {
    var interceptors: seq<string>

    constructor(interceptors: seq<string>)
      ensures this.interceptors == interceptors
    {
      this.interceptors := interceptors;
    }
  }
}

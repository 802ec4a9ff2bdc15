/**
 * SuppressReplyMentions 1.0.0, the older reply-only plugin. It keeps its
 * state at module level: the current user, a `settings` object and a
 * `suppressed` list of message ids. Its interceptor looks only at newly
 * created replies, and either splices the current user out of a reply to
 * one of their messages or forces a mention into it.
 */
module SuppressReplyMentions {
  import opened Lists
  import opened Host

  /** The module-level `settings` object. `mentionSetting`: 1 suppress, 2 force, anything else off. */
  datatype Settings = Settings(disableMention: bool, mentionSetting: int, allowManualPing: bool)

  /** The values the module starts with. */
  const DefaultSettings := Settings(true, 1, false)

  /** What the host's storage may hold: any subset of the three settings. */
  datatype StoredSettings = StoredSettings(disableMention: Option<bool>, mentionSetting: Option<int>, allowManualPing: Option<bool>)

  /** `Object.assign(settings, stored)`: each stored field replaces the current one. */
  function Assign(s: Settings, stored: StoredSettings): (r: Settings)
    ensures r.disableMention == if stored.disableMention.Some? then stored.disableMention.value else s.disableMention
    ensures r.mentionSetting == if stored.mentionSetting.Some? then stored.mentionSetting.value else s.mentionSetting
    ensures r.allowManualPing == if stored.allowManualPing.Some? then stored.allowManualPing.value else s.allowManualPing
  {
    Settings(
      match stored.disableMention case Some(b) => b case None => s.disableMention,
      match stored.mentionSetting case Some(n) => n case None => s.mentionSetting,
      match stored.allowManualPing case Some(b) => b case None => s.allowManualPing)
  }

  /** The event is a newly created reply: MESSAGE_CREATE, and the message has a `referenced_message`. */
  predicate IsNewReply(eventType: string, m: Message)
  {
    eventType == "MESSAGE_CREATE" && m.referencedAuthorId.Some?
  }

  /** The interceptor acts on the message at all: a new reply that is not a manual ping it must let through. */
  predicate Considered(s: Settings, user: Id, eventType: string, m: Message)
  {
    IsNewReply(eventType, m) && !(s.allowManualPing && ManuallyPinged(m, user))
  }

  /** Suppress mode, and the message replies to the user and mentions them. */
  predicate Splices(s: Settings, user: Id, eventType: string, m: Message)
  {
    Considered(s, user, eventType, m) && s.mentionSetting == 1
    && m.referencedAuthorId == Some(user) && IndexOf(m.mentions, user) > -1
  }

  /** Force mode, and the message replies to the user without mentioning them. */
  predicate Pushes(s: Settings, user: Id, eventType: string, m: Message)
  {
    Considered(s, user, eventType, m) && s.mentionSetting == 2
    && m.referencedAuthorId == Some(user) && IndexOf(m.mentions, user) == -1
  }

  /** The message after the interceptor. */
  function Processed(s: Settings, user: Id, eventType: string, m: Message): (r: Message)
    ensures r == m.(mentions := r.mentions)
    ensures !Considered(s, user, eventType, m) ==> r == m
    ensures r != m ==> m.referencedAuthorId == Some(user) && (s.mentionSetting == 1 || s.mentionSetting == 2)
  {
    if Splices(s, user, eventType, m) then m.(mentions := RemoveAt(m.mentions, IndexOf(m.mentions, user)))
    else if Pushes(s, user, eventType, m) then m.(mentions := m.mentions + [user])
    else m
  }

  /** What the interceptor pushes onto `suppressed`: the message id when it spliced a mention out. */
  function Logged(s: Settings, user: Id, eventType: string, m: Message): (r: seq<Id>)
    ensures r == [] || r == [m.id]
    ensures r != [] ==> |Processed(s, user, eventType, m).mentions| == |m.mentions| - 1
  {
    if Splices(s, user, eventType, m) then [m.id] else []
  }

  /** The module-level state of the plugin. */
  class SuppressReplyMentions {
    /** `UserStore.getCurrentUser()`, read once when the module loads. */
    const currentUser: Id
    var suppressed: seq<Id>
    var settings: Settings

    constructor(currentUser: Id)
      ensures this.currentUser == currentUser && suppressed == [] && settings == DefaultSettings
    {
      this.currentUser := currentUser;
      suppressed := [];
      settings := DefaultSettings;
    }

    /** The settings part of `start()`: what the host's storage holds replaces the defaults field by field. */
    method LoadSettings(stored: StoredSettings)
      modifies this`settings
      ensures settings == Assign(old(settings), stored)
    {
      settings := Assign(settings, stored);
    }

    /** The dispatcher interceptor for one event; the message's changes are returned. */
    method MessageInterceptor(eventType: string, message: Message) returns (updated: Message)
      modifies this`suppressed
      ensures updated == Processed(settings, currentUser, eventType, message)
      ensures suppressed == old(suppressed) + Logged(settings, currentUser, eventType, message)
    {
      updated := message;
      if eventType != "MESSAGE_CREATE" {
        return;
      }
      if message.referencedAuthorId.None? {
        return;
      }
      if settings.allowManualPing {
        var manualPing := "<@" + currentUser + ">";
        assert manualPing == ManualPing(currentUser);
        if Includes(message.content, manualPing) {
          assert !Considered(settings, currentUser, eventType, message);
          return;
        }
      }
      assert Considered(settings, currentUser, eventType, message);
      var mentionIndex := IndexOf(message.mentions, currentUser);
      var repliesToUser := message.referencedAuthorId.value == currentUser;
      assert repliesToUser <==> message.referencedAuthorId == Some(currentUser);
      if settings.mentionSetting == 1 {
        if repliesToUser && mentionIndex > -1 {
          updated := updated.(mentions := RemoveAt(updated.mentions, mentionIndex));
          suppressed := suppressed + [message.id];
        }
      } else if settings.mentionSetting == 2 {
        if repliesToUser && mentionIndex == -1 {
          updated := updated.(mentions := updated.mentions + [currentUser]);
        }
      } else {
        return;
      }
    }
  }

  /** `removeInterceptor(value)`: deletes the first interceptor whose name is exactly `value`, if any, and returns the list. */
  method RemoveInterceptor(dispatcher: Dispatcher, value: string) returns (interceptors: seq<string>)
    modifies dispatcher
    ensures var k := IndexOf(old(dispatcher.interceptors), value);
      dispatcher.interceptors == if k < 0 then old(dispatcher.interceptors) else RemoveAt(old(dispatcher.interceptors), k)
    ensures interceptors == dispatcher.interceptors
  {
    var index := IndexOf(dispatcher.interceptors, value);
    if index > -1 {
      dispatcher.interceptors := RemoveAt(dispatcher.interceptors, index);
    }
    interceptors := dispatcher.interceptors;
  }

  /**
   * `removeInterceptor` deletes at most one interceptor: the first one
   * named `value`. The others keep their order, and a list without that
   * name is left as it was.
   */
  lemma RemoveInterceptorEffect(interceptors: seq<string>, value: string)
    ensures var k := IndexOf(interceptors, value);
      var r := if k < 0 then interceptors else RemoveAt(interceptors, k);
      && (value !in interceptors ==> r == interceptors)
      && (value in interceptors ==>
            && |r| == |interceptors| - 1
            && value !in interceptors[..k]
            && r == interceptors[..k] + interceptors[k + 1..]
            && multiset(r) == multiset(interceptors) - multiset{value})
  {
    var k := IndexOf(interceptors, value);
    if k >= 0 {
      var r := RemoveAt(interceptors, k);
      assert r == interceptors[..k] + interceptors[k + 1..];
    }
  }

  // Properties of the interceptor.

  /** Anything other than a newly created reply is left untouched and nothing is recorded. */
  lemma OnlyNewReplies(s: Settings, user: Id, eventType: string, m: Message)
    requires eventType != "MESSAGE_CREATE" || m.referencedAuthorId == None
    ensures Processed(s, user, eventType, m) == m && Logged(s, user, eventType, m) == []
  {
  }

  /** With manual pings allowed, a reply whose text pings the user is left untouched. */
  lemma ManualPingUntouched(s: Settings, user: Id, eventType: string, m: Message)
    requires s.allowManualPing && ManuallyPinged(m, user)
    ensures Processed(s, user, eventType, m) == m && Logged(s, user, eventType, m) == []
  {
  }

  /**
   * In suppress mode a considered reply changes exactly when it replies to
   * the user and mentions them; then the first mention is spliced out,
   * `mentioned` is left alone, and the message id is recorded.
   */
  lemma SuppressModeEffect(s: Settings, user: Id, eventType: string, m: Message)
    requires s.mentionSetting == 1 && Considered(s, user, eventType, m)
    ensures var r := Processed(s, user, eventType, m);
      && (r != m || Logged(s, user, eventType, m) != [] <==> m.referencedAuthorId == Some(user) && user in m.mentions)
      && (m.referencedAuthorId == Some(user) && user in m.mentions ==>
            && r == m.(mentions := r.mentions)
            && r.mentions == RemoveAt(m.mentions, IndexOf(m.mentions, user))
            && multiset(r.mentions) == multiset(m.mentions) - multiset{user}
            && Logged(s, user, eventType, m) == [m.id])
  {
    if user in m.mentions {
      var k := IndexOf(m.mentions, user);
      assert |RemoveAt(m.mentions, k)| < |m.mentions|;
    }
  }

  /**
   * In force mode a considered reply changes exactly when it replies to the
   * user without mentioning them; then the user is appended and mentioned
   * exactly once. Nothing is recorded.
   */
  lemma ForceModeEffect(s: Settings, user: Id, eventType: string, m: Message)
    requires s.mentionSetting == 2 && Considered(s, user, eventType, m)
    ensures var r := Processed(s, user, eventType, m);
      && (r != m <==> m.referencedAuthorId == Some(user) && user !in m.mentions)
      && (r != m ==> r == m.(mentions := m.mentions + [user]) && multiset(r.mentions)[user] == 1)
      && Logged(s, user, eventType, m) == []
  {
    if m.referencedAuthorId == Some(user) && user !in m.mentions {
      assert Processed(s, user, eventType, m).mentions[|m.mentions|] == user;
    }
  }

  /** Any other mode value returns at once. */
  lemma OtherModeInert(s: Settings, user: Id, eventType: string, m: Message)
    requires s.mentionSetting != 1 && s.mentionSetting != 2
    ensures Processed(s, user, eventType, m) == m && Logged(s, user, eventType, m) == []
  {
  }

  /**
   * Records are not deduplicated: the same reply delivered twice puts its id
   * in `suppressed` twice, and a reply that mentions the user twice still
   * does so after the first splice, so a second pass records it again.
   */
  lemma RepeatedIds(s: Settings, user: Id, m: Message, sup: seq<Id>)
    requires Splices(s, user, "MESSAGE_CREATE", m)
    ensures multiset(sup + Logged(s, user, "MESSAGE_CREATE", m) + Logged(s, user, "MESSAGE_CREATE", m))[m.id]
      == multiset(sup)[m.id] + 2
    ensures multiset(m.mentions)[user] >= 2 ==>
      Logged(s, user, "MESSAGE_CREATE", Processed(s, user, "MESSAGE_CREATE", m)) == [m.id]
  {
    var r := Processed(s, user, "MESSAGE_CREATE", m);
    if multiset(m.mentions)[user] >= 2 {
      assert multiset(r.mentions)[user] >= 1;
      assert user in r.mentions;
    }
  }
}

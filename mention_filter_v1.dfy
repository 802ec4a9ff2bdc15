/**
 * MentionFilter 1.0.0, the single-file plugin. Its message interceptor
 * looks only at messages that mention the current user, applies the
 * whitelist/blacklist scope filter once, before it looks at the mode, and
 * then suppresses or forces the mention.
 */
module MentionFilterV1 {
  import opened Lists
  import opened Host
  import opened Scopes
  import opened Mentions

  /**
   * The plugin's settings object. `mentionSetting`: 0 default, 1 suppress,
   * 2 force; `filterSetting`: 0 none, 1 whitelist, 2 blacklist.
   */
  datatype Settings = Settings(disableMention: bool, mentionSetting: int, filterSetting: int, allowManualPing: bool)

  /** The settings the constructor starts from. */
  const DefaultSettings := Settings(true, 1, 0, false)

  /** The scope filter of this revision, checked before the mode: it lets the message through or not. */
  predicate FilteredOut(s: Settings, whitelist: FilterLists, blacklist: FilterLists, m: Message)
    ensures s.filterSetting != 1 && s.filterSetting != 2 ==> !FilteredOut(s, whitelist, blacklist, m)
    ensures s.filterSetting == 1 && whitelist == NoIds ==> !FilteredOut(s, whitelist, blacklist, m)
    ensures s.filterSetting == 2 && blacklist == NoIds ==> FilteredOut(s, whitelist, blacklist, m)
  {
    || (s.filterSetting == 1 && Listed(whitelist, QueryOf(m)))
    || (s.filterSetting == 2 && !Listed(blacklist, QueryOf(m)))
  }

  /** The gating of one message by the interceptor's `continue`s and its `switch`. */
  function Decide(s: Settings, whitelist: FilterLists, blacklist: FilterLists, user: Id, m: Message): (d: Decision)
    ensures d != Skip ==> user in m.mentions && !(s.allowManualPing && ManuallyPinged(m, user))
    ensures FilteredOut(s, whitelist, blacklist, m) ==> d == Skip
    ensures d == Suppress ==> s.mentionSetting == 1
    ensures d == Force ==> s.mentionSetting == 2
  {
    if user !in m.mentions then Skip
    else if s.allowManualPing && ManuallyPinged(m, user) then Skip
    else if FilteredOut(s, whitelist, blacklist, m) then Skip
    else if s.mentionSetting == 1 then Suppress
    else if s.mentionSetting == 2 then Force
    else Skip
  }

  /** `Decide` with the plugin's state fixed, as the interceptor applies it to each message. */
  function Decider(s: Settings, whitelist: FilterLists, blacklist: FilterLists, user: Id): Message -> Decision
  {
    m => Decide(s, whitelist, blacklist, user, m)
  }

  /** The plugin object: settings, the two scope lists and the `suppressed` records. */
  class MentionFilter {
    var settings: Settings
    var suppressed: seq<Suppression>
    var whitelist: FilterLists
    var blacklist: FilterLists
    /** How many times the lists were written to the host's storage. */
    ghost var saves: nat

    /** `suppressed` never holds two records for one message. */
    ghost predicate Valid()
      reads this
    {
      UniqueMessageIds(suppressed)
    }

    /** `this[filter]` */
    function FilterOf(filter: ListKind): FilterLists
      reads this
    {
      if filter == Whitelist then whitelist else blacklist
    }

    constructor()
      ensures Valid()
      ensures settings == DefaultSettings && suppressed == []
      ensures whitelist == NoIds && blacklist == NoIds && saves == 0
    {
      settings := DefaultSettings;
      suppressed := [];
      whitelist := NoIds;
      blacklist := NoIds;
      saves := 0;
    }

    /**
     * The dispatcher interceptor. `messages` is the event's batch: its
     * `messages` for LOAD_MESSAGES_SUCCESS, its single `message` otherwise.
     * Messages are changed in place and `suppressed` grows.
     */
    method MessageInterceptor(eventType: string, messages: array<Message>, currentUser: Id)
      requires Valid()
      modifies this`suppressed, messages
      ensures Valid()
      ensures !IsMessageEvent(eventType) ==> messages[..] == old(messages[..]) && suppressed == old(suppressed)
      ensures IsMessageEvent(eventType) ==>
        Batch(messages[..], suppressed) == Run(Decider(settings, whitelist, blacklist, currentUser), currentUser, old(messages[..]), old(suppressed))
    {
      if !IsMessageEvent(eventType) {
        return;
      }
      ghost var decide := Decider(settings, whitelist, blacklist, currentUser);
      ghost var batch := messages[..];
      ghost var before := suppressed;
      var i := 0;
      while i < messages.Length
        invariant 0 <= i <= messages.Length
        invariant forall j :: i <= j < messages.Length ==> messages[j] == batch[j]
        invariant Run(decide, currentUser, batch[..i], before) == Batch(messages[..i], suppressed)
      {
        ghost var d := decide(batch[i]);
        assert d == Decide(settings, whitelist, blacklist, currentUser, batch[i]);
        var message := FilterMessage(messages[i], currentUser);
        RunStep(decide, currentUser, batch, before, i);
        messages[i] := message;
        assert messages[..i + 1] == messages[..i] + [message];
        i := i + 1;
      }
      assert batch[..i] == batch && messages[..i] == messages[..];
      RunKeepsUnique(decide, currentUser, batch, before);
    }

    /**
     * The body of the interceptor's loop for one message: the `continue`s
     * become early returns, the `switch` picks the action.
     */
    method FilterMessage(message: Message, currentUser: Id) returns (updated: Message)
      modifies this`suppressed
      ensures var d := Decide(settings, whitelist, blacklist, currentUser, message);
        updated == Apply(d, currentUser, message) && suppressed == Record(d, currentUser, message, old(suppressed))
    {
      updated := message;
      if currentUser !in message.mentions {
        return;
      }
      if settings.allowManualPing && ManuallyPinged(message, currentUser) {
        return;
      }
      if FilteredOut(settings, whitelist, blacklist, message) {
        return;
      }
      var mentionIndex := IndexOf(message.mentions, currentUser);
      if settings.mentionSetting == 1 {
        updated := updated.(mentioned := false);
        if mentionIndex >= 0 {
          updated := updated.(mentions := RemoveAt(updated.mentions, mentionIndex));
          var suppressedIndex := RecordIndex(suppressed, message.id);
          if suppressedIndex < 0 {
            suppressed := suppressed + [Suppression(message.id, message.authorId)];
          }
        }
      } else if settings.mentionSetting == 2 {
        if mentionIndex < 0 {
          updated := updated.(mentions := updated.mentions + [currentUser]);
        }
      }
    }

    /**
     * Adds `id` to one list unless it is there already; the lists are saved,
     * and adding a user drops every `suppressed` record of that user.
     */
    method AddToFilter(filter: ListKind, scope: Scope, id: Id)
      requires Valid()
      modifies this`whitelist, this`blacklist, this`suppressed, this`saves
      ensures Valid()
      ensures FilterOf(filter) == Added(old(FilterOf(filter)), scope, id)
      ensures filter == Whitelist ==> blacklist == old(blacklist)
      ensures filter == Blacklist ==> whitelist == old(whitelist)
      ensures id in old(IdsAt(FilterOf(filter), scope)) ==> suppressed == old(suppressed) && saves == old(saves)
      ensures id !in old(IdsAt(FilterOf(filter), scope)) ==>
        && saves == old(saves) + 1
        && suppressed == if scope == User then DropUser(old(suppressed), id) else old(suppressed)
    {
      var ids := IdsAt(FilterOf(filter), scope);
      if id in ids {
        return;
      }
      if filter == Whitelist {
        whitelist := WithIds(whitelist, scope, ids + [id]);
      } else {
        blacklist := WithIds(blacklist, scope, ids + [id]);
      }
      saves := saves + 1;
      if scope == User {
        suppressed := DropUser(suppressed, id);
      }
    }

    /**
     * Removes every copy of `id` from one list if it is there; the lists are
     * saved, and removing a user drops every `suppressed` record of that user.
     */
    method RemoveFromFilter(filter: ListKind, scope: Scope, id: Id)
      requires Valid()
      modifies this`whitelist, this`blacklist, this`suppressed, this`saves
      ensures Valid()
      ensures FilterOf(filter) == Removed(old(FilterOf(filter)), scope, id)
      ensures filter == Whitelist ==> blacklist == old(blacklist)
      ensures filter == Blacklist ==> whitelist == old(whitelist)
      ensures id !in old(IdsAt(FilterOf(filter), scope)) ==> suppressed == old(suppressed) && saves == old(saves)
      ensures id in old(IdsAt(FilterOf(filter), scope)) ==>
        && saves == old(saves) + 1
        && suppressed == if scope == User then DropUser(old(suppressed), id) else old(suppressed)
    {
      var ids := IdsAt(FilterOf(filter), scope);
      if id !in ids {
        return;
      }
      if filter == Whitelist {
        whitelist := WithIds(whitelist, scope, RemoveAll(ids, id));
      } else {
        blacklist := WithIds(blacklist, scope, RemoveAll(ids, id));
      }
      saves := saves + 1;
      if scope == User {
        suppressed := DropUser(suppressed, id);
      }
    }

    /** Some supplied id of the query is on the whitelist of its scope. */
    function IsWhitelisted(q: Query): (r: bool)
      reads this
      ensures r <==> exists scope :: Supplied(QueryId(q, scope)) && QueryId(q, scope).value in IdsAt(whitelist, scope)
    {
      ListedIff(whitelist, q);
      Listed(whitelist, q)
    }

    /** Some supplied id of the query is on the blacklist of its scope. */
    function IsBlacklisted(q: Query): (r: bool)
      reads this
      ensures r <==> exists scope :: Supplied(QueryId(q, scope)) && QueryId(q, scope).value in IdsAt(blacklist, scope)
    {
      ListedIff(blacklist, q);
      Listed(blacklist, q)
    }
  }

  /**
   * `removeInterceptor(name)`: deletes the first interceptor called `name`
   * or `bound name`, if any, and returns the list.
   */
  method RemoveInterceptor(dispatcher: Dispatcher, name: string) returns (interceptors: seq<string>)
    modifies dispatcher
    ensures var k := FindIndex(old(dispatcher.interceptors), f => f == name || f == "bound " + name);
      dispatcher.interceptors == if k < 0 then old(dispatcher.interceptors) else RemoveAt(old(dispatcher.interceptors), k)
    ensures interceptors == dispatcher.interceptors
  {
    var index := FindIndex(dispatcher.interceptors, f => f == name || f == "bound " + name);
    if index > -1 {
      dispatcher.interceptors := RemoveAt(dispatcher.interceptors, index);
    }
    interceptors := dispatcher.interceptors;
  }

  // Properties of the gating in this revision.

  /** A message that does not mention the current user is left untouched. */
  lemma NotMentionedUntouched(s: Settings, whitelist: FilterLists, blacklist: FilterLists, user: Id, m: Message, sup: seq<Suppression>)
    requires user !in m.mentions
    ensures var d := Decide(s, whitelist, blacklist, user, m);
      Apply(d, user, m) == m && Record(d, user, m, sup) == sup
  {
  }

  /** With manual pings allowed, a message whose text pings the current user is left untouched in every mode. */
  lemma ManualPingUntouched(s: Settings, whitelist: FilterLists, blacklist: FilterLists, user: Id, m: Message, sup: seq<Suppression>)
    requires s.allowManualPing && ManuallyPinged(m, user)
    ensures var d := Decide(s, whitelist, blacklist, user, m);
      Apply(d, user, m) == m && Record(d, user, m, sup) == sup
  {
  }

  /**
   * Whitelist scope with a whitelisted author, channel or guild, or
   * blacklist scope with none of them blacklisted: skipped in every mode.
   */
  lemma ScopeFilterSkips(s: Settings, whitelist: FilterLists, blacklist: FilterLists, user: Id, m: Message, sup: seq<Suppression>)
    requires (s.filterSetting == 1 && Listed(whitelist, QueryOf(m))) || (s.filterSetting == 2 && !Listed(blacklist, QueryOf(m)))
    ensures var d := Decide(s, whitelist, blacklist, user, m);
      Apply(d, user, m) == m && Record(d, user, m, sup) == sup
  {
  }

  /**
   * In suppress mode a message that gets through has `mentioned` cleared and
   * exactly its first mention of the user spliced out, and it is recorded
   * once: its record is added only if it had none.
   */
  lemma SuppressModeEffect(s: Settings, whitelist: FilterLists, blacklist: FilterLists, user: Id, m: Message, sup: seq<Suppression>)
    requires s.mentionSetting == 1 && user in m.mentions
    requires !(s.allowManualPing && ManuallyPinged(m, user)) && !FilteredOut(s, whitelist, blacklist, m)
    ensures var d := Decide(s, whitelist, blacklist, user, m);
      var r := Apply(d, user, m);
      var k := IndexOf(m.mentions, user);
      && !r.mentioned
      && r.mentions == RemoveAt(m.mentions, k)
      && multiset(r.mentions) == multiset(m.mentions) - multiset{user}
      && Record(d, user, m, sup) == (if HasRecord(sup, m.id) then sup else sup + [Suppression(m.id, m.authorId)])
  {
    RecordEffect(Suppress, user, m, sup);
  }

  /**
   * Force mode is inert in this revision: a message that does not mention
   * the user is skipped before the mode is read, so the push never happens.
   */
  lemma ForceModeInert(s: Settings, whitelist: FilterLists, blacklist: FilterLists, user: Id, m: Message, sup: seq<Suppression>)
    requires s.mentionSetting == 2
    ensures var d := Decide(s, whitelist, blacklist, user, m);
      Apply(d, user, m) == m && Record(d, user, m, sup) == sup
  {
  }

  /** A mode other than suppress or force changes neither the batch nor `suppressed`. */
  lemma DefaultModeInert(s: Settings, whitelist: FilterLists, blacklist: FilterLists, user: Id, ms: seq<Message>, sup: seq<Suppression>)
    requires s.mentionSetting != 1 && s.mentionSetting != 2
    ensures Run(Decider(s, whitelist, blacklist, user), user, ms, sup) == Batch(ms, sup)
  {
    RunAllSkipped(Decider(s, whitelist, blacklist, user), user, ms, sup);
  }

  /**
   * Over a whole batch in suppress mode with no list scope (any filter
   * value other than 1 or 2), every message of the batch that mentions the
   * user and is not a manual ping the settings let through ends up with a
   * record, and no message has two, even when it arrives twice.
   */
  lemma SuppressBatchRecordsOnce(s: Settings, whitelist: FilterLists, blacklist: FilterLists, user: Id, ms: seq<Message>, sup: seq<Suppression>, i: int)
    requires s.mentionSetting == 1 && s.filterSetting != 1 && s.filterSetting != 2
    requires UniqueMessageIds(sup)
    requires 0 <= i < |ms| && user in ms[i].mentions
    requires !(s.allowManualPing && ManuallyPinged(ms[i], user))
    ensures var b := Run(Decider(s, whitelist, blacklist, user), user, ms, sup);
      HasRecord(b.suppressed, ms[i].id) && UniqueMessageIds(b.suppressed)
  {
    var decide := Decider(s, whitelist, blacklist, user);
    assert decide(ms[i]) == Suppress;
    RunRecordsExactly(decide, user, ms, sup, ms[i].id);
    RunKeepsUnique(decide, user, ms, sup);
  }
}

/**
 * The rewritten MentionFilter (`src/plugins/MentionFilter`). Its settings
 * live in a shared SettingsManager; its interceptor also looks at replies
 * to the current user's messages, and checks the scope filter inside each
 * mode, with the force mode using the opposite polarity.
 */
module MentionFilterSrc {
  import opened Lists
  import opened Host
  import opened Scopes
  import opened Mentions
  import SharedSettings

  /** A value a settings panel entry can hold: a switch, a number from a select, or text. */
  datatype SettingValue = Flag(b: bool) | Number(n: int) | Text(s: string)

  /** JavaScript truthiness of a setting that may be `undefined`. */
  predicate Truthy(v: Option<SettingValue>)
    ensures Truthy(v) <==> v.Some? && v.value !in {Flag(false), Number(0), Text("")}
  {
    match v
    case None => false
    case Some(Flag(b)) => b
    case Some(Number(n)) => n != 0
    case Some(Text(s)) => s != ""
  }

  /** The three settings the interceptor reads before its loop. */
  datatype Config = Config(mentionSetting: Option<SettingValue>, filterSetting: Option<SettingValue>, allowManualPing: Option<SettingValue>)

  /** `this.settings.get(...)` for the three settings. */
  function ConfigOf(settings: map<string, SettingValue>): (c: Config)
    ensures c.mentionSetting.Some? <==> "mentionSetting" in settings
    ensures c.filterSetting.Some? <==> "filterSetting" in settings
    ensures c.allowManualPing.Some? <==> "allowManualPing" in settings
  {
    Config(Lookup(settings, "mentionSetting"), Lookup(settings, "filterSetting"), Lookup(settings, "allowManualPing"))
  }

  /** The message mentions the current user or replies to one of the current user's messages. */
  predicate Concerns(user: Id, m: Message)
    ensures user in m.mentions ==> Concerns(user, m)
    ensures Concerns(user, m) && user !in m.mentions ==> m.referencedAuthorId == Some(user)
  {
    user in m.mentions || m.referencedAuthorId == Some(user)
  }

  /** Line 74: the suppress mode holds back a whitelisted message, or with a blacklist, one that is not blacklisted. */
  predicate SuppressHeldBack(c: Config, whitelist: FilterLists, blacklist: FilterLists, m: Message)
    ensures c.filterSetting != Some(Number(1)) && c.filterSetting != Some(Number(2)) ==> !SuppressHeldBack(c, whitelist, blacklist, m)
    ensures c.filterSetting == Some(Number(2)) && blacklist == NoIds ==> SuppressHeldBack(c, whitelist, blacklist, m)
  {
    || (c.filterSetting == Some(Number(1)) && Listed(whitelist, QueryOf(m)))
    || (c.filterSetting == Some(Number(2)) && !Listed(blacklist, QueryOf(m)))
  }

  /** Line 88: the force mode holds back a message that is not whitelisted, or with a blacklist, one that is blacklisted. */
  predicate ForceHeldBack(c: Config, whitelist: FilterLists, blacklist: FilterLists, m: Message)
    ensures c.filterSetting != Some(Number(1)) && c.filterSetting != Some(Number(2)) ==> !ForceHeldBack(c, whitelist, blacklist, m)
    ensures c.filterSetting == Some(Number(1)) || c.filterSetting == Some(Number(2)) ==>
      (ForceHeldBack(c, whitelist, blacklist, m) <==> !SuppressHeldBack(c, whitelist, blacklist, m))
  {
    || (c.filterSetting == Some(Number(1)) && !Listed(whitelist, QueryOf(m)))
    || (c.filterSetting == Some(Number(2)) && Listed(blacklist, QueryOf(m)))
  }

  /** The gating of one message by the interceptor's `continue`s and by the `break`s inside its `switch`. */
  function Decide(c: Config, whitelist: FilterLists, blacklist: FilterLists, user: Id, m: Message): (d: Decision)
    ensures d != Skip ==> Concerns(user, m) && !(Truthy(c.allowManualPing) && ManuallyPinged(m, user))
    ensures d == Suppress ==> c.mentionSetting == Some(Number(1)) && !SuppressHeldBack(c, whitelist, blacklist, m)
    ensures d == Force ==> c.mentionSetting == Some(Number(2)) && !ForceHeldBack(c, whitelist, blacklist, m)
  {
    if !Concerns(user, m) then Skip
    else if Truthy(c.allowManualPing) && ManuallyPinged(m, user) then Skip
    else if c.mentionSetting == Some(Number(1)) then
      if SuppressHeldBack(c, whitelist, blacklist, m) then Skip else Suppress
    else if c.mentionSetting == Some(Number(2)) then
      if ForceHeldBack(c, whitelist, blacklist, m) then Skip else Force
    else Skip
  }

  /** `Decide` with the plugin's state fixed, as the interceptor applies it to each message. */
  function Decider(c: Config, whitelist: FilterLists, blacklist: FilterLists, user: Id): Message -> Decision
  {
    m => Decide(c, whitelist, blacklist, user, m)
  }

  /** The plugin object: a settings manager, the two scope lists and the `suppressed` records. */
  class MentionFilter {
    const settings: SharedSettings.SettingsManager<SettingValue>
    var suppressed: seq<Suppression>
    var whitelist: FilterLists
    var blacklist: FilterLists
    /** How many times the lists were written to the host's storage. */
    ghost var saves: nat

    /** `suppressed` never holds two records for one message. */
    ghost predicate Valid()
      reads this
    {
      UniqueMessageIds(suppressed)
    }

    /** `this[filter]` */
    function FilterOf(filter: ListKind): FilterLists
      reads this
    {
      if filter == Whitelist then whitelist else blacklist
    }

    /** The three settings as the settings manager holds them now. */
    function CurrentConfig(): Config
      reads this, settings
    {
      ConfigOf(settings.settings)
    }

    /**
     * `name` is the plugin's name, `config` its settings panel and `loaded`
     * what the host's storage holds for it.
     */
    constructor(name: string, config: seq<SharedSettings.PanelEntry<SettingValue>>, loaded: map<string, SettingValue>)
      ensures Valid() && fresh(settings) && settings.Valid()
      ensures settings.pluginName == name && settings.settings == SharedSettings.Defaults(config) + loaded
      ensures suppressed == [] && whitelist == NoIds && blacklist == NoIds && saves == 0
    {
      settings := new SharedSettings.SettingsManager(name, config, loaded);
      suppressed := [];
      whitelist := NoIds;
      blacklist := NoIds;
      saves := 0;
    }

    /**
     * The dispatcher interceptor. `messages` is the event's batch: its
     * `messages` for LOAD_MESSAGES_SUCCESS, its single `message` otherwise.
     * The settings are read once, then messages are changed in place and
     * `suppressed` grows.
     */
    method MessageInterceptor(eventType: string, messages: array<Message>, currentUser: Id)
      requires Valid()
      modifies this`suppressed, messages
      ensures Valid()
      ensures !IsMessageEvent(eventType) ==> messages[..] == old(messages[..]) && suppressed == old(suppressed)
      ensures IsMessageEvent(eventType) ==>
        Batch(messages[..], suppressed) == Run(Decider(CurrentConfig(), whitelist, blacklist, currentUser), currentUser, old(messages[..]), old(suppressed))
    {
      if !IsMessageEvent(eventType) {
        return;
      }
      var mentionSetting := settings.Get("mentionSetting");
      var filterSetting := settings.Get("filterSetting");
      var allowManualPing := settings.Get("allowManualPing");
      var config := Config(mentionSetting, filterSetting, allowManualPing);
      assert config == CurrentConfig();
      FilterMessages(messages, currentUser, config);
    }

    /** The interceptor's `for (let message of messages)` loop, with the settings it read beforehand. */
    method FilterMessages(messages: array<Message>, currentUser: Id, config: Config)
      requires Valid()
      modifies this`suppressed, messages
      ensures Valid()
      ensures Batch(messages[..], suppressed) == Run(Decider(config, whitelist, blacklist, currentUser), currentUser, old(messages[..]), old(suppressed))
    {
      ghost var decide := Decider(config, whitelist, blacklist, currentUser);
      ghost var batch := messages[..];
      ghost var before := suppressed;
      var i := 0;
      while i < messages.Length
        invariant 0 <= i <= messages.Length
        invariant forall j :: i <= j < messages.Length ==> messages[j] == batch[j]
        invariant Run(decide, currentUser, batch[..i], before) == Batch(messages[..i], suppressed)
      {
        ghost var d := decide(batch[i]);
        assert d == Decide(config, whitelist, blacklist, currentUser, batch[i]);
        var message := FilterMessage(messages[i], currentUser, config);
        RunStep(decide, currentUser, batch, before, i);
        messages[i] := message;
        assert messages[..i + 1] == messages[..i] + [message];
        i := i + 1;
      }
      assert batch[..i] == batch && messages[..i] == messages[..];
      RunKeepsUnique(decide, currentUser, batch, before);
    }

    /**
     * The body of the interceptor's loop for one message: the `continue`s
     * become early returns, the `switch` and its `break`s pick the action.
     */
    method FilterMessage(message: Message, currentUser: Id, config: Config) returns (updated: Message)
      modifies this`suppressed
      ensures var d := Decide(config, whitelist, blacklist, currentUser, message);
        updated == Apply(d, currentUser, message) && suppressed == Record(d, currentUser, message, old(suppressed))
    {
      updated := message;
      if currentUser !in message.mentions && message.referencedAuthorId != Some(currentUser) {
        return;
      }
      if Truthy(config.allowManualPing) && ManuallyPinged(message, currentUser) {
        return;
      }
      var isWhitelisted := IsWhitelisted(QueryOf(message));
      var isBlacklisted := IsBlacklisted(QueryOf(message));
      assert isWhitelisted == Listed(whitelist, QueryOf(message)) && isBlacklisted == Listed(blacklist, QueryOf(message));
      assert Decide(config, whitelist, blacklist, currentUser, message) ==
        if config.mentionSetting == Some(Number(1)) then
          if SuppressHeldBack(config, whitelist, blacklist, message) then Skip else Suppress
        else if config.mentionSetting == Some(Number(2)) then
          if ForceHeldBack(config, whitelist, blacklist, message) then Skip else Force
        else Skip;
      var mentionIndex := IndexOf(message.mentions, currentUser);
      var filterSetting := config.filterSetting;
      if config.mentionSetting == Some(Number(1)) {
        if (filterSetting == Some(Number(1)) && isWhitelisted) || (filterSetting == Some(Number(2)) && !isBlacklisted) {
          return;
        }
        updated := updated.(mentioned := false);
        if mentionIndex >= 0 {
          updated := updated.(mentions := RemoveAt(updated.mentions, mentionIndex));
          var suppressedIndex := RecordIndex(suppressed, message.id);
          if suppressedIndex < 0 {
            suppressed := suppressed + [Suppression(message.id, message.authorId)];
          }
        }
      } else if config.mentionSetting == Some(Number(2)) {
        if (filterSetting == Some(Number(1)) && !isWhitelisted) || (filterSetting == Some(Number(2)) && isBlacklisted) {
          return;
        }
        if mentionIndex < 0 {
          updated := updated.(mentions := updated.mentions + [currentUser]);
        }
      }
    }

    /**
     * Adds `id` to one list unless it is there already; the lists are saved,
     * and adding a user drops every `suppressed` record of that user.
     */
    method AddToFilter(filter: ListKind, scope: Scope, id: Id)
      requires Valid()
      modifies this`whitelist, this`blacklist, this`suppressed, this`saves
      ensures Valid()
      ensures FilterOf(filter) == Added(old(FilterOf(filter)), scope, id)
      ensures filter == Whitelist ==> blacklist == old(blacklist)
      ensures filter == Blacklist ==> whitelist == old(whitelist)
      ensures id in old(IdsAt(FilterOf(filter), scope)) ==> suppressed == old(suppressed) && saves == old(saves)
      ensures id !in old(IdsAt(FilterOf(filter), scope)) ==>
        && saves == old(saves) + 1
        && suppressed == if scope == User then DropUser(old(suppressed), id) else old(suppressed)
    {
      var ids := IdsAt(FilterOf(filter), scope);
      if id in ids {
        return;
      }
      if filter == Whitelist {
        whitelist := WithIds(whitelist, scope, ids + [id]);
      } else {
        blacklist := WithIds(blacklist, scope, ids + [id]);
      }
      saves := saves + 1;
      if scope == User {
        suppressed := DropUser(suppressed, id);
      }
    }

    /**
     * Removes every copy of `id` from one list if it is there; the lists are
     * saved, and removing a user drops every `suppressed` record of that user.
     */
    method RemoveFromFilter(filter: ListKind, scope: Scope, id: Id)
      requires Valid()
      modifies this`whitelist, this`blacklist, this`suppressed, this`saves
      ensures Valid()
      ensures FilterOf(filter) == Removed(old(FilterOf(filter)), scope, id)
      ensures filter == Whitelist ==> blacklist == old(blacklist)
      ensures filter == Blacklist ==> whitelist == old(whitelist)
      ensures id !in old(IdsAt(FilterOf(filter), scope)) ==> suppressed == old(suppressed) && saves == old(saves)
      ensures id in old(IdsAt(FilterOf(filter), scope)) ==>
        && saves == old(saves) + 1
        && suppressed == if scope == User then DropUser(old(suppressed), id) else old(suppressed)
    {
      var ids := IdsAt(FilterOf(filter), scope);
      if id !in ids {
        return;
      }
      if filter == Whitelist {
        whitelist := WithIds(whitelist, scope, RemoveAll(ids, id));
      } else {
        blacklist := WithIds(blacklist, scope, RemoveAll(ids, id));
      }
      saves := saves + 1;
      if scope == User {
        suppressed := DropUser(suppressed, id);
      }
    }

    /** Some supplied id of the query is on the whitelist of its scope. */
    function IsWhitelisted(q: Query): (r: bool)
      reads this
      ensures r <==> exists scope :: Supplied(QueryId(q, scope)) && QueryId(q, scope).value in IdsAt(whitelist, scope)
    {
      ListedIff(whitelist, q);
      Listed(whitelist, q)
    }

    /** Some supplied id of the query is on the blacklist of its scope. */
    function IsBlacklisted(q: Query): (r: bool)
      reads this
      ensures r <==> exists scope :: Supplied(QueryId(q, scope)) && QueryId(q, scope).value in IdsAt(blacklist, scope)
    {
      ListedIff(blacklist, q);
      Listed(blacklist, q)
    }
  }

  /**
   * `removeInterceptor(name)`: deletes the first interceptor called `name`
   * or `bound name`, if any, and returns the list.
   */
  method RemoveInterceptor(dispatcher: Dispatcher, name: string) returns (interceptors: seq<string>)
    modifies dispatcher
    ensures var k := FindIndex(old(dispatcher.interceptors), f => f == name || f == "bound " + name);
      dispatcher.interceptors == if k < 0 then old(dispatcher.interceptors) else RemoveAt(old(dispatcher.interceptors), k)
    ensures interceptors == dispatcher.interceptors
  {
    var index := FindIndex(dispatcher.interceptors, f => f == name || f == "bound " + name);
    if index > -1 {
      dispatcher.interceptors := RemoveAt(dispatcher.interceptors, index);
    }
    interceptors := dispatcher.interceptors;
  }

  // Properties of the gating in this revision.

  /** A message that neither mentions the current user nor replies to one of theirs is left untouched. */
  lemma UnconcernedUntouched(c: Config, whitelist: FilterLists, blacklist: FilterLists, user: Id, m: Message, sup: seq<Suppression>)
    requires user !in m.mentions && m.referencedAuthorId != Some(user)
    ensures var d := Decide(c, whitelist, blacklist, user, m);
      Apply(d, user, m) == m && Record(d, user, m, sup) == sup
  {
  }

  /** With manual pings allowed, a message whose text pings the current user is left untouched in every mode. */
  lemma ManualPingUntouched(c: Config, whitelist: FilterLists, blacklist: FilterLists, user: Id, m: Message, sup: seq<Suppression>)
    requires Truthy(c.allowManualPing) && ManuallyPinged(m, user)
    ensures var d := Decide(c, whitelist, blacklist, user, m);
      Apply(d, user, m) == m && Record(d, user, m, sup) == sup
  {
  }

  /**
   * In suppress mode, a message that concerns the user and is not a manual
   * ping allowed through is suppressed exactly when the suppress gating
   * does not hold it back; otherwise it is left untouched.
   */
  lemma SuppressGating(c: Config, whitelist: FilterLists, blacklist: FilterLists, user: Id, m: Message, sup: seq<Suppression>)
    requires c.mentionSetting == Some(Number(1))
    requires Concerns(user, m) && !(Truthy(c.allowManualPing) && ManuallyPinged(m, user))
    ensures var d := Decide(c, whitelist, blacklist, user, m);
      && (d == Suppress <==> !SuppressHeldBack(c, whitelist, blacklist, m))
      && (d != Suppress ==> Apply(d, user, m) == m && Record(d, user, m, sup) == sup)
  {
  }

  /**
   * In force mode, a message that concerns the user and is not a manual
   * ping allowed through is forced exactly when the force gating does not
   * hold it back; otherwise it is left untouched.
   */
  lemma ForceGating(c: Config, whitelist: FilterLists, blacklist: FilterLists, user: Id, m: Message, sup: seq<Suppression>)
    requires c.mentionSetting == Some(Number(2))
    requires Concerns(user, m) && !(Truthy(c.allowManualPing) && ManuallyPinged(m, user))
    ensures var d := Decide(c, whitelist, blacklist, user, m);
      && (d == Force <==> !ForceHeldBack(c, whitelist, blacklist, m))
      && (d != Force ==> Apply(d, user, m) == m && Record(d, user, m, sup) == sup)
  {
  }

  /**
   * The two gatings are inverse: with a whitelist or blacklist scope, the
   * force mode holds back exactly the messages the suppress mode lets
   * through; with no scope, neither holds anything back.
   */
  lemma OppositePolarity(c: Config, whitelist: FilterLists, blacklist: FilterLists, m: Message)
    ensures c.filterSetting == Some(Number(1)) || c.filterSetting == Some(Number(2)) ==>
      (ForceHeldBack(c, whitelist, blacklist, m) <==> !SuppressHeldBack(c, whitelist, blacklist, m))
    ensures c.filterSetting != Some(Number(1)) && c.filterSetting != Some(Number(2)) ==>
      !ForceHeldBack(c, whitelist, blacklist, m) && !SuppressHeldBack(c, whitelist, blacklist, m)
  {
  }

  /**
   * A suppressed reply to the user's message that does not mention them
   * only has `mentioned` cleared: there is no mention to splice and no
   * record is added.
   */
  lemma ReplyOnlySuppression(c: Config, whitelist: FilterLists, blacklist: FilterLists, user: Id, m: Message, sup: seq<Suppression>)
    requires Decide(c, whitelist, blacklist, user, m) == Suppress
    requires user !in m.mentions
    ensures m.referencedAuthorId == Some(user)
    ensures Apply(Suppress, user, m) == m.(mentioned := false)
    ensures Record(Suppress, user, m, sup) == sup
  {
  }

  /**
   * Suppressing a message that mentions the user clears `mentioned`,
   * splices out exactly the first mention and records the message once.
   */
  lemma SuppressModeEffect(c: Config, whitelist: FilterLists, blacklist: FilterLists, user: Id, m: Message, sup: seq<Suppression>)
    requires Decide(c, whitelist, blacklist, user, m) == Suppress
    requires user in m.mentions
    ensures var r := Apply(Suppress, user, m);
      && !r.mentioned
      && r.mentions == RemoveAt(m.mentions, IndexOf(m.mentions, user))
      && multiset(r.mentions) == multiset(m.mentions) - multiset{user}
      && Record(Suppress, user, m, sup) == (if HasRecord(sup, m.id) then sup else sup + [Suppression(m.id, m.authorId)])
  {
    RecordEffect(Suppress, user, m, sup);
  }

  /**
   * Forcing reaches messages that do not mention the user (replies to the
   * user's messages) and leaves the user mentioned exactly once there; a
   * message that mentions the user already is left as it was.
   */
  lemma ForceModeEffect(c: Config, whitelist: FilterLists, blacklist: FilterLists, user: Id, m: Message, sup: seq<Suppression>)
    requires Decide(c, whitelist, blacklist, user, m) == Force
    ensures user !in m.mentions ==> m.referencedAuthorId == Some(user)
    ensures var r := Apply(Force, user, m);
      && (user !in m.mentions ==> r == m.(mentions := m.mentions + [user]) && multiset(r.mentions)[user] == 1)
      && (user in m.mentions ==> r == m)
      && Record(Force, user, m, sup) == sup
  {
    ForceEffect(user, m);
  }

  /** Unlike in 1.0.0, the force mode does act: a reply to the user's message gets the user mentioned. */
  lemma ForceModeActs(user: Id, m: Message)
    requires user !in m.mentions && m.referencedAuthorId == Some(user) && !ManuallyPinged(m, user)
    ensures var c := Config(Some(Number(2)), Some(Number(0)), Some(Flag(false)));
      Apply(Decide(c, NoIds, NoIds, user, m), user, m).mentions == m.mentions + [user]
  {
  }

  /** A mode other than 1 or 2 (or no mode at all) changes neither the batch nor `suppressed`. */
  lemma DefaultModeInert(c: Config, whitelist: FilterLists, blacklist: FilterLists, user: Id, ms: seq<Message>, sup: seq<Suppression>)
    requires c.mentionSetting != Some(Number(1)) && c.mentionSetting != Some(Number(2))
    ensures Run(Decider(c, whitelist, blacklist, user), user, ms, sup) == Batch(ms, sup)
  {
    RunAllSkipped(Decider(c, whitelist, blacklist, user), user, ms, sup);
  }

  /**
   * Over a whole batch in suppress mode with no list scope (any filter
   * value other than 1 or 2), every message that mentions the user and is
   * not a manual ping the settings let through ends up with a record, and
   * no message has two.
   */
  lemma SuppressBatchRecordsOnce(c: Config, whitelist: FilterLists, blacklist: FilterLists, user: Id, ms: seq<Message>, sup: seq<Suppression>, i: int)
    requires c.mentionSetting == Some(Number(1)) && c.filterSetting != Some(Number(1)) && c.filterSetting != Some(Number(2))
    requires UniqueMessageIds(sup)
    requires 0 <= i < |ms| && user in ms[i].mentions
    requires !(Truthy(c.allowManualPing) && ManuallyPinged(ms[i], user))
    ensures var b := Run(Decider(c, whitelist, blacklist, user), user, ms, sup);
      HasRecord(b.suppressed, ms[i].id) && UniqueMessageIds(b.suppressed)
  {
    var decide := Decider(c, whitelist, blacklist, user);
    assert decide(ms[i]) == Suppress;
    RunRecordsExactly(decide, user, ms, sup, ms[i].id);
    RunKeepsUnique(decide, user, ms, sup);
  }
}

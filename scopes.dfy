/**
 * The whitelist and blacklist of the MentionFilter plugin: three id lists
 * (guild, channel, user) each, the membership test behind `isWhitelisted` /
 * `isBlacklisted`, and the list part of `addToFilter` / `removeFromFilter`.
 * Both MentionFilter revisions share this code unchanged.
 */
module Scopes {
  import opened Lists
  import opened Host

  /** The `type` argument of `addToFilter` / `removeFromFilter`. */
  datatype Scope = Guild | Channel | User

  /** The `filter` argument: which of the two lists is meant. */
  datatype ListKind = Whitelist | Blacklist

  /** `{guild: [...], channel: [...], user: [...]}` */
  datatype FilterLists = FilterLists(guild: seq<Id>, channel: seq<Id>, user: seq<Id>)

  /** The lists the constructor starts from. */
  const NoIds := FilterLists([], [], [])

  /** `list[type]` */
  function IdsAt(l: FilterLists, scope: Scope): seq<Id>
  {
    match scope
    case Guild => l.guild
    case Channel => l.channel
    case User => l.user
  }

  /** `list[type] = ids`, the other two lists untouched. */
  function WithIds(l: FilterLists, scope: Scope, ids: seq<Id>): (r: FilterLists)
    ensures IdsAt(r, scope) == ids
    ensures forall other :: other != scope ==> IdsAt(r, other) == IdsAt(l, other)
  {
    match scope
    case Guild => l.(guild := ids)
    case Channel => l.(channel := ids)
    case User => l.(user := ids)
  }

  /** The argument object `{userId, channelId, guildId}`; an id left out is `null`. */
  datatype Query = Query(userId: Option<Id>, channelId: Option<Id>, guildId: Option<Id>)

  /** The query's id for one scope. */
  function QueryId(q: Query, scope: Scope): Option<Id>
  {
    match scope
    case Guild => q.guildId
    case Channel => q.channelId
    case User => q.userId
  }

  /** The query a message gives: its author, its channel and (outside direct messages) its guild. */
  function QueryOf(m: Message): Query
  {
    Query(Some(m.authorId), Some(m.channelId), m.guildId)
  }

  /** The query the context menu builds for one entity: `{[`${type}Id`]: id}`. */
  function ScopeQuery(scope: Scope, id: Id): (q: Query)
    ensures QueryId(q, scope) == Some(id)
    ensures forall other :: other != scope ==> QueryId(q, other) == None
  {
    match scope
    case Guild => Query(None, None, Some(id))
    case Channel => Query(None, Some(id), None)
    case User => Query(Some(id), None, None)
  }

  /** JavaScript truthiness of an optional id: it is there and is not the empty string. */
  predicate Supplied(id: Option<Id>)
  {
    id.Some? && id.value != ""
  }

  /**
   * The body of `isWhitelisted` / `isBlacklisted`: the user, channel or
   * guild id, when supplied, is in the matching list.
   */
  predicate Listed(l: FilterLists, q: Query)
    ensures l == NoIds ==> !Listed(l, q)
    ensures q == Query(None, None, None) ==> !Listed(l, q)
  {
    || (Supplied(q.userId) && q.userId.value in l.user)
    || (Supplied(q.channelId) && q.channelId.value in l.channel)
    || (Supplied(q.guildId) && q.guildId.value in l.guild)
  }

  /** Membership, scope by scope: some supplied id of the query sits in the list of its own scope. */
  lemma ListedIff(l: FilterLists, q: Query)
    ensures Listed(l, q) <==> exists scope :: Supplied(QueryId(q, scope)) && QueryId(q, scope).value in IdsAt(l, scope)
  {
    if Listed(l, q) {
      var scope := if Supplied(q.userId) && q.userId.value in l.user then User
                   else if Supplied(q.channelId) && q.channelId.value in l.channel then Channel
                   else Guild;
      assert Supplied(QueryId(q, scope)) && QueryId(q, scope).value in IdsAt(l, scope);
    }
  }

  /** The list part of `addToFilter`: nothing when the id is there already, otherwise `push(id)`. */
  function Added(l: FilterLists, scope: Scope, id: Id): (r: FilterLists)
    ensures id in IdsAt(r, scope)
    ensures multiset(IdsAt(r, scope)) == multiset(IdsAt(l, scope)) + if id in IdsAt(l, scope) then multiset{} else multiset{id}
    ensures forall other :: other != scope ==> IdsAt(r, other) == IdsAt(l, other)
  {
    if id in IdsAt(l, scope) then l else WithIds(l, scope, IdsAt(l, scope) + [id])
  }

  /** The list part of `removeFromFilter`: nothing when the id is absent, otherwise every copy is filtered out. */
  function Removed(l: FilterLists, scope: Scope, id: Id): (r: FilterLists)
    ensures id !in IdsAt(r, scope)
    ensures forall x :: x != id ==> multiset(IdsAt(r, scope))[x] == multiset(IdsAt(l, scope))[x]
    ensures forall other :: other != scope ==> IdsAt(r, other) == IdsAt(l, other)
  {
    if id !in IdsAt(l, scope) then l else WithIds(l, scope, RemoveAll(IdsAt(l, scope), id))
  }

  /** After `addToFilter` the id is in its list: once if it was absent, as often as before otherwise; nothing else changes. */
  lemma AddedContents(l: FilterLists, scope: Scope, id: Id)
    ensures var r := Added(l, scope, id);
      && id in IdsAt(r, scope)
      && multiset(IdsAt(r, scope))[id] == (if id in IdsAt(l, scope) then multiset(IdsAt(l, scope))[id] else 1)
      && (forall x :: x != id ==> multiset(IdsAt(r, scope))[x] == multiset(IdsAt(l, scope))[x])
      && (forall other :: other != scope ==> IdsAt(r, other) == IdsAt(l, other))
  {
  }

  /** After `removeFromFilter`, no copy of the id is left and every other id keeps its count. */
  lemma RemovedContents(l: FilterLists, scope: Scope, id: Id)
    ensures var r := Removed(l, scope, id);
      && id !in IdsAt(r, scope)
      && (forall x :: x != id ==> multiset(IdsAt(r, scope))[x] == multiset(IdsAt(l, scope))[x])
      && (forall other :: other != scope ==> IdsAt(r, other) == IdsAt(l, other))
  {
  }

  /**
   * The context-menu toggle: a listed entity is removed, an unlisted one
   * added, and either way its membership flips (for any non-empty id).
   */
  lemma ToggleFlips(l: FilterLists, scope: Scope, id: Id)
    requires id != ""
    ensures var q := ScopeQuery(scope, id);
      Listed(if Listed(l, q) then Removed(l, scope, id) else Added(l, scope, id), q) == !Listed(l, q)
  {
    var q := ScopeQuery(scope, id);
    ListedIff(l, q);
    if Listed(l, q) {
      var r := Removed(l, scope, id);
      ListedIff(r, q);
      assert id !in IdsAt(r, scope);
    } else {
      var r := Added(l, scope, id);
      ListedIff(r, q);
      assert Supplied(QueryId(q, scope)) && QueryId(q, scope).value in IdsAt(r, scope);
    }
  }
}

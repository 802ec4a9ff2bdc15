/**
 * What the MentionFilter interceptor does to a message once it has decided
 * to act on it, and the `suppressed` records it keeps. Both MentionFilter
 * revisions apply the same suppress and force actions; they differ only in
 * how they decide (see MentionFilterV1.Decide and MentionFilterSrc.Decide).
 */
module Mentions {
  import opened Lists
  import opened Host

  /** `{messageId, userId}`: a message whose mention of the current user was suppressed, and its author. */
  datatype Suppression = Suppression(messageId: Id, userId: Id)

  /** The outcome of the gating for one message: leave it, suppress the mention, or force one. */
  datatype Decision = Skip | Suppress | Force

  /** A processed batch: the messages as the host will see them, and the new `suppressed` list. */
  datatype Batch = Batch(messages: seq<Message>, suppressed: seq<Suppression>)

  /** No two records are about the same message. */
  ghost predicate UniqueMessageIds(sup: seq<Suppression>)
  {
    forall i, j :: 0 <= i < j < |sup| ==> sup[i].messageId != sup[j].messageId
  }

  /** Some record is about message `id`. */
  predicate HasRecord(sup: seq<Suppression>, id: Id)
  {
    exists k :: 0 <= k < |sup| && sup[k].messageId == id
  }

  /** `suppressed.findIndex(s => s.messageId === id)` */
  function RecordIndex(sup: seq<Suppression>, id: Id): (k: int)
    ensures k < 0 <==> !HasRecord(sup, id)
  {
    FindIndex(sup, (s: Suppression) => s.messageId == id)
  }

  /**
   * The change to the message itself. Suppress clears `mentioned` and
   * splices out the first mention of `user`, if there is one; Force pushes
   * `user` when it is not mentioned yet.
   */
  function Apply(d: Decision, user: Id, m: Message): (r: Message)
    ensures r == m.(mentions := r.mentions, mentioned := r.mentioned)
    ensures d == Skip ==> r == m
    ensures d == Suppress ==> !r.mentioned && multiset(r.mentions) == multiset(m.mentions) - multiset{user}
    ensures d == Force ==> r.mentioned == m.mentioned && user in r.mentions && multiset(m.mentions) <= multiset(r.mentions)
  {
    var k := IndexOf(m.mentions, user);
    match d
    case Skip => m
    case Suppress => m.(mentioned := false, mentions := if 0 <= k then RemoveAt(m.mentions, k) else m.mentions)
    case Force => if k < 0 then m.(mentions := m.mentions + [user]) else m
  }

  /** The change to `suppressed`: a record is pushed when a mention was spliced out and the message has none yet. */
  function Record(d: Decision, user: Id, m: Message, sup: seq<Suppression>): (r: seq<Suppression>)
    ensures sup <= r && |r| <= |sup| + 1
    ensures |r| == |sup| + 1 <==> d == Suppress && user in m.mentions && !HasRecord(sup, m.id)
    ensures |r| == |sup| + 1 ==> r[|sup|] == Suppression(m.id, m.authorId)
  {
    if d == Suppress && 0 <= IndexOf(m.mentions, user) && RecordIndex(sup, m.id) < 0
    then sup + [Suppression(m.id, m.authorId)]
    else sup
  }

  /**
   * The `for (let message of messages)` loop as a function: every message
   * is decided and changed in turn, and `suppressed` grows from left to right.
   */
  function Run(decide: Message -> Decision, user: Id, ms: seq<Message>, sup: seq<Suppression>): (b: Batch)
    ensures |b.messages| == |ms|
    ensures sup <= b.suppressed
    decreases |ms|
  {
    if ms == [] then Batch([], sup)
    else
      var b := Run(decide, user, ms[..|ms| - 1], sup);
      var m := ms[|ms| - 1];
      var d := decide(m);
      Batch(b.messages + [Apply(d, user, m)], Record(d, user, m, b.suppressed))
  }

  /** Each message of a batch comes out as the action decided for it made it. */
  lemma {:induction false} RunMessages(decide: Message -> Decision, user: Id, ms: seq<Message>, sup: seq<Suppression>)
    ensures forall i :: 0 <= i < |ms| ==> Run(decide, user, ms, sup).messages[i] == Apply(decide(ms[i]), user, ms[i])
    decreases |ms|
  {
    if ms != [] {
      var front := ms[..|ms| - 1];
      RunMessages(decide, user, front, sup);
      assert forall i :: 0 <= i < |front| ==> ms[i] == front[i];
    }
  }

  /** One more message at the end of a batch: it is decided and processed after all the others. */
  lemma RunStep(decide: Message -> Decision, user: Id, ms: seq<Message>, sup: seq<Suppression>, i: int)
    requires 0 <= i < |ms|
    ensures var b := Run(decide, user, ms[..i], sup);
      Run(decide, user, ms[..i + 1], sup)
        == Batch(b.messages + [Apply(decide(ms[i]), user, ms[i])], Record(decide(ms[i]), user, ms[i], b.suppressed))
  {
    assert ms[..i + 1][..i] == ms[..i];
  }

  /** `suppressed.filter(s => !(s.userId === id))` */
  function DropUser(sup: seq<Suppression>, id: Id): (r: seq<Suppression>)
    ensures forall s :: s in r <==> s in sup && s.userId != id
    ensures UniqueMessageIds(sup) ==> UniqueMessageIds(r)
    decreases |sup|
  {
    if |sup| == 0 then []
    else
      assert sup == [sup[0]] + sup[1..];
      var rest := DropUser(sup[1..], id);
      if sup[0].userId == id then rest
      else
        assert UniqueMessageIds(sup) ==> forall s :: s in rest ==> s.messageId != sup[0].messageId;
        [sup[0]] + rest
  }

  /**
   * Suppressing clears `mentioned`; when the user is mentioned, exactly the
   * first such entry goes and the others keep their order; otherwise the
   * list stays as it was. Nothing else in the message changes.
   */
  lemma SuppressEffect(user: Id, m: Message)
    ensures var r := Apply(Suppress, user, m);
      && r == m.(mentioned := false, mentions := r.mentions)
      && !r.mentioned
      && (user !in m.mentions ==> r.mentions == m.mentions)
      && (user in m.mentions ==>
            var k := IndexOf(m.mentions, user);
            && |r.mentions| == |m.mentions| - 1
            && user !in m.mentions[..k]
            && (forall j :: 0 <= j < k ==> r.mentions[j] == m.mentions[j])
            && (forall j :: k <= j < |r.mentions| ==> r.mentions[j] == m.mentions[j + 1])
            && multiset(r.mentions) == multiset(m.mentions) - multiset{user})
  {
  }

  /**
   * Forcing leaves a message that mentions the user as it is, and otherwise
   * appends the user once at the end, so the user is mentioned exactly once.
   */
  lemma ForceEffect(user: Id, m: Message)
    ensures var r := Apply(Force, user, m);
      && (user in m.mentions ==> r == m)
      && (user !in m.mentions ==>
            r == m.(mentions := m.mentions + [user]) && multiset(r.mentions)[user] == 1)
  {
  }

  /**
   * `Record` adds at most one record, exactly when the mention was there to
   * splice and the message had no record yet; it keeps ids unique, and
   * afterwards a suppressed message always has its record.
   */
  lemma RecordEffect(d: Decision, user: Id, m: Message, sup: seq<Suppression>)
    ensures var r := Record(d, user, m, sup);
      && (r != sup <==> d == Suppress && user in m.mentions && !HasRecord(sup, m.id))
      && (r != sup ==> r == sup + [Suppression(m.id, m.authorId)])
      && (d == Suppress && user in m.mentions ==> HasRecord(r, m.id))
      && (UniqueMessageIds(sup) ==> UniqueMessageIds(r))
  {
    var r := Record(d, user, m, sup);
    if r != sup {
      assert r[|sup|].messageId == m.id;
    } else if d == Suppress && user in m.mentions {
      assert HasRecord(sup, m.id);
    }
  }

  /** Processing a batch never puts two records for one message in `suppressed`. */
  lemma {:induction false} RunKeepsUnique(decide: Message -> Decision, user: Id, ms: seq<Message>, sup: seq<Suppression>)
    requires UniqueMessageIds(sup)
    ensures UniqueMessageIds(Run(decide, user, ms, sup).suppressed)
    decreases |ms|
  {
    if ms != [] {
      var b := Run(decide, user, ms[..|ms| - 1], sup);
      RunKeepsUnique(decide, user, ms[..|ms| - 1], sup);
      var m := ms[|ms| - 1];
      RecordEffect(decide(m), user, m, b.suppressed);
    }
  }

  /** The batch holds message `id`, decided Suppress while it mentioned the user. */
  ghost predicate SuppressedIn(decide: Message -> Decision, user: Id, ms: seq<Message>, id: Id)
  {
    exists i :: 0 <= i < |ms| && ms[i].id == id && decide(ms[i]) == Suppress && user in ms[i].mentions
  }

  /** A record for `id` exists after `Record` exactly when it existed before or `m` is message `id` and was suppressed. */
  lemma RecordHas(d: Decision, user: Id, m: Message, sup: seq<Suppression>, id: Id)
    ensures HasRecord(Record(d, user, m, sup), id) <==> HasRecord(sup, id) || (m.id == id && d == Suppress && user in m.mentions)
  {
    var r := Record(d, user, m, sup);
    RecordEffect(d, user, m, sup);
    if HasRecord(sup, id) {
      var k :| 0 <= k < |sup| && sup[k].messageId == id;
      assert r[k] == sup[k];
    }
    if HasRecord(r, id) && !HasRecord(sup, id) {
      var k :| 0 <= k < |r| && r[k].messageId == id;
      assert k == |sup|;
    }
  }

  /** Splitting the last message off a batch. */
  lemma SuppressedInSnoc(decide: Message -> Decision, user: Id, ms: seq<Message>, id: Id)
    requires ms != []
    ensures var m := ms[|ms| - 1];
      SuppressedIn(decide, user, ms, id) <==>
        SuppressedIn(decide, user, ms[..|ms| - 1], id) || (m.id == id && decide(m) == Suppress && user in m.mentions)
  {
    var front := ms[..|ms| - 1];
    if SuppressedIn(decide, user, front, id) {
      var i :| 0 <= i < |front| && front[i].id == id && decide(front[i]) == Suppress && user in front[i].mentions;
      assert ms[i] == front[i];
    }
    if SuppressedIn(decide, user, ms, id) {
      var i :| 0 <= i < |ms| && ms[i].id == id && decide(ms[i]) == Suppress && user in ms[i].mentions;
      if i < |front| {
        assert front[i] == ms[i];
      }
    }
  }

  /**
   * After a batch, a message has a record exactly when it had one before or
   * it is in the batch, was decided Suppress and mentioned the user.
   */
  lemma {:induction false} RunRecordsExactly(decide: Message -> Decision, user: Id, ms: seq<Message>, sup: seq<Suppression>, id: Id)
    ensures HasRecord(Run(decide, user, ms, sup).suppressed, id) <==> HasRecord(sup, id) || SuppressedIn(decide, user, ms, id)
    decreases |ms|
  {
    if ms != [] {
      var front := ms[..|ms| - 1];
      var m := ms[|ms| - 1];
      var b := Run(decide, user, front, sup);
      RunRecordsExactly(decide, user, front, sup, id);
      RecordHas(decide(m), user, m, b.suppressed, id);
      SuppressedInSnoc(decide, user, ms, id);
    } else {
      assert !SuppressedIn(decide, user, ms, id);
    }
  }

  /**
   * Every record a batch adds is `{messageId, userId}` of a message of the
   * batch that was decided Suppress and had its mention spliced out.
   */
  lemma {:induction false} RunRecordsSound(decide: Message -> Decision, user: Id, ms: seq<Message>, sup: seq<Suppression>, k: int)
    requires var r := Run(decide, user, ms, sup).suppressed; |sup| <= k < |r|
    ensures var r := Run(decide, user, ms, sup).suppressed;
      exists i :: 0 <= i < |ms| && r[k] == Suppression(ms[i].id, ms[i].authorId)
                  && decide(ms[i]) == Suppress && user in ms[i].mentions
    decreases |ms|
  {
    var front := ms[..|ms| - 1];
    var m := ms[|ms| - 1];
    var b := Run(decide, user, front, sup);
    RecordEffect(decide(m), user, m, b.suppressed);
    var r := Run(decide, user, ms, sup).suppressed;
    assert r == Record(decide(m), user, m, b.suppressed);
    if k < |b.suppressed| {
      RunRecordsSound(decide, user, front, sup, k);
      var i :| 0 <= i < |front| && b.suppressed[k] == Suppression(front[i].id, front[i].authorId)
               && decide(front[i]) == Suppress && user in front[i].mentions;
      assert ms[i] == front[i] && r[k] == b.suppressed[k];
    } else {
      assert r[k] == Suppression(ms[|ms| - 1].id, ms[|ms| - 1].authorId);
    }
  }

  /** A batch in which every message is decided Skip changes neither the messages nor `suppressed`. */
  lemma {:induction false} RunAllSkipped(decide: Message -> Decision, user: Id, ms: seq<Message>, sup: seq<Suppression>)
    requires forall i :: 0 <= i < |ms| ==> decide(ms[i]) == Skip
    ensures Run(decide, user, ms, sup) == Batch(ms, sup)
    decreases |ms|
  {
    if ms != [] {
      RunAllSkipped(decide, user, ms[..|ms| - 1], sup);
      assert ms == ms[..|ms| - 1] + [ms[|ms| - 1]];
    }
  }
}

/**
 * The user tables of the earlier revision (backend/foodgram/users/models.py):
 * unique user names of at most 150 characters, unique e-mail addresses,
 * and Subscribe rows whose (subscriber, author) pair is unique. Both
 * foreign keys of Subscribe cascade when a user is deleted.
 */
module LegacyUsers {
  import opened Common
  import opened UserSerializers

  datatype User = User(username: string, email: string, firstName: string, lastName: string)

  const UsernameMaxLength: nat := 150

  /** username is unique and at most 150 characters long; email is unique. */
  predicate UsersValid(users: map<int, User>) {
    && (forall u :: u in users ==> |users[u].username| <= UsernameMaxLength)
    && (forall a, b :: a in users && b in users && a != b ==>
          users[a].username != users[b].username && users[a].email != users[b].email)
  }

  /** A (subscriber, author) pair occurs at most once and both users exist; nothing forbids subscriber == author. */
  predicate SubscriptionsValid(subs: seq<Subscription>, users: map<int, User>) {
    && Distinct(subs)
    && forall i :: 0 <= i < |subs| ==> subs[i].subscriber in users && subs[i].author in users
  }

  /** The Subscribe rows that name user u on neither side, in their order. */
  function SubscriptionsWithout(subs: seq<Subscription>, u: int): (o: seq<Subscription>)
    ensures forall s :: s in o <==> s in subs && s.subscriber != u && s.author != u
  {
    if |subs| == 0 then []
    else if subs[0].subscriber == u || subs[0].author == u then SubscriptionsWithout(subs[1..], u)
    else [subs[0]] + SubscriptionsWithout(subs[1..], u)
  }

  lemma {:induction false} SubscriptionsWithoutDistinct(subs: seq<Subscription>, u: int)
    requires Distinct(subs)
    ensures Distinct(SubscriptionsWithout(subs, u))
  {
    if |subs| > 0 {
      SubscriptionsWithoutDistinct(subs[1..], u);
    }
  }

  /**
   * Deleting user u removes every Subscribe row in which u is the
   * subscriber or the author; the tables stay valid.
   */
  lemma DeleteUserCascade(users: map<int, User>, subs: seq<Subscription>, u: int)
    requires UsersValid(users) && SubscriptionsValid(subs, users)
    ensures UsersValid(users - {u})
    ensures SubscriptionsValid(SubscriptionsWithout(subs, u), users - {u})
  {
    SubscriptionsWithoutDistinct(subs, u);
    var o := SubscriptionsWithout(subs, u);
    forall i | 0 <= i < |o| ensures o[i].subscriber in users - {u} && o[i].author in users - {u} {
      assert o[i] in o;
    }
  }

  /** No constraint keeps a user from subscribing to themselves. */
  lemma SelfSubscriptionIsValid()
    ensures var users := map[1 := User("cook", "cook@example.org", "A", "B")];
      SubscriptionsValid([Subscription(1, 1)], users)
  {
  }

  /** A second row for the same pair breaks the unique constraint. */
  lemma RepeatedSubscriptionIsInvalid(users: map<int, User>, s: Subscription)
    ensures !SubscriptionsValid([s, s], users)
  {
    assert [s, s][0] == [s, s][1];
  }
}

/** The `profiles` table of the relational store: one row per user, keyed by
    the user id that the identity provider assigns. */
module Profiles {
  import opened Optional

  /** A row of `profiles`. `images_generated` and `subscription_id` are
      nullable columns; `email` is whatever the creating request carried. */
  datatype Profile = Profile(
    id: string,
    email: Option<string>,
    fullName: string,
    avatarUrl: string,
    imagesGenerated: Option<int>,
    paid: bool,
    subscriptionId: Option<string>)

  /** Every row is stored under its own id. */
  ghost predicate Keyed(rows: map<string, Profile>) {
    forall id :: id in rows ==> rows[id].id == id
  }

  /** The rows after `update({ paid: false, subscription_id: null })
      .eq('subscription_id', sub)`. */
  function Cancelled(rows: map<string, Profile>, sub: string): map<string, Profile> {
    map id | id in rows :: if rows[id].subscriptionId == Some(sub)
                           then rows[id].(paid := false, subscriptionId := None)
                           else rows[id]
  }

  /** The bulk cancel touches exactly the rows holding the subscription: they
      lose `paid` and `subscription_id` and keep every other field; all other
      rows, and the set of users, are unchanged. */
  lemma CancelledSpec(rows: map<string, Profile>, sub: string)
    ensures Cancelled(rows, sub).Keys == rows.Keys
    ensures forall id :: id in rows && rows[id].subscriptionId == Some(sub) ==>
      var r := Cancelled(rows, sub)[id];
      !r.paid && r.subscriptionId.None? && r.id == rows[id].id && r.email == rows[id].email
      && r.fullName == rows[id].fullName && r.avatarUrl == rows[id].avatarUrl
      && r.imagesGenerated == rows[id].imagesGenerated
    ensures forall id :: id in rows && rows[id].subscriptionId != Some(sub) ==>
      Cancelled(rows, sub)[id] == rows[id]
    ensures forall id :: id in Cancelled(rows, sub) ==> Cancelled(rows, sub)[id].subscriptionId != Some(sub)
  {
  }

  /** Cancelling twice is the same as cancelling once. */
  lemma CancelledIdempotent(rows: map<string, Profile>, sub: string)
    ensures Cancelled(Cancelled(rows, sub), sub) == Cancelled(rows, sub)
  {
    CancelledSpec(rows, sub);
    CancelledSpec(Cancelled(rows, sub), sub);
  }

  lemma CancelledKeyed(rows: map<string, Profile>, sub: string)
    requires Keyed(rows)
    ensures Keyed(Cancelled(rows, sub))
  {
  }

  /** The rows after `update({ images_generated: n }).eq('id', id)`. */
  function WithImagesGenerated(rows: map<string, Profile>, id: string, n: int): (r: map<string, Profile>)
    ensures r.Keys == rows.Keys
    ensures forall k :: k in rows && k != id ==> r[k] == rows[k]
    ensures id in rows ==>
      r[id].imagesGenerated == Some(n) && r[id].(imagesGenerated := rows[id].imagesGenerated) == rows[id]
  {
    if id in rows then rows[id := rows[id].(imagesGenerated := Some(n))] else rows
  }

  /** The in-memory `profiles` table, updated in place by the routes and the page. */
  class ProfileTable {
    var rows: map<string, Profile>

    ghost predicate Valid()
      reads this
    {
      Keyed(rows)
    }

    constructor (initial: map<string, Profile>)
      requires Keyed(initial)
      ensures Valid() && rows == initial
    {
      rows := initial;
    }

    /** `select('*').eq('id', id).single()`: the row, or nothing. */
    method SelectById(id: string) returns (found: Option<Profile>)
      requires Valid()
      ensures found.Some? <==> id in rows
      ensures found.Some? ==> found.value == rows[id] && found.value.id == id
    {
      found := if id in rows then Some(rows[id]) else None;
    }

    /** `insert([p]).select().single()`; `fails` stands for an error the store
        reports, in which case nothing is written. */
    method Insert(p: Profile, fails: bool) returns (ok: bool)
      requires Valid()
      modifies this
      ensures Valid()
      ensures ok == (!fails && p.id !in old(rows))
      ensures rows == if ok then old(rows)[p.id := p] else old(rows)
    {
      ok := !fails && p.id !in rows;
      if ok {
        rows := rows[p.id := p];
      }
    }

    /** `update({ images_generated: n }).eq('id', id).select().single()`:
        the updated row when there is one. */
    method SetImagesGenerated(id: string, n: int) returns (data: Option<Profile>)
      requires Valid()
      modifies this
      ensures Valid()
      ensures rows == WithImagesGenerated(old(rows), id, n)
      ensures data == if id in old(rows) then Some(rows[id]) else None
    {
      if id in rows {
        rows := rows[id := rows[id].(imagesGenerated := Some(n))];
        data := Some(rows[id]);
      } else {
        data := None;
      }
    }

    /** `update({ paid: false, subscription_id: null }).eq('subscription_id', sub)`;
        `fails` stands for an error the store reports, in which case nothing is written. */
    method CancelSubscriptionRows(sub: string, fails: bool) returns (ok: bool)
      requires Valid()
      modifies this
      ensures Valid()
      ensures ok == !fails
      ensures rows == if ok then Cancelled(old(rows), sub) else old(rows)
    {
      ok := !fails;
      if ok {
        CancelledKeyed(rows, sub);
        rows := Cancelled(rows, sub);
      }
    }
  }
}

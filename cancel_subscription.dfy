/** `POST /api/cancel-subscription` (app/api/cancel-subscription/route.ts):
    cancel a subscription with the payment provider, then clear it from
    every profile that holds it. */
module CancelSubscription {
  import opened Optional
  import opened Profiles

  /** The signed-in user the auth client reports. */
  datatype AuthUser = AuthUser(id: string)

  datatype Response =
    | NotFound                  // 404 'User not found'
    | Done                      // 200 { message: "Subscription cancelled successfully" }
    | ServerError(reason: Step) // 500 { error }

  /** The step whose failure produced a 500. */
  datatype Step = Provider | StoreUpdate

  function Status(r: Response): int {
    match r
    case NotFound => 404
    case Done => 200
    case ServerError(_) => 500
  }

  /** The payment provider, seen only through the subscriptions it has been
      asked to cancel successfully. */
  class Billing {
    var cancelled: seq<string>

    constructor ()
      ensures cancelled == []
    {
      cancelled := [];
    }

    /** `stripe.subscriptions.cancel(sub)`; `fails` stands for the call
        throwing, in which case nothing is recorded. */
    method Cancel(sub: string, fails: bool) returns (ok: bool)
      modifies this
      ensures ok == !fails
      ensures cancelled == if ok then old(cancelled) + [sub] else old(cancelled)
    {
      ok := !fails;
      if ok {
        cancelled := cancelled + [sub];
      }
    }
  }

  /** The route. `providerFails` and `updateFails` stand for the provider
      call throwing and for the store reporting an update error. */
  method Post(table: ProfileTable, billing: Billing, user: Option<AuthUser>, sub: string,
              providerFails: bool, updateFails: bool) returns (res: Response)
    requires table.Valid()
    modifies table, billing
    ensures table.Valid()
    ensures user.None? ==>
      res == NotFound && table.rows == old(table.rows) && billing.cancelled == old(billing.cancelled)
    ensures user.Some? && providerFails ==>
      res == ServerError(Provider) && table.rows == old(table.rows) && billing.cancelled == old(billing.cancelled)
    ensures user.Some? && !providerFails ==> billing.cancelled == old(billing.cancelled) + [sub]
    ensures user.Some? && !providerFails && updateFails ==>
      res == ServerError(StoreUpdate) && table.rows == old(table.rows)
    ensures user.Some? && !providerFails && !updateFails ==>
      res == Done && table.rows == Cancelled(old(table.rows), sub)
  {
    if user.None? {
      return NotFound;
    }
    var cancelledUpstream := billing.Cancel(sub, providerFails);
    if !cancelledUpstream {
      return ServerError(Provider);
    }
    var updated := table.CancelSubscriptionRows(sub, updateFails);
    if !updated {
      return ServerError(StoreUpdate);
    }
    res := Done;
  }

  /** After a successful cancel no profile holds the subscription or is paid
      through it; each other profile is unchanged, and each affected one
      keeps its usage count, name, email and avatar. */
  lemma DoneClearsSubscription(before: map<string, Profile>, sub: string)
    ensures var after := Cancelled(before, sub);
      after.Keys == before.Keys
      && (forall id :: id in after ==> after[id].subscriptionId != Some(sub))
      && (forall id :: id in before && before[id].subscriptionId == Some(sub) ==>
            !after[id].paid && after[id].imagesGenerated == before[id].imagesGenerated
            && after[id].email == before[id].email && after[id].fullName == before[id].fullName
            && after[id].avatarUrl == before[id].avatarUrl)
      && (forall id :: id in before && before[id].subscriptionId != Some(sub) ==> after[id] == before[id])
  {
    CancelledSpec(before, sub);
  }

  /** Retrying a successful cancel changes no further rows. */
  lemma RetryChangesNothing(before: map<string, Profile>, sub: string)
    ensures Cancelled(Cancelled(before, sub), sub) == Cancelled(before, sub)
  {
    CancelledIdempotent(before, sub);
  }
}

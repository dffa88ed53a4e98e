/** The free-generation quota of the generator page (app/app/page.tsx): the
    gate in `onResponse`, the submit button, the "generations left" counter
    and the increment written after a completed stream. */
module Quota {
  import opened Optional
  import opened Profiles

  /** Generations an unpaid profile may start. */
  const FreeLimit: int := 2

  /** `images_generated ?? 0`. */
  function Used(p: Profile): int {
    p.imagesGenerated.GetOr(0)
  }

  /** An unpaid profile that has used up its free generations. */
  predicate AtLimit(p: Profile) {
    !p.paid && Used(p) >= FreeLimit
  }

  /** The guard at the top of `onResponse`:
      `currentUser && !currentUser.paid && (currentUser.images_generated ?? 0) >= 2`. */
  predicate GateBlocks(user: Option<Profile>) {
    user.Some? && AtLimit(user.value)
  }

  /** The quota term of the submit button's `disabled` and of its label:
      `!currentUser?.paid && (currentUser?.images_generated ?? 0) >= 2`,
      where optional chaining yields `undefined` for an absent user. */
  predicate QuotaDisables(user: Option<Profile>) {
    var paid := user.Some? && user.value.paid;
    var used := if user.Some? then Used(user.value) else 0;
    !paid && used >= FreeLimit
  }

  /** Whether the submit button is disabled. */
  function ButtonDisabled(formValid: bool, loading: bool, user: Option<Profile>): (r: bool)
    ensures r <==> !formValid || loading || GateBlocks(user)
  {
    GateAgreesWithButton(user);
    !formValid || loading || QuotaDisables(user)
  }

  /** The button's text. */
  datatype Label = Upgrade | Extracting | Generating | Ready

  function ButtonLabel(loading: bool, scraping: bool, user: Option<Profile>): (r: Label)
    ensures r == Upgrade <==> GateBlocks(user)
    ensures r == Extracting ==> loading && scraping
    ensures r == Ready ==> !loading
    ensures !GateBlocks(user) && !loading ==> r == Ready
    ensures !GateBlocks(user) && loading ==> (r == Extracting <==> scraping)
  {
    GateAgreesWithButton(user);
    if QuotaDisables(user) then Upgrade
    else if loading then (if scraping then Extracting else Generating)
    else Ready
  }

  /** The signed-in page (it is rendered only with a profile present) agrees
      everywhere: the button is disabled for quota reasons exactly when
      `onResponse` would stop the stream, and an absent profile is never
      blocked by either. */
  lemma GateAgreesWithButton(user: Option<Profile>)
    ensures QuotaDisables(user) <==> GateBlocks(user)
  {
  }

  /** Paid profiles are never blocked, whatever their count. */
  lemma PaidNeverBlocked(p: Profile)
    requires p.paid
    ensures !GateBlocks(Some(p)) && !QuotaDisables(Some(p))
    ensures forall formValid: bool, loading: bool ::
      ButtonDisabled(formValid, loading, Some(p)) == (!formValid || loading)
  {
  }

  /** "{2 - (images_generated ?? 0)} generations left", shown to unpaid users. */
  function Remaining(p: Profile): (r: int)
    ensures r + Used(p) == FreeLimit
    ensures !p.paid ==> (r > 0 <==> !GateBlocks(Some(p)))
  {
    FreeLimit - Used(p)
  }

  /** The profile after the post-stream update
      `images_generated: (currentUser.images_generated ?? 0) + 1`;
      `paid` is not consulted, so paid profiles are counted too. */
  function Committed(p: Profile): (r: Profile)
    ensures Used(r) == Used(p) + 1
    ensures r.id == p.id && r.email == p.email && r.fullName == p.fullName
    ensures r.avatarUrl == p.avatarUrl && r.paid == p.paid && r.subscriptionId == p.subscriptionId
    ensures r.imagesGenerated.Some?
  {
    p.(imagesGenerated := Some(Used(p) + 1))
  }

  /** The profile after `k` completed generations. */
  function CommittedTimes(p: Profile, k: nat): Profile {
    if k == 0 then p else Committed(CommittedTimes(p, k - 1))
  }

  lemma {:induction false} CommittedTimesUsed(p: Profile, k: nat)
    ensures Used(CommittedTimes(p, k)) == Used(p) + k
    ensures CommittedTimes(p, k).paid == p.paid && CommittedTimes(p, k).id == p.id
  {
    if k > 0 {
      CommittedTimesUsed(p, k - 1);
    }
  }

  /** An unpaid profile can complete exactly as many generations as the
      counter shows: after `k` of them it is still allowed iff `k` is below
      the count it started with. */
  lemma RemainingIsExact(p: Profile, k: nat)
    requires !p.paid
    ensures !GateBlocks(Some(CommittedTimes(p, k))) <==> k < Remaining(p)
  {
    CommittedTimesUsed(p, k);
  }

  /** A fresh profile (count 0) gets two free generations and is blocked at
      the third. */
  lemma FreshProfileGetsTwo(p: Profile)
    requires !p.paid && p.imagesGenerated == Some(0)
    ensures !GateBlocks(Some(p)) && !GateBlocks(Some(Committed(p)))
    ensures GateBlocks(Some(Committed(Committed(p))))
  {
    CommittedTimesUsed(p, 2);
    assert CommittedTimes(p, 2) == Committed(Committed(p)) by {
      assert CommittedTimes(p, 1) == Committed(p);
    }
  }
}

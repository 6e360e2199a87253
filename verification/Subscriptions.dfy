/**
 The local mirror of Stripe subscriptions: webhook handlers, customer and admin actions and the cleanup
 cron, each one atomic step, in any order. INCOMPLETE is a staging state: rows enter it only at
 creation, and only rows in it are ever deleted.
 */
module Subscriptions {
  import opened Common

  type SubId = string
  type StripeId = string
  type UserId = string

  datatype Status = Incomplete | Active | PastDue | Cancelled | Unpaid | Paused

  /** Timestamps are None for null, an absent URL is empty; `email` says whether there is a notification address. */
  datatype Sub = Sub(
    userId: UserId, stripeId: StripeId, email: bool, status: Status, cancelAtPeriodEnd: bool,
    cancelledAt: Option<int>, endedAt: Option<int>, periodEnd: Option<int>, invoiceUrl: string, updatedAt: int)

  /** Stripe's statuses; those the mirror does not map (incomplete, trialing and others) are StripeOther. */
  datatype StripeStatus = StripeActive | StripePastDue | StripeCanceled | StripeUnpaid | StripePaused | StripeOther

  /** Timestamps as Stripe sends them: absent, or seconds, where 0 reads as absent. */
  datatype StripeSub = StripeSub(
    status: StripeStatus, cancelAtPeriodEnd: bool, canceledAt: Option<int>, endedAt: Option<int>, periodEnd: Option<int>)

  datatype Actor = Admin | User(userId: Option<UserId>)

  /** `notices` lists the SUBSCRIPTION_CREATED mails sent; `used` the row ids ever issued. */
  datatype State = State(rows: map<SubId, Sub>, now: int, notices: seq<SubId>, used: set<SubId>)

  datatype Step =
    | Create(id: SubId, userId: UserId, stripeId: StripeId, email: bool, firstPeriodEnd: int)
    | Cancel(id: SubId, actor: Actor, atPeriodEnd: bool, stripeOk: bool)
    | Reactivate(id: SubId, actor: Actor, stripeOk: bool)
    | AdminUpdateTerms(id: SubId, reply: Option<StripeSub>)
    | CancelAll(stripeIds: seq<StripeId>, failing: set<StripeId>)
    | OnCreated(stripeId: StripeId)
    | OnUpdated(stripeId: StripeId, stripe: StripeSub)
    | OnDeleted(stripeId: StripeId)
    | OnInvoicePaid(stripeId: StripeId, periodEnd: Option<int>, invoiceUrl: string)
    | OnInvoiceFailed(stripeId: StripeId)
    | Sweep
    | Tick(ms: nat)

  const INCOMPLETE_TTL_MS := 24 * 60 * 60 * 1000

  datatype Outcome =
    | Done | NotFound | UserIdRequired | Forbidden | AlreadyTerminated | NothingScheduled | StripeFailed

  /** The row of a Stripe subscription id, unique by the table's index. */
  ghost function FindByStripe(rows: map<SubId, Sub>, x: StripeId): (id: Option<SubId>)
    ensures id.Some? ==> id.value in rows && rows[id.value].stripeId == x
    ensures id.None? ==> forall i :: i in rows ==> rows[i].stripeId != x
  {
    if exists i :: i in rows && rows[i].stripeId == x
    then var i :| i in rows && rows[i].stripeId == x; Some(i)
    else None
  }

  function MapStatus(stripe: StripeStatus, current: Status): Status {
    match stripe
    case StripeActive => Active
    case StripePastDue => PastDue
    case StripeCanceled => Cancelled
    case StripeUnpaid => Unpaid
    case StripePaused => Paused
    case StripeOther => current
  }

  /** A Stripe timestamp overwrites the local one unless it is absent or 0. */
  function Overwrite(seconds: Option<int>, current: Option<int>): Option<int> {
    if seconds.Some? && seconds.value != 0 then Some(seconds.value * 1000) else current
  }

  function SyncRow(row: Sub, stripe: StripeSub): Sub {
    row.(status := MapStatus(stripe.status, row.status),
         periodEnd := Overwrite(stripe.periodEnd, row.periodEnd),
         cancelAtPeriodEnd := stripe.cancelAtPeriodEnd,
         cancelledAt := Overwrite(stripe.canceledAt, row.cancelledAt),
         endedAt := Overwrite(stripe.endedAt, row.endedAt))
  }

  function TermsRow(row: Sub, stripe: StripeSub): Sub {
    row.(status := MapStatus(stripe.status, row.status), cancelAtPeriodEnd := stripe.cancelAtPeriodEnd,
         periodEnd := if stripe.periodEnd.Some? then Some(stripe.periodEnd.value * 1000) else row.periodEnd)
  }

  function PaidRow(row: Sub, periodEnd: Option<int>, invoiceUrl: string): Sub {
    row.(periodEnd := Overwrite(periodEnd, row.periodEnd),
         invoiceUrl := if invoiceUrl != "" then invoiceUrl else row.invoiceUrl)
  }

  function CancelNow(row: Sub, now: int): Sub {
    row.(status := Cancelled, cancelledAt := Some(now), endedAt := Some(now))
  }

  /** Saving a row stamps it, unless nothing changed. */
  function Saved(rows: map<SubId, Sub>, id: SubId, row: Sub, now: int): map<SubId, Sub> {
    if id in rows && row == rows[id] then rows else rows[id := row.(updatedAt := now)]
  }

  predicate Stale(row: Sub, now: int) {
    row.status == Incomplete && row.updatedAt < now - INCOMPLETE_TTL_MS
  }

  function Refusal(rows: map<SubId, Sub>, id: SubId, actor: Actor): Outcome {
    if id !in rows then NotFound
    else if actor.User? && actor.userId.None? then UserIdRequired
    else if actor.User? && actor.userId.value != rows[id].userId then Forbidden
    else Done
  }

  function ReactivateOutcome(rows: map<SubId, Sub>, id: SubId, actor: Actor, stripeOk: bool): Outcome {
    if Refusal(rows, id, actor) != Done then Refusal(rows, id, actor)
    else if rows[id].status == Cancelled || rows[id].endedAt.Some? then AlreadyTerminated
    else if !rows[id].cancelAtPeriodEnd then NothingScheduled
    else if !stripeOk then StripeFailed
    else Done
  }

  ghost function CancelEach(rows: map<SubId, Sub>, ids: seq<StripeId>, failing: set<StripeId>, now: int): map<SubId, Sub> {
    if ids == [] then rows
    else
      var before := CancelEach(rows, ids[..|ids| - 1], failing, now);
      var x := ids[|ids| - 1];
      if x in failing || FindByStripe(before, x).None? then before
      else
        var id := FindByStripe(before, x).value;
        Saved(before, id, CancelNow(before[id], now), now)
  }

  ghost function Apply(s: State, step: Step): State {
    match step
    case Create(id, userId, stripeId, email, firstPeriodEnd) =>
      if id in s.used || FindByStripe(s.rows, stripeId).Some? then s
      else
        s.(rows := s.rows[id := Sub(userId, stripeId, email, Incomplete, false, None, None, Some(firstPeriodEnd), "", s.now)],
           used := s.used + {id})
    case Cancel(id, actor, atPeriodEnd, stripeOk) =>
      if Refusal(s.rows, id, actor) != Done || !stripeOk then s
      else
        var row := s.rows[id];
        s.(rows := Saved(s.rows, id,
                         if atPeriodEnd then row.(cancelAtPeriodEnd := true, cancelledAt := Some(s.now))
                         else CancelNow(row, s.now),
                         s.now))
    case Reactivate(id, actor, stripeOk) =>
      if ReactivateOutcome(s.rows, id, actor, stripeOk) != Done then s
      else s.(rows := Saved(s.rows, id, s.rows[id].(cancelAtPeriodEnd := false, cancelledAt := None), s.now))
    case AdminUpdateTerms(id, reply) =>
      if id !in s.rows || reply.None? then s
      else s.(rows := Saved(s.rows, id, TermsRow(s.rows[id], reply.value), s.now))
    case CancelAll(ids, failing) => s.(rows := CancelEach(s.rows, ids, failing, s.now))
    case OnCreated(x) =>
      var id := FindByStripe(s.rows, x);
      if id.Some? && s.rows[id.value].status != Incomplete && s.rows[id.value].email
      then s.(notices := s.notices + [id.value]) else s
    case OnUpdated(x, stripe) =>
      var id := FindByStripe(s.rows, x);
      if id.None? then s
      else
        var row := s.rows[id.value];
        var synced := SyncRow(row, stripe);
        s.(rows := Saved(s.rows, id.value, synced, s.now),
           notices := s.notices
                      + if row.status == Incomplete && synced.status == Active && synced.email then [id.value] else [])
    case OnDeleted(x) =>
      var id := FindByStripe(s.rows, x);
      if id.None? then s
      else if s.rows[id.value].status == Incomplete then s.(rows := s.rows - {id.value})
      else s.(rows := Saved(s.rows, id.value, s.rows[id.value].(status := Cancelled, endedAt := Some(s.now)), s.now))
    case OnInvoicePaid(x, periodEnd, invoiceUrl) =>
      var id := FindByStripe(s.rows, x);
      if id.None? then s
      else s.(rows := Saved(s.rows, id.value, PaidRow(s.rows[id.value], periodEnd, invoiceUrl), s.now))
    case OnInvoiceFailed(x) =>
      var id := FindByStripe(s.rows, x);
      if id.None? then s
      else s.(rows := Saved(s.rows, id.value, s.rows[id.value].(status := PastDue), s.now))
    case Sweep => s.(rows := map id | id in s.rows && !Stale(s.rows[id], s.now) :: s.rows[id])
    case Tick(ms) => s.(now := s.now + ms)
  }

  ghost function Exec(s: State, steps: seq<Step>): State {
    if steps == [] then s else Apply(Exec(s, steps[..|steps| - 1]), steps[|steps| - 1])
  }

  function Start(now: int): State {
    State(map[], now, [], {})
  }

  // ------------------------------------------------------------------------------------------
  // Leaving INCOMPLETE is final, and so is the end of a subscription
  // ------------------------------------------------------------------------------------------

  predicate Left(rows: map<SubId, Sub>, id: SubId) {
    id in rows && rows[id].status != Incomplete
  }

  predicate Ended(rows: map<SubId, Sub>, id: SubId) {
    Left(rows, id) && rows[id].endedAt.Some?
  }

  predicate Kept(before: map<SubId, Sub>, after: map<SubId, Sub>, id: SubId) {
    (Left(before, id) ==> Left(after, id)) && (Ended(before, id) ==> Ended(after, id))
  }

  lemma {:induction false} CancelEachKeeps(rows: map<SubId, Sub>, ids: seq<StripeId>, failing: set<StripeId>, now: int,
                                           id: SubId)
    ensures Kept(rows, CancelEach(rows, ids, failing, now), id)
    ensures CancelEach(rows, ids, failing, now).Keys == rows.Keys
    ensures id in rows ==> CancelEach(rows, ids, failing, now)[id].stripeId == rows[id].stripeId
    ensures id in rows && CancelEach(rows, ids, failing, now)[id].status == Incomplete ==> rows[id].status == Incomplete
  {
    if ids != [] {
      CancelEachKeeps(rows, ids[..|ids| - 1], failing, now, id);
    }
  }

  lemma StepKeepsLeft(s: State, step: Step, id: SubId)
    requires s.rows.Keys <= s.used
    ensures Kept(s.rows, Apply(s, step).rows, id)
    ensures Apply(s, step).rows.Keys <= Apply(s, step).used && s.used <= Apply(s, step).used
  {
    if step.CancelAll? {
      CancelEachKeeps(s.rows, step.stripeIds, step.failing, s.now, id);
    }
  }

  /**
   Over any run, a subscription that ever left INCOMPLETE is never deleted and never INCOMPLETE again, and
   one whose end is recorded stays ended.
   */
  lemma {:induction false} LeavingIsFinal(s: State, steps: seq<Step>, id: SubId)
    requires s.rows.Keys <= s.used
    ensures Kept(s.rows, Exec(s, steps).rows, id)
    ensures Exec(s, steps).rows.Keys <= Exec(s, steps).used && s.used <= Exec(s, steps).used
  {
    hide Apply;
    if steps != [] {
      LeavingIsFinal(s, steps[..|steps| - 1], id);
      StepKeepsLeft(Exec(s, steps[..|steps| - 1]), steps[|steps| - 1], id);
    }
  }

  /** The end of the subscription was recorded, and its row, if it is still there, says so. */
  predicate Over(s: State, id: SubId) {
    id in s.used && (id in s.rows ==> s.rows[id].endedAt.Some?)
  }

  lemma {:induction false} CancelEachKeepsEnd(rows: map<SubId, Sub>, ids: seq<StripeId>, failing: set<StripeId>, now: int,
                                              id: SubId)
    requires id in rows ==> rows[id].endedAt.Some?
    ensures id in CancelEach(rows, ids, failing, now) ==> CancelEach(rows, ids, failing, now)[id].endedAt.Some?
  {
    if ids != [] {
      CancelEachKeepsEnd(rows, ids[..|ids| - 1], failing, now, id);
    }
  }

  lemma StepKeepsOver(s: State, step: Step, id: SubId)
    requires Over(s, id)
    ensures Over(Apply(s, step), id)
  {
    if step.CancelAll? {
      CancelEachKeepsEnd(s.rows, step.stripeIds, step.failing, s.now, id);
    }
  }

  /** Over any run a recorded end is never cleared, whatever the status; the row may only be deleted. */
  lemma {:induction false} OverIsFinal(s: State, steps: seq<Step>, id: SubId)
    requires Over(s, id)
    ensures Over(Exec(s, steps), id)
  {
    hide Apply, Over;
    if steps != [] {
      OverIsFinal(s, steps[..|steps| - 1], id);
      StepKeepsOver(Exec(s, steps[..|steps| - 1]), steps[|steps| - 1], id);
    }
  }

  /**
   After its end a subscription can never be reactivated, whoever asks and whatever happened since; unless
   it was still INCOMPLETE at its end, its row is still there to say so.
   */
  lemma EndedIsNeverReactivated(s: State, steps: seq<Step>, id: SubId, actor: Actor, stripeOk: bool)
    requires s.rows.Keys <= s.used && id in s.rows && s.rows[id].endedAt.Some?
    ensures var t := Exec(s, steps);
            var outcome := ReactivateOutcome(t.rows, id, actor, stripeOk);
            && outcome in {AlreadyTerminated, UserIdRequired, Forbidden, NotFound}
            && (Refusal(t.rows, id, actor) == Done ==> outcome == AlreadyTerminated)
            && (s.rows[id].status != Incomplete ==> outcome != NotFound)
            && Apply(t, Reactivate(id, actor, stripeOk)) == t
  {
    hide Exec;
    LeavingIsFinal(s, steps, id);
    OverIsFinal(s, steps, id);
  }

  /** A new subscription is INCOMPLETE, without any end or scheduled cancellation, under an id never used before. */
  lemma CreatedIncomplete(s: State, id: SubId, userId: UserId, stripeId: StripeId, email: bool, firstPeriodEnd: int)
    ensures var t := Apply(s, Create(id, userId, stripeId, email, firstPeriodEnd));
            if id in s.used || exists other :: other in s.rows && s.rows[other].stripeId == stripeId then t == s
            else
              && id in t.rows && t.rows[id].status == Incomplete && t.rows[id].userId == userId
              && t.rows[id].stripeId == stripeId && t.rows[id].email == email && t.rows[id].updatedAt == s.now
              && t.rows[id].endedAt.None? && t.rows[id].cancelledAt.None? && !t.rows[id].cancelAtPeriodEnd
              && t.rows[id].periodEnd == Some(firstPeriodEnd)
              && t == s.(rows := s.rows[id := t.rows[id]], used := s.used + {id})
  {
  }

  /** The only deletions: the sweep of stale INCOMPLETE rows, and Stripe's deletion of an INCOMPLETE one. */
  lemma DeletionsExactly(s: State, step: Step, id: SubId)
    requires id in s.rows
    ensures id !in Apply(s, step).rows
            <==> s.rows[id].status == Incomplete
                 && (   (step.Sweep? && s.rows[id].updatedAt < s.now - 24 * 60 * 60 * 1000)
                     || (step.OnDeleted? && FindByStripe(s.rows, step.stripeId) == Some(id)))
  {
    if step.CancelAll? {
      CancelEachKeeps(s.rows, step.stripeIds, step.failing, s.now, id);
    }
  }

  // ------------------------------------------------------------------------------------------
  // The welcome mail
  // ------------------------------------------------------------------------------------------

  function Count(notices: seq<SubId>, id: SubId): nat {
    if notices == [] then 0
    else Count(notices[..|notices| - 1], id) + if notices[|notices| - 1] == id then 1 else 0
  }

  /** A created event that is handled when the row has already left INCOMPLETE. */
  ghost predicate LateCreated(s: State, step: Step, id: SubId) {
    step.OnCreated? && FindByStripe(s.rows, step.stripeId) == Some(id) && s.rows[id].status != Incomplete && s.rows[id].email
  }

  /** An update that takes a row with an address from INCOMPLETE to ACTIVE. */
  ghost predicate Activates(s: State, step: Step, id: SubId) {
    && step.OnUpdated? && FindByStripe(s.rows, step.stripeId) == Some(id)
    && s.rows[id].status == Incomplete && step.stripe.status == StripeActive && s.rows[id].email
  }

  ghost function LateCount(s: State, steps: seq<Step>, id: SubId): nat {
    if steps == [] then 0
    else
      var n := |steps| - 1;
      LateCount(s, steps[..n], id) + if LateCreated(Exec(s, steps[..n]), steps[n], id) then 1 else 0
  }

  ghost function ActivationCount(s: State, steps: seq<Step>, id: SubId): nat {
    if steps == [] then 0
    else
      var n := |steps| - 1;
      ActivationCount(s, steps[..n], id) + if Activates(Exec(s, steps[..n]), steps[n], id) then 1 else 0
  }

  predicate NoticesOk(s: State) {
    s.rows.Keys <= s.used && forall k :: 0 <= k < |s.notices| ==> Left(s.rows, s.notices[k])
  }

  /** 1 while the subscription can still leave INCOMPLETE for the first time, 0 afterwards. */
  function Chance(s: State, id: SubId): nat {
    if id !in s.used || (id in s.rows && s.rows[id].status == Incomplete) then 1 else 0
  }

  lemma CountAppend(notices: seq<SubId>, extra: SubId, id: SubId)
    ensures Count(notices + [extra], id) == Count(notices, id) + if extra == id then 1 else 0
  {
    assert (notices + [extra])[..|notices|] == notices;
  }

  lemma NoticeStepKeeps(s: State, step: Step)
    requires NoticesOk(s)
    ensures NoticesOk(Apply(s, step))
  {
    var t := Apply(s, step);
    StepKeepsLeft(s, step, "");
    forall k | 0 <= k < |t.notices|
      ensures Left(t.rows, t.notices[k])
    {
      if k < |s.notices| {
        StepKeepsLeft(s, step, s.notices[k]);
      }
    }
  }

  /** A chance to leave INCOMPLETE is never regained. */
  lemma ChanceFalls(s: State, step: Step, id: SubId)
    requires NoticesOk(s)
    ensures Chance(Apply(s, step), id) <= Chance(s, id)
  {
    if step.CancelAll? {
      CancelEachKeeps(s.rows, step.stripeIds, step.failing, s.now, id);
    }
  }

  /** An update mails exactly the row it activates, which costs the row its chance. */
  lemma UpdateMails(s: State, x: StripeId, stripe: StripeSub, id: SubId)
    requires NoticesOk(s)
    ensures var t, gone := Apply(s, OnUpdated(x, stripe)), if Activates(s, OnUpdated(x, stripe), id) then 1 else 0;
            Count(t.notices, id) == Count(s.notices, id) + gone && Chance(t, id) + gone <= Chance(s, id)
  {
    hide Count;
    var found := FindByStripe(s.rows, x);
    ChanceFalls(s, OnUpdated(x, stripe), id);
    if found.Some? {
      CountAppend(s.notices, found.value, id);
      assert s.notices + [] == s.notices;
    }
  }

  lemma CreatedMails(s: State, x: StripeId, id: SubId)
    ensures var t := Apply(s, OnCreated(x));
            && Chance(t, id) == Chance(s, id)
            && Count(t.notices, id) == Count(s.notices, id) + if LateCreated(s, OnCreated(x), id) then 1 else 0
  {
    hide Count;
    var found := FindByStripe(s.rows, x);
    if found.Some? { CountAppend(s.notices, found.value, id); }
  }

  lemma OthersMailNothing(s: State, step: Step)
    requires !step.OnCreated? && !step.OnUpdated?
    ensures Apply(s, step).notices == s.notices
  {
    hide FindByStripe, Saved;
  }

  /** A step mails a subscription exactly when it activates it or is a late created event. */
  lemma StepMails(s: State, step: Step, id: SubId)
    requires NoticesOk(s)
    ensures var gone := if Activates(s, step, id) then 1 else 0;
            && Count(Apply(s, step).notices, id) == Count(s.notices, id) + gone + (if LateCreated(s, step, id) then 1 else 0)
            && Chance(Apply(s, step), id) + gone <= Chance(s, id)
  {
    hide Apply, Count, Chance, FindByStripe;
    if step.OnCreated? {
      CreatedMails(s, step.stripeId, id);
    } else if step.OnUpdated? {
      UpdateMails(s, step.stripeId, step.stripe, id);
    } else {
      ChanceFalls(s, step, id);
      OthersMailNothing(s, step);
    }
  }

  /**
   In every reachable state each mailed subscription exists and is not INCOMPLETE, and it was mailed exactly
   once for its activation, which happens at most once, and once per late created event.
   */
  lemma {:induction false} WelcomeMails(now: int, steps: seq<Step>, id: SubId)
    ensures NoticesOk(Exec(Start(now), steps))
    ensures Count(Exec(Start(now), steps).notices, id)
            == ActivationCount(Start(now), steps, id) + LateCount(Start(now), steps, id)
    ensures ActivationCount(Start(now), steps, id) + Chance(Exec(Start(now), steps), id) <= 1
  {
    hide Apply, LateCreated, Activates;
    if steps == [] {
      assert Chance(Start(now), id) <= 1;
    } else {
      hide Chance;
      var n := |steps| - 1;
      WelcomeMails(now, steps[..n], id);
      NoticeStepKeeps(Exec(Start(now), steps[..n]), steps[n]);
      StepMails(Exec(Start(now), steps[..n]), steps[n], id);
    }
  }

  /**
   A subscription is mailed at most once if and only if no created event is handled late, or one is and the
   activation was never mailed.
   */
  lemma AtMostOneWelcome(now: int, steps: seq<Step>, id: SubId)
    ensures Count(Exec(Start(now), steps).notices, id) <= 1
            <==> LateCount(Start(now), steps, id) == 0
                 || (LateCount(Start(now), steps, id) == 1 && ActivationCount(Start(now), steps, id) == 0)
  {
    hide Exec, LateCount, ActivationCount, Count;
    WelcomeMails(now, steps, id);
  }

  /** A late created event right after the activation sends the mail twice. */
  lemma LateCreatedMailsTwice()
    ensures var active := StripeSub(StripeActive, false, None, None, None);
            Exec(Start(0), [Create("s", "u", "x", true, 1), OnUpdated("x", active), OnCreated("x")]).notices == ["s", "s"]
  {
    var active := StripeSub(StripeActive, false, None, None, None);
    var steps := [Create("s", "u", "x", true, 1), OnUpdated("x", active), OnCreated("x")];
    assert steps[..1] == [steps[0]] && steps[..2][..1] == steps[..1] && steps[..1][..0] == [];
    assert steps[..1][0] == steps[0] && steps[..2][1] == steps[1];
    var s1, s2 := Exec(Start(0), steps[..1]), Exec(Start(0), steps[..2]);
    assert Exec(Start(0), []) == Start(0);
    assert s1 == Apply(Start(0), steps[0]);
    assert s1.rows.Keys == {"s"} && s1.rows["s"].stripeId == "x";
    assert s2 == Apply(s1, steps[1]);
    assert FindByStripe(s1.rows, "x") == Some("s");
    assert s2.rows.Keys == {"s"} && s2.rows["s"].stripeId == "x" && s2.rows["s"].status == Active;
    assert FindByStripe(s2.rows, "x") == Some("s");
    assert s2.notices == ["s"];
  }

  // ------------------------------------------------------------------------------------------
  // The services
  // ------------------------------------------------------------------------------------------

  predicate UniqueStripe(rows: map<SubId, Sub>) {
    forall i, j :: i in rows && j in rows && i != j ==> rows[i].stripeId != rows[j].stripeId
  }

  /** One row was written, and stamped if that changed it; every other row is as it was. */
  predicate Rewritten(before: map<SubId, Sub>, after: map<SubId, Sub>, id: SubId, row: Sub, now: int) {
    && id in before && id in after && after.Keys == before.Keys
    && after[id] == row.(updatedAt := if row == before[id] then before[id].updatedAt else now)
    && forall other :: other in before && other != id ==> after[other] == before[other]
  }

  predicate StatusFollows(after: Status, before: Status, stripe: StripeStatus) {
    && (stripe == StripeActive ==> after == Active) && (stripe == StripePastDue ==> after == PastDue)
    && (stripe == StripeCanceled ==> after == Cancelled) && (stripe == StripeUnpaid ==> after == Unpaid)
    && (stripe == StripePaused ==> after == Paused) && (stripe == StripeOther ==> after == before)
  }

  /** Seconds become milliseconds; an absent or zero timestamp leaves the local one. */
  predicate TimeFollows(after: Option<int>, before: Option<int>, seconds: Option<int>) {
    after == if seconds.Some? && seconds.value != 0 then Some(1000 * seconds.value) else before
  }

  /** Status, schedule and dates come from Stripe's object; who the row belongs to does not change. */
  predicate FollowsStripe(after: Sub, before: Sub, stripe: StripeSub) {
    && StatusFollows(after.status, before.status, stripe.status)
    && after.cancelAtPeriodEnd == stripe.cancelAtPeriodEnd
    && TimeFollows(after.periodEnd, before.periodEnd, stripe.periodEnd)
    && TimeFollows(after.cancelledAt, before.cancelledAt, stripe.canceledAt)
    && TimeFollows(after.endedAt, before.endedAt, stripe.endedAt)
    && after.userId == before.userId && after.stripeId == before.stripeId && after.email == before.email
    && after.invoiceUrl == before.invoiceUrl
  }

  /** Refused for a missing row, for a user without id and for another user's row; an administrator is not asked. */
  predicate RefusesExactly(outcome: Outcome, rows: map<SubId, Sub>, id: SubId, actor: Actor) {
    && (outcome.NotFound? <==> id !in rows)
    && (outcome.UserIdRequired? <==> id in rows && actor == User(None))
    && (outcome.Forbidden? <==> id in rows && actor.User? && actor.userId.Some? && actor.userId.value != rows[id].userId)
  }

  /** One listed id: its row, if there is one and Stripe accepts, ends now. */
  ghost function CancelOne(rows: map<SubId, Sub>, x: StripeId, failing: set<StripeId>, now: int): map<SubId, Sub> {
    if x in failing || FindByStripe(rows, x).None? then rows
    else Saved(rows, FindByStripe(rows, x).value, CancelNow(rows[FindByStripe(rows, x).value], now), now)
  }

  predicate SameIds(rows: map<SubId, Sub>, after: map<SubId, Sub>) {
    after.Keys == rows.Keys && forall i :: i in rows ==> after[i].stripeId == rows[i].stripeId
  }

  /** A row cancelled with immediate effect, and nothing else about it changed. */
  predicate EndedNow(before: Sub, after: Sub, now: int) {
    var ended := before.(status := Cancelled, cancelledAt := Some(now), endedAt := Some(now));
    after == ended.(updatedAt := if ended == before then before.updatedAt else now)
  }

  lemma CancelOneAt(rows: map<SubId, Sub>, x: StripeId, failing: set<StripeId>, now: int, id: SubId)
    requires UniqueStripe(rows) && id in rows
    ensures var after := CancelOne(rows, x, failing, now);
            && SameIds(rows, after)
            && if rows[id].stripeId == x && x !in failing then EndedNow(rows[id], after[id], now) else after[id] == rows[id]
  {
  }

  lemma SameIdsUnique(rows: map<SubId, Sub>, after: map<SubId, Sub>)
    requires UniqueStripe(rows) && SameIds(rows, after)
    ensures UniqueStripe(after)
  {
    assert forall i :: i in after <==> i in rows.Keys;
  }

  lemma SameIdsTwice(rows: map<SubId, Sub>, between: map<SubId, Sub>, after: map<SubId, Sub>)
    requires SameIds(rows, between) && SameIds(between, after)
    ensures SameIds(rows, after)
  {
    assert forall i :: i in rows ==> i in between.Keys;
  }

  lemma CancelEachStep(rows: map<SubId, Sub>, ids: seq<StripeId>, failing: set<StripeId>, now: int)
    requires ids != []
    ensures CancelEach(rows, ids, failing, now)
            == CancelOne(CancelEach(rows, ids[..|ids| - 1], failing, now), ids[|ids| - 1], failing, now)
  {
    hide FindByStripe, Saved, CancelNow;
  }

  /** What a cancellation of each listed, accepted Stripe id leaves of one row. */
  lemma {:induction false} CancelEachAt(rows: map<SubId, Sub>, ids: seq<StripeId>, failing: set<StripeId>, now: int,
                                        id: SubId)
    requires UniqueStripe(rows) && id in rows
    ensures var after := CancelEach(rows, ids, failing, now);
            && SameIds(rows, after) && id in after
            && if rows[id].stripeId in ids && rows[id].stripeId !in failing then EndedNow(rows[id], after[id], now)
               else after[id] == rows[id]
  {
    if ids != [] {
      hide UniqueStripe, CancelOne, CancelEach;
      var n := |ids| - 1;
      var before := CancelEach(rows, ids[..n], failing, now);
      CancelEachStep(rows, ids, failing, now);
      CancelEachAt(rows, ids[..n], failing, now, id);
      SameIdsUnique(rows, before);
      CancelOneAt(before, ids[n], failing, now, id);
      SameIdsTwice(rows, before, CancelEach(rows, ids, failing, now));
      assert ids == ids[..n] + [ids[n]];
    }
  }

  lemma CancelEachSize(rows: map<SubId, Sub>, ids: seq<StripeId>, failing: set<StripeId>, now: int)
    ensures CancelEach(rows, ids, failing, now).Keys == rows.Keys
  {
    CancelEachKeeps(rows, ids, failing, now, "");
  }

  lemma {:induction false} CountOkIs(ids: seq<StripeId>, failing: set<StripeId>)
    ensures CountOk(ids, failing) == |set k | 0 <= k < |ids| && ids[k] !in failing|
  {
    if ids != [] {
      var n := |ids| - 1;
      CountOkIs(ids[..n], failing);
      var before := set k | 0 <= k < |ids[..n]| && ids[..n][k] !in failing;
      assert (set k | 0 <= k < |ids| && ids[k] !in failing) == if ids[n] in failing then before else before + {n};
    }
  }

  class SubscriptionServices {
    var rows: map<SubId, Sub>
    var now: int
    var notices: seq<SubId>
    ghost var used: set<SubId>

    ghost function Snapshot(): State
      reads this
    {
      State(rows, now, notices, used)
    }

    ghost predicate Valid()
      reads this
    {
      UniqueStripe(rows) && rows.Keys <= used
    }

    constructor (now: int)
      ensures Valid() && Snapshot() == Start(now)
    {
      this.now, rows, notices, used := now, map[], [], {};
    }

    method FindByStripeId(x: StripeId) returns (id: Option<SubId>)
      requires Valid()
      ensures id == FindByStripe(rows, x)
    {
      if exists i :: i in rows && rows[i].stripeId == x {
        var i :| i in rows && rows[i].stripeId == x;
        id := Some(i);
      } else {
        id := None;
      }
    }

    /** `repository.save`: writes the whole row and stamps it when something changed. */
    method Save(id: SubId, row: Sub)
      requires Valid() && id in rows && row.stripeId == rows[id].stripeId
      modifies `rows
      ensures Valid() && rows == Saved(old(rows), id, row, now)
      ensures Rewritten(old(rows), rows, id, row, now)
    {
      if row != rows[id] {
        rows := rows[id := row.(updatedAt := now)];
      }
    }

    method CancelSubscription(id: SubId, actor: Actor, atPeriodEnd: bool, stripeOk: bool) returns (outcome: Outcome)
      requires Valid()
      modifies `rows
      ensures Valid() && Snapshot() == Apply(old(Snapshot()), Cancel(id, actor, atPeriodEnd, stripeOk))
      ensures outcome == if Refusal(old(rows), id, actor) != Done then Refusal(old(rows), id, actor)
                         else if stripeOk then Done else StripeFailed
      ensures RefusesExactly(outcome, old(rows), id, actor)
      ensures outcome != Done ==> rows == old(rows)
      ensures outcome == Done ==>
                Rewritten(old(rows), rows, id,
                          if atPeriodEnd then old(rows)[id].(cancelAtPeriodEnd := true, cancelledAt := Some(now))
                          else old(rows)[id].(status := Cancelled, cancelledAt := Some(now), endedAt := Some(now)), now)
    {
      outcome := Refusal(rows, id, actor);
      if outcome != Done {
        return;
      }
      if !stripeOk {
        return StripeFailed;
      }
      var subscription := rows[id];
      if atPeriodEnd {
        subscription := subscription.(cancelAtPeriodEnd := true);
        subscription := subscription.(cancelledAt := Some(now));
      } else {
        subscription := subscription.(status := Cancelled);
        subscription := subscription.(cancelledAt := Some(now));
        subscription := subscription.(endedAt := Some(now));
      }
      Save(id, subscription);
    }

    method ReactivateSubscription(id: SubId, actor: Actor, stripeOk: bool) returns (outcome: Outcome)
      requires Valid()
      modifies `rows
      ensures Valid() && Snapshot() == Apply(old(Snapshot()), Reactivate(id, actor, stripeOk))
      ensures outcome == ReactivateOutcome(old(rows), id, actor, stripeOk)
      ensures RefusesExactly(outcome, old(rows), id, actor)
      ensures outcome.AlreadyTerminated? ==> old(rows)[id].status == Cancelled || old(rows)[id].endedAt.Some?
      ensures outcome.NothingScheduled? ==> !old(rows)[id].cancelAtPeriodEnd
      ensures outcome.StripeFailed? ==> !stripeOk
      ensures outcome != Done ==> rows == old(rows)
      ensures outcome == Done ==>
                && old(rows)[id].status != Cancelled && old(rows)[id].endedAt.None? && old(rows)[id].cancelAtPeriodEnd
                && stripeOk
                && Rewritten(old(rows), rows, id, old(rows)[id].(cancelAtPeriodEnd := false, cancelledAt := None), now)
    {
      outcome := Refusal(rows, id, actor);
      if outcome != Done {
        return;
      }
      var subscription := rows[id];
      if subscription.status == Cancelled || subscription.endedAt.Some? {
        return AlreadyTerminated;
      }
      if !subscription.cancelAtPeriodEnd {
        return NothingScheduled;
      }
      if !stripeOk {
        return StripeFailed;
      }
      subscription := subscription.(cancelAtPeriodEnd := false);
      subscription := subscription.(cancelledAt := None);
      Save(id, subscription);
    }

    /** Copies status, dates and the cancellation flag from Stripe's object, field by field. */
    method SyncFromStripe(id: SubId, stripe: StripeSub) returns (subscription: Sub)
      requires Valid() && id in rows
      modifies `rows
      ensures Valid() && subscription == SyncRow(old(rows)[id], stripe)
      ensures rows == Saved(old(rows), id, subscription, now)
      ensures Rewritten(old(rows), rows, id, subscription, now)
      ensures FollowsStripe(subscription, old(rows)[id], stripe)
    {
      hide UniqueStripe, FollowsStripe, Rewritten, Saved;
      subscription := Synced(rows[id], stripe);
      Save(id, subscription);
    }

    /** The assignments to the loaded entity. */
    static method Synced(row: Sub, stripe: StripeSub) returns (subscription: Sub)
      ensures subscription == SyncRow(row, stripe) && FollowsStripe(subscription, row, stripe)
      ensures subscription.stripeId == row.stripeId
    {
      subscription := row;
      subscription := subscription.(status := MapStatus(stripe.status, subscription.status));
      if stripe.periodEnd.Some? && stripe.periodEnd.value != 0 {
        subscription := subscription.(periodEnd := Some(stripe.periodEnd.value * 1000));
      }
      subscription := subscription.(cancelAtPeriodEnd := stripe.cancelAtPeriodEnd);
      if stripe.canceledAt.Some? && stripe.canceledAt.value != 0 {
        subscription := subscription.(cancelledAt := Some(stripe.canceledAt.value * 1000));
      }
      if stripe.endedAt.Some? && stripe.endedAt.value != 0 {
        subscription := subscription.(endedAt := Some(stripe.endedAt.value * 1000));
      }
    }

    method HandleSubscriptionUpdated(x: StripeId, stripe: StripeSub)
      requires Valid()
      modifies `rows, `notices
      ensures Valid() && Snapshot() == Apply(old(Snapshot()), OnUpdated(x, stripe))
      ensures (forall id :: id in old(rows) ==> old(rows)[id].stripeId != x) ==> rows == old(rows) && notices == old(notices)
      ensures forall id :: id in old(rows) && old(rows)[id].stripeId == x ==>
                && Rewritten(old(rows), rows, id, rows[id].(updatedAt := old(rows)[id].updatedAt), now)
                && FollowsStripe(rows[id], old(rows)[id], stripe)
                && notices == old(notices) + if old(rows)[id].status == Incomplete && stripe.status == StripeActive
                                                && old(rows)[id].email then [id] else []
    {
      var found := FindByStripeId(x);
      if found.None? {
        return;
      }
      var id := found.value;
      var previousStatus := rows[id].status;
      var synced := SyncFromStripe(id, stripe);
      assert synced.updatedAt == old(rows)[id].updatedAt && synced == rows[id].(updatedAt := old(rows)[id].updatedAt);
      assert FollowsStripe(rows[id], old(rows)[id], stripe);
      assert previousStatus == Incomplete ==> (synced.status == Active <==> stripe.status == StripeActive);
      assert old(notices) + [] == old(notices);
      if previousStatus == Incomplete && synced.status == Active && synced.email {
        notices := notices + [id];
      }
    }

    method HandleSubscriptionCreated(x: StripeId)
      requires Valid()
      modifies `notices
      ensures Valid() && Snapshot() == Apply(old(Snapshot()), OnCreated(x))
      ensures (forall id :: id in rows ==> rows[id].stripeId != x) ==> notices == old(notices)
      ensures forall id :: id in rows && rows[id].stripeId == x ==>
                notices == old(notices) + if rows[id].status != Incomplete && rows[id].email then [id] else []
    {
      var found := FindByStripeId(x);
      if found.None? {
        return;
      }
      var subscription := rows[found.value];
      if subscription.status == Incomplete {
        return;
      }
      if !subscription.email {
        return;
      }
      notices := notices + [found.value];
    }

    method HandleSubscriptionDeleted(x: StripeId)
      requires Valid()
      modifies `rows
      ensures Valid() && Snapshot() == Apply(old(Snapshot()), OnDeleted(x))
      ensures (forall id :: id in old(rows) ==> old(rows)[id].stripeId != x) ==> rows == old(rows)
      ensures forall id :: id in old(rows) && old(rows)[id].stripeId == x ==>
                if old(rows)[id].status == Incomplete then rows == old(rows) - {id}
                else Rewritten(old(rows), rows, id, old(rows)[id].(status := Cancelled, endedAt := Some(now)), now)
    {
      var found := FindByStripeId(x);
      if found.None? {
        return;
      }
      var subscription := rows[found.value];
      if subscription.status == Incomplete {
        rows := rows - {found.value};
        return;
      }
      subscription := subscription.(status := Cancelled);
      subscription := subscription.(endedAt := Some(now));
      Save(found.value, subscription);
    }

    method HandleInvoicePaid(x: StripeId, periodEnd: Option<int>, invoiceUrl: string)
      requires Valid()
      modifies `rows
      ensures Valid() && Snapshot() == Apply(old(Snapshot()), OnInvoicePaid(x, periodEnd, invoiceUrl))
      ensures (forall id :: id in old(rows) ==> old(rows)[id].stripeId != x) ==> rows == old(rows)
      ensures forall id :: id in old(rows) && old(rows)[id].stripeId == x ==>
                && TimeFollows(rows[id].periodEnd, old(rows)[id].periodEnd, periodEnd)
                && rows[id].invoiceUrl == (if invoiceUrl != "" then invoiceUrl else old(rows)[id].invoiceUrl)
                && Rewritten(old(rows), rows, id,
                             old(rows)[id].(periodEnd := rows[id].periodEnd, invoiceUrl := rows[id].invoiceUrl), now)
    {
      hide PaidRow, TimeFollows;
      var found := FindByStripeId(x);
      if found.None? {
        return;
      }
      var subscription, changed := Invoiced(rows[found.value], periodEnd, invoiceUrl);
      if changed {
        Save(found.value, subscription);
      }
    }

    /** The assignments to the loaded entity, and whether the invoice had anything to assign. */
    static method Invoiced(row: Sub, periodEnd: Option<int>, invoiceUrl: string) returns (subscription: Sub, changed: bool)
      ensures subscription == PaidRow(row, periodEnd, invoiceUrl)
      ensures TimeFollows(subscription.periodEnd, row.periodEnd, periodEnd)
      ensures subscription.invoiceUrl == if invoiceUrl != "" then invoiceUrl else row.invoiceUrl
      ensures subscription == row.(periodEnd := subscription.periodEnd, invoiceUrl := subscription.invoiceUrl)
      ensures !changed ==> subscription == row
    {
      subscription := row;
      var hasPeriod := periodEnd.Some? && periodEnd.value != 0;
      if hasPeriod {
        subscription := subscription.(periodEnd := Some(periodEnd.value * 1000));
      }
      if invoiceUrl != "" {
        subscription := subscription.(invoiceUrl := invoiceUrl);
      }
      changed := hasPeriod || invoiceUrl != "";
    }

    method HandleInvoicePaymentFailed(x: StripeId) returns (threw: bool)
      requires Valid()
      modifies `rows
      ensures Valid() && Snapshot() == Apply(old(Snapshot()), OnInvoiceFailed(x))
      ensures threw <==> forall id :: id in old(rows) ==> old(rows)[id].stripeId != x
      ensures threw ==> rows == old(rows)
      ensures forall id :: id in old(rows) && old(rows)[id].stripeId == x ==>
                Rewritten(old(rows), rows, id, old(rows)[id].(status := PastDue), now)
    {
      var found := FindByStripeId(x);
      if found.None? {
        return true;
      }
      Save(found.value, rows[found.value].(status := PastDue));
      threw := false;
    }

    method UpdateTerms(id: SubId, stripe: Option<StripeSub>) returns (outcome: Outcome)
      requires Valid()
      modifies `rows
      ensures Valid() && Snapshot() == Apply(old(Snapshot()), AdminUpdateTerms(id, stripe))
      ensures outcome == if id !in old(rows) then NotFound else if stripe.None? then StripeFailed else Done
      ensures outcome != Done ==> rows == old(rows)
      ensures outcome == Done ==>
                && StatusFollows(rows[id].status, old(rows)[id].status, stripe.value.status)
                && rows[id].cancelAtPeriodEnd == stripe.value.cancelAtPeriodEnd
                && rows[id].periodEnd == (if stripe.value.periodEnd.Some? then Some(1000 * stripe.value.periodEnd.value)
                                          else old(rows)[id].periodEnd)
                && Rewritten(old(rows), rows, id,
                             old(rows)[id].(status := rows[id].status, cancelAtPeriodEnd := rows[id].cancelAtPeriodEnd,
                                            periodEnd := rows[id].periodEnd), now)
    {
      if id !in rows {
        return NotFound;
      }
      if stripe.None? {
        return StripeFailed;
      }
      var subscription := rows[id];
      subscription := subscription.(status := MapStatus(stripe.value.status, subscription.status));
      subscription := subscription.(cancelAtPeriodEnd := stripe.value.cancelAtPeriodEnd);
      if stripe.value.periodEnd.Some? {
        subscription := subscription.(periodEnd := Some(stripe.value.periodEnd.value * 1000));
      }
      Save(id, subscription);
      outcome := Done;
    }

    /** The local half of one cancellation: the row of the Stripe id, if there is one, ends now. */
    method CancelLocally(x: StripeId)
      requires Valid()
      modifies `rows
      ensures Valid()
      ensures rows == var id := FindByStripe(old(rows), x);
                      if id.None? then old(rows) else Saved(old(rows), id.value, CancelNow(old(rows)[id.value], now), now)
    {
      var localSub := FindByStripeId(x);
      if localSub.Some? {
        var row := rows[localSub.value];
        row := row.(status := Cancelled);
        row := row.(cancelledAt := Some(now));
        row := row.(endedAt := Some(now));
        Save(localSub.value, row);
      }
    }

    /** Cancels each subscription Stripe lists, skipping the ones Stripe fails on; counts the others. */
    method CancelAllForCustomer(ids: seq<StripeId>, failing: set<StripeId>) returns (cancelledCount: nat)
      requires Valid()
      modifies `rows
      ensures Valid() && Snapshot() == Apply(old(Snapshot()), CancelAll(ids, failing))
      ensures cancelledCount == |set k | 0 <= k < |ids| && ids[k] !in failing|
      ensures rows.Keys == old(rows).Keys
      ensures forall id :: id in rows ==>
                if old(rows)[id].stripeId in ids && old(rows)[id].stripeId !in failing
                then EndedNow(old(rows)[id], rows[id], now) else rows[id] == old(rows)[id]
    {
      CountOkIs(ids, failing);
      CancelEachSize(rows, ids, failing, now);
      forall id | id in rows { CancelEachAt(rows, ids, failing, now, id); }
      hide CancelNow, Saved, FindByStripe;
      cancelledCount := 0;
      for i := 0 to |ids|
        invariant Valid() && rows == CancelEach(old(rows), ids[..i], failing, now)
        invariant cancelledCount == CountOk(ids[..i], failing)
      {
        assert ids[..i + 1][..i] == ids[..i];
        if ids[i] !in failing {
          CancelLocally(ids[i]);
          cancelledCount := cancelledCount + 1;
        }
      }
      assert ids[..|ids|] == ids;
    }

    /** The hourly set-based delete: a row stays, as it was, exactly when it is not a stale INCOMPLETE one. */
    method CleanupIncomplete() returns (affected: nat)
      requires Valid()
      modifies `rows
      ensures Valid() && Snapshot() == Apply(old(Snapshot()), Sweep)
      ensures affected == |old(rows)| - |rows|
      ensures forall id :: id in rows <==> id in old(rows)
                                           && (old(rows)[id].status != Incomplete
                                               || old(rows)[id].updatedAt >= now - 24 * 60 * 60 * 1000)
      ensures forall id :: id in rows ==> rows[id] == old(rows)[id]
    {
      SweepSize(rows, now);
      affected := |set id | id in rows && Stale(rows[id], now)|;
      rows := map id | id in rows && !Stale(rows[id], now) :: rows[id];
    }
  }

  /** Deleting the stale rows takes as many rows as there are stale ones. */
  lemma SweepSize(rows: map<SubId, Sub>, now: int)
    ensures |map id | id in rows && !Stale(rows[id], now) :: rows[id]|
            == |rows| - |set id | id in rows && Stale(rows[id], now)|
  {
    var kept := map id | id in rows && !Stale(rows[id], now) :: rows[id];
    var stale := set id | id in rows && Stale(rows[id], now);
    assert kept.Keys == rows.Keys - stale && stale <= rows.Keys;
    assert |rows.Keys - stale| == |rows.Keys| - |stale|;
    assert |kept| == |kept.Keys| && |rows| == |rows.Keys|;
  }

  function CountOk(ids: seq<StripeId>, failing: set<StripeId>): nat {
    if ids == [] then 0 else CountOk(ids[..|ids| - 1], failing) + if ids[|ids| - 1] in failing then 0 else 1
  }
}

/**
 Replication of the featured-product lists. The content service owns one list of product ids per
 product type and publishes what each change added and removed; the catalog service applies these
 messages, in order, to its `isFeatured` column, and can rebuild the column from a full snapshot: it asks
 for the snapshot, then issues two updates, and list changes and messages may come between any of these.
 */
module FeaturedReplication {

  type ProductId = string

  datatype ProductType = Saas | Physical | License

  datatype Diff = Diff(productType: ProductType, added: seq<ProductId>, removed: seq<ProductId>)

  datatype FullSync = FullSync(saasIds: seq<ProductId>, physicalIds: seq<ProductId>, licenseIds: seq<ProductId>)

  type ReconcileId = nat

  /** A reconcile under way; `switchedOn` says that the first of its two updates is done. */
  datatype Reconcile = Reconcile(snapshot: FullSync, switchedOn: bool)

  /** Configuration rows, the queue between the services, the catalog's flags, and reconciles under way. */
  datatype State = State(
    lists: map<ProductType, seq<ProductId>>, queue: seq<Diff>, flags: map<ProductId, bool>,
    reconciles: map<ReconcileId, Reconcile>)

  datatype Step =
    | Toggle(productType: ProductType, id: ProductId, featured: bool)
    | Persist(productType: ProductType, next: seq<ProductId>)
    | Consume
    | TakeSnapshot(r: ReconcileId)
    | SwitchOn(r: ReconcileId)
    | SwitchOff(r: ReconcileId)

  const FEATURED_LIMIT := 8

  function Ids(lists: map<ProductType, seq<ProductId>>, t: ProductType): seq<ProductId> {
    if t in lists then lists[t] else []
  }

  /** The elements of xs that are not in ys, in order. */
  function Minus(xs: seq<ProductId>, ys: seq<ProductId>): (r: seq<ProductId>)
    ensures forall id :: id in r <==> id in xs && id !in ys
    ensures |r| <= |xs|
  {
    if xs == [] then [] else (if xs[0] in ys then [] else [xs[0]]) + Minus(xs[1..], ys)
  }

  lemma MinusStep(xs: seq<ProductId>, ys: seq<ProductId>)
    requires xs != []
    ensures Minus(xs, ys) == (if xs[0] in ys then [] else [xs[0]]) + Minus(xs[1..], ys)
  {
  }

  lemma MinusEmpty(ys: seq<ProductId>)
    ensures Minus([], ys) == []
  {
  }

  /** Filtering works piece by piece, so what stays keeps its order. */
  lemma {:induction false} MinusConcat(a: seq<ProductId>, b: seq<ProductId>, ys: seq<ProductId>)
    ensures Minus(a + b, ys) == Minus(a, ys) + Minus(b, ys)
  {
    hide Minus;
    if a == [] {
      MinusEmpty(ys);
      assert a + b == b;
    } else {
      MinusConcat(a[1..], b, ys);
      MinusStep(a, ys);
      MinusStep(a + b, ys);
      assert (a + b)[1..] == a[1..] + b;
    }
  }

  lemma {:induction false} MinusNothing(xs: seq<ProductId>, ys: seq<ProductId>)
    requires forall id :: id in xs ==> id !in ys
    ensures Minus(xs, ys) == xs
  {
    if xs != [] {
      MinusNothing(xs[1..], ys);
    }
  }

  function SnapshotOf(lists: map<ProductType, seq<ProductId>>): FullSync {
    FullSync(Ids(lists, Saas), Ids(lists, Physical), Ids(lists, License))
  }

  predicate InSnapshot(snapshot: FullSync, id: ProductId) {
    id in snapshot.saasIds || id in snapshot.physicalIds || id in snapshot.licenseIds
  }

  /** The id is configured as featured, whatever the type. */
  predicate Wanted(lists: map<ProductType, seq<ProductId>>, id: ProductId) {
    InSnapshot(SnapshotOf(lists), id)
  }

  function ApplyDiff(flags: map<ProductId, bool>, diff: Diff): (r: map<ProductId, bool>)
    ensures r.Keys == flags.Keys
  {
    map id | id in flags :: if id in diff.removed then false else if id in diff.added then true else flags[id]
  }

  /** The update that sets the flag of every product of the snapshot. */
  function TurnedOn(flags: map<ProductId, bool>, snapshot: FullSync): (r: map<ProductId, bool>)
    ensures r.Keys == flags.Keys
  {
    map id | id in flags :: flags[id] || InSnapshot(snapshot, id)
  }

  /** The update that clears the flag of every other product. */
  function TurnedOff(flags: map<ProductId, bool>, snapshot: FullSync): (r: map<ProductId, bool>)
    ensures r.Keys == flags.Keys
  {
    map id | id in flags :: flags[id] && InSnapshot(snapshot, id)
  }

  /** One configuration row replaced, and the difference published. */
  function Edit(s: State, t: ProductType, next: seq<ProductId>, added: seq<ProductId>, removed: seq<ProductId>): State {
    s.(lists := s.lists[t := next], queue := s.queue + [Diff(t, added, removed)])
  }

  function Apply(s: State, step: Step): State {
    match step
    case Toggle(t, id, featured) =>
      var previous := Ids(s.lists, t);
      if featured == (id in previous) then s
      else if featured then
        if |previous| >= FEATURED_LIMIT then s else Edit(s, t, previous + [id], [id], [])
      else Edit(s, t, Minus(previous, [id]), [], [id])
    case Persist(t, next) =>
      if |next| > FEATURED_LIMIT then s
      else Edit(s, t, next, Minus(next, Ids(s.lists, t)), Minus(Ids(s.lists, t), next))
    case Consume =>
      if s.queue == [] then s else s.(queue := s.queue[1..], flags := ApplyDiff(s.flags, s.queue[0]))
    case TakeSnapshot(r) =>
      if r in s.reconciles then s else s.(reconciles := s.reconciles[r := Reconcile(SnapshotOf(s.lists), false)])
    case SwitchOn(r) =>
      if r !in s.reconciles || s.reconciles[r].switchedOn then s
      else s.(flags := TurnedOn(s.flags, s.reconciles[r].snapshot),
              reconciles := s.reconciles[r := s.reconciles[r].(switchedOn := true)])
    case SwitchOff(r) =>
      if r !in s.reconciles || !s.reconciles[r].switchedOn then s
      else s.(flags := TurnedOff(s.flags, s.reconciles[r].snapshot), reconciles := s.reconciles - {r})
  }

  function Exec(s: State, steps: seq<Step>): State {
    if steps == [] then s else Apply(Exec(s, steps[..|steps| - 1]), steps[|steps| - 1])
  }

  // ------------------------------------------------------------------------------------------
  // What the queue still has to say about one id
  // ------------------------------------------------------------------------------------------

  predicate Mentions(diff: Diff, id: ProductId) {
    id in diff.added || id in diff.removed
  }

  predicate Pending(queue: seq<Diff>, id: ProductId) {
    exists k :: 0 <= k < |queue| && Mentions(queue[k], id)
  }

  /** The flag of one product once the whole queue has been consumed. */
  function FlagAfter(flag: bool, queue: seq<Diff>, id: ProductId): bool {
    if queue == [] then flag
    else
      var last := queue[|queue| - 1];
      if id in last.removed then false
      else if id in last.added then true
      else FlagAfter(flag, queue[..|queue| - 1], id)
  }

  /** Replaying everything pending gives exactly the configured lists. */
  predicate Synced(s: State) {
    forall id :: id in s.flags ==> FlagAfter(s.flags[id], s.queue, id) == Wanted(s.lists, id)
  }

  /** The latest pending message about an id, if there is one, agrees with the lists. */
  predicate QueueHonest(s: State) {
    forall id :: id in s.flags && Pending(s.queue, id)
                 ==> FlagAfter(s.flags[id], s.queue, id) == Wanted(s.lists, id)
  }

  predicate Disjoint(lists: map<ProductType, seq<ProductId>>) {
    forall t, u, id :: t in lists && u in lists && id in lists[t] && id in lists[u] ==> t == u
  }

  predicate Limited(lists: map<ProductType, seq<ProductId>>) {
    forall t :: t in lists ==> |lists[t]| <= 8
  }

  /** FlagAfter is what consuming the messages one by one, oldest first, does. */
  lemma {:induction false} FlagAfterFirst(flag: bool, queue: seq<Diff>, id: ProductId)
    requires queue != []
    ensures FlagAfter(flag, queue, id) == FlagAfter(FlagAfter(flag, queue[..1], id), queue[1..], id)
  {
    var n := |queue| - 1;
    if n > 0 {
      FlagAfterFirst(flag, queue[..n], id);
      assert queue[..n][..1] == queue[..1] && queue[..n][1..] == queue[1..][..n - 1];
    } else {
      assert queue[..1] == queue && queue[1..] == [];
    }
  }

  lemma FlagAfterOne(flags: map<ProductId, bool>, queue: seq<Diff>, id: ProductId)
    requires queue != [] && id in flags
    ensures FlagAfter(flags[id], queue[..1], id) == ApplyDiff(flags, queue[0])[id]
  {
    assert queue[..1][..0] == [];
  }

  /** An id that nothing pending mentions keeps its flag; otherwise the flag no longer matters. */
  lemma {:induction false} FlagAfterMentioned(f: bool, g: bool, queue: seq<Diff>, id: ProductId)
    ensures !Pending(queue, id) ==> FlagAfter(f, queue, id) == f
    ensures Pending(queue, id) ==> FlagAfter(f, queue, id) == FlagAfter(g, queue, id)
  {
    if queue != [] {
      var n := |queue| - 1;
      FlagAfterMentioned(f, g, queue[..n], id);
      if Mentions(queue[n], id) {
        assert Pending(queue, id);
      } else {
        assert Pending(queue[..n], id) ==> Pending(queue, id) by {
          if Pending(queue[..n], id) {
            var k :| 0 <= k < n && Mentions(queue[..n][k], id);
            assert Mentions(queue[k], id);
          }
        }
        if Pending(queue, id) {
          var k :| 0 <= k < |queue| && Mentions(queue[k], id);
          assert Mentions(queue[..n][k], id);
        }
      }
    }
  }

  // ------------------------------------------------------------------------------------------
  // Each step, exactly
  // ------------------------------------------------------------------------------------------

  /** Consuming a message neither creates nor repairs a divergence. */
  lemma ConsumeKeeps(s: State)
    ensures Synced(Apply(s, Consume)) <==> Synced(s)
  {
    if s.queue != [] {
      var t := Apply(s, Consume);
      forall id | id in s.flags
        ensures FlagAfter(t.flags[id], t.queue, id) == FlagAfter(s.flags[id], s.queue, id)
      {
        FlagAfterFirst(s.flags[id], s.queue, id);
        FlagAfterOne(s.flags, s.queue, id);
      }
      assert forall id :: id in t.flags <==> id in s.flags.Keys;
    }
  }

  /** No product that leaves the list of type t stays on another type's list. */
  predicate DropsCleanly(s: State, t: ProductType, next: seq<ProductId>) {
    forall id :: id in s.flags && id in Ids(s.lists, t) && id !in next ==> !Wanted(s.lists[t := next], id)
  }

  lemma EditExact(s: State, t: ProductType, next: seq<ProductId>, added: seq<ProductId>, removed: seq<ProductId>)
    requires Synced(s)
    requires forall id :: id in added <==> id in next && id !in Ids(s.lists, t)
    requires forall id :: id in removed <==> id in Ids(s.lists, t) && id !in next
    ensures Synced(Edit(s, t, next, added, removed)) <==> DropsCleanly(s, t, next)
  {
    var u := Edit(s, t, next, added, removed);
    assert u.queue[..|s.queue|] == s.queue;
    forall id | id in s.flags
      ensures FlagAfter(s.flags[id], u.queue, id)
              == if id in removed then false else if id in added then true else Wanted(s.lists, id)
      ensures id !in removed ==> FlagAfter(s.flags[id], u.queue, id) == Wanted(u.lists, id)
    {
      assert FlagAfter(s.flags[id], s.queue, id) == Wanted(s.lists, id);
    }
  }

  /**
   A change of a list keeps the services in step if and only if no product it drops stays listed under
   another type.
   */
  lemma ChangeKeeps(s: State, step: Step)
    requires Synced(s) && (step.Toggle? || step.Persist?)
    ensures Synced(Apply(s, step))
            <==> Apply(s, step) == s
                 || DropsCleanly(s, step.productType, Ids(Apply(s, step).lists, step.productType))
  {
    match step
    case Toggle(t, id, featured) =>
      var previous := Ids(s.lists, t);
      if featured != (id in previous) && !(featured && |previous| >= FEATURED_LIMIT) {
        if featured {
          EditExact(s, t, previous + [id], [id], []);
        } else {
          EditExact(s, t, Minus(previous, [id]), [], [id]);
        }
        assert |Apply(s, step).queue| == |s.queue| + 1;
      }
    case Persist(t, next) =>
      if |next| <= FEATURED_LIMIT {
        EditExact(s, t, next, Minus(next, Ids(s.lists, t)), Minus(Ids(s.lists, t), next));
        assert |Apply(s, step).queue| == |s.queue| + 1;
      }
  }

  /** With type-disjoint lists every drop is clean. */
  lemma DisjointDropsCleanly(s: State, t: ProductType, next: seq<ProductId>)
    requires Disjoint(s.lists)
    ensures DropsCleanly(s, t, next)
  {
    forall id | id in Ids(s.lists, t) && id !in next
      ensures !Wanted(s.lists[t := next], id)
    {
      assert t in s.lists && id in s.lists[t];
      assert forall u :: u in s.lists && id in s.lists[u] ==> u == t;
    }
  }

  /** Each product that the step's update would set against the lists has a message left that corrects it. */
  predicate Timely(s: State, step: Step) {
    match step
    case SwitchOn(r) =>
      r in s.reconciles && !s.reconciles[r].switchedOn
      ==> forall id :: id in s.flags && InSnapshot(s.reconciles[r].snapshot, id) && !Wanted(s.lists, id)
                       ==> Pending(s.queue, id)
    case SwitchOff(r) =>
      r in s.reconciles && s.reconciles[r].switchedOn
      ==> forall id :: id in s.flags && !InSnapshot(s.reconciles[r].snapshot, id) && Wanted(s.lists, id)
                       ==> Pending(s.queue, id)
    case _ => true
  }

  /** Setting some products' flags outright keeps the rest as it was. */
  lemma OverrideExact(s: State, flags: map<ProductId, bool>, snapshot: FullSync, on: bool)
    requires Synced(s) && flags == if on then TurnedOn(s.flags, snapshot) else TurnedOff(s.flags, snapshot)
    ensures (forall id :: id in flags ==> FlagAfter(flags[id], s.queue, id) == Wanted(s.lists, id))
            <==> forall id :: id in s.flags && InSnapshot(snapshot, id) == on && Wanted(s.lists, id) != on
                              ==> Pending(s.queue, id)
  {
    hide Pending, FlagAfter, InSnapshot, Wanted;
    forall id | id in s.flags
      ensures FlagAfter(flags[id], s.queue, id) == Wanted(s.lists, id)
              <==> (InSnapshot(snapshot, id) == on && Wanted(s.lists, id) != on ==> Pending(s.queue, id))
    {
      FlagAfterMentioned(flags[id], s.flags[id], s.queue, id);
      FlagAfterMentioned(s.flags[id], s.flags[id], s.queue, id);
    }
    assert forall id :: id in flags <==> id in s.flags.Keys;
  }

  /**
   Each update of a reconcile, with a snapshot of any age, keeps the services in step if and only if every
   product it sets against the current lists is still mentioned by a pending message.
   */
  lemma ReconcileExact(s: State, step: Step)
    requires Synced(s) && (step.SwitchOn? || step.SwitchOff?)
    ensures Synced(Apply(s, step)) <==> Timely(s, step)
  {
    hide Pending, FlagAfter, InSnapshot, Wanted;
    if step.r in s.reconciles && s.reconciles[step.r].switchedOn == step.SwitchOff? {
      OverrideExact(s, Apply(s, step).flags, s.reconciles[step.r].snapshot, step.SwitchOn?);
    }
  }

  /** What a step has to see to for the services to stay in step. */
  predicate Guard(s: State, step: Step) {
    match step
    case Toggle(t, _, _) => Apply(s, step) == s || DropsCleanly(s, t, Ids(Apply(s, step).lists, t))
    case Persist(t, _) => Apply(s, step) == s || DropsCleanly(s, t, Ids(Apply(s, step).lists, t))
    case _ => Timely(s, step)
  }

  lemma StepExact(s: State, step: Step)
    requires Synced(s)
    ensures Synced(Apply(s, step)) <==> Guard(s, step)
  {
    hide Synced, Timely, DropsCleanly, FlagAfter;
    match step
    case Toggle(_, _, _) => ChangeKeeps(s, step);
    case Persist(_, _) => ChangeKeeps(s, step);
    case Consume => ConsumeKeeps(s); TimelyOthers(s, step);
    case TakeSnapshot(_) => SnapshotKeeps(s, step); TimelyOthers(s, step);
    case SwitchOn(_) => ReconcileExact(s, step);
    case SwitchOff(_) => ReconcileExact(s, step);
  }

  lemma TimelyOthers(s: State, step: Step)
    requires !step.SwitchOn? && !step.SwitchOff?
    ensures Timely(s, step)
  {
  }

  lemma SnapshotKeeps(s: State, step: Step)
    requires step.TakeSnapshot? && Synced(s)
    ensures Synced(Apply(s, step))
  {
  }

  // ------------------------------------------------------------------------------------------
  // Whole runs
  // ------------------------------------------------------------------------------------------

  predicate AlwaysSynced(s: State, steps: seq<Step>) {
    forall k :: 0 <= k <= |steps| ==> Synced(Exec(s, steps[..k]))
  }

  predicate AlwaysGuarded(s: State, steps: seq<Step>) {
    forall k :: 0 <= k < |steps| ==> Guard(Exec(s, steps[..k]), steps[k])
  }

  lemma PrefixStep(s: State, steps: seq<Step>, k: nat)
    requires k < |steps|
    ensures Exec(s, steps[..k + 1]) == Apply(Exec(s, steps[..k]), steps[k])
  {
    assert steps[..k + 1][..k] == steps[..k];
  }

  lemma {:induction false} GuardedStaysSynced(s: State, steps: seq<Step>, k: nat)
    requires Synced(s) && AlwaysGuarded(s, steps) && k <= |steps|
    ensures Synced(Exec(s, steps[..k]))
  {
    hide Apply, Synced, Guard;
    if k > 0 {
      GuardedStaysSynced(s, steps, k - 1);
      PrefixStep(s, steps, k - 1);
      StepExact(Exec(s, steps[..k - 1]), steps[k - 1]);
    }
  }

  /**
   Over every run of list changes, messages and reconciles in any interleaving: replaying what is pending
   gives the configured lists at every moment if and only if every list change drops cleanly and every
   update of a reconcile leaves alone, or has a pending message for, each product that changed since its
   snapshot.
   */
  lemma SyncedExactly(s: State, steps: seq<Step>)
    requires Synced(s)
    ensures AlwaysSynced(s, steps) <==> AlwaysGuarded(s, steps)
  {
    hide Apply, Synced, Guard, Exec;
    if AlwaysGuarded(s, steps) {
      forall k | 0 <= k <= |steps|
        ensures Synced(Exec(s, steps[..k]))
      {
        GuardedStaysSynced(s, steps, k);
      }
    }
    if AlwaysSynced(s, steps) {
      forall k | 0 <= k < |steps|
        ensures Guard(Exec(s, steps[..k]), steps[k])
      {
        PrefixStep(s, steps, k);
        assert Synced(Exec(s, steps[..k])) && Synced(Exec(s, steps[..k + 1]));
        StepExact(Exec(s, steps[..k]), steps[k]);
      }
    }
  }

  /** At every point of the run an id is configured under one type only. */
  predicate StaysDisjoint(s: State, steps: seq<Step>) {
    forall k :: 0 <= k <= |steps| ==> Disjoint(Exec(s, steps[..k]).lists)
  }

  predicate AlwaysTimely(s: State, steps: seq<Step>) {
    forall k :: 0 <= k < |steps| ==> Timely(Exec(s, steps[..k]), steps[k])
  }

  lemma DisjointIsGuarded(s: State, step: Step)
    requires Disjoint(s.lists) && Timely(s, step)
    ensures Guard(s, step)
  {
    if step.Toggle? || step.Persist? {
      DisjointDropsCleanly(s, step.productType, Ids(Apply(s, step).lists, step.productType));
    }
  }

  /** In particular: with type-disjoint lists and timely reconciles the services are in step at every moment. */
  lemma DisjointRunIsSynced(s: State, steps: seq<Step>)
    requires Synced(s) && StaysDisjoint(s, steps) && AlwaysTimely(s, steps)
    ensures AlwaysSynced(s, steps)
  {
    hide Apply, Synced, Guard, Exec, Timely, Disjoint;
    forall k | 0 <= k < |steps|
      ensures Guard(Exec(s, steps[..k]), steps[k])
    {
      DisjointIsGuarded(Exec(s, steps[..k]), steps[k]);
    }
    SyncedExactly(s, steps);
  }

  lemma StepKeepsLimit(s: State, step: Step)
    requires Limited(s.lists)
    ensures Limited(Apply(s, step).lists) && Apply(s, step).flags.Keys == s.flags.Keys
  {
  }

  /** Over any run no list exceeds eight ids, and no product is created or forgotten. */
  lemma {:induction false} RunKeepsLimit(s: State, steps: seq<Step>)
    requires Limited(s.lists)
    ensures Limited(Exec(s, steps).lists) && Exec(s, steps).flags.Keys == s.flags.Keys
  {
    hide Apply, Limited;
    if steps != [] {
      RunKeepsLimit(s, steps[..|steps| - 1]);
      StepKeepsLimit(Exec(s, steps[..|steps| - 1]), steps[|steps| - 1]);
    }
  }

  /** Whenever the queue of a guarded run is empty the flags are exactly the configured lists. */
  lemma DrainedFlagsAreTheLists(s: State, steps: seq<Step>, id: ProductId)
    requires Synced(s) && Limited(s.lists) && AlwaysGuarded(s, steps)
    requires Exec(s, steps).queue == [] && id in s.flags
    ensures id in Exec(s, steps).flags && Exec(s, steps).flags[id] == Wanted(Exec(s, steps).lists, id)
  {
    hide Exec, Guard;
    GuardedStaysSynced(s, steps, |steps|);
    RunKeepsLimit(s, steps);
    assert steps[..|steps|] == steps;
    var t := Exec(s, steps);
    assert id in t.flags.Keys;
    assert FlagAfter(t.flags[id], t.queue, id) == Wanted(t.lists, id);
  }

  // ------------------------------------------------------------------------------------------
  // Which reconciles are timely
  // ------------------------------------------------------------------------------------------

  /** The message a step publishes, if any. */
  function Published(s: State, step: Step): seq<Diff> {
    if step.Consume? then [] else Apply(s, step).queue[|s.queue|..]
  }

  function PublishedIn(s: State, steps: seq<Step>): seq<Diff> {
    if steps == [] then []
    else
      var n := |steps| - 1;
      PublishedIn(s, steps[..n]) + Published(Exec(s, steps[..n]), steps[n])
  }

  /** How many messages a run consumes. */
  function ConsumedIn(s: State, steps: seq<Step>): nat {
    if steps == [] then 0
    else
      var n := |steps| - 1;
      ConsumedIn(s, steps[..n]) + if steps[n].Consume? && Exec(s, steps[..n]).queue != [] then 1 else 0
  }

  lemma StepQueue(s: State, step: Step)
    ensures Apply(s, step).queue
            == if step.Consume? && s.queue != [] then s.queue[1..] else s.queue + Published(s, step)
  {
  }

  /** The queue is first in, first out: what was there and was published, less what was consumed. */
  lemma {:induction false} QueueIsFifo(s: State, steps: seq<Step>)
    ensures ConsumedIn(s, steps) <= |s.queue + PublishedIn(s, steps)|
    ensures Exec(s, steps).queue == (s.queue + PublishedIn(s, steps))[ConsumedIn(s, steps)..]
  {
    hide Apply, Published;
    if steps != [] {
      var n := |steps| - 1;
      QueueIsFifo(s, steps[..n]);
      StepQueue(Exec(s, steps[..n]), steps[n]);
      PublishesNothing(Exec(s, steps[..n]));
      FifoStep(s.queue, PublishedIn(s, steps[..n]), Published(Exec(s, steps[..n]), steps[n]), ConsumedIn(s, steps[..n]));
    }
  }

  /** One more published at the end, or one more consumed at the front. */
  lemma FifoStep(queue: seq<Diff>, published: seq<Diff>, more: seq<Diff>, c: nat)
    requires c <= |queue + published|
    ensures (queue + published)[c..] + more == (queue + (published + more))[c..]
    ensures (queue + published)[c..] != [] ==> (queue + published)[c..][1..] == (queue + (published + []))[c + 1..]
  {
    var all := queue + published;
    assert queue + (published + more) == all + more && all[c..] + more == (all + more)[c..];
    assert published + [] == published;
    if all[c..] != [] {
      assert all[c..][1..] == all[c + 1..];
    }
  }

  lemma PublishesNothing(s: State)
    ensures Published(s, Consume) == []
  {
  }

  lemma ToggleMentions(s: State, step: Step, id: ProductId)
    requires step.Toggle? && Wanted(Apply(s, step).lists, id) != Wanted(s.lists, id)
    ensures Pending(Published(s, step), id)
  {
    assert Published(s, step)[0] == Diff(step.productType, if step.featured then [step.id] else [],
                                         if step.featured then [] else [step.id]);
    assert Mentions(Published(s, step)[0], id);
  }

  lemma PersistMentions(s: State, step: Step, id: ProductId)
    requires step.Persist? && Wanted(Apply(s, step).lists, id) != Wanted(s.lists, id)
    ensures Pending(Published(s, step), id)
  {
    var previous := Ids(s.lists, step.productType);
    assert Published(s, step)[0] == Diff(step.productType, Minus(step.next, previous), Minus(previous, step.next));
    assert Mentions(Published(s, step)[0], id);
  }

  lemma OthersKeepLists(s: State, step: Step)
    requires !step.Toggle? && !step.Persist?
    ensures Apply(s, step).lists == s.lists
  {
  }

  /** A product whose wanted flag a step changes is mentioned by the message the step publishes. */
  lemma ChangeIsMentioned(s: State, step: Step, id: ProductId)
    requires Wanted(Apply(s, step).lists, id) != Wanted(s.lists, id)
    ensures Pending(Published(s, step), id)
  {
    hide Apply, Published, Pending, Wanted;
    if step.Toggle? {
      ToggleMentions(s, step, id);
    } else if step.Persist? {
      PersistMentions(s, step, id);
    } else {
      OthersKeepLists(s, step);
    }
  }

  lemma PendingAppend(a: seq<Diff>, b: seq<Diff>, id: ProductId)
    ensures Pending(a, id) || Pending(b, id) <==> Pending(a + b, id)
  {
    if Pending(a, id) {
      var k :| 0 <= k < |a| && Mentions(a[k], id);
      assert (a + b)[k] == a[k];
    }
    if Pending(b, id) {
      var k :| 0 <= k < |b| && Mentions(b[k], id);
      assert (a + b)[|a| + k] == b[k];
    }
  }

  lemma {:induction false} ChangesAreMentioned(s: State, steps: seq<Step>, id: ProductId)
    requires Wanted(Exec(s, steps).lists, id) != Wanted(s.lists, id)
    ensures Pending(PublishedIn(s, steps), id)
  {
    hide Apply, Published, Wanted, Pending;
    var n := |steps| - 1;
    var before := Exec(s, steps[..n]);
    PendingAppend(PublishedIn(s, steps[..n]), Published(before, steps[n]), id);
    if Wanted(before.lists, id) != Wanted(s.lists, id) {
      ChangesAreMentioned(s, steps[..n], id);
    } else {
      ChangeIsMentioned(before, steps[n], id);
    }
  }

  /**
   A reconcile is timely as long as nothing published after its snapshot has been consumed: the run between
   may change the lists at will and consume whatever was pending at the snapshot.
   */
  lemma UnconsumedIsTimely(s: State, between: seq<Step>, step: Step)
    requires step.SwitchOn? || step.SwitchOff?
    requires step.r in Exec(s, between).reconciles && Exec(s, between).reconciles[step.r].snapshot == SnapshotOf(s.lists)
    requires ConsumedIn(s, between) <= |s.queue|
    ensures Timely(Exec(s, between), step)
  {
    hide Exec, Pending, PublishedIn, ConsumedIn;
    var t := Exec(s, between);
    QueueIsFifo(s, between);
    var left := s.queue[ConsumedIn(s, between)..];
    assert t.queue == left + PublishedIn(s, between);
    forall id | Wanted(t.lists, id) != Wanted(s.lists, id)
      ensures Pending(t.queue, id)
    {
      ChangesAreMentioned(s, between, id);
      PendingAppend(left, PublishedIn(s, between), id);
    }
  }

  lemma ExecThree(s: State, a: Step, b: Step, c: Step)
    ensures Exec(s, [a, b, c]) == Apply(Apply(Apply(s, a), b), c)
  {
    hide Apply;
    var steps := [a, b, c];
    PrefixStep(s, steps, 0);
    PrefixStep(s, steps, 1);
    PrefixStep(s, steps, 2);
    assert steps[..0] == [] && steps[..3] == steps;
  }

  /**
   An uninterrupted reconcile turns any flags whatever into the configured lists, and the services are in step
   after it if and only if the latest pending message about each product, if any, agrees with the lists.
   */
  lemma ResyncRepairs(s: State, r: ReconcileId)
    requires r !in s.reconciles
    ensures var t := Exec(s, [TakeSnapshot(r), SwitchOn(r), SwitchOff(r)]);
            && t == s.(flags := t.flags) && t.flags.Keys == s.flags.Keys
            && (forall id :: id in t.flags ==> t.flags[id] == Wanted(s.lists, id))
            && (Synced(t) <==> QueueHonest(s))
  {
    hide Wanted;
    ExecThree(s, TakeSnapshot(r), SwitchOn(r), SwitchOff(r));
    var s1 := Apply(s, TakeSnapshot(r));
    var s2 := Apply(s1, SwitchOn(r));
    var t := Apply(s2, SwitchOff(r));
    assert t.reconciles == s.reconciles;
    SnapshotIsWanted(s.lists);
    HonestIsSynced(s, t);
  }

  lemma HonestIsSynced(s: State, t: State)
    requires t == s.(flags := t.flags) && t.flags.Keys == s.flags.Keys
    requires forall id :: id in t.flags ==> t.flags[id] == Wanted(s.lists, id)
    ensures Synced(t) <==> QueueHonest(s)
  {
    hide Wanted, Pending, FlagAfter;
    assert forall id :: id in t.flags <==> id in s.flags.Keys;
    forall id | id in s.flags
      ensures Pending(s.queue, id) ==> FlagAfter(t.flags[id], s.queue, id) == FlagAfter(s.flags[id], s.queue, id)
      ensures !Pending(s.queue, id) ==> FlagAfter(t.flags[id], s.queue, id) == Wanted(s.lists, id)
    {
      FlagAfterMentioned(t.flags[id], s.flags[id], s.queue, id);
    }
  }

  // ------------------------------------------------------------------------------------------
  // Repair from any flags
  // ------------------------------------------------------------------------------------------

  /** Whatever the flags are: messages stay honest through a list change if and only if it drops cleanly. */
  lemma EditHonest(s: State, t: ProductType, next: seq<ProductId>, added: seq<ProductId>, removed: seq<ProductId>)
    requires QueueHonest(s)
    requires forall id :: id in added <==> id in next && id !in Ids(s.lists, t)
    requires forall id :: id in removed <==> id in Ids(s.lists, t) && id !in next
    ensures QueueHonest(Edit(s, t, next, added, removed)) <==> DropsCleanly(s, t, next)
  {
    hide Pending;
    var u := Edit(s, t, next, added, removed);
    assert u.queue[..|s.queue|] == s.queue;
    forall id
      ensures Pending(u.queue, id) <==> Pending(s.queue, id) || id in added || id in removed
    {
      PendingAppend(s.queue, [Diff(t, added, removed)], id);
      PendingOne(Diff(t, added, removed), id);
    }
    forall id | id in s.flags
      ensures FlagAfter(s.flags[id], u.queue, id)
              == if id in removed then false else if id in added then true else FlagAfter(s.flags[id], s.queue, id)
    {
    }
    forall id | id !in added && id !in removed
      ensures Wanted(u.lists, id) == Wanted(s.lists, id)
    {
    }
  }

  lemma PendingOne(diff: Diff, id: ProductId)
    ensures Pending([diff], id) <==> id in diff.added || id in diff.removed
  {
    assert Mentions([diff][0], id) <==> id in diff.added || id in diff.removed;
  }

  /** A change either leaves everything alone or publishes one message. */
  lemma ChangeHonest(s: State, step: Step)
    requires QueueHonest(s) && (step.Toggle? || step.Persist?)
    ensures QueueHonest(Apply(s, step))
            <==> Apply(s, step) == s
                 || DropsCleanly(s, step.productType, Ids(Apply(s, step).lists, step.productType))
  {
    hide QueueHonest, DropsCleanly;
    match step
    case Toggle(t, id, featured) =>
      var previous := Ids(s.lists, t);
      if featured != (id in previous) && !(featured && |previous| >= FEATURED_LIMIT) {
        if featured {
          EditHonest(s, t, previous + [id], [id], []);
        } else {
          EditHonest(s, t, Minus(previous, [id]), [], [id]);
        }
        assert |Apply(s, step).queue| == |s.queue| + 1;
      }
    case Persist(t, next) =>
      if |next| <= FEATURED_LIMIT {
        EditHonest(s, t, next, Minus(next, Ids(s.lists, t)), Minus(Ids(s.lists, t), next));
        assert |Apply(s, step).queue| == |s.queue| + 1;
      }
  }

  /** What the flags are does not matter to a product with a pending message. */
  lemma FlagsDoNotMatter(s: State, t: State)
    requires QueueHonest(s) && t.lists == s.lists && t.queue == s.queue && t.flags.Keys == s.flags.Keys
    ensures QueueHonest(t)
  {
    hide Pending, FlagAfter, Wanted;
    forall id | id in t.flags && Pending(t.queue, id)
      ensures FlagAfter(t.flags[id], t.queue, id) == Wanted(t.lists, id)
    {
      assert id in s.flags.Keys;
      FlagAfterMentioned(t.flags[id], s.flags[id], t.queue, id);
    }
  }

  lemma ConsumeHonest(s: State)
    requires QueueHonest(s)
    ensures QueueHonest(Apply(s, Consume))
  {
    if s.queue != [] {
      hide FlagAfter, Wanted, Pending;
      var t := Apply(s, Consume);
      assert s.queue == [s.queue[0]] + t.queue;
      forall id | id in t.flags && Pending(t.queue, id)
        ensures FlagAfter(t.flags[id], t.queue, id) == Wanted(t.lists, id)
      {
        assert id in s.flags.Keys;
        PendingAppend([s.queue[0]], t.queue, id);
        FlagAfterFirst(s.flags[id], s.queue, id);
        FlagAfterOne(s.flags, s.queue, id);
      }
    }
  }

  /** List changes drop cleanly; the other steps are free. */
  predicate Clean(s: State, step: Step) {
    step.Toggle? || step.Persist?
    ==> Apply(s, step) == s || DropsCleanly(s, step.productType, Ids(Apply(s, step).lists, step.productType))
  }

  lemma OthersKeepTables(s: State, step: Step)
    requires step.TakeSnapshot? || step.SwitchOn? || step.SwitchOff?
    ensures var t := Apply(s, step); t.lists == s.lists && t.queue == s.queue && t.flags.Keys == s.flags.Keys
  {
  }

  /** For every step and any flags: the messages stay honest if and only if a list change drops cleanly. */
  lemma HonestExactly(s: State, step: Step)
    requires QueueHonest(s)
    ensures QueueHonest(Apply(s, step)) <==> Clean(s, step)
  {
    hide Apply, QueueHonest, DropsCleanly;
    if step.Toggle? || step.Persist? {
      ChangeHonest(s, step);
    } else if step.Consume? {
      ConsumeHonest(s);
    } else {
      OthersKeepTables(s, step);
      FlagsDoNotMatter(s, Apply(s, step));
    }
  }

  predicate AlwaysClean(s: State, steps: seq<Step>) {
    forall k :: 0 <= k < |steps| ==> Clean(Exec(s, steps[..k]), steps[k])
  }

  predicate AlwaysHonest(s: State, steps: seq<Step>) {
    forall k :: 0 <= k <= |steps| ==> QueueHonest(Exec(s, steps[..k]))
  }

  lemma {:induction false} CleanStaysHonest(s: State, steps: seq<Step>, k: nat)
    requires QueueHonest(s) && AlwaysClean(s, steps) && k <= |steps|
    ensures QueueHonest(Exec(s, steps[..k]))
  {
    hide Apply, QueueHonest, Clean;
    if k > 0 {
      CleanStaysHonest(s, steps, k - 1);
      PrefixStep(s, steps, k - 1);
      HonestExactly(Exec(s, steps[..k - 1]), steps[k - 1]);
    }
  }

  /** Over every run, from any flags and with any reconciles: honest throughout if and only if all drops are clean. */
  lemma HonestRunExactly(s: State, steps: seq<Step>)
    requires QueueHonest(s)
    ensures AlwaysHonest(s, steps) <==> AlwaysClean(s, steps)
  {
    hide Apply, QueueHonest, Clean, Exec;
    if AlwaysClean(s, steps) {
      forall k | 0 <= k <= |steps|
        ensures QueueHonest(Exec(s, steps[..k]))
      {
        CleanStaysHonest(s, steps, k);
      }
    }
    if AlwaysHonest(s, steps) {
      forall k | 0 <= k < |steps|
        ensures Clean(Exec(s, steps[..k]), steps[k])
      {
        PrefixStep(s, steps, k);
        assert QueueHonest(Exec(s, steps[..k])) && QueueHonest(Exec(s, steps[..k + 1]));
        HonestExactly(Exec(s, steps[..k]), steps[k]);
      }
    }
  }

  /** After every cleanly dropping run, from any flags, an uninterrupted reconcile puts the services in step. */
  lemma ResyncAfterRun(s: State, steps: seq<Step>, r: ReconcileId)
    requires QueueHonest(s) && AlwaysClean(s, steps) && r !in Exec(s, steps).reconciles
    ensures Synced(Exec(Exec(s, steps), [TakeSnapshot(r), SwitchOn(r), SwitchOff(r)]))
  {
    hide Exec, Clean, QueueHonest, Synced;
    CleanStaysHonest(s, steps, |steps|);
    assert steps[..|steps|] == steps;
    ResyncRepairs(Exec(s, steps), r);
  }

  /** Services in step whose flags are then corrupted at will are in step again after such a reconcile. */
  lemma CorruptionIsRepaired(s: State, flags: map<ProductId, bool>, r: ReconcileId)
    requires Synced(s) && flags.Keys == s.flags.Keys && r !in s.reconciles
    ensures Synced(Exec(s.(flags := flags), [TakeSnapshot(r), SwitchOn(r), SwitchOff(r)]))
  {
    assert QueueHonest(s);
    hide Exec, QueueHonest, Synced;
    FlagsDoNotMatter(s, s.(flags := flags));
    ResyncRepairs(s.(flags := flags), r);
  }

  lemma SnapshotIsWanted(lists: map<ProductType, seq<ProductId>>)
    ensures forall id :: InSnapshot(SnapshotOf(lists), id) == Wanted(lists, id)
  {
  }

  lemma ToggledRun(s: State, steps: seq<Step>, s1: State, s2: State, s3: State)
    requires |steps| == 3 && s1 == Apply(s, steps[0]) && s2 == Apply(s1, steps[1]) && s3 == Apply(s2, steps[2])
    requires Synced(s) && Guard(s, steps[0]) && Guard(s1, steps[1]) && Guard(s2, steps[2])
    ensures Exec(s, steps) == s3 && AlwaysSynced(s, steps)
  {
    hide Apply, Synced, Guard, AlwaysSynced;
    PrefixStep(s, steps, 0);
    PrefixStep(s, steps, 1);
    PrefixStep(s, steps, 2);
    assert steps[..0] == [] && steps[..3] == steps;
    SyncedExactly(s, steps);
  }

  const BEFORE := State(map[], [], map["p" := false], map[])
  const STALE := Reconcile(FullSync([], [], []), false)
  const TOGGLED := State(map[Saas := ["p"]], [], map["p" := true], map[0 := STALE])

  const TAKEN := BEFORE.(reconciles := map[0 := STALE])
  const PUBLISHED := TAKEN.(lists := map[Saas := ["p"]], queue := [Diff(Saas, ["p"], [])])

  lemma Taking()
    ensures Apply(BEFORE, TakeSnapshot(0)) == TAKEN && Synced(BEFORE)
  {
  }

  lemma Publishing()
    ensures Apply(TAKEN, Toggle(Saas, "p", true)) == PUBLISHED && Guard(TAKEN, Toggle(Saas, "p", true))
  {
    hide Wanted;
    assert Ids(TAKEN.lists, Saas) == [] && [] + ["p"] == ["p"];
    assert TAKEN.lists[Saas := ["p"]] == PUBLISHED.lists;
    assert TAKEN.queue + [Diff(Saas, ["p"], [])] == PUBLISHED.queue;
    DisjointIsGuarded(TAKEN, Toggle(Saas, "p", true));
  }

  lemma Consuming()
    ensures Apply(PUBLISHED, Consume) == TOGGLED
  {
    var t := Apply(PUBLISHED, Consume);
    assert t.flags == TOGGLED.flags && t.queue == [];
  }

  lemma TogglingIsSynced()
    ensures AlwaysSynced(BEFORE, [TakeSnapshot(0), Toggle(Saas, "p", true), Consume])
    ensures Exec(BEFORE, [TakeSnapshot(0), Toggle(Saas, "p", true), Consume]) == TOGGLED
  {
    hide Apply, Synced, AlwaysSynced, Exec, Timely;
    Taking();
    Publishing();
    Consuming();
    TimelyOthers(BEFORE, TakeSnapshot(0));
    TimelyOthers(PUBLISHED, Consume);
    ToggledRun(BEFORE, [TakeSnapshot(0), Toggle(Saas, "p", true), Consume], TAKEN, PUBLISHED, TOGGLED);
  }

  lemma SwitchingUndoes()
    ensures !Synced(Apply(Apply(TOGGLED, SwitchOn(0)), SwitchOff(0)))
  {
    var s1 := Apply(TOGGLED, SwitchOn(0));
    assert s1.flags["p"] && s1.reconciles[0] == STALE.(switchedOn := true);
    var s2 := Apply(s1, SwitchOff(0));
    assert s2.lists == TOGGLED.lists && s2.queue == [] && !s2.flags["p"];
    assert Wanted(s2.lists, "p") && !FlagAfter(s2.flags["p"], s2.queue, "p");
  }

  /** A change that is published and consumed between the snapshot and the updates is undone. */
  lemma StaleReconcileDiverges()
    ensures var toggled := [TakeSnapshot(0), Toggle(Saas, "p", true), Consume];
            && AlwaysSynced(BEFORE, toggled)
            && !Synced(Exec(Exec(BEFORE, toggled), [SwitchOn(0), SwitchOff(0)]))
  {
    hide Apply, Synced, AlwaysSynced, Exec;
    TogglingIsSynced();
    SwitchingUndoes();
    var late := [SwitchOn(0), SwitchOff(0)];
    PrefixStep(TOGGLED, late, 0);
    PrefixStep(TOGGLED, late, 1);
    ExecNothing(TOGGLED);
    assert late[..0] == [] && late[..2] == late;
  }

  lemma ExecNothing(s: State)
    ensures Exec(s, []) == s
  {
  }

  // ------------------------------------------------------------------------------------------
  // The services
  // ------------------------------------------------------------------------------------------

  datatype ToggleResult = Saved | AlreadySo | LimitReached

  class FeaturedServices {
    var lists: map<ProductType, seq<ProductId>>
    var queue: seq<Diff>
    var flags: map<ProductId, bool>
    var reconciles: map<ReconcileId, Reconcile>

    ghost function Snapshot(): State
      reads this
    {
      State(lists, queue, flags, reconciles)
    }

    constructor (flags: map<ProductId, bool>)
      ensures Snapshot() == State(map[], [], flags, map[])
    {
      this.flags, lists, queue, reconciles := flags, map[], [], map[];
    }

    method ToggleFeatured(t: ProductType, id: ProductId, featured: bool) returns (result: ToggleResult)
      modifies `lists, `queue
      ensures Snapshot() == Apply(old(Snapshot()), Toggle(t, id, featured))
      ensures result.AlreadySo? <==> featured == (id in Ids(old(lists), t))
      ensures result.LimitReached? <==> featured && id !in Ids(old(lists), t) && |Ids(old(lists), t)| >= 8
      ensures !result.Saved? ==> lists == old(lists) && queue == old(queue)
      ensures result.Saved? ==>
                && t in lists && (forall i :: i in lists[t] <==> if i == id then featured else i in Ids(old(lists), t))
                && lists[t] == (if featured then Ids(old(lists), t) + [id] else Minus(Ids(old(lists), t), [id]))
                && lists == old(lists)[t := lists[t]]
                && queue == old(queue) + [Diff(t, if featured then [id] else [], if featured then [] else [id])]
    {
      var previousIds := if t in lists then lists[t] else [];
      var listed := id in previousIds;
      if featured && listed {
        return AlreadySo;
      }
      if !featured && !listed {
        return AlreadySo;
      }
      var nextIds: seq<ProductId>;
      if featured {
        if |previousIds| >= FEATURED_LIMIT {
          return LimitReached;
        }
        nextIds := previousIds + [id];
      } else {
        nextIds := Minus(previousIds, [id]);
      }
      lists := lists[t := nextIds];
      queue := queue + [Diff(t, if featured then [id] else [], if featured then [] else [id])];
      result := Saved;
    }

    /** `accepted` is false when validation refuses more than eight ids. */
    method PersistConfig(t: ProductType, nextIds: seq<ProductId>) returns (accepted: bool)
      modifies `lists, `queue
      ensures Snapshot() == Apply(old(Snapshot()), Persist(t, nextIds))
      ensures accepted <==> |nextIds| <= 8
      ensures !accepted ==> lists == old(lists) && queue == old(queue)
      ensures accepted ==>
                && lists == old(lists)[t := nextIds]
                && |queue| == |old(queue)| + 1 && old(queue) == queue[..|old(queue)|]
                && var diff := queue[|old(queue)|];
                   && diff.productType == t
                   && (forall id :: id in diff.added <==> id in nextIds && id !in Ids(old(lists), t))
                   && (forall id :: id in diff.removed <==> id in Ids(old(lists), t) && id !in nextIds)
    {
      if |nextIds| > FEATURED_LIMIT {
        return false;
      }
      var previousIds := if t in lists then lists[t] else [];
      lists := lists[t := nextIds];
      var added := Minus(nextIds, previousIds);
      var removed := Minus(previousIds, nextIds);
      queue := queue + [Diff(t, added, removed)];
      accepted := true;
    }

    /** Reads the three configuration rows; a product is in the snapshot exactly when some list names it. */
    method GetFullSyncSnapshot() returns (snapshot: FullSync)
      ensures snapshot == SnapshotOf(lists)
      ensures forall id :: InSnapshot(snapshot, id) <==> exists t :: t in lists && id in lists[t]
    {
      var services := if Saas in lists then lists[Saas] else [];
      var products := if Physical in lists then lists[Physical] else [];
      var licenses := if License in lists then lists[License] else [];
      snapshot := FullSync(services, products, licenses);
      forall id
        ensures InSnapshot(snapshot, id) <==> exists t :: t in lists && id in lists[t]
      {
        if t :| t in lists && id in lists[t] {
          assert t == Saas || t == Physical || t == License;
        }
      }
    }

    /** Two update statements: the added ids on, then the removed ids off. */
    method SyncFeaturedFromTopProducts(added: seq<ProductId>, removed: seq<ProductId>)
      modifies `flags
      ensures forall t :: flags == ApplyDiff(old(flags), Diff(t, added, removed))
      ensures forall id :: id in flags <==> id in old(flags)
      ensures forall id :: id in flags ==>
                (flags[id] <==> id !in removed && (id in added || old(flags)[id]))
    {
      if |added| > 0 {
        flags := map id | id in flags :: if id in added && !flags[id] then true else flags[id];
      }
      if |removed| > 0 {
        flags := map id | id in flags :: if id in removed && flags[id] then false else flags[id];
      }
    }

    method ConsumeNext()
      modifies `queue, `flags
      ensures Snapshot() == Apply(old(Snapshot()), Consume)
      ensures old(queue) == [] ==> queue == [] && flags == old(flags)
      ensures old(queue) != [] ==>
                var diff := old(queue)[0];
                && queue == old(queue)[1..] && (forall id :: id in flags <==> id in old(flags))
                && forall id :: id in flags ==>
                     (flags[id] <==> id !in diff.removed && (id in diff.added || old(flags)[id]))
    {
      if |queue| > 0 {
        var diff := queue[0];
        queue := queue[1..];
        SyncFeaturedFromTopProducts(diff.added, diff.removed);
        assert flags == ApplyDiff(old(flags), Diff(diff.productType, diff.added, diff.removed));
      }
    }

    /** The request of a reconcile: the snapshot of this moment. */
    method RequestSnapshot(r: ReconcileId)
      requires r !in reconciles
      modifies `reconciles
      ensures Snapshot() == Apply(old(Snapshot()), TakeSnapshot(r))
      ensures r in reconciles && !reconciles[r].switchedOn && reconciles == old(reconciles)[r := reconciles[r]]
      ensures forall id :: InSnapshot(reconciles[r].snapshot, id) <==> exists t :: t in lists && id in lists[t]
    {
      var snapshot := GetFullSyncSnapshot();
      reconciles := reconciles[r := Reconcile(snapshot, false)];
    }

    /** The first update statement of a reconcile. */
    method SwitchSnapshotOn(r: ReconcileId)
      requires r in reconciles && !reconciles[r].switchedOn
      modifies `flags, `reconciles
      ensures Snapshot() == Apply(old(Snapshot()), SwitchOn(r))
      ensures forall id :: id in flags <==> id in old(flags)
      ensures forall id :: id in flags ==>
                (flags[id] <==> old(flags)[id] || InSnapshot(old(reconciles)[r].snapshot, id))
    {
      var snapshot := reconciles[r].snapshot;
      var featuredIds := snapshot.saasIds + snapshot.physicalIds + snapshot.licenseIds;
      if |featuredIds| > 0 {
        flags := map id | id in flags :: if id in featuredIds && !flags[id] then true else flags[id];
      }
      reconciles := reconciles[r := reconciles[r].(switchedOn := true)];
      assert flags == TurnedOn(old(flags), snapshot);
    }

    /** The second update statement, which ends the reconcile. */
    method SwitchOthersOff(r: ReconcileId)
      requires r in reconciles && reconciles[r].switchedOn
      modifies `flags, `reconciles
      ensures Snapshot() == Apply(old(Snapshot()), SwitchOff(r))
      ensures reconciles == old(reconciles) - {r} && forall id :: id in flags <==> id in old(flags)
      ensures forall id :: id in flags ==>
                (flags[id] <==> old(flags)[id] && InSnapshot(old(reconciles)[r].snapshot, id))
    {
      var snapshot := reconciles[r].snapshot;
      var featuredIds := snapshot.saasIds + snapshot.physicalIds + snapshot.licenseIds;
      flags := map id | id in flags :: if flags[id] && (|featuredIds| == 0 || id !in featuredIds) then false else flags[id];
      reconciles := reconciles - {r};
      assert flags == TurnedOff(old(flags), snapshot);
    }

    /** A reconcile that nothing interrupts: whatever the flags were, they become the configured lists. */
    method ReconcileFeaturedFromContent(r: ReconcileId)
      requires r !in reconciles
      modifies `flags, `reconciles
      ensures Snapshot() == Exec(old(Snapshot()), [TakeSnapshot(r), SwitchOn(r), SwitchOff(r)])
      ensures flags.Keys == old(flags).Keys && forall id :: id in flags ==> flags[id] == Wanted(lists, id)
    {
      ghost var s := Snapshot();
      RequestSnapshot(r);
      SwitchSnapshotOn(r);
      SwitchOthersOff(r);
      ExecThree(s, TakeSnapshot(r), SwitchOn(r), SwitchOff(r));
    }
  }
}

/**
 Two-factor codes of administrators. Rows are kept in creation order and get increasing ids; a code is
 identified with its hash.
 */
module TwoFactorCodes {
  import opened Common

  type AdminId = string
  type RowId = nat

  datatype Code = Code(id: RowId, admin: AdminId, code: string, expiresAt: int, attempts: nat, usedAt: Option<int>)

  /** `ttl` is the configured lifetime of a code. */
  datatype State = State(rows: seq<Code>, now: int, ttl: int, nextId: RowId)

  datatype Step =
    | Create(admin: AdminId, code: string)
    | Validate(admin: AdminId, code: string)
    | Invalidate(admin: AdminId)
    | Cleanup
    | Tick(ms: nat)

  const MAX_2FA_ATTEMPTS := 5

  predicate Unused(row: Code, a: AdminId) {
    row.admin == a && row.usedAt.None?
  }

  /** The unused row of the admin that was created last. */
  function Latest(rows: seq<Code>, a: AdminId): (i: Option<nat>)
    ensures i.Some? ==> i.value < |rows| && Unused(rows[i.value], a)
    ensures i.Some? ==> forall k :: i.value < k < |rows| ==> !Unused(rows[k], a)
    ensures i.None? ==> forall k :: 0 <= k < |rows| ==> !Unused(rows[k], a)
  {
    if rows == [] then None
    else if Unused(rows[|rows| - 1], a) then Some(|rows| - 1)
    else Latest(rows[..|rows| - 1], a)
  }

  /** The rows that a delete of unused rows leaves. */
  function DropUnused(rows: seq<Code>, a: AdminId): seq<Code> {
    if rows == [] then []
    else DropUnused(rows[..|rows| - 1], a) + if Unused(rows[|rows| - 1], a) then [] else [rows[|rows| - 1]]
  }

  function DropExpired(rows: seq<Code>, now: int): seq<Code> {
    if rows == [] then []
    else
      var last := rows[|rows| - 1];
      DropExpired(rows[..|rows| - 1], now) + if last.expiresAt < now && last.usedAt.None? then [] else [last]
  }

  /** A failed guess counts, and the fifth one uses the code up. */
  function Guessed(row: Code, now: int): Code {
    row.(attempts := row.attempts + 1, usedAt := if row.attempts + 1 >= MAX_2FA_ATTEMPTS then Some(now) else row.usedAt)
  }

  datatype Verdict = NoCode | Expired(row: RowId) | Wrong(row: RowId) | Accepted(row: RowId)

  function Judge(s: State, a: AdminId, code: string): Verdict {
    var i := Latest(s.rows, a);
    if i.None? then NoCode
    else if s.rows[i.value].expiresAt < s.now then Expired(s.rows[i.value].id)
    else if s.rows[i.value].code != code then Wrong(s.rows[i.value].id)
    else Accepted(s.rows[i.value].id)
  }

  function Apply(s: State, step: Step): State {
    match step
    case Create(a, code) =>
      s.(rows := DropUnused(s.rows, a) + [Code(s.nextId, a, code, s.now + s.ttl, 0, None)], nextId := s.nextId + 1)
    case Validate(a, code) =>
      var i := Latest(s.rows, a);
      (match Judge(s, a, code)
       case Wrong(_) => s.(rows := s.rows[i.value := Guessed(s.rows[i.value], s.now)])
       case Accepted(_) => s.(rows := s.rows[i.value := s.rows[i.value].(usedAt := Some(s.now))])
       case _ => s)
    case Invalidate(a) => s.(rows := DropUnused(s.rows, a))
    case Cleanup => s.(rows := DropExpired(s.rows, s.now))
    case Tick(ms) => s.(now := s.now + ms)
  }

  function Exec(s: State, steps: seq<Step>): State {
    if steps == [] then s else Apply(Exec(s, steps[..|steps| - 1]), steps[|steps| - 1])
  }

  function Start(now: int, ttl: int): State {
    State([], now, ttl, 0)
  }

  // ------------------------------------------------------------------------------------------
  // At most one unused row per admin
  // ------------------------------------------------------------------------------------------

  predicate RowsOk(rows: seq<Code>) {
    && (forall i, j :: 0 <= i < j < |rows| ==> rows[i].id < rows[j].id)
    && (forall i, j :: 0 <= i < j < |rows| && rows[i].usedAt.None? && rows[j].usedAt.None? ==> rows[i].admin != rows[j].admin)
    && (forall i :: 0 <= i < |rows| && rows[i].usedAt.None? ==> rows[i].attempts < 5)
  }

  predicate Inv(s: State) {
    RowsOk(s.rows) && forall i :: 0 <= i < |s.rows| ==> s.rows[i].id < s.nextId
  }

  lemma AppendOk(rows: seq<Code>, row: Code)
    requires RowsOk(rows) && (row.usedAt.None? ==> row.attempts < 5)
    requires forall k :: 0 <= k < |rows| ==> rows[k].id < row.id
    requires forall k :: 0 <= k < |rows| && rows[k].usedAt.None? && row.usedAt.None? ==> rows[k].admin != row.admin
    ensures RowsOk(rows + [row])
  {
  }

  lemma {:induction false} DropUnusedRows(rows: seq<Code>, a: AdminId)
    requires RowsOk(rows)
    ensures RowsOk(DropUnused(rows, a))
    ensures forall row :: row in DropUnused(rows, a) <==> row in rows && !Unused(row, a)
  {
    if rows != [] {
      var n := |rows| - 1;
      var front, last := rows[..n], rows[n];
      var kept := DropUnused(front, a);
      DropUnusedRows(front, a);
      assert rows == front + [last];
      KeptBefore(rows, kept);
      if !Unused(last, a) {
        AppendOk(kept, last);
      }
    }
  }

  /** What holds between the last row and rows of its front holds for any rows taken from the front. */
  lemma KeptBefore(rows: seq<Code>, kept: seq<Code>)
    requires rows != [] && RowsOk(rows)
    requires forall row :: row in kept ==> row in rows[..|rows| - 1]
    ensures var last := rows[|rows| - 1];
            forall k :: 0 <= k < |kept| ==>
              kept[k].id < last.id && (kept[k].usedAt.None? && last.usedAt.None? ==> kept[k].admin != last.admin)
  {
    var n := |rows| - 1;
    forall k | 0 <= k < |kept|
      ensures kept[k].id < rows[n].id && (kept[k].usedAt.None? && rows[n].usedAt.None? ==> kept[k].admin != rows[n].admin)
    {
      assert kept[k] in kept;
      var j :| 0 <= j < n && rows[..n][j] == kept[k];
      assert rows[j] == kept[k];
    }
  }

  lemma {:induction false} DropExpiredRows(rows: seq<Code>, now: int)
    requires RowsOk(rows)
    ensures RowsOk(DropExpired(rows, now))
    ensures forall row :: row in DropExpired(rows, now) <==> row in rows && !(row.expiresAt < now && row.usedAt.None?)
  {
    if rows != [] {
      var n := |rows| - 1;
      var front, last := rows[..n], rows[n];
      var kept := DropExpired(front, now);
      DropExpiredRows(front, now);
      assert rows == front + [last];
      KeptBefore(rows, kept);
      if !(last.expiresAt < now && last.usedAt.None?) {
        AppendOk(kept, last);
      }
    }
  }

  lemma SubsetInv(s: State, rows: seq<Code>)
    requires Inv(s) && RowsOk(rows) && forall row :: row in rows ==> row in s.rows
    ensures Inv(s.(rows := rows))
  {
    forall i | 0 <= i < |rows|
      ensures rows[i].id < s.nextId
    {
      assert rows[i] in rows;
    }
  }

  lemma UpdateOk(rows: seq<Code>, i: nat, row: Code)
    requires RowsOk(rows) && i < |rows| && row.id == rows[i].id && row.admin == rows[i].admin
    requires row.usedAt.None? ==> rows[i].usedAt.None? && row.attempts < 5
    ensures RowsOk(rows[i := row])
  {
  }

  lemma ValidateKeeps(s: State, a: AdminId, code: string)
    requires Inv(s)
    ensures Inv(Apply(s, Validate(a, code)))
  {
    hide RowsOk, Latest;
    var i := Latest(s.rows, a);
    var t := Apply(s, Validate(a, code));
    if i.Some? && t != s {
      UpdateOk(s.rows, i.value, t.rows[i.value]);
    }
  }

  /** No admin ever has two unused codes, and an unused code has had fewer than five wrong guesses. */
  lemma StepKeeps(s: State, step: Step)
    requires Inv(s)
    ensures Inv(Apply(s, step))
  {
    match step
    case Create(a, code) =>
      var kept := DropUnused(s.rows, a);
      DropUnusedRows(s.rows, a);
      SubsetInv(s, kept);
      hide RowsOk;
      forall k | 0 <= k < |kept|
        ensures !Unused(kept[k], a)
      {
        assert kept[k] in kept;
      }
      AppendOk(kept, Code(s.nextId, a, code, s.now + s.ttl, 0, None));
    case Validate(a, code) => ValidateKeeps(s, a, code);
    case Invalidate(a) => DropUnusedRows(s.rows, a); SubsetInv(s, DropUnused(s.rows, a));
    case Cleanup => DropExpiredRows(s.rows, s.now); SubsetInv(s, DropExpired(s.rows, s.now));
    case Tick(ms) =>
  }

  lemma {:induction false} RunKeeps(s: State, steps: seq<Step>)
    requires Inv(s)
    ensures Inv(Exec(s, steps))
  {
    hide Apply, Inv;
    if steps != [] {
      RunKeeps(s, steps[..|steps| - 1]);
      StepKeeps(Exec(s, steps[..|steps| - 1]), steps[|steps| - 1]);
    }
  }

  // ------------------------------------------------------------------------------------------
  // A code's life: five guesses, one acceptance
  // ------------------------------------------------------------------------------------------

  /** The unused row with this id, if there is one. */
  function Alive(rows: seq<Code>, id: RowId): Option<Code> {
    if rows == [] then None
    else if rows[|rows| - 1].id == id && rows[|rows| - 1].usedAt.None? then Some(rows[|rows| - 1])
    else Alive(rows[..|rows| - 1], id)
  }

  lemma {:induction false} AliveRow(rows: seq<Code>, id: RowId)
    requires RowsOk(rows)
    ensures Alive(rows, id).Some?
            ==> Alive(rows, id).value in rows && Alive(rows, id).value.id == id && Alive(rows, id).value.usedAt.None?
    ensures forall k :: 0 <= k < |rows| && rows[k].id == id && rows[k].usedAt.None? ==> Alive(rows, id) == Some(rows[k])
  {
    if rows != [] {
      var n := |rows| - 1;
      AliveRow(rows[..n], id);
      assert rows == rows[..n] + [rows[n]];
      forall k | 0 <= k < n && rows[k].id == id && rows[k].usedAt.None?
        ensures Alive(rows, id) == Some(rows[k])
      {
        assert rows[..n][k] == rows[k];
      }
    }
  }

  predicate Accepts(s: State, step: Step, id: RowId) {
    step.Validate? && Judge(s, step.admin, step.code) == Accepted(id)
  }

  predicate Misses(s: State, step: Step, id: RowId) {
    step.Validate? && Judge(s, step.admin, step.code) == Wrong(id)
  }

  /** A dead code is one that was issued and is no longer an unused row. */
  predicate Dead(s: State, id: RowId) {
    id < s.nextId && Alive(s.rows, id).None?
  }

  lemma AliveAfterDrop(rows: seq<Code>, kept: seq<Code>, id: RowId)
    requires RowsOk(rows) && RowsOk(kept) && forall row :: row in kept ==> row in rows
    ensures Alive(kept, id).Some? ==> Alive(kept, id) == Alive(rows, id)
  {
    AliveRow(rows, id);
    AliveRow(kept, id);
    if Alive(kept, id).Some? {
      var k :| 0 <= k < |rows| && rows[k] == Alive(kept, id).value;
    }
  }

  lemma AliveAfterAppend(rows: seq<Code>, row: Code, id: RowId)
    ensures Alive(rows + [row], id) == if row.id == id && row.usedAt.None? then Some(row) else Alive(rows, id)
  {
    assert (rows + [row])[..|rows|] == rows;
  }

  lemma AliveAfterUpdate(rows: seq<Code>, i: nat, row: Code, id: RowId)
    requires i < |rows| && RowsOk(rows) && RowsOk(rows[i := row]) && row.id == rows[i].id
    ensures Alive(rows[i := row], id)
            == if id != rows[i].id then Alive(rows, id) else if row.usedAt.None? then Some(row) else None
  {
    AliveRow(rows, id);
    AliveRow(rows[i := row], id);
    var after := Alive(rows[i := row], id);
    if after.Some? {
      var k :| 0 <= k < |rows| && rows[i := row][k] == after.value;
    }
    if Alive(rows, id).Some? {
      var k :| 0 <= k < |rows| && rows[k] == Alive(rows, id).value;
      assert k != i ==> rows[i := row][k] == rows[k];
    }
    assert rows[i := row][i] == row;
  }

  /** What one step does to the life of one code. */
  predicate LifeStepOk(s: State, step: Step, t: State, id: RowId) {
    var before, after := Alive(s.rows, id), Alive(t.rows, id);
    && (Accepts(s, step, id) ==> before.Some? && after.None?)
    && (Misses(s, step, id) ==>
          before.Some? && (after.Some? ==> after.value.attempts == before.value.attempts + 1)
          && (after.None? <==> before.value.attempts + 1 >= 5))
    && (!Accepts(s, step, id) && !Misses(s, step, id) && after.Some? ==>
          after == before || (id == s.nextId && step.Create? && after.value.attempts == 0))
    && t.nextId >= s.nextId
    && (id == s.nextId && step.Create? ==> t.nextId == id + 1)
    && (id > s.nextId || (id == s.nextId && !step.Create?) ==> after.None?)
  }

  lemma ValidateLife(s: State, a: AdminId, code: string, id: RowId)
    requires Inv(s)
    ensures LifeStepOk(s, Validate(a, code), Apply(s, Validate(a, code)), id)
  {
    var t := Apply(s, Validate(a, code));
    var i := Latest(s.rows, a);
    StepKeeps(s, Validate(a, code));
    NoRowYet(s, id);
    hide Alive, Latest, RowsOk;
    if i.Some? && t != s {
      AliveAfterUpdate(s.rows, i.value, t.rows[i.value], id);
      AliveAt(s.rows, i.value);
    }
  }

  lemma AliveAt(rows: seq<Code>, k: nat)
    requires RowsOk(rows) && k < |rows| && rows[k].usedAt.None?
    ensures Alive(rows, rows[k].id) == Some(rows[k])
  {
    AliveRow(rows, rows[k].id);
  }

  /** Ids not issued yet have no row. */
  lemma NoRowYet(s: State, id: RowId)
    requires Inv(s)
    ensures id >= s.nextId ==> Alive(s.rows, id).None?
  {
    AliveRow(s.rows, id);
    if Alive(s.rows, id).Some? {
      var k :| 0 <= k < |s.rows| && s.rows[k] == Alive(s.rows, id).value;
    }
  }

  lemma StepLife(s: State, step: Step, id: RowId)
    requires Inv(s)
    ensures LifeStepOk(s, step, Apply(s, step), id)
  {
    hide Alive, Latest, DropUnused, DropExpired, RowsOk;
    NoRowYet(s, id);
    match step
    case Create(a, code) =>
      var kept := DropUnused(s.rows, a);
      DropUnusedRows(s.rows, a);
      AliveAfterDrop(s.rows, kept, id);
      AliveAfterAppend(kept, Code(s.nextId, a, code, s.now + s.ttl, 0, None), id);
    case Validate(a, code) => ValidateLife(s, a, code, id);
    case Invalidate(a) =>
      DropUnusedRows(s.rows, a);
      AliveAfterDrop(s.rows, DropUnused(s.rows, a), id);
    case Cleanup =>
      DropExpiredRows(s.rows, s.now);
      AliveAfterDrop(s.rows, DropExpired(s.rows, s.now), id);
    case Tick(ms) =>
  }

  function AcceptCount(s: State, steps: seq<Step>, id: RowId): nat {
    if steps == [] then 0
    else
      var n := |steps| - 1;
      AcceptCount(s, steps[..n], id) + if Accepts(Exec(s, steps[..n]), steps[n], id) then 1 else 0
  }

  function MissCount(s: State, steps: seq<Step>, id: RowId): nat {
    if steps == [] then 0
    else
      var n := |steps| - 1;
      MissCount(s, steps[..n], id) + if Misses(Exec(s, steps[..n]), steps[n], id) then 1 else 0
  }

  /** How the counters of a code relate to its row. */
  predicate LifeOk(s: State, accepted: nat, missed: nat, id: RowId) {
    if id >= s.nextId then accepted == 0 && missed == 0 && Alive(s.rows, id).None?
    else match Alive(s.rows, id)
      case Some(row) => accepted == 0 && missed == row.attempts < 5
      case None => accepted <= 1 && missed <= 5 && (accepted == 1 ==> missed < 5)
  }

  lemma LifeStep(s: State, step: Step, accepted: nat, missed: nat, id: RowId)
    requires Inv(s) && LifeOk(s, accepted, missed, id)
    ensures LifeOk(Apply(s, step), accepted + if Accepts(s, step, id) then 1 else 0,
                   missed + if Misses(s, step, id) then 1 else 0, id)
  {
    StepLife(s, step, id);
    StepKeeps(s, step);
    AliveRow(Apply(s, step).rows, id);
    NoRowYet(Apply(s, step), id);
    hide Apply, Alive, Accepts, Misses;
  }

  /**
   Over any run each code is accepted at most once and guessed wrong at most five times, and a code that
   was accepted had fewer than five wrong guesses.
   */
  lemma {:induction false} OneAcceptanceFiveMisses(now: int, ttl: int, steps: seq<Step>, id: RowId)
    ensures LifeOk(Exec(Start(now, ttl), steps), AcceptCount(Start(now, ttl), steps, id),
                   MissCount(Start(now, ttl), steps, id), id)
    ensures AcceptCount(Start(now, ttl), steps, id) <= 1
    ensures MissCount(Start(now, ttl), steps, id) + AcceptCount(Start(now, ttl), steps, id) <= 5
  {
    hide Apply, Accepts, Misses;
    if steps != [] {
      var n := |steps| - 1;
      var s := Start(now, ttl);
      OneAcceptanceFiveMisses(now, ttl, steps[..n], id);
      RunKeeps(s, steps[..n]);
      LifeStep(Exec(s, steps[..n]), steps[n], AcceptCount(s, steps[..n], id), MissCount(s, steps[..n], id), id);
    }
  }

  lemma DeadStep(s: State, step: Step, id: RowId)
    requires Inv(s) && Dead(s, id)
    ensures Dead(Apply(s, step), id) && !Accepts(s, step, id) && !Misses(s, step, id)
  {
    StepLife(s, step, id);
    hide Apply, Alive, Accepts, Misses;
  }

  /** A dead code is never accepted, nor even compared, in any continuation. */
  lemma {:induction false} DeadForever(s: State, steps: seq<Step>, id: RowId)
    requires Inv(s) && Dead(s, id)
    ensures Dead(Exec(s, steps), id)
    ensures AcceptCount(s, steps, id) == 0 && MissCount(s, steps, id) == 0
  {
    hide Apply, Accepts, Misses, Dead;
    if steps != [] {
      var n := |steps| - 1;
      DeadForever(s, steps[..n], id);
      RunKeeps(s, steps[..n]);
      DeadStep(Exec(s, steps[..n]), steps[n], id);
    }
  }

  /** What kills a code: its acceptance, its fifth wrong guess, a newer code or an invalidation of its admin. */
  lemma Deadly(s: State, step: Step, k: nat)
    requires Inv(s) && k < |s.rows|
    requires var row := s.rows[k];
             || Accepts(s, step, row.id)
             || (Misses(s, step, row.id) && row.attempts == 4)
             || ((step.Create? || step.Invalidate?) && step.admin == row.admin)
    ensures Dead(Apply(s, step), s.rows[k].id)
  {
    var id := s.rows[k].id;
    AliveRow(s.rows, id);
    if step.Create? || step.Invalidate? {
      DropUnusedRows(s.rows, step.admin);
      var kept := DropUnused(s.rows, step.admin);
      AliveRow(kept, id);
      OneRowPerId(s.rows, k);
      if step.Create? {
        AliveAfterAppend(kept, Code(s.nextId, step.admin, step.code, s.now + s.ttl, 0, None), id);
      }
    } else {
      StepLife(s, step, id);
      OneRowPerId(s.rows, k);
    }
  }

  lemma OneRowPerId(rows: seq<Code>, k: nat)
    requires RowsOk(rows) && k < |rows|
    ensures forall row :: row in rows && row.id == rows[k].id ==> row == rows[k]
  {
  }

  /** A code is never accepted after its expiry, however the run continues. */
  lemma {:induction false} ExpiredNeverAccepted(s: State, steps: seq<Step>, id: RowId, expiry: int)
    requires Inv(s) && id < s.nextId && expiry < s.now
    requires forall k :: 0 <= k < |s.rows| && s.rows[k].id == id ==> s.rows[k].expiresAt == expiry
    ensures AcceptCount(s, steps, id) == 0
    ensures var t := Exec(s, steps);
            Inv(t) && id < t.nextId && expiry < t.now
            && forall k :: 0 <= k < |t.rows| && t.rows[k].id == id ==> t.rows[k].expiresAt == expiry
  {
    hide Apply, Inv;
    if steps != [] {
      var n := |steps| - 1;
      ExpiredNeverAccepted(s, steps[..n], id, expiry);
      StepKeeps(Exec(s, steps[..n]), steps[n]);
      ExpiryStep(Exec(s, steps[..n]), steps[n], id, expiry);
    }
  }

  lemma ExpiryStep(s: State, step: Step, id: RowId, expiry: int)
    requires Inv(s) && id < s.nextId && expiry < s.now
    requires forall k :: 0 <= k < |s.rows| && s.rows[k].id == id ==> s.rows[k].expiresAt == expiry
    ensures !Accepts(s, step, id)
    ensures var t := Apply(s, step);
            id < t.nextId && expiry < t.now
            && forall k :: 0 <= k < |t.rows| && t.rows[k].id == id ==> t.rows[k].expiresAt == expiry
  {
    var t := Apply(s, step);
    match step
    case Create(a, code) =>
      DropUnusedRows(s.rows, a);
      var kept := DropUnused(s.rows, a);
      forall k | 0 <= k < |t.rows| && t.rows[k].id == id
        ensures t.rows[k].expiresAt == expiry
      {
        if k < |kept| {
          assert kept[k] in kept;
        }
      }
    case Invalidate(a) =>
      DropUnusedRows(s.rows, a);
      forall k | 0 <= k < |t.rows| && t.rows[k].id == id
        ensures t.rows[k].expiresAt == expiry
      {
        assert t.rows[k] in t.rows;
      }
    case Cleanup =>
      DropExpiredRows(s.rows, s.now);
      forall k | 0 <= k < |t.rows| && t.rows[k].id == id
        ensures t.rows[k].expiresAt == expiry
      {
        assert t.rows[k] in t.rows;
      }
    case _ =>
  }

  // ------------------------------------------------------------------------------------------
  // Acceptance in terms of rows
  // ------------------------------------------------------------------------------------------

  lemma {:induction false} InDropUnused(rows: seq<Code>, a: AdminId, row: Code)
    ensures row in DropUnused(rows, a) <==> row in rows && !Unused(row, a)
  {
    if rows != [] {
      var n := |rows| - 1;
      InDropUnused(rows[..n], a, row);
      assert rows == rows[..n] + [rows[n]];
    }
  }

  lemma {:induction false} DropExpiredShrinks(rows: seq<Code>, now: int)
    ensures |DropExpired(rows, now)| <= |rows|
  {
    if rows != [] {
      DropExpiredShrinks(rows[..|rows| - 1], now);
    }
  }

  /** A guess is accepted if and only if the admin has an unused, unexpired row with that code. */
  lemma AcceptedExactly(s: State, a: AdminId, code: string)
    requires Inv(s)
    ensures Judge(s, a, code).Accepted?
            <==> exists row :: row in s.rows && row.admin == a && row.usedAt.None? && row.expiresAt >= s.now
                               && row.code == code
  {
    hide Latest;
    var i := Latest(s.rows, a);
    if Judge(s, a, code).Accepted? {
      assert s.rows[i.value] in s.rows;
    }
    if row :| row in s.rows && Unused(row, a) && row.expiresAt >= s.now && row.code == code {
      var k :| 0 <= k < |s.rows| && s.rows[k] == row;
      assert i.Some? && i.value == k;
    }
  }

  /**
   What a guess of the admin makes of row k. Only the admin's newest unused row can change, and only before its
   expiry: the right code uses it up now; a wrong one counts, and the fifth wrong one uses it up as well.
   */
  predicate Guess(rows: seq<Code>, k: nat, a: AdminId, code: string, now: int, after: Code)
    requires k < |rows|
  {
    var row := rows[k];
    var newest := row.admin == a && row.usedAt.None?
                  && forall j :: k < j < |rows| ==> !(rows[j].admin == a && rows[j].usedAt.None?);
    after == if !newest || row.expiresAt < now then row
             else if row.code == code then row.(usedAt := Some(now))
             else row.(attempts := row.attempts + 1, usedAt := if row.attempts >= 4 then Some(now) else None)
  }

  /** The cleanup never changes which guesses are accepted. */
  lemma CleanupAcceptsSame(s: State, a: AdminId, code: string)
    requires Inv(s)
    ensures Judge(Apply(s, Cleanup), a, code).Accepted? <==> Judge(s, a, code).Accepted?
  {
    hide Judge, DropExpired;
    StepKeeps(s, Cleanup);
    DropExpiredRows(s.rows, s.now);
    AcceptedExactly(s, a, code);
    AcceptedExactly(Apply(s, Cleanup), a, code);
  }

  // ------------------------------------------------------------------------------------------
  // The service
  // ------------------------------------------------------------------------------------------

  class TwoFactorService {
    var rows: seq<Code>
    var now: int
    const ttl: int
    var nextId: RowId

    ghost function Snapshot(): State
      reads this
    {
      State(rows, now, ttl, nextId)
    }

    constructor (now: int, ttl: int)
      ensures Snapshot() == Start(now, ttl)
    {
      this.now, this.ttl, rows, nextId := now, ttl, [], 0;
    }

    /** Deletes the admin's unused rows and no others; after it no guess of the admin can match. */
    method InvalidatePreviousCodes(a: AdminId)
      modifies `rows
      ensures Snapshot() == Apply(old(Snapshot()), Invalidate(a))
      ensures forall row :: row in rows <==> row in old(rows) && !(row.admin == a && row.usedAt.None?)
      ensures forall code :: Judge(Snapshot(), a, code) == NoCode
    {
      hide DropUnused;
      forall row { InDropUnused(rows, a, row); }
      rows := DropUnused(rows, a);
      assert forall k :: 0 <= k < |rows| ==> rows[k] in rows;
    }

    /** Drops the admin's unused rows and appends a fresh one: no attempts yet, unused, expiring after the lifetime. */
    method CreateCode(a: AdminId, code: string) returns (expiresAt: int)
      modifies `rows, `nextId
      ensures Snapshot() == Apply(old(Snapshot()), Create(a, code))
      ensures expiresAt == now + ttl
      ensures rows != [] && rows[|rows| - 1] == Code(old(nextId), a, code, now + ttl, 0, None)
      ensures forall row :: row in rows[..|rows| - 1] <==> row in old(rows) && !(row.admin == a && row.usedAt.None?)
    {
      InvalidatePreviousCodes(a);
      expiresAt := now + ttl;
      rows := rows + [Code(nextId, a, code, expiresAt, 0, None)];
      nextId := nextId + 1;
    }

    method ValidateCode(a: AdminId, code: string) returns (valid: bool)
      modifies `rows
      ensures Snapshot() == Apply(old(Snapshot()), Validate(a, code))
      ensures valid <==> Judge(old(Snapshot()), a, code).Accepted?
      ensures Inv(old(Snapshot()))
              ==> (valid <==> exists row :: row in old(rows) && row.admin == a && row.usedAt.None?
                                            && row.expiresAt >= now && row.code == code)
      ensures |rows| == |old(rows)|
      ensures forall k :: 0 <= k < |rows| ==> Guess(old(rows), k, a, code, now, rows[k])
    {
      if Inv(Snapshot()) { AcceptedExactly(Snapshot(), a, code); }
      var found := Latest(rows, a);
      if found.None? {
        return false;
      }
      var twoFactorCode := rows[found.value];
      if twoFactorCode.expiresAt < now {
        return false;
      }
      if code != twoFactorCode.code {
        twoFactorCode := twoFactorCode.(attempts := twoFactorCode.attempts + 1);
        if twoFactorCode.attempts >= MAX_2FA_ATTEMPTS {
          twoFactorCode := twoFactorCode.(usedAt := Some(now));
        }
        rows := rows[found.value := twoFactorCode];
        return false;
      }
      twoFactorCode := twoFactorCode.(usedAt := Some(now));
      rows := rows[found.value := twoFactorCode];
      valid := true;
    }

    /** Deletes the unused rows past their expiry, reports how many, and changes no verdict of acceptance. */
    method CleanupExpiredCodes() returns (affected: nat)
      requires Inv(Snapshot())
      modifies `rows
      ensures Snapshot() == Apply(old(Snapshot()), Cleanup)
      ensures affected == |old(rows)| - |rows|
      ensures forall row :: row in rows <==> row in old(rows) && (row.expiresAt >= now || row.usedAt.Some?)
      ensures forall a, code :: Judge(Snapshot(), a, code).Accepted? <==> Judge(old(Snapshot()), a, code).Accepted?
    {
      hide DropExpired, Judge;
      DropExpiredRows(rows, now);
      DropExpiredShrinks(rows, now);
      forall a, code { CleanupAcceptsSame(Snapshot(), a, code); }
      affected := |rows| - |DropExpired(rows, now)|;
      rows := DropExpired(rows, now);
    }
  }
}

/** The write-retry loop of `control-server/src/contention.rs`. */
module Contention {

  datatype DbError = Sqlite(code: nat) | Postgres(state: string) | OtherError

  /** How one call of the write ends. `applied`: the database took the commit although the call
      reported an error. */
  datatype Attempt = Committed | Db(error: DbError, applied: bool) | Refused

  predicate TookEffect(a: Attempt) {
    a.Committed? || (a.Db? && a.applied)
  }

  /** Extended SQLite codes keep the primary code in the low byte. */
  predicate SqliteBusy(e: DbError) {
    e.Sqlite? && (e.code % 256 == 5 || e.code % 256 == 6)
  }

  /** The codes of `integrity::retryable`, as SQLite numbers and PostgreSQL states. */
  predicate Retryable(e: DbError) {
    || (e.Sqlite? && e.code in {5, 6, 261, 262, 517})
    || (e.Postgres? && (e.state == "40001" || e.state == "40P01"))
  }

  /** Is this outcome of call number `attempt` followed by another call? */
  predicate Retried(a: Attempt, attempt: nat, legacyPg: bool) {
    && a.Db?
    && if SqliteBusy(a.error) then attempt < 2 else legacyPg && Retryable(a.error) && attempt < 7
  }

  /** Run the write until an outcome is final. Call number i of `write` ends as `outcomes(i)`. */
  method Retry(legacyPg: bool, outcomes: nat -> Attempt) returns (result: Attempt, calls: nat)
    ensures 1 <= calls <= 8 && result == outcomes(calls - 1)
    ensures forall i | 0 <= i < calls - 1 :: Retried(outcomes(i), i, legacyPg)
    ensures !Retried(result, calls - 1, legacyPg)
    ensures (forall i: nat | i < calls :: outcomes(i).Db? && SqliteBusy(outcomes(i).error)) ==> calls <= 3
    ensures !legacyPg ==> calls <= 3
  {
    var attempt := 0;
    while true
      invariant 0 <= attempt <= 7
      invariant forall i | 0 <= i < attempt :: Retried(outcomes(i), i, legacyPg)
      decreases 7 - attempt
    {
      var outcome := outcomes(attempt);
      if outcome.Db? && SqliteBusy(outcome.error) {
        if attempt >= 2 {
          assert attempt > 2 ==> Retried(outcomes(2), 2, legacyPg);
          return outcome, attempt + 1;
        }
        attempt := attempt + 1;
      } else if outcome.Db? && legacyPg && Retryable(outcome.error) && attempt < 7 {
        attempt := attempt + 1;
      } else {
        assert attempt > 2 ==> Retried(outcomes(2), 2, legacyPg);
        return outcome, attempt + 1;
      }
    }
  }

  /** The database after n calls. */
  function AfterCalls<S>(s: S, commit: S -> S, outcomes: nat -> Attempt, n: nat): S {
    if n == 0 then s
    else
      var before := AfterCalls(s, commit, outcomes, n - 1);
      if TookEffect(outcomes(n - 1)) then commit(before) else before
  }

  function Times<S>(commit: S -> S, k: nat, s: S): S {
    if k == 0 then s else commit(Times(commit, k - 1, s))
  }

  /** How many of the first n calls took effect. */
  function Effects(outcomes: nat -> Attempt, n: nat): nat {
    if n == 0 then 0 else Effects(outcomes, n - 1) + (if TookEffect(outcomes(n - 1)) then 1 else 0)
  }

  lemma {:induction false} CallsApplyEffects<S>(s: S, commit: S -> S, outcomes: nat -> Attempt, n: nat)
    ensures AfterCalls(s, commit, outcomes, n) == Times(commit, Effects(outcomes, n), s)
  {
    if n > 0 { CallsApplyEffects(s, commit, outcomes, n - 1); }
  }

  lemma {:induction false} NoEffects(outcomes: nat -> Attempt, n: nat)
    ensures Effects(outcomes, n) == 0 <==> forall i: nat | i < n :: !TookEffect(outcomes(i))
  {
    if n > 0 { NoEffects(outcomes, n - 1); }
  }

  /** Call number i of the loop was retried for every i but the last, which was final. */
  ghost predicate Ended(outcomes: nat -> Attempt, calls: nat, legacyPg: bool) {
    && calls >= 1 && !Retried(outcomes(calls - 1), calls - 1, legacyPg)
    && forall i: nat | i < calls - 1 :: Retried(outcomes(i), i, legacyPg)
  }

  /** `late`: the errors this database may report although the commit took effect. */
  ghost predicate Possible(outcomes: nat -> Attempt, late: iset<DbError>) {
    forall i: nat | outcomes(i).Db? && outcomes(i).applied :: outcomes(i).error in late
  }

  /** The errors the loop takes for a rolled-back transaction. */
  predicate TakenForRollback(e: DbError, legacyPg: bool) {
    SqliteBusy(e) || (legacyPg && Retryable(e))
  }

  lemma EndedAppliesOnce(outcomes: nat -> Attempt, calls: nat, legacyPg: bool, late: iset<DbError>)
    requires Ended(outcomes, calls, legacyPg) && Possible(outcomes, late)
    requires forall e | e in late :: !TakenForRollback(e, legacyPg)
    ensures Effects(outcomes, calls) == if TookEffect(outcomes(calls - 1)) then 1 else 0
  {
    forall i: nat | i < calls - 1
      ensures !TookEffect(outcomes(i))
    {
      assert Retried(outcomes(i), i, legacyPg);
    }
    NoEffects(outcomes, calls - 1);
  }

  /** An error reported after the commit took effect and taken for a rollback: the second call commits again. */
  function Twice(e: DbError): nat -> Attempt {
    (i: nat) => if i == 0 then Db(e, true) else Committed
  }

  lemma LateErrorAppliesTwice(e: DbError, legacyPg: bool)
    requires TakenForRollback(e, legacyPg)
    ensures Ended(Twice(e), 2, legacyPg) && Possible(Twice(e), iset{e}) && Effects(Twice(e), 2) == 2
  {
    assert Effects(Twice(e), 1) == 1 by { assert TookEffect(Twice(e)(0)) && Effects(Twice(e), 0) == 0; }
    assert TookEffect(Twice(e)(1));
  }

  /** Every retry loop against a database applies its transaction at most once, if and only if that database
      never reports an error the loop takes for a rollback after the commit took effect. */
  lemma RetryAppliesOnceIff(late: iset<DbError>, legacyPg: bool)
    ensures (forall outcomes: nat -> Attempt, calls: nat | Ended(outcomes, calls, legacyPg) && Possible(outcomes, late) :: Effects(outcomes, calls) <= 1)
            <==> forall e | e in late :: !TakenForRollback(e, legacyPg)
  {
    if e :| e in late && TakenForRollback(e, legacyPg) {
      LateErrorAppliesTwice(e, legacyPg);
      assert Ended(Twice(e), 2, legacyPg) && Possible(Twice(e), late) && Effects(Twice(e), 2) == 2;
    } else {
      forall outcomes: nat -> Attempt, calls: nat | Ended(outcomes, calls, legacyPg) && Possible(outcomes, late)
        ensures Effects(outcomes, calls) <= 1
      {
        EndedAppliesOnce(outcomes, calls, legacyPg, late);
      }
    }
  }

  /** A busy or serialisation error means the transaction was rolled back. Then success applies the
      transaction once, and an error that is not of that kind at most once. */
  lemma RetryAppliesOnce<S>(s: S, commit: S -> S, outcomes: nat -> Attempt, legacyPg: bool, calls: nat)
    requires calls >= 1 && forall i | 0 <= i < calls - 1 :: Retried(outcomes(i), i, legacyPg)
    requires forall i: nat | i < calls && outcomes(i).Db? && (SqliteBusy(outcomes(i).error) || Retryable(outcomes(i).error)) :: !outcomes(i).applied
    ensures AfterCalls(s, commit, outcomes, calls) == if TookEffect(outcomes(calls - 1)) then commit(s) else s
  {
    CallsApplyEffects(s, commit, outcomes, calls);
    forall i | 0 <= i < calls - 1
      ensures !TookEffect(outcomes(i))
    {
      assert Retried(outcomes(i), i, legacyPg);
    }
    NoEffects(outcomes, calls - 1);
    assert Times(commit, 0, s) == s && Times(commit, 1, s) == commit(s);
  }
}

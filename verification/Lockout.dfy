/** Account lockout: failed logins are recorded, and from the MAX-th on they lock the account. */
module Lockout {
  import opened Prelude

  /** A row of login_attempts. */
  datatype Attempt = Attempt(email: string, tenant: int, at: int, lockedUntil: Option<int>)

  /** ACCOUNT_LOCKOUT_MAX_ATTEMPTS, _WINDOW and _DURATION, in the unit of the clock. */
  datatype Settings = Settings(maxAttempts: int, window: int, duration: int)

  // ----- the queries of the repository -----

  /** The rows a repository for this tenant sees; tenant 0 stands for no tenant. */
  predicate Sees(tenant: int, email: string, a: Attempt) {
    a.email == email && (tenant != 0 ==> a.tenant == tenant)
  }

  function SeenBy(tenant: int, email: string): Attempt -> bool {
    (a: Attempt) => Sees(tenant, email, a)
  }

  function Since(tenant: int, email: string, since: int): Attempt -> bool {
    (a: Attempt) => Sees(tenant, email, a) && a.at >= since
  }

  function CountFailuresSince(rows: seq<Attempt>, tenant: int, email: string, since: int): nat {
    |Filter(rows, Since(tenant, email, since))|
  }

  function Latest(a: Option<int>, b: Option<int>): Option<int> {
    if a.None? then b else if b.None? || a.value >= b.value then a else b
  }

  /** ORDER BY locked_until DESC LIMIT 1. */
  function LockedUntil(rows: seq<Attempt>, tenant: int, email: string): Option<int> {
    if rows == [] then None
    else
      var rest := LockedUntil(rows[..|rows| - 1], tenant, email);
      if Sees(tenant, email, rows[|rows| - 1]) then Latest(rows[|rows| - 1].lockedUntil, rest) else rest
  }

  /** A login is refused exactly while some recorded lock has not run out. */
  predicate Locked(rows: seq<Attempt>, tenant: int, email: string, now: int) {
    var until := LockedUntil(rows, tenant, email);
    until.Some? && until.value > now
  }

  lemma {:induction false} LockedIff(rows: seq<Attempt>, tenant: int, email: string, now: int)
    ensures Locked(rows, tenant, email, now) <==>
              exists i :: 0 <= i < |rows| && Sees(tenant, email, rows[i]) && rows[i].lockedUntil.Some? && rows[i].lockedUntil.value > now
  {
    if rows != [] {
      var n := |rows| - 1;
      LockedIff(rows[..n], tenant, email, now);
      assert forall i :: 0 <= i < n ==> rows[..n][i] == rows[i];
    }
  }

  // ----- one login -----

  datatype Answer = Refused | Rejected | Accepted | Failed(error: Error)

  datatype Outcome = Outcome(rows: seq<Attempt>, answer: Answer)

  /** A login: the lock is checked at gateAt, the outcome recorded at recordAt. */
  datatype Login = Login(tenant: int, email: string, correct: bool, gateAt: int, recordAt: int)

  function NewAttempt(settings: Settings, rows: seq<Attempt>, tenant: int, email: string, now: int): Attempt {
    var recent := CountFailuresSince(rows, tenant, email, now - settings.window);
    Attempt(email, tenant, now, if recent + 1 >= settings.maxAttempts then Some(now + settings.duration) else None)
  }

  function Cleared(rows: seq<Attempt>, tenant: int, email: string): seq<Attempt> {
    Filter(rows, (a: Attempt) => !Sees(tenant, email, a))
  }

  function Apply(settings: Settings, rows: seq<Attempt>, login: Login): Outcome {
    if Locked(rows, login.tenant, login.email, login.gateAt) then Outcome(rows, Refused)
    else if login.correct then Outcome(Cleared(rows, login.tenant, login.email), Accepted)
    else if login.tenant == 0 then Outcome(rows, Failed(IntegrityError))
    else Outcome(rows + [NewAttempt(settings, rows, login.tenant, login.email, login.recordAt)], Rejected)
  }

  function Run(settings: Settings, logins: seq<Login>): seq<Attempt> {
    if logins == [] then [] else Apply(settings, Run(settings, logins[..|logins| - 1]), logins[|logins| - 1]).rows
  }

  /** The clock does not go back. */
  ghost predicate Timely(logins: seq<Login>) {
    && (forall i :: 0 <= i < |logins| ==> logins[i].gateAt <= logins[i].recordAt)
    && (forall i, j :: 0 <= i < j < |logins| ==> logins[i].recordAt <= logins[j].gateAt)
  }

  // ----- what every reachable table satisfies -----

  predicate SameAccount(a: Attempt, b: Attempt) {
    a.email == b.email && a.tenant == b.tenant
  }

  /** A row fits after the rows before it: none of their locks reaches over it, and it locks exactly
      if enough of them lie in the window that ends with it. */
  ghost predicate FitsAfter(settings: Settings, rows: seq<Attempt>, a: Attempt) {
    && a.tenant != 0
    && (forall b :: b in rows && SameAccount(a, b) ==> b.at <= a.at && (b.lockedUntil.Some? ==> b.lockedUntil.value <= a.at))
    && a == NewAttempt(settings, rows, a.tenant, a.email, a.at)
  }

  ghost predicate Lawful(settings: Settings, rows: seq<Attempt>) {
    rows == [] || (Lawful(settings, rows[..|rows| - 1]) && FitsAfter(settings, rows[..|rows| - 1], rows[|rows| - 1]))
  }

  ghost predicate NotAfter(rows: seq<Attempt>, now: int) {
    forall a :: a in rows ==> a.at <= now
  }

  lemma {:induction false} FilterSnoc(rows: seq<Attempt>, keep: Attempt -> bool)
    requires rows != []
    ensures
      var n := |rows| - 1;
      Filter(rows, keep) == Filter(rows[..n], keep) + if keep(rows[n]) then [rows[n]] else []
  {
    var n := |rows| - 1;
    assert rows == rows[..n] + [rows[n]];
    FilterConcat(rows[..n], [rows[n]], keep);
    assert [rows[n]][1..] == [];
  }

  /** Dropping every row of some accounts leaves the other accounts' history as it was. */
  lemma {:induction false} FilterKeepsLawful(settings: Settings, rows: seq<Attempt>, keep: Attempt -> bool)
    requires Lawful(settings, rows) && forall a, b :: SameAccount(a, b) ==> keep(a) == keep(b)
    ensures Lawful(settings, Filter(rows, keep))
  {
    if rows != [] {
      var n := |rows| - 1;
      var before, a := rows[..n], rows[n];
      assert Lawful(settings, before) && FitsAfter(settings, before, a);
      hide Lawful, FitsAfter;
      FilterKeepsLawful(settings, before, keep);
      FilterSnoc(rows, keep);
      if keep(a) {
        StillFits(settings, before, a, keep);
        LawfulSnoc(settings, Filter(before, keep), a);
      } else {
        assert Filter(rows, keep) == Filter(before, keep);
      }
    } else {
      assert Filter(rows, keep) == [];
    }
  }

  lemma LawfulSnoc(settings: Settings, rows: seq<Attempt>, a: Attempt)
    requires Lawful(settings, rows) && FitsAfter(settings, rows, a)
    ensures Lawful(settings, rows + [a])
  {
    hide FitsAfter;
    assert (rows + [a])[..|rows|] == rows;
  }

  /** The window of an account holds the same rows when other accounts are dropped. */
  lemma StillFits(settings: Settings, before: seq<Attempt>, a: Attempt, keep: Attempt -> bool)
    requires FitsAfter(settings, before, a) && keep(a) && forall x, y :: SameAccount(x, y) ==> keep(x) == keep(y)
    ensures FitsAfter(settings, Filter(before, keep), a)
  {
    var since := Since(a.tenant, a.email, a.at - settings.window);
    forall x | x in before && since(x) ensures keep(x) {
      assert SameAccount(a, x);
    }
    FilterFilter(before, keep, since);
    forall b | b in Filter(before, keep) ensures b in before {
      FilterMember(before, keep, b);
    }
    hide Filter;
  }

  lemma {:induction false} FilterKeepsNotAfter(rows: seq<Attempt>, keep: Attempt -> bool, now: int)
    requires NotAfter(rows, now)
    ensures NotAfter(Filter(rows, keep), now)
  {
    forall a | a in Filter(rows, keep) ensures a.at <= now {
      FilterMember(rows, keep, a);
    }
  }

  lemma ApplyKeepsLawful(settings: Settings, rows: seq<Attempt>, login: Login)
    requires Lawful(settings, rows) && NotAfter(rows, login.gateAt) && login.gateAt <= login.recordAt
    ensures Lawful(settings, Apply(settings, rows, login).rows) && NotAfter(Apply(settings, rows, login).rows, login.recordAt)
  {
    LockedIff(rows, login.tenant, login.email, login.gateAt);
    if !Locked(rows, login.tenant, login.email, login.gateAt) {
      if login.correct {
        var keep := (a: Attempt) => !Sees(login.tenant, login.email, a);
        FilterKeepsLawful(settings, rows, keep);
        FilterKeepsNotAfter(rows, keep, login.gateAt);
      } else if login.tenant != 0 {
        var a := NewAttempt(settings, rows, login.tenant, login.email, login.recordAt);
        assert (rows + [a])[..|rows|] == rows;
      }
    }
  }

  lemma {:induction false} RunIsLawful(settings: Settings, logins: seq<Login>)
    requires Timely(logins)
    ensures Lawful(settings, Run(settings, logins))
    ensures forall now :: (forall i :: 0 <= i < |logins| ==> logins[i].recordAt <= now) ==> NotAfter(Run(settings, logins), now)
  {
    if logins != [] {
      var n := |logins| - 1;
      RunIsLawful(settings, logins[..n]);
      assert NotAfter(Run(settings, logins[..n]), logins[n].gateAt);
      ApplyKeepsLawful(settings, Run(settings, logins[..n]), logins[n]);
    }
  }

  // ----- the rate bound -----

  function Between(tenant: int, email: string, from: int, to: int): Attempt -> bool {
    (a: Attempt) => a.email == email && a.tenant == tenant && from <= a.at <= to
  }

  /** In order of time, and from the MAX-th row on at least a lock apart. */
  ghost predicate Spaced(settings: Settings, rows: seq<Attempt>) {
    && (forall i, j :: 0 <= i < j < |rows| ==> rows[i].at <= rows[j].at)
    && (forall i, j :: 0 <= i < j < |rows| && i + 1 >= settings.maxAttempts ==> rows[i].at + settings.duration <= rows[j].at)
  }

  ghost predicate LocksFrom(settings: Settings, rows: seq<Attempt>) {
    forall i :: 0 <= i < |rows| && i + 1 >= settings.maxAttempts ==> rows[i].lockedUntil == Some(rows[i].at + settings.duration)
  }

  lemma {:induction false} FilterShrinks(rows: seq<Attempt>, narrow: Attempt -> bool, wide: Attempt -> bool)
    requires forall a :: narrow(a) ==> wide(a)
    ensures |Filter(rows, narrow)| <= |Filter(rows, wide)|
  {
    if rows != [] {
      FilterShrinks(rows[1..], narrow, wide);
    }
  }

  /** A row in the window comes after the rows of the window before it, and locks if they are many. */
  lemma LastInWindow(settings: Settings, before: seq<Attempt>, a: Attempt, from: int)
    requires FitsAfter(settings, before, a) && from <= a.at <= from + settings.window
    ensures
      var found := Filter(before, Between(a.tenant, a.email, from, from + settings.window));
      && (forall b :: b in found ==> b.at <= a.at && (b.lockedUntil.Some? ==> b.lockedUntil.value <= a.at))
      && (|found| + 1 >= settings.maxAttempts ==> a.lockedUntil == Some(a.at + settings.duration))
  {
    var between := Between(a.tenant, a.email, from, from + settings.window);
    FilterShrinks(before, between, Since(a.tenant, a.email, a.at - settings.window));
    forall b | b in Filter(before, between)
      ensures b.at <= a.at && (b.lockedUntil.Some? ==> b.lockedUntil.value <= a.at)
    {
      FilterMember(before, between, b);
    }
  }

  lemma {:induction false} WindowIsSpaced(settings: Settings, rows: seq<Attempt>, tenant: int, email: string, from: int)
    requires Lawful(settings, rows) && tenant != 0
    ensures
      var found := Filter(rows, Between(tenant, email, from, from + settings.window));
      Spaced(settings, found) && LocksFrom(settings, found)
  {
    if rows == [] {
      assert Filter(rows, Between(tenant, email, from, from + settings.window)) == [];
    } else {
      var n := |rows| - 1;
      var before, a := rows[..n], rows[n];
      assert Lawful(settings, before) && FitsAfter(settings, before, a);
      var between := Between(tenant, email, from, from + settings.window);
      hide Lawful, FitsAfter, Filter, Spaced, LocksFrom;
      WindowIsSpaced(settings, before, tenant, email, from);
      FilterSnoc(rows, between);
      if between(a) {
        LastInWindow(settings, before, a, from);
        SpacedOneMore(settings, Filter(before, between), a);
      } else {
        assert Filter(before, between) + [] == Filter(before, between);
      }
    }
  }

  lemma SpacedOneMore(settings: Settings, rows: seq<Attempt>, a: Attempt)
    requires Spaced(settings, rows) && LocksFrom(settings, rows)
    requires forall b :: b in rows ==> b.at <= a.at && (b.lockedUntil.Some? ==> b.lockedUntil.value <= a.at)
    requires |rows| + 1 >= settings.maxAttempts ==> a.lockedUntil == Some(a.at + settings.duration)
    ensures Spaced(settings, rows + [a]) && LocksFrom(settings, rows + [a])
  {
    forall i | 0 <= i < |rows|
      ensures rows[i].at <= a.at && (i + 1 >= settings.maxAttempts ==> rows[i].at + settings.duration <= a.at)
    {
      assert rows[i] in rows;
    }
  }

  lemma {:induction false} SpacedAdvance(settings: Settings, rows: seq<Attempt>, k: nat)
    requires Spaced(settings, rows) && settings.maxAttempts >= 1 && settings.maxAttempts - 1 + k < |rows|
    ensures rows[settings.maxAttempts - 1].at + k * settings.duration <= rows[settings.maxAttempts - 1 + k].at
  {
    if k > 0 {
      SpacedAdvance(settings, rows, k - 1);
    }
  }

  /** In every reachable table, any closed interval as long as the window holds at most
      MAX + window / duration failures of an account. */
  lemma FailureRateIsBounded(settings: Settings, logins: seq<Login>, tenant: int, email: string, from: int)
    requires Timely(logins) && tenant != 0
    requires settings.maxAttempts >= 1 && settings.window >= 0 && settings.duration >= 1
    ensures |Filter(Run(settings, logins), Between(tenant, email, from, from + settings.window))|
         <= settings.maxAttempts + settings.window / settings.duration
  {
    var between := Between(tenant, email, from, from + settings.window);
    var rows := Run(settings, logins);
    var found := Filter(rows, between);
    RunIsLawful(settings, logins);
    WindowIsSpaced(settings, rows, tenant, email, from);
    forall a | a in found ensures from <= a.at <= from + settings.window {
      FilterMember(rows, between, a);
    }
    hide Lawful, Spaced, LocksFrom, Filter, Run;
    SpacedIsShort(settings, found, from);
  }

  /** Rows that are spaced out and lie in one window are few. */
  lemma SpacedIsShort(settings: Settings, rows: seq<Attempt>, from: int)
    requires Spaced(settings, rows) && forall a :: a in rows ==> from <= a.at <= from + settings.window
    requires settings.maxAttempts >= 1 && settings.window >= 0 && settings.duration >= 1
    ensures |rows| <= settings.maxAttempts + settings.window / settings.duration
  {
    var k := if |rows| > settings.maxAttempts then |rows| - settings.maxAttempts else 0;
    if k > 0 {
      SpacedAdvance(settings, rows, k);
      assert rows[settings.maxAttempts - 1] in rows && rows[|rows| - 1] in rows;
    }
    QuotientBound(k, settings.duration, settings.window);
  }

  lemma QuotientBound(k: nat, d: int, w: int)
    requires d >= 1 && k * d <= w
    ensures k <= w / d
  {
    var q := w / d;
    if q < k {
      ProductGap(k - q, d);
      ProductSum(q, k - q, d);
    }
  }

  lemma ProductGap(m: int, d: int)
    requires m >= 1 && d >= 1
    ensures m * d >= d
  {
  }

  lemma ProductSum(q: int, m: int, d: int)
    ensures (q + m) * d == q * d + m * d
  {
  }

  // ----- what one login does to other accounts, and what a success does -----

  lemma OtherAccountsKept(settings: Settings, rows: seq<Attempt>, login: Login, tenant: int, email: string)
    requires login.tenant != 0 && tenant != 0 && (tenant != login.tenant || email != login.email)
    ensures Filter(Apply(settings, rows, login).rows, SeenBy(tenant, email)) == Filter(rows, SeenBy(tenant, email))
  {
    if !Locked(rows, login.tenant, login.email, login.gateAt) {
      if login.correct {
        FilterFilter(rows, (a: Attempt) => !Sees(login.tenant, login.email, a), SeenBy(tenant, email));
      } else {
        var a := NewAttempt(settings, rows, login.tenant, login.email, login.recordAt);
        FilterSnoc(rows + [a], SeenBy(tenant, email));
        assert (rows + [a])[..|rows|] == rows;
      }
    }
  }

  /** While an account is locked nothing is recorded, and an accepted login leaves it no failures,
      so the next login is not refused. */
  lemma AcceptedLoginUnlocks(settings: Settings, rows: seq<Attempt>, login: Login, now: int)
    requires Apply(settings, rows, login).answer.Accepted?
    ensures !Locked(Apply(settings, rows, login).rows, login.tenant, login.email, now)
    ensures CountFailuresSince(Apply(settings, rows, login).rows, login.tenant, login.email, now) == 0
  {
    var rest := Apply(settings, rows, login).rows;
    var keep := (a: Attempt) => !Sees(login.tenant, login.email, a);
    assert rest == Cleared(rows, login.tenant, login.email);
    forall a | a in rest ensures !Sees(login.tenant, login.email, a) {
      ClearedMember(rows, login.tenant, login.email, a);
    }
    LockedIff(rest, login.tenant, login.email, now);
    var since := Since(login.tenant, login.email, now);
    if Filter(rest, since) != [] {
      FilterMember(rest, since, Filter(rest, since)[0]);
    }
  }

  lemma ClearedMember(rows: seq<Attempt>, tenant: int, email: string, a: Attempt)
    ensures a in Cleared(rows, tenant, email) <==> a in rows && !Sees(tenant, email, a)
  {
    FilterMember(rows, (x: Attempt) => !Sees(tenant, email, x), a);
  }

  // ----- the answers -----

  /** Some failure of the account that this repository sees has locked it beyond `now`. */
  ghost predicate LockRuns(rows: seq<Attempt>, tenant: int, email: string, now: int) {
    exists i :: 0 <= i < |rows| && rows[i].email == email && (tenant != 0 ==> rows[i].tenant == tenant)
                && rows[i].lockedUntil.Some? && rows[i].lockedUntil.value > now
  }

  /** The lock comes first: a login is refused exactly while one runs, whatever the password, and leaves
      every row as it was; it is accepted exactly if none runs and the password is right. */
  lemma AnswerIff(settings: Settings, rows: seq<Attempt>, login: Login)
    ensures
      var outcome, locked := Apply(settings, rows, login), LockRuns(rows, login.tenant, login.email, login.gateAt);
      && (outcome.answer == Refused <==> locked)
      && (outcome.answer == Accepted <==> !locked && login.correct)
      && (outcome.answer == Rejected <==> !locked && !login.correct && login.tenant != 0)
      && (outcome.answer == Failed(IntegrityError) <==> !locked && !login.correct && login.tenant == 0)
      && (outcome.answer == Refused || outcome.answer.Failed? ==> outcome.rows == rows)
      && (outcome.answer == Rejected ==>
            |outcome.rows| == |rows| + 1 && outcome.rows[..|rows|] == rows
            && outcome.rows[|rows|].email == login.email && outcome.rows[|rows|].tenant == login.tenant
            && outcome.rows[|rows|].at == login.recordAt)
      && (outcome.answer == Accepted ==>
            forall a :: a in outcome.rows <==>
              a in rows && !(a.email == login.email && (login.tenant != 0 ==> a.tenant == login.tenant)))
  {
    LockedIff(rows, login.tenant, login.email, login.gateAt);
    if Apply(settings, rows, login).answer == Accepted {
      forall a ensures a in Cleared(rows, login.tenant, login.email) <==> a in rows && !Sees(login.tenant, login.email, a) {
        ClearedMember(rows, login.tenant, login.email, a);
      }
    }
  }

  lemma {:induction false} FilterSame(rows: seq<Attempt>, first: Attempt -> bool, second: Attempt -> bool)
    requires forall a :: a in rows ==> first(a) == second(a)
    ensures Filter(rows, first) == Filter(rows, second)
  {
    if rows != [] {
      assert rows[0] in rows && forall a :: a in rows[1..] ==> a in rows;
      FilterSame(rows[1..], first, second);
    }
  }

  lemma {:induction false} LawfulAt(settings: Settings, rows: seq<Attempt>, i: nat)
    requires Lawful(settings, rows) && i < |rows|
    ensures FitsAfter(settings, rows[..i], rows[i])
  {
    if i < |rows| - 1 {
      LawfulAt(settings, rows[..|rows| - 1], i);
      assert rows[..|rows| - 1][..i] == rows[..i];
    }
  }

  /** The failures of the account in the window that ends with its i-th row, that row among them. */
  function InWindow(settings: Settings, rows: seq<Attempt>, i: nat): nat
    requires i < |rows|
  {
    |Filter(rows[..i + 1], Between(rows[i].tenant, rows[i].email, rows[i].at - settings.window, rows[i].at))|
  }

  lemma LocksIffWindowIsFull(settings: Settings, rows: seq<Attempt>, i: nat)
    requires Lawful(settings, rows) && i < |rows| && settings.window >= 0
    ensures rows[i].lockedUntil
         == if InWindow(settings, rows, i) >= settings.maxAttempts then Some(rows[i].at + settings.duration) else None
  {
    hide Lawful, Filter, FitsAfter;
    LawfulAt(settings, rows, i);
    assert rows[..i + 1] == rows[..i] + [rows[i]];
    WindowWithLast(settings, rows[..i], rows[i]);
    AsRecorded(settings, rows[..i], rows[i]);
  }

  lemma AsRecorded(settings: Settings, before: seq<Attempt>, a: Attempt)
    requires FitsAfter(settings, before, a)
    ensures a == NewAttempt(settings, before, a.tenant, a.email, a.at)
  {
  }

  lemma WindowWithLast(settings: Settings, before: seq<Attempt>, a: Attempt)
    requires FitsAfter(settings, before, a) && settings.window >= 0
    ensures |Filter(before + [a], Between(a.tenant, a.email, a.at - settings.window, a.at))|
         == CountFailuresSince(before, a.tenant, a.email, a.at - settings.window) + 1
  {
    hide Filter;
    var between, since := Between(a.tenant, a.email, a.at - settings.window, a.at), Since(a.tenant, a.email, a.at - settings.window);
    FilterSame(before, between, since);
    FilterSnoc(before + [a], between);
    assert (before + [a])[..|before|] == before;
  }

  /** In every reachable table an account is locked exactly if MAX of its failures lie in one window and
      less than the lock's duration has passed since the last of them. */
  lemma LockedIffWindowWasFull(settings: Settings, logins: seq<Login>, tenant: int, email: string, now: int)
    requires Timely(logins) && tenant != 0 && settings.window >= 0
    ensures
      var rows := Run(settings, logins);
      LockRuns(rows, tenant, email, now)
      <==> exists i :: 0 <= i < |rows| && rows[i].email == email && rows[i].tenant == tenant
                       && now < rows[i].at + settings.duration && InWindow(settings, rows, i) >= settings.maxAttempts
  {
    var rows := Run(settings, logins);
    RunIsLawful(settings, logins);
    forall i | 0 <= i < |rows|
      ensures rows[i].lockedUntil
           == if InWindow(settings, rows, i) >= settings.maxAttempts then Some(rows[i].at + settings.duration) else None
    {
      LocksIffWindowIsFull(settings, rows, i);
    }
  }

  lemma {:induction false} OwnRowsLock(rows: seq<Attempt>, tenant: int, email: string)
    ensures LockedUntil(Filter(rows, SeenBy(tenant, email)), tenant, email) == LockedUntil(rows, tenant, email)
  {
    if rows != [] {
      var n := |rows| - 1;
      OwnRowsLock(rows[..n], tenant, email);
      FilterSnoc(rows, SeenBy(tenant, email));
      if Sees(tenant, email, rows[n]) {
        var own := Filter(rows[..n], SeenBy(tenant, email));
        assert (own + [rows[n]])[..|own|] == own;
      } else {
        assert Filter(rows, SeenBy(tenant, email)) == Filter(rows[..n], SeenBy(tenant, email));
      }
    }
  }

  /** The answer to a login, and what it leaves of the account, depend on the account's own rows only. */
  lemma OwnRowsDecide(settings: Settings, rows: seq<Attempt>, login: Login)
    ensures
      var own := Filter(rows, SeenBy(login.tenant, login.email));
      && Apply(settings, own, login).answer == Apply(settings, rows, login).answer
      && Filter(Apply(settings, own, login).rows, SeenBy(login.tenant, login.email))
         == Filter(Apply(settings, rows, login).rows, SeenBy(login.tenant, login.email))
  {
    hide Filter, LockedUntil;
    var seen := SeenBy(login.tenant, login.email);
    var own := Filter(rows, seen);
    OwnRowsLock(rows, login.tenant, login.email);
    FilterFilter(rows, seen, seen);
    OwnRowsCount(settings, rows, login);
    NothingLeft(rows, login.tenant, login.email);
    NothingLeft(own, login.tenant, login.email);
    var a := NewAttempt(settings, rows, login.tenant, login.email, login.recordAt);
    hide Cleared, NewAttempt;
    AppendSeen(rows, seen, a);
    AppendSeen(own, seen, a);
  }

  lemma OwnRowsCount(settings: Settings, rows: seq<Attempt>, login: Login)
    ensures NewAttempt(settings, Filter(rows, SeenBy(login.tenant, login.email)), login.tenant, login.email, login.recordAt)
         == NewAttempt(settings, rows, login.tenant, login.email, login.recordAt)
  {
    hide Filter;
    FilterFilter(rows, SeenBy(login.tenant, login.email), Since(login.tenant, login.email, login.recordAt - settings.window));
  }

  lemma AppendSeen(rows: seq<Attempt>, seen: Attempt -> bool, a: Attempt)
    ensures Filter(rows + [a], seen) == Filter(rows, seen) + if seen(a) then [a] else []
  {
    hide Filter;
    FilterSnoc(rows + [a], seen);
    assert (rows + [a])[..|rows|] == rows;
  }

  lemma NothingLeft(rows: seq<Attempt>, tenant: int, email: string)
    ensures Filter(Cleared(rows, tenant, email), SeenBy(tenant, email)) == []
  {
    var left := Filter(Cleared(rows, tenant, email), SeenBy(tenant, email));
    if left != [] {
      FilterMember(Cleared(rows, tenant, email), SeenBy(tenant, email), left[0]);
      ClearedMember(rows, tenant, email, left[0]);
    }
  }

  // ----- the code: repository, service, and the steps of the login handler -----

  class LoginAttemptRepository {
    var rows: seq<Attempt>
    const tenant: int

    constructor (tenant: int)
      ensures rows == [] && this.tenant == tenant
    {
      this.rows, this.tenant := [], tenant;
    }

    /** The row goes to the database with the commit; tenant_id is NOT NULL. */
    method RecordFailure(email: string, occurredAt: int, lockedUntil: Option<int>) returns (r: Result<()>)
      modifies this
      ensures r == if tenant == 0 then Err(IntegrityError) else Ok(())
      ensures rows == if tenant == 0 then old(rows) else old(rows) + [Attempt(email, tenant, occurredAt, lockedUntil)]
    {
      if tenant == 0 {
        return Err(IntegrityError);
      }
      rows := rows + [Attempt(email, tenant, occurredAt, lockedUntil)];
      return Ok(());
    }

    method Clear(email: string)
      modifies this
      ensures rows == Cleared(old(rows), tenant, email)
    {
      rows := Filter(rows, (a: Attempt) => !Sees(tenant, email, a));
    }
  }

  class AccountLockoutService {
    const repository: LoginAttemptRepository
    const settings: Settings

    constructor (repository: LoginAttemptRepository, settings: Settings)
      ensures this.repository == repository && this.settings == settings
    {
      this.repository, this.settings := repository, settings;
    }

    method EnsureLoginAllowed(email: string, now: int) returns (r: Result<()>)
      ensures r == if Locked(repository.rows, repository.tenant, email, now) then Err(ValueError) else Ok(())
    {
      var lockedUntil := LockedUntil(repository.rows, repository.tenant, email);
      if lockedUntil.Some? && lockedUntil.value > now {
        return Err(ValueError);
      }
      return Ok(());
    }

    method RecordFailedLogin(email: string, now: int) returns (r: Result<()>)
      modifies repository
      ensures r == if repository.tenant == 0 then Err(IntegrityError) else Ok(())
      ensures repository.rows
           == old(repository.rows)
              + if repository.tenant == 0 then []
                else [NewAttempt(settings, old(repository.rows), repository.tenant, email, now)]
    {
      hide Filter;
      var since := now - settings.window;
      var recentFailures := CountFailuresSince(repository.rows, repository.tenant, email, since);
      var lockedUntil := None;
      if recentFailures + 1 >= settings.maxAttempts {
        lockedUntil := Some(now + settings.duration);
      }
      r := repository.RecordFailure(email, now, lockedUntil);
    }

    method RecordSuccessfulLogin(email: string)
      modifies repository
      ensures repository.rows == Cleared(old(repository.rows), repository.tenant, email)
    {
      repository.Clear(email);
    }

    /** The login handler as far as attempts go: the gate comes before anything is recorded. */
    method Execute(email: string, correct: bool, gateAt: int, recordAt: int) returns (answer: Answer)
      modifies repository
      ensures
        var outcome := Apply(settings, old(repository.rows), Login(repository.tenant, email, correct, gateAt, recordAt));
        repository.rows == outcome.rows && answer == outcome.answer
      ensures answer == Refused <==> LockRuns(old(repository.rows), repository.tenant, email, gateAt)
      ensures answer == Accepted <==> !LockRuns(old(repository.rows), repository.tenant, email, gateAt) && correct
    {
      AnswerIff(settings, repository.rows, Login(repository.tenant, email, correct, gateAt, recordAt));
      hide LockRuns;
      var allowed := EnsureLoginAllowed(email, gateAt);
      if allowed.Err? {
        return Refused;
      }
      if !correct {
        var recorded := RecordFailedLogin(email, recordAt);
        return if recorded.Ok? then Rejected else Failed(recorded.error);
      }
      RecordSuccessfulLogin(email);
      return Accepted;
    }
  }
}

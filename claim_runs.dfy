/**
 * Consequences of serialising claims: a run of claims is the composition of
 * single atomic steps, so the capacity bound holds after every claim and the
 * outcomes on one course are determined by its capacity alone.
 */
module ClaimRuns {
  import opened Web
  import opened ClaimSeat

  /** One claim request together with what the database does with it. */
  datatype Attempt = Attempt(body: RequestBody, env: Env)

  /** The responses of a run of claims, in order, and the tables afterwards. */
  datatype History = History(responses: seq<Response>, db: Db)

  /** The claims in `attempts`, each run atomically after the previous one. */
  function Run(db: Db, attempts: seq<Attempt>): (h: History)
    ensures |h.responses| == |attempts|
    ensures h.db.capacities == db.capacities
    decreases |attempts|
  {
    if attempts == [] then History([], db)
    else
      var first := Step(db, attempts[0].body, attempts[0].env);
      var rest := Run(first.db, attempts[1..]);
      History([first.response] + rest.responses, rest.db)
  }

  function Min(a: int, b: int): int { if a <= b then a else b }
  function Max(a: int, b: int): int { if a <= b then b else a }

  /** How many responses in `rs` are exactly `r`. */
  function Count(rs: seq<Response>, r: Response): nat
  {
    if rs == [] then 0 else (if rs[0] == r then 1 else 0) + Count(rs[1..], r)
  }

  /** How many of the claims on `course` were admitted, pairing each attempt with its response. */
  function Admitted(attempts: seq<Attempt>, responses: seq<Response>, course: Value): nat
    requires |responses| == |attempts|
  {
    if attempts == [] then 0
    else (if responses[0] == Accepted && attempts[0].body.Fields? && attempts[0].body.courseId == course then 1 else 0)
         + Admitted(attempts[1..], responses[1..], course)
  }

  /** A well-formed claim on `course` that the database serves without an error. */
  predicate CleanClaimOn(a: Attempt, course: Value) {
    WellFormed(a.body) && a.body.courseId == course && a.env == NoFailures
  }

  /** Whether every attempt is a clean claim on `course`. */
  predicate AllCleanOn(attempts: seq<Attempt>, course: Value) {
    attempts == [] || (CleanClaimOn(attempts[0], course) && AllCleanOn(attempts[1..], course))
  }

  /** Whatever the claims and whatever the database does, no course ends up over capacity. */
  lemma {:induction false} RunWithinCapacity(db: Db, attempts: seq<Attempt>)
    requires WithinCapacity(db)
    ensures WithinCapacity(Run(db, attempts).db)
    decreases |attempts|
  {
    if attempts != [] {
      StepWithinCapacity(db, attempts[0].body, attempts[0].env);
      RunWithinCapacity(Step(db, attempts[0].body, attempts[0].env).db, attempts[1..]);
    }
  }

  /** A course that starts within its capacity stays within it, whatever the claims and the database do. */
  lemma {:induction false} RunKeepsCourseWithinCapacity(db: Db, attempts: seq<Attempt>, course: Value)
    requires course in db.capacities && Taken(db.registrations, course) <= db.capacities[course]
    ensures Taken(Run(db, attempts).db.registrations, course) <= db.capacities[course]
    decreases |attempts|
  {
    if attempts != [] {
      StepTaken(db, attempts[0].body, attempts[0].env, course);
      RunKeepsCourseWithinCapacity(Step(db, attempts[0].body, attempts[0].env).db, attempts[1..], course);
    }
  }

  /** The response a clean claim gets when the course already holds `taken` registrations. */
  function Verdict(taken: int, capacity: int): Response {
    if taken < capacity then Accepted else Full
  }

  /** A run is its first claim followed by the run of the rest on the tables it left. */
  lemma {:induction false} RunCons(db: Db, attempts: seq<Attempt>)
    requires attempts != []
    ensures Run(db, attempts)
            == History([Step(db, attempts[0].body, attempts[0].env).response]
                       + Run(Step(db, attempts[0].body, attempts[0].env).db, attempts[1..]).responses,
                       Run(Step(db, attempts[0].body, attempts[0].env).db, attempts[1..]).db)
  {
  }

  /**
   * The responses `n` clean claims get on a course holding `taken`
   * registrations: each is the verdict for the count its predecessors left.
   */
  function Verdicts(taken: int, capacity: int, n: nat): (rs: seq<Response>)
    ensures |rs| == n
    decreases n
  {
    if n == 0 then []
    else [Verdict(taken, capacity)] + Verdicts(if taken < capacity then taken + 1 else taken, capacity, n - 1)
  }

  /** The k-th of those responses succeeds exactly when `taken + k` is below the capacity. */
  lemma {:induction false} VerdictsAt(taken: int, capacity: int, n: nat)
    ensures forall k :: 0 <= k < n ==> Verdicts(taken, capacity, n)[k] == Verdict(taken + k, capacity)
    decreases n
  {
    if n > 0 {
      var next := if taken < capacity then taken + 1 else taken;
      VerdictsAt(next, capacity, n - 1);
      forall k | 0 <= k < n
        ensures Verdicts(taken, capacity, n)[k] == Verdict(taken + k, capacity)
      {
        if k > 0 {
          assert Verdicts(taken, capacity, n)[k] == Verdicts(next, capacity, n - 1)[k - 1];
        }
      }
    }
  }

  /** A verdict followed by the verdicts from the count it leaves are the verdicts from the first count. */
  lemma {:induction false} VerdictsCons(rs: seq<Response>, rest: seq<Response>, taken: int, next: int, capacity: int)
    requires next == (if taken < capacity then taken + 1 else taken)
    requires rest == Verdicts(next, capacity, |rest|)
    requires rs == [Verdict(taken, capacity)] + rest
    ensures rs == Verdicts(taken, capacity, |rs|)
  {
  }

  /** Of those responses, min(n, max(capacity - taken, 0)) succeed and the rest are full. */
  lemma {:induction false} CountVerdicts(taken: int, capacity: int, n: nat)
    ensures Count(Verdicts(taken, capacity, n), Accepted) == Min(n, Max(capacity - taken, 0))
    ensures Count(Verdicts(taken, capacity, n), Full) == n - Min(n, Max(capacity - taken, 0))
    decreases n
  {
    if n > 0 {
      var rs := Verdicts(taken, capacity, n);
      var next := if taken < capacity then taken + 1 else taken;
      assert rs[1..] == Verdicts(next, capacity, n - 1);
      CountVerdicts(next, capacity, n - 1);
    }
  }

  /** A clean claim on a known course gets the verdict for its live count, and is counted when admitted. */
  lemma {:induction false} CleanStep(db: Db, a: Attempt, course: Value)
    requires course in db.capacities && CleanClaimOn(a, course)
    ensures Step(db, a.body, a.env).response == Verdict(Taken(db.registrations, course), db.capacities[course])
    ensures Taken(Step(db, a.body, a.env).db.registrations, course)
            == if Taken(db.registrations, course) < db.capacities[course] then Taken(db.registrations, course) + 1
               else Taken(db.registrations, course)
  {
    StepTaken(db, a.body, a.env, course);
  }

  /**
   * Clean claims on one course, starting from `t` registrations, get exactly
   * the verdicts from `t` on: the k-th succeeds exactly when `t + k` is below
   * the capacity, and every other one is refused as full.
   */
  lemma {:induction false} RunResponsesOnOneCourse(db: Db, course: Value, attempts: seq<Attempt>)
    requires course in db.capacities
    requires AllCleanOn(attempts, course)
    ensures Run(db, attempts).responses
            == Verdicts(Taken(db.registrations, course), db.capacities[course], |attempts|)
    decreases |attempts|
  {
    if attempts != [] {
      var first := Step(db, attempts[0].body, attempts[0].env);
      var t, cap := Taken(db.registrations, course), db.capacities[course];
      CleanStep(db, attempts[0], course);
      RunResponsesOnOneCourse(first.db, course, attempts[1..]);
      RunCons(db, attempts);
      VerdictsCons(Run(db, attempts).responses, Run(first.db, attempts[1..]).responses,
                   t, Taken(first.db.registrations, course), cap);
    }
  }

  /**
   * The ledger moves only with admissions: after any run, a course's count is
   * its old count plus the number of claims on it that were admitted.
   */
  lemma {:induction false} LedgerTracksAdmissions(db: Db, attempts: seq<Attempt>, course: Value)
    ensures Taken(Run(db, attempts).db.registrations, course)
            == Taken(db.registrations, course) + Admitted(attempts, Run(db, attempts).responses, course)
    decreases |attempts|
  {
    if attempts != [] {
      var first := Step(db, attempts[0].body, attempts[0].env);
      StepTaken(db, attempts[0].body, attempts[0].env, course);
      LedgerTracksAdmissions(first.db, attempts[1..], course);
      RunCons(db, attempts);
      assert Run(db, attempts).responses[1..] == Run(first.db, attempts[1..]).responses;
    }
  }

  /** On a run of claims all on one course, the admitted claims are the successful responses. */
  lemma {:induction false} AdmittedOnOneCourse(attempts: seq<Attempt>, responses: seq<Response>, course: Value)
    requires |responses| == |attempts|
    requires AllCleanOn(attempts, course)
    ensures Admitted(attempts, responses, course) == Count(responses, Accepted)
    decreases |attempts|
  {
    if attempts != [] {
      AdmittedOnOneCourse(attempts[1..], responses[1..], course);
    }
  }

  /**
   * N clean claims on a course holding t registrations with capacity C:
   * exactly min(N, max(C - t, 0)) succeed, the others are full, and the
   * course gains one registration per success.
   */
  lemma {:induction false} ClaimsOnOneCourse(db: Db, course: Value, attempts: seq<Attempt>)
    requires course in db.capacities
    requires AllCleanOn(attempts, course)
    ensures Count(Run(db, attempts).responses, Accepted)
            == Min(|attempts|, Max(db.capacities[course] - Taken(db.registrations, course), 0))
    ensures Count(Run(db, attempts).responses, Full)
            == |attempts| - Count(Run(db, attempts).responses, Accepted)
    ensures Taken(Run(db, attempts).db.registrations, course)
            == Taken(db.registrations, course) + Count(Run(db, attempts).responses, Accepted)
  {
    RunResponsesOnOneCourse(db, course, attempts);
    CountVerdicts(Taken(db.registrations, course), db.capacities[course], |attempts|);
    LedgerTracksAdmissions(db, attempts, course);
    AdmittedOnOneCourse(attempts, Run(db, attempts).responses, course);
  }

  /**
   * N clean claims on a course with capacity C and no registrations:
   * exactly min(N, C) succeed, max(0, N - C) are full, and the course ends
   * with min(N, C) registrations.
   */
  lemma {:induction false} FreshCourse(db: Db, course: Value, attempts: seq<Attempt>)
    requires course in db.capacities && db.capacities[course] >= 0
    requires Taken(db.registrations, course) == 0
    requires AllCleanOn(attempts, course)
    ensures Count(Run(db, attempts).responses, Accepted) == Min(|attempts|, db.capacities[course])
    ensures Count(Run(db, attempts).responses, Full) == Max(0, |attempts| - db.capacities[course])
    ensures Taken(Run(db, attempts).db.registrations, course) == Min(|attempts|, db.capacities[course])
  {
    ClaimsOnOneCourse(db, course, attempts);
    FreshSplit(|attempts|, db.capacities[course], Count(Run(db, attempts).responses, Accepted),
               Count(Run(db, attempts).responses, Full), Taken(Run(db, attempts).db.registrations, course));
  }

  /** The arithmetic of a fresh course: with t = 0 and C >= 0, min(N, max(C - t, 0)) is min(N, C). */
  lemma {:induction false} FreshSplit(n: int, capacity: int, accepted: int, full: int, taken: int)
    requires capacity >= 0
    requires accepted == Min(n, Max(capacity - 0, 0))
    requires full == n - accepted && taken == 0 + accepted
    ensures accepted == Min(n, capacity) && full == Max(0, n - capacity) && taken == Min(n, capacity)
  {
  }

  /**
   * Once a course is full it stays full: whatever claims follow, on any
   * course and with any database behaviour, its count does not change and
   * every claim on it that reaches the capacity check is refused as full.
   */
  lemma {:induction false} FullStaysFull(db: Db, course: Value, attempts: seq<Attempt>)
    requires course in db.capacities
    requires Taken(db.registrations, course) >= db.capacities[course]
    ensures Taken(Run(db, attempts).db.registrations, course) == Taken(db.registrations, course)
    ensures forall k :: 0 <= k < |attempts| && WellFormed(attempts[k].body) &&
                        attempts[k].body.courseId == course && !attempts[k].env.clientThrows &&
                        !attempts[k].env.rpcFails
                        ==> Run(db, attempts).responses[k] == Full
    decreases |attempts|
  {
    if attempts != [] {
      var a := attempts[0];
      var first := Step(db, a.body, a.env);
      StepTaken(db, a.body, a.env, course);
      FullStaysFull(first.db, course, attempts[1..]);
      RunCons(db, attempts);
      var h := Run(db, attempts);
      forall k | 0 <= k < |attempts| && WellFormed(attempts[k].body) &&
                 attempts[k].body.courseId == course && !attempts[k].env.clientThrows &&
                 !attempts[k].env.rpcFails
        ensures h.responses[k] == Full
      {
        if k > 0 {
          assert h.responses[k] == Run(first.db, attempts[1..]).responses[k - 1];
        }
      }
    }
  }

  /** With capacity 0 every claim that reaches the check is full and nothing is inserted. */
  lemma {:induction false} ZeroCapacity(db: Db, course: Value, attempts: seq<Attempt>)
    requires course in db.capacities && db.capacities[course] == 0
    ensures Taken(Run(db, attempts).db.registrations, course) == Taken(db.registrations, course)
    ensures forall k :: 0 <= k < |attempts| && WellFormed(attempts[k].body) &&
                        attempts[k].body.courseId == course && !attempts[k].env.clientThrows &&
                        !attempts[k].env.rpcFails
                        ==> Run(db, attempts).responses[k] == Full
  {
    FullStaysFull(db, course, attempts);
  }

  /** The run of two attempts is their two steps, one after the other. */
  lemma {:induction false} RunTwo(db: Db, x: Attempt, y: Attempt)
    ensures Run(db, [x, y]).responses
            == [Step(db, x.body, x.env).response, Step(Step(db, x.body, x.env).db, y.body, y.env).response]
    ensures Run(db, [x, y]).db == Step(Step(db, x.body, x.env).db, y.body, y.env).db
  {
    RunCons(db, [x, y]);
    assert [x, y][1..] == [y];
    RunCons(Step(db, x.body, x.env).db, [y]);
    assert [y][1..] == [];
  }

  /**
   * Two principals claim the last seat: the first is admitted and holds the
   * only new registration, the second is refused as full.
   */
  lemma {:induction false} LastSeat(db: Db, course: Value, a: Value, b: Value)
    requires course in db.capacities && Truthy(course) && Truthy(a) && Truthy(b)
    requires Taken(db.registrations, course) + 1 == db.capacities[course]
    ensures Run(db, [Attempt(Fields(course, a), NoFailures), Attempt(Fields(course, b), NoFailures)]).responses
            == [Accepted, Full]
    ensures Run(db, [Attempt(Fields(course, a), NoFailures), Attempt(Fields(course, b), NoFailures)]).db.registrations
            == db.registrations + [Registration(course, a, Pending)]
  {
    var x, y := Attempt(Fields(course, a), NoFailures), Attempt(Fields(course, b), NoFailures);
    var first := Step(db, x.body, x.env);
    CleanStep(db, x, course);
    CleanStep(first.db, y, course);
    RunTwo(db, x, y);
  }

  /**
   * Nothing stops the same user from claiming twice: on a course with two
   * free seats both claims succeed and the table gains two identical
   * registrations.
   */
  lemma {:induction false} RepeatedClaim(db: Db, course: Value, user: Value)
    requires course in db.capacities && Truthy(course) && Truthy(user)
    requires Taken(db.registrations, course) + 2 <= db.capacities[course]
    ensures Run(db, [Attempt(Fields(course, user), NoFailures), Attempt(Fields(course, user), NoFailures)]).responses
            == [Accepted, Accepted]
    ensures Run(db, [Attempt(Fields(course, user), NoFailures), Attempt(Fields(course, user), NoFailures)]).db.registrations
            == db.registrations + [Registration(course, user, Pending), Registration(course, user, Pending)]
  {
    var x := Attempt(Fields(course, user), NoFailures);
    var first := Step(db, x.body, x.env);
    CleanStep(db, x, course);
    CleanStep(first.db, x, course);
    RunTwo(db, x, x);
  }
}

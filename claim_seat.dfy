/**
 * The `claim-seat` edge function: validate the two ids, lock the course and
 * read its capacity and taken count, refuse when full, otherwise insert one
 * pending registration.  The handler's comments say the RPC locks the course
 * row (index.ts:4-5); the model takes that at its word and treats one claim
 * as one atomic step on the store.
 */
module ClaimSeat {
  import opened Web

  /**
   * The request body after `await req.json()`.  `Unparsable` is a body that is
   * not JSON; `NullBody` is the JSON text `null`, on which destructuring
   * throws.  Any other JSON value destructures to its two properties (both
   * `Undefined` when it is not an object).
   */
  datatype RequestBody = Unparsable | NullBody | Fields(courseId: Value, userId: Value)

  datatype Registration = Registration(courseId: Value, userId: Value, status: string)

  /** The only status this handler ever writes. */
  const Pending := "pending"

  /** One row returned by `lock_course_and_count`. */
  datatype CountRow = CountRow(capacity: int, taken: int)

  /**
   * What the handler gets back when it creates the client and calls the RPC:
   * `Threw` when `createClient` throws before any call is made, otherwise an
   * error, no data, or the RPC's rows.
   */
  datatype CountResult = Threw | CountError | NoData | Rows(rows: seq<CountRow>)

  /**
   * What the environment and the database do that this model cannot see:
   * whether `createClient` throws (for instance when `SUPABASE_URL` is not
   * set), whether the RPC fails and, if the insert fails, the message of its
   * error.
   */
  datatype Env = Env(clientThrows: bool, rpcFails: bool, insertError: Option<string>)

  /** An environment in which nothing fails. */
  const NoFailures := Env(false, false, None)

  /** The tables the handler touches: course capacities and registrations. */
  datatype Db = Db(capacities: map<Value, int>, registrations: seq<Registration>)

  const InvalidRequest := Response(400, FailBody("Invalid request"))
  const MissingParameters := Response(400, FailBody("Missing parameters"))
  const CourseNotFound := Response(404, FailBody("Course not found"))
  const Full := Response(409, FailBody("full"))
  const Accepted := Response(200, OkBody)

  function InsertFailed(message: string): Response {
    Response(500, FailBody(message))
  }

  /** The number of registrations for `course`: the ledger's taken count. */
  function Taken(regs: seq<Registration>, course: Value): (n: nat)
    ensures n <= |regs|
    ensures regs == [] ==> n == 0
  {
    if regs == [] then 0
    else Taken(regs[..|regs| - 1], course) + (if regs[|regs| - 1].courseId == course then 1 else 0)
  }

  /** A course has no registrations exactly when no row of the table names it. */
  lemma {:induction false} TakenZero(regs: seq<Registration>, course: Value)
    ensures Taken(regs, course) == 0 <==> forall i :: 0 <= i < |regs| ==> regs[i].courseId != course
    decreases |regs|
  {
    if regs != [] {
      var init := regs[..|regs| - 1];
      TakenZero(init, course);
      assert forall i :: 0 <= i < |init| ==> init[i] == regs[i];
    }
  }

  lemma {:induction false} TakenAppend(regs: seq<Registration>, r: Registration, course: Value)
    ensures Taken(regs + [r], course) == Taken(regs, course) + (if r.courseId == course then 1 else 0)
  {
    assert (regs + [r])[..|regs|] == regs;
  }

  /**
   * Creating the client and calling `lock_course_and_count` as the store
   * answers them: a throw when `createClient` throws, an error when the call
   * fails, no rows for an unknown course, and otherwise the one row holding
   * the course's capacity and its live registration count.
   */
  function LockAndCount(db: Db, course: Value, env: Env): (r: CountResult)
    ensures r.Threw? <==> env.clientThrows
    ensures r.CountError? <==> !env.clientThrows && env.rpcFails
    ensures !env.clientThrows && !env.rpcFails ==> (Found(r) <==> course in db.capacities)
    ensures Found(r) ==> |r.rows| == 1 && r.rows[0] == CountRow(db.capacities[course], Taken(db.registrations, course))
  {
    if env.clientThrows then Threw
    else if env.rpcFails then CountError
    else if course in db.capacities then Rows([CountRow(db.capacities[course], Taken(db.registrations, course))])
    else Rows([])
  }

  /** The handler's decision before the insert: a response, or the registration to insert. */
  datatype Decision = Reject(response: Response) | Admit(registration: Registration)

  /** Whether the RPC's answer lets the handler go on past the not-found check. */
  predicate Found(counts: CountResult) {
    counts.Rows? && |counts.rows| > 0
  }

  /**
   * The handler up to the insert.  `answer` is what `lock_course_and_count`
   * returns for the body's course id; it is consulted only once both ids
   * have passed the parameter check.
   */
  function Decide(body: RequestBody, answer: CountResult): (d: Decision)
    ensures (body.Unparsable? || body.NullBody?) ==> d == Reject(InvalidRequest)
    ensures body.Fields? && !(Truthy(body.courseId) && Truthy(body.userId)) ==> d == Reject(MissingParameters)
    ensures WellFormed(body) && answer.Threw? ==> d == Reject(InvalidRequest)
    ensures WellFormed(body) && !answer.Threw? && !Found(answer) ==> d == Reject(CourseNotFound)
    ensures WellFormed(body) && Found(answer) ==>
              d == if answer.rows[0].taken >= answer.rows[0].capacity then Reject(Full)
                   else Admit(Registration(body.courseId, body.userId, Pending))
  {
    match body
    case Unparsable => Reject(InvalidRequest)
    case NullBody => Reject(InvalidRequest)
    case Fields(courseId, userId) =>
      if !Truthy(courseId) || !Truthy(userId) then Reject(MissingParameters)
      else if answer.Threw? then Reject(InvalidRequest)
      else if answer.CountError? || answer.NoData? || |answer.rows| == 0 then Reject(CourseNotFound)
      else
        var row := answer.rows[0];
        if row.taken >= row.capacity then Reject(Full)
        else Admit(Registration(courseId, userId, Pending))
  }

  /** Only the first row the RPC returns plays a part in the decision. */
  lemma FirstRowDecides(body: RequestBody, a: CountResult, b: CountResult)
    requires a.Threw? == b.Threw? && Found(a) == Found(b)
    requires Found(a) ==> a.rows[0] == b.rows[0]
    ensures Decide(body, a) == Decide(body, b)
  {
  }

  /** Whether `body` names a course and a user the handler accepts as parameters. */
  predicate WellFormed(body: RequestBody) {
    body.Fields? && Truthy(body.courseId) && Truthy(body.userId)
  }

  /** The response and the tables after one claim. */
  datatype Claimed = Claimed(response: Response, db: Db)

  /** One claim, run atomically against the tables `db`. */
  function Step(db: Db, body: RequestBody, env: Env): (r: Claimed)
    ensures r.db.capacities == db.capacities
    ensures r.response == Accepted ==>
              WellFormed(body) && env == NoFailures &&
              body.courseId in db.capacities &&
              Taken(db.registrations, body.courseId) < db.capacities[body.courseId] &&
              r.db.registrations == db.registrations + [Registration(body.courseId, body.userId, Pending)]
    ensures r.response != Accepted ==> r.db.registrations == db.registrations
    ensures (body.Unparsable? || body.NullBody?) ==> r == Claimed(InvalidRequest, db)
    ensures body.Fields? && !WellFormed(body) ==> r == Claimed(MissingParameters, db)
    ensures WellFormed(body) && env.clientThrows ==> r.response == InvalidRequest
    ensures WellFormed(body) && !env.clientThrows && (env.rpcFails || body.courseId !in db.capacities)
            ==> r.response == CourseNotFound
    ensures WellFormed(body) && !env.clientThrows && !env.rpcFails && body.courseId in db.capacities ==>
              r.response == (if Taken(db.registrations, body.courseId) >= db.capacities[body.courseId] then Full
                             else if env.insertError.Some? then InsertFailed(env.insertError.value)
                             else Accepted)
  {
    var answer := if body.Fields? then LockAndCount(db, body.courseId, env) else CountError;
    match Decide(body, answer)
    case Reject(response) => Claimed(response, db)
    case Admit(registration) =>
      if env.insertError.Some? then Claimed(InsertFailed(env.insertError.value), db)
      else Claimed(Accepted, db.(registrations := db.registrations + [registration]))
  }

  /** No course ever holds more registrations than its capacity. */
  ghost predicate WithinCapacity(db: Db) {
    forall c :: c in db.capacities ==> Taken(db.registrations, c) <= db.capacities[c]
  }

  /** A claim changes the taken count of its own course by one on success, and of no other course. */
  lemma {:induction false} StepTaken(db: Db, body: RequestBody, env: Env, course: Value)
    ensures var r := Step(db, body, env);
            Taken(r.db.registrations, course)
            == Taken(db.registrations, course) + (if r.response == Accepted && body.courseId == course then 1 else 0)
  {
    var r := Step(db, body, env);
    if r.response == Accepted {
      TakenAppend(db.registrations, Registration(body.courseId, body.userId, Pending), course);
    }
  }

  lemma {:induction false} StepWithinCapacity(db: Db, body: RequestBody, env: Env)
    requires WithinCapacity(db)
    ensures WithinCapacity(Step(db, body, env).db)
  {
    var r := Step(db, body, env);
    forall c | c in r.db.capacities
      ensures Taken(r.db.registrations, c) <= r.db.capacities[c]
    {
      StepTaken(db, body, env, c);
    }
  }

  /** The registrations table and the course capacities the handler sees. */
  class Store {
    var capacities: map<Value, int>
    var registrations: seq<Registration>

    constructor (capacities: map<Value, int>)
      ensures this.capacities == capacities && registrations == []
    {
      this.capacities := capacities;
      registrations := [];
    }

    function State(): Db
      reads this
    {
      Db(capacities, registrations)
    }

    /** `insert` into `registrations`: appends `reg` unless the database reports `failure`. */
    method Insert(reg: Registration, failure: Option<string>) returns (err: Option<string>)
      modifies this`registrations
      ensures err == failure
      ensures registrations == if failure.None? then old(registrations) + [reg] else old(registrations)
    {
      err := failure;
      if failure.None? {
        registrations := registrations + [reg];
      }
    }

    /** The `serve` handler of `claim-seat`, as one step serialised with every other claim. */
    method Claim(body: RequestBody, env: Env) returns (response: Response)
      modifies this`registrations
      ensures Claimed(response, State()) == Step(old(State()), body, env)
      ensures response == Accepted ==>
                registrations == old(registrations) + [Registration(body.courseId, body.userId, Pending)]
      ensures response != Accepted ==> registrations == old(registrations)
      ensures old(WithinCapacity(State())) ==> WithinCapacity(State())
    {
      ghost var db := State();
      if WithinCapacity(db) {
        StepWithinCapacity(db, body, env);
      }
      if body.Unparsable? || body.NullBody? {
        return InvalidRequest;
      }
      var courseId, userId := body.courseId, body.userId;
      if !Truthy(courseId) || !Truthy(userId) {
        return MissingParameters;
      }
      var counts := LockAndCount(State(), courseId, env);
      if counts.Threw? {
        return InvalidRequest;
      }
      if counts.CountError? || counts.NoData? || |counts.rows| == 0 {
        return CourseNotFound;
      }
      var row := counts.rows[0];
      if row.taken >= row.capacity {
        return Full;
      }
      var insertErr := Insert(Registration(courseId, userId, Pending), env.insertError);
      if insertErr.Some? {
        return InsertFailed(insertErr.value);
      }
      response := Accepted;
    }
  }
}

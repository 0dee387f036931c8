/**
 * The `POST /api/register` route: it checks that a course id was sent,
 * authenticates the caller, forwards `{course_id, user_id}` to the
 * `claim-seat` function and passes its answer back unchanged.
 */
module RegisterRoute {
  import opened Web
  import ClaimSeat

  /**
   * The request body after `await req.json()`, which runs outside the route's
   * `try`.  `bodyUserId` is whatever user id a client chose to put in the
   * body; the route never reads it.
   */
  datatype RouteBody = Unparsable | NullBody | Object(courseId: Value, bodyUserId: Value)

  /** The JSON the route sends to `claim-seat`. */
  datatype Payload = Payload(courseId: Value, userId: Value)

  /**
   * The outcome of calling `claim-seat`: `InvokeFailed` when `fetch` rejects
   * or the answer is not JSON, otherwise its status and parsed body.
   */
  datatype Invocation = InvokeFailed | Replied(status: int, body: Body)

  /** The route answers, or an exception escapes it and the framework answers instead. */
  datatype Reply = Respond(response: Response) | Unhandled

  /** What the route sends to `claim-seat` (if anything) and how it answers. */
  datatype Outcome = Outcome(forwarded: Option<Payload>, reply: Reply)

  const MissingCourseId := Response(400, FailBody("Missing courseId"))
  const NotAuthenticated := Response(401, FailBody("Not authenticated"))
  const InvokeError := Response(500, FailBody("Error invoking function"))

  /**
   * The route for a body, the session's user (if any) and the behaviour of
   * `claim-seat`, which is consulted only for a forwarded payload.
   */
  function Post(body: RouteBody, user: Option<User>, invoke: Payload -> Invocation): (r: Outcome)
    ensures r.forwarded.Some? <==> body.Object? && Truthy(body.courseId) && user.Some?
    ensures r.forwarded.Some? ==> r.forwarded.value == Payload(body.courseId, Str(user.value.id))
    ensures r.forwarded.Some? ==>
              r.reply == match invoke(r.forwarded.value)
                         case InvokeFailed => Respond(InvokeError)
                         case Replied(status, b) => Respond(Response(status, b))
    ensures (body.Unparsable? || body.NullBody?) ==> r.reply == Unhandled
    ensures body.Object? && !Truthy(body.courseId) ==> r.reply == Respond(MissingCourseId)
    ensures body.Object? && Truthy(body.courseId) && user.None? ==> r.reply == Respond(NotAuthenticated)
  {
    match body
    case Unparsable => Outcome(None, Unhandled)
    case NullBody => Outcome(None, Unhandled)
    case Object(courseId, _) =>
      if !Truthy(courseId) then Outcome(None, Respond(MissingCourseId))
      else if user.None? then Outcome(None, Respond(NotAuthenticated))
      else
        var payload := Payload(courseId, Str(user.value.id));
        match invoke(payload)
        case InvokeFailed => Outcome(Some(payload), Respond(InvokeError))
        case Replied(status, b) => Outcome(Some(payload), Respond(Response(status, b)))
  }

  /** The course id is checked before the session: without one the answer is 400 for every caller. */
  lemma CourseIdCheckedFirst(courseId: Value, bodyUserId: Value, u: Option<User>, v: Option<User>,
                             f: Payload -> Invocation, g: Payload -> Invocation)
    requires !Truthy(courseId)
    ensures Post(Object(courseId, bodyUserId), u, f) == Post(Object(courseId, bodyUserId), v, g)
    ensures Post(Object(courseId, bodyUserId), u, f) == Outcome(None, Respond(MissingCourseId))
  {
  }

  /**
   * The user id a client writes into the body plays no part: the route
   * behaves the same for every value of it, and forwards the session's id.
   */
  lemma UserIdFromSession(courseId: Value, x: Value, y: Value, user: Option<User>, invoke: Payload -> Invocation)
    ensures Post(Object(courseId, x), user, invoke) == Post(Object(courseId, y), user, invoke)
    ensures Post(Object(courseId, x), user, invoke).forwarded.Some? ==>
              Post(Object(courseId, x), user, invoke).forwarded.value.userId == Str(user.value.id)
  {
  }

  /** The body `claim-seat` receives for a payload: truthy scalars survive `JSON.stringify` and `JSON.parse`. */
  function Received(p: Payload): ClaimSeat.RequestBody {
    ClaimSeat.Fields(p.courseId, p.userId)
  }

  /**
   * A payload the route forwards always passes `claim-seat`'s parameter check
   * when the session's user id is not empty, whatever the locking RPC answers;
   * it then gets 400 `Invalid request` only when creating the client throws.
   */
  lemma ForwardedPassesValidation(body: RouteBody, user: Option<User>, invoke: Payload -> Invocation,
                                  answer: ClaimSeat.CountResult)
    requires Post(body, user, invoke).forwarded.Some?
    requires user.Some? && user.value.id != ""
    ensures ClaimSeat.Decide(Received(Post(body, user, invoke).forwarded.value), answer)
            != ClaimSeat.Reject(ClaimSeat.MissingParameters)
    ensures (ClaimSeat.Decide(Received(Post(body, user, invoke).forwarded.value), answer)
             == ClaimSeat.Reject(ClaimSeat.InvalidRequest)) <==> answer.Threw?
  {
  }

  /**
   * The route in front of the store: every registration a forwarded claim
   * adds belongs to the session's user and to the course in the body, and the
   * caller sees exactly the response `claim-seat` gave.
   */
  lemma RegistersSessionUser(body: RouteBody, user: User, db: ClaimSeat.Db, env: ClaimSeat.Env)
    requires body.Object? && Truthy(body.courseId)
    ensures var invoke := (p: Payload) => var c := ClaimSeat.Step(db, Received(p), env);
                                          Replied(c.response.status, c.response.body);
            var r := Post(body, Some(user), invoke);
            && r.forwarded == Some(Payload(body.courseId, Str(user.id)))
            && r.reply == Respond(ClaimSeat.Step(db, Received(r.forwarded.value), env).response)
            && (ClaimSeat.Step(db, Received(r.forwarded.value), env).response == ClaimSeat.Accepted ==>
                  ClaimSeat.Step(db, Received(r.forwarded.value), env).db.registrations
                  == db.registrations + [ClaimSeat.Registration(body.courseId, Str(user.id), ClaimSeat.Pending)])
  {
  }
}

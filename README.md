# Course-seat claiming, modelled in Dafny

This project models the seat-claim flow of the teachers-hub course site, in three parts.

- **`claim-seat`**: the Supabase edge function that admits or refuses one claim on a course seat. It checks the two ids. It then calls `lock_course_and_count`, which locks the course and returns its capacity and taken count. It refuses the claim when `taken >= capacity`; otherwise it inserts one `pending` registration. Every outcome has a fixed HTTP status and, except for an insert failure, a fixed reason. The handler's comments say only that the RPC locks the course row and returns the count (index.ts:4-5), and the route's comment says the function "handles capacity locking in an atomic transaction" (route.ts:7-8). The model takes that claim at its word and treats each claim as one atomic step on a store. That store (`ClaimSeat.Store`, and its value form `ClaimSeat.Db`) holds course capacities and a sequence of registrations. `taken` is the number of registrations for the course.
- **`POST /api/register`**: the Next.js route in front of the edge function. It rejects a missing `courseId`, then an unauthenticated caller. Otherwise it forwards `{course_id, user_id}`, taking the user id from the session, and passes the function's status and body back unchanged.
- **The admin dashboard**: an access gate (logged in, profile role `admin`) and a join. The join annotates every course with the `taken` of its first `course_counts` row, or 0.

Files:

- `common.dfy`: module `Web`. It holds Option, JSON scalars with JavaScript truthiness, responses and the session user.
- `claim_seat.dfy`: module `ClaimSeat`. It holds the handler's decision (`Decide`), one atomic claim (`Step`), the capacity invariant, and the `Store` class whose imperative `Claim` is proved against `Step`.
- `claim_runs.dfy`: module `ClaimRuns`. It covers runs of serialised claims: the capacity bound, the min(N, C) split, full-stays-full, capacity 0, the last seat, and repeated claims.
- `register_route.dfy`: module `RegisterRoute`, the route as a function of its body, the session user and the callee.
- `admin_dashboard.dfy`: module `AdminDashboard`, the gate and the join as recursive functions.

Modelling choices:

- JSON scalars are `Web.Value`. A missing property is `Undefined`. `!x` is `!Truthy(x)`, so `undefined`, `null`, `false`, `0` and `""` are falsy.
- The handler's `await req.json()` has three outcomes in the model:
  - A body that is not JSON throws.
  - The JSON text `null` throws too, because destructuring `null` is a `TypeError`.
  - Any other JSON value destructures to its two properties. These are both `Undefined` when the value is not an object.
- In `claim-seat` the parse is inside the `try`, so a throw gives 400 `Invalid request`. In the route it is outside the `try`, so the exception escapes the route; the model records this as `Unhandled`.
- What the environment and the database do beyond the tables is an input (`ClaimSeat.Env`): whether `createClient` throws (it does when `SUPABASE_URL` is unset, since the `!` is only a type assertion), whether the RPC errors, and whether the insert fails and with which message. A throw from `createClient` is caught and gives 400 `Invalid request`, like any other throw inside the `try`. For a known course the store's RPC answers one row holding the capacity and the live count. For an unknown course it answers no rows. `Decide` takes any RPC answer, so the "first row only" rule is stated for arbitrary row lists.
- The route receives the callee as a function from payload to a reply or a failure. A payload that is never forwarded is never passed to it.

What the code does and does not do:

- There is no `Busy` outcome and no lock timeout.
- The not-found check comes after the RPC call; there is no lookup before it.
- Capacity is any integer; nothing requires it to be positive.
- The reasons are exactly these strings: `Missing parameters`, `Course not found`, `full`, `Invalid request`, and the insert error's message.
- `claim-seat` itself trusts the `user_id` in its body. Only the route guarantees that this id comes from the session (`RegisterRoute.UserIdFromSession`, `RegisterRoute.RegistersSessionUser`).

## Model

| member | source | states |
|---|---|---|
| `ClaimSeat.Decide` | supabase/functions/claim-seat/index.ts:14-32 | An unparsable or `null` body gives 400 `Invalid request`, and a falsy course id or user id gives 400 `Missing parameters`. After that, a throw from `createClient` gives 400 `Invalid request`. An RPC error, no data or zero rows gives 404 `Course not found`. Otherwise the first row decides: `taken >= capacity` gives 409 `full`, and anything else admits exactly the registration `{course_id, user_id, 'pending'}`. |
| `ClaimSeat.FirstRowDecides` | supabase/functions/claim-seat/index.ts:26-32 | Two answers that agree on whether the client threw, on being found and on their first row lead to the same decision; later rows play no part. |
| `ClaimSeat.Step` | supabase/functions/claim-seat/index.ts:12-43 | One atomic claim. Capacities never change. An unparsable or `null` body gives 400 `Invalid request` and a body with a falsy id gives 400 `Missing parameters`, each with the table unchanged. Status 200 happens only for a well-formed claim on a known course with a free seat when nothing fails, and then exactly one pending registration is appended. Every other response leaves the registrations unchanged. For a well-formed claim, a throw from `createClient` gives 400 `Invalid request`; otherwise an unknown course or an RPC error gives 404. On a known course the response is `full` exactly when `taken >= capacity`; otherwise it is 500 with the insert error's message, or 200. |
| `ClaimSeat.Taken` | supabase/functions/claim-seat/index.ts:24-29 | The `taken` count the RPC reports for a course is its number of registrations: 0 for an empty table, and never more than the table's length. |
| `ClaimSeat.TakenZero` | supabase/functions/claim-seat/index.ts:24-29 | A course's count is 0 exactly when no registration names it. |
| `ClaimSeat.LockAndCount` | supabase/functions/claim-seat/index.ts:18-29 | Creating the client and calling the RPC: a throw exactly when `createClient` throws, an error exactly when the RPC fails, otherwise a row exactly for a known course. That answer is a single row holding the course's capacity and its live count. |
| `ClaimSeat.TakenAppend` | supabase/functions/claim-seat/index.ts:34-36 | Appending a registration raises the taken count of its own course by one and of no other course. |
| `ClaimSeat.StepTaken` | supabase/functions/claim-seat/index.ts:30-40 | After a claim, a course's count is its old count, plus one exactly when the claim succeeded and was for that course. |
| `ClaimSeat.StepWithinCapacity` | supabase/functions/claim-seat/index.ts:30-36 | If no course is over capacity before a claim, none is after it, whatever the request and the database do. |
| `ClaimSeat.Store.Insert` | supabase/functions/claim-seat/index.ts:34-37 | The insert appends the registration unless the database reports an error, and returns that error. |
| `ClaimSeat.Store.Claim` | supabase/functions/claim-seat/index.ts:12-43 | The imperative handler, with its early returns. Its response and new table equal `Step` on the old table. On 200 exactly one pending registration is appended; on every other response the table is unchanged. It preserves the capacity invariant. |
| `ClaimRuns.Run` | supabase/functions/claim-seat/index.ts:3-7 | Serialised claims run one after another, each on the table its predecessor left. There is one response per claim, and capacities stay unchanged. |
| `ClaimRuns.RunWithinCapacity` | supabase/functions/claim-seat/index.ts:30-36 | For any sequence of claims, on any courses and with any database failures, if every course starts with taken ≤ capacity, every course ends with taken ≤ capacity. |
| `ClaimRuns.RunKeepsCourseWithinCapacity` | supabase/functions/claim-seat/index.ts:30-36 | For any sequence of claims and any database failures, a course that starts with taken ≤ capacity ends with taken ≤ capacity, whatever the other courses hold. |
| `ClaimRuns.RunCons` | supabase/functions/claim-seat/index.ts:3-7 | A run is its first claim's step followed by the run of the rest on the table that step left. |
| `ClaimRuns.CleanStep` | supabase/functions/claim-seat/index.ts:30-40 | A well-formed claim on a known course, with nothing failing, gets 200 exactly when its course's count is below the capacity, and `full` otherwise. It raises that count by one exactly when it gets 200. |
| `ClaimRuns.VerdictsAt` | supabase/functions/claim-seat/index.ts:30-32 | In the response pattern of clean claims starting at count t, the k-th response is 200 exactly when t + k < capacity, and `full` otherwise. |
| `ClaimRuns.CountVerdicts` | supabase/functions/claim-seat/index.ts:30-40 | In that pattern for N claims, exactly min(N, max(capacity − t, 0)) responses are 200 and the rest are `full`. |
| `ClaimRuns.RunResponsesOnOneCourse` | supabase/functions/claim-seat/index.ts:30-40 | Clean claims on one known course, starting at count t, get exactly that response pattern. |
| `ClaimRuns.LedgerTracksAdmissions` | supabase/functions/claim-seat/index.ts:34-40 | After any run, a course's count is its old count plus the number of claims on it that got 200; the count never moves otherwise. |
| `ClaimRuns.AdmittedOnOneCourse` | supabase/functions/claim-seat/index.ts:34-40 | When every claim is a clean claim (well-formed, nothing failing) on one course, the claims admitted on it are exactly the 200 responses. |
| `ClaimRuns.ClaimsOnOneCourse` | supabase/functions/claim-seat/index.ts:30-40 | N clean claims on a course holding t registrations with capacity C: exactly min(N, max(C − t, 0)) get 200, all others get `full`, and the course gains one registration per 200. |
| `ClaimRuns.FreshCourse` | supabase/functions/claim-seat/index.ts:30-40 | N clean claims on a course with capacity C ≥ 0 and no registrations: exactly min(N, C) succeed, exactly max(0, N − C) are `full`, and the final count is min(N, C). |
| `ClaimRuns.FullStaysFull` | supabase/functions/claim-seat/index.ts:30-32 | Once a course is full its count never changes, for any later claims and database behaviour. Every well-formed claim on it that reaches the capacity check (the client is created and the RPC succeeds) is `full`. |
| `ClaimRuns.ZeroCapacity` | supabase/functions/claim-seat/index.ts:30-32 | With capacity 0, every such claim is `full` and no registration for the course is ever added. |
| `ClaimRuns.RunTwo` | supabase/functions/claim-seat/index.ts:3-7 | A run of two claims gives the first claim's response and then the second's, on the table the first left. |
| `ClaimRuns.LastSeat` | supabase/functions/claim-seat/index.ts:30-40 | Two principals claim the last free seat: the first gets 200 and the only new registration, and the second gets `full`. |
| `ClaimRuns.RepeatedClaim` | supabase/functions/claim-seat/index.ts:30-36 | There is no duplicate check. The same user claiming twice on a course with two free seats gets 200 twice, and two identical pending registrations are appended. |
| `RegisterRoute.Post` | src/app/api/register/route.ts:10-46 | A payload is forwarded exactly when the body has a truthy `courseId` and a user is signed in. The payload is `{course_id: courseId, user_id: user.id}`. The callee's status and body come back unchanged, and a failed call gives 500 `Error invoking function`. A missing `courseId` gives 400 `Missing courseId`, and no session gives 401 `Not authenticated`. An unparsable or `null` body escapes the route as an exception. |
| `RegisterRoute.CourseIdCheckedFirst` | src/app/api/register/route.ts:11-25 | Without a `courseId` the answer is 400, with nothing forwarded, whether or not the caller is signed in and whatever the callee would do. |
| `RegisterRoute.UserIdFromSession` | src/app/api/register/route.ts:37 | The user id written in the request body makes no difference to the route. The forwarded user id is the session user's id. |
| `RegisterRoute.ForwardedPassesValidation` | src/app/api/register/route.ts:28-38 | A forwarded payload from a user with a non-empty id never gets `claim-seat`'s 400 `Missing parameters`, whatever the RPC answers, and gets 400 `Invalid request` exactly when creating the client throws. |
| `RegisterRoute.RegistersSessionUser` | src/app/api/register/route.ts:27-41 | With `claim-seat` as the callee, the caller receives exactly `claim-seat`'s response. A successful claim appends a registration for the body's course and the session's user. |
| `AdminDashboard.Find` | src/app/admin/page.tsx:31 | `find` returns nothing exactly when no row has the course id. Otherwise it returns the row at the first matching position. |
| `AdminDashboard.TakenOf` | src/app/admin/page.tsx:31-34 | `taken` is 0 when the counts list is null or no row matches. Otherwise it is the first matching row's `taken` if that is truthy, and 0 if not. The result is always 0 or truthy. |
| `AdminDashboard.Annotate` | src/app/admin/page.tsx:30-36 | The result has the same length and order as the courses. Each entry keeps all of its course's fields and adds that course's `taken`. |
| `AdminDashboard.CoursesWithCounts` | src/app/admin/page.tsx:30 | A null course list gives an empty table. Otherwise there is one row per course, in order. Row i keeps every field of course i and adds that course's `TakenOf`. |
| `AdminDashboard.AnnotateAppend` | src/app/admin/page.tsx:30-36 | Annotating two lists one after the other gives the same rows as annotating their concatenation. |
| `AdminDashboard.Dashboard` | src/app/admin/page.tsx:10-36 | No user gives the login-required page. A missing profile, or a role other than `'admin'`, gives the no-permission page. The table appears exactly for a user whose profile role is `'admin'`, and it holds `CoursesWithCounts` of the two lists. |

## Left out

- Atomicity of a claim is assumed from the code's comments, not shown. The RPC (index.ts:24-25) and the insert (index.ts:34-36) are two separate requests, and nothing in the handler shows the lock still held when the insert runs. `ClaimRuns.RunWithinCapacity`, `ClaimRuns.RunKeepsCourseWithinCapacity`, `ClaimRuns.FreshCourse`, `ClaimRuns.LastSeat` and the other run lemmas hold for claims run one at a time; the model does not show that the handler is race-free under concurrent requests.
- The SQL of `lock_course_and_count` is not part of this model. Its lock is represented only by treating each claim as one atomic step. The model has no lock and no interleavings, and no timeout or `Busy` path, which nothing in the code implements.
- What counts as `taken` inside the RPC and the `course_counts` view is unseen. The model counts every registration of the course, whatever its status, since the handler only ever writes `pending`.
- The following are I/O; their results are inputs to the model:
  - Deno `serve`, `req.json()`, `Response` and `NextResponse` construction.
  - `fetch`, `resp.json()`, environment variables and `console.error`.
  - The Supabase client factories. For `createClient` in `claim-seat` the model keeps only whether it throws (`ClaimSeat.Env`). In the route and the admin page the session user, the profile and the query results are inputs; a throw from `createServerClient`, `supabaseServer` or `auth.getUser` is not modelled.
- `Web.Value` models JavaScript numbers as integers. Fractions and `NaN` are not modelled, nor is comparing `taken >= capacity` on non-numeric values such as `null` capacities. The RPC row's fields are integers.
- JSON objects carry only the properties the handlers read. Any other properties of a body are ignored, as the handlers ignore them.
- Course ids are compared as values (`===`). The database's own id typing and coercions are not modelled.
- The framework's response to an exception that escapes `POST` is shown only as `Unhandled`.
- JSX rendering, `Date`/`toLocaleString` formatting and `price_cents / 100` (floating-point display arithmetic) are not modelled.
- The registration status lifecycle beyond `pending`, and cancellation, are not modelled; the code never changes a status.
- The login, home, tutors and account pages, and the admin course-detail page, are query-and-render only and are not part of this model.

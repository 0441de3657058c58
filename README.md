# Session, authentication and access gate of a billing web backend

This project models the core of `app.py`, a FastAPI backend for a utility's
billing pages, in Dafny and proves properties of that model. `app.py` signs users in through an external OAuth
server, keeps short-lived sessions in Redis, derives a role from the
username, gates three billing pages on that role, and accepts bill
adjustments.

The model has these parts:

- **Roles** (`roles.dfy`): `get_role` as a function from a username to an optional role. The role depends only on the suffix `_u1`, `_u2` or `_u3`.
- **Web** (`web.dfy`): the `HTTPException`s the handlers raise, their responses, and `custom_http_exception_handler`. That handler turns exactly `(401, "Token has expired")` into a redirect home. Every other exception becomes a JSON body.
- **Sessions** (`sessions.dfy`): the Redis store as a class `SessionStore`. Its fields are a map of payloads, an expiry stamp per key and a discrete clock (`Get`, `SetEx`, `Delete`, `Advance`). Each method is specified by a function on the value `StoreState`. `validate_session` is the method `ValidateSession`, specified by the function `ValidateOn`.
- **Auth** (`auth.dfy`): the OAuth callback `getAccessToken` as `Callback`. It first makes a pure decision (`AuthenticatedUser`), then writes one new 15-second session. Sign-out is `SignOut`. The lemmas follow a session through issuance, validation, expiry and sign-out.
- **Access** (`access.dfy`): the three gated GET pages. Each validates the session, then asks the access controller about the page's function name, and raises 403 if the answer is no.
- **Decimal** (`decimal.dfy`): `str` and `int` on integers, used for the confirmation number.
- **Adjustments** (`adjustments.dfy`): `post_bill_adjustments`. It runs three guards in a fixed order, then calls the `fun_adjust_Bill` stored function, with the confirmation number `int(str(bill_id) + str(year) + str(month))`.

Inputs stand in for outside systems:

- The token exchange and JWT check: the datatype `TokenExchange`.
- `uuid.uuid4()`: a parameter `freshId`, required to be non-empty and not already in the store.
- The access controller's `is_allowed`: a function parameter `isAllowed` that can be any relation between roles and function names.
- The clock: `Advance`.
- What the database queries and stored functions return: plain parameters.

Points where the model follows the code rather than what the code's comments say:

- The POST handlers take no session cookie and make no access check. The comment in `app.py` at line 234 says they are "also protected by the access control logic". `PostBillAdjustments` takes no session and no role.
- The adjustments page asks the controller about `"/bill-adjustment"`, not its own path `"/bill-adjustments"` (`AdjustmentFunctionNameIsNotItsRoute`).
- A JWT whose signature has expired makes the callback raise the same `(401, "Token has expired")` as an expired session. So the handler redirects it home too (`ExpiredJwtRedirectsHome`).
- The role stored in a session payload is always `None` and is never read. Validation derives the role from the username each time (`StoredRoleIgnored`).

## Model

| member | source | states |
|---|---|---|
| `Roles.GetRole` | app.py:95-101 | the result has a role exactly when the username ends in `_u1`, `_u2` or `_u3`, and the role it gives is the one whose suffix the name ends with |
| `Roles.GetRoleIsSuffix` | app.py:95-101 | a username gets role `r` if and only if it ends with `r`'s suffix (customer `_u1`, bank_cashier `_u2`, disco_employee `_u3`) |
| `Roles.SuffixesExclusive` | app.py:95-101 | no username ends with two different role suffixes, so the order of the three tests never matters |
| `Roles.RoleOfSuffixedName` | app.py:95-101 | any name followed by a role's suffix gets that role |
| `Roles.RoleMeansSuffixedName` | app.py:95-101 | a username that gets a role is some name followed by that role's three-character suffix |
| `Roles.RoleStringOfSuffixedName` | app.py:95-101 | any name followed by `_u1`, `_u2` or `_u3` gets the role string "customer", "bank_cashier" or "disco_employee" respectively |
| `Web.HandleHttpException` | app.py:177-182 | an exception becomes a 302 redirect to the home URL if and only if it is `(401, "Token has expired")`; any other becomes a JSON response with the same status and detail |
| `Web.Respond` | app.py:177-182 | a returned response reaches the client unchanged; a raised exception never renders a page, becomes a redirect exactly when it is the expired-token exception, and that redirect is the 302 to the home URL with the cookie kept; otherwise it keeps its status and detail |
| `Web.HandlerInjectiveOffExpiry` | app.py:182 | distinct exceptions other than the expired token give distinct responses, so status and detail pass through unchanged |
| `Sessions.Lookup` | app.py:107-111 | a key reads as a payload exactly when the store holds it, and then as the payload stored under it |
| `Sessions.WithEntry` | app.py:155 | `setex` makes the key read as the new payload with stamp now + ttl; every other key keeps both its payload and its expiry stamp (or its absence); the clock does not move; the store stays well formed |
| `Sessions.WithoutEntry` | app.py:190 | `delete` makes the key read as absent; every other key keeps both its payload and its expiry stamp; the clock does not move; deleting an absent key changes nothing |
| `Sessions.Elapse` | app.py:155 | after `dt` seconds a key reads as before if its stamp is still ahead of the clock, and as absent otherwise |
| `Sessions.ValidateOn` | app.py:103-119 | a missing or empty cookie gives 401 "Not authenticated. Session token missing"; "Token has expired" is given exactly for a non-empty id the store lacks; a stored payload with an empty username gives 401 "Username missing in session token"; success happens exactly when the id is stored with a non-empty username, and returns that username with the role derived from it; every failure is a 401 |
| `Sessions.ValidateSession` | app.py:103-119 | the method's result is exactly `ValidateOn` of the store it reads |
| `Sessions.SessionStore.constructor` | app.py:53 | a new store is empty and well formed |
| `Sessions.SessionStore.Get` | app.py:107 | returns the payload stored under the key, or none |
| `Sessions.SessionStore.SetEx` | app.py:155 | the new state is `WithEntry` of the old one |
| `Sessions.SessionStore.Delete` | app.py:190 | the new state is `WithoutEntry` of the old one |
| `Sessions.SessionStore.Advance` | app.py:155 | the new state is `Elapse` of the old one; expired keys are gone |
| `Sessions.NoUsernameMissing` | app.py:114-115 | when every stored payload names a user, validation never raises "Username missing in session token" |
| `Sessions.WithEntryKeepsInvariant` | app.py:150-155 | writing a named user's session with a lifetime of at most 15 seconds keeps the session invariant |
| `Sessions.WithoutEntryKeepsInvariant` | app.py:190 | deleting a key keeps the session invariant |
| `Sessions.ElapseKeepsInvariant` | app.py:155 | time passing keeps the session invariant |
| `Sessions.SameEntrySameFuture` | app.py:107-109 | two stores at the same time that agree on a key's payload and stamp give the same validation result for that key after any number of seconds |
| `Sessions.ElapseAdditive` | app.py:155 | letting `a` then `b` seconds pass gives the same store as letting `a + b` pass at once |
| `Sessions.NoSessionOutlivesTtl` | app.py:155 | when no entry has more than 15 seconds left, the store is empty 15 seconds later |
| `Sessions.StoredRoleIgnored` | app.py:111-119 | validating a session gives the same result whatever role its payload stores |
| `Auth.AuthenticatedUser` | app.py:122-173 | a missing or empty code is 400 "Authorization code not provided/missing.", checked before anything else; the callback succeeds exactly when the code is present and the decoded token has a non-empty `sub`, and the user is that `sub`; with a code present, a failed token request is 500 "Error fetching token: " plus the reason (line 169), a reply without a token is 401 "Failed to retrieve token." (line 140), a missing or empty `sub` is 401 "Invalid Token: Missing Username" (line 145), an invalid JWT is 401 "Invalid Token" (line 173), and the result is 401 "Token has expired" if and only if the JWT's signature has expired (line 171) |
| `Auth.Callback` | app.py:121-173 | on failure the callback raises the decided exception and leaves the store unchanged; on success the store gains `freshId` holding the user with role none for 15 seconds, and the response redirects to `/dashboard` with the cookie set to `freshId` |
| `Auth.AfterCallback` | app.py:123-155 | a failed callback leaves the store as it was; a successful one makes `freshId` read as the token's `sub` with role none, stamped 15 seconds ahead; every other id keeps its payload and stamp, the clock does not move, and the store stays well formed |
| `Auth.AfterSignOut` | app.py:189-190 | the presented non-empty id reads as absent; every other id keeps its payload and stamp, the clock does not move, and the store stays well formed |
| `Auth.SignOut` | app.py:185-196 | the response is always a 302 redirect home that deletes the cookie; the store loses the presented key if it is non-empty and is otherwise unchanged |
| `Auth.FailedCallbackChangesNothing` | app.py:123-145 | a callback that raises leaves the store exactly as it was |
| `Auth.CallbackAddsOneSession` | app.py:148-155 | a successful callback adds exactly the key `freshId`, holding the token's `sub` with role none and an expiry 15 seconds ahead; every other id validates as it would have without the callback, at every later time |
| `Auth.SessionLifetime` | app.py:107-109 | `dt` seconds after issuance, the new id validates as the user with their derived role if `dt < 15`, and gives "Token has expired" otherwise |
| `Auth.SessionLifetimeInSteps` | app.py:155 | after `a` then `b` seconds the session is still valid if and only if `a + b < 15` |
| `Auth.SignOutEndsOnlyThatSession` | app.py:189-190 | after sign-out the presented id gives "Token has expired", now and at every later time, and every other id validates as it would have without the sign-out, at every later time |
| `Auth.SignOutWithoutTokenChangesNothing` | app.py:189 | signing out with no cookie or an empty one leaves the store unchanged |
| `Auth.LifecycleKeepsInvariant` | app.py:143-155 | the callback, sign-out and the passing of time all keep the session invariant: keys carry stamps ahead of the clock, no key has more than 15 seconds left, and every payload names a user |
| `Auth.ExpiredJwtRedirectsHome` | app.py:170-180 | an identity token with an expired signature raises "Token has expired" at the callback, and the client receives the 302 redirect home |
| `Access.Gate` | app.py:209-227 | a known user's page renders with that user if and only if `is_allowed(role, function)` holds; otherwise it raises 403 "Forbidden" |
| `Access.ServeGatedOn` | app.py:207-228 | a gated page redirects home exactly when the session check says "Token has expired"; it answers JSON 403 "Forbidden" exactly when the session validates and the controller refuses the user's role for the page's function; every other JSON answer is a 401; a session error other than "Token has expired" (a missing cookie, or a payload without a username) is answered as JSON 401 carrying that error's own detail |
| `Access.ServeGatedPage` | app.py:207-228 | the response is the session check's error passed through the handler, or else the gate's outcome passed through the handler |
| `Access.RendersIffAllowed` | app.py:207-228 | a gated page renders if and only if the session validates and the controller allows the user's role for the page's function; it then shows the validated user |
| `Access.RefusedUserGetsForbidden` | app.py:210-211 | a validated user whose role is refused gets a JSON 403 "Forbidden" |
| `Access.ExpiredSessionRedirectsHome` | app.py:107-109 | an unknown or expired session id on a gated page leads to the redirect home, whatever the policy |
| `Access.MissingCookieIsUnauthorized` | app.py:104-105 | with no cookie, or an empty one, a gated page answers with a JSON 401 "Not authenticated. Session token missing" |
| `Access.GateDependsOnRoleOnly` | app.py:210 | two users with the same role get the same decision |
| `Access.AdjustmentFunctionNameIsNotItsRoute` | app.py:223-226 | a page's function name equals its path, except for the adjustments page, which asks about "/bill-adjustment" |
| `Decimal.IntToString` | app.py:374 | `str` of an integer is non-empty, starts with a minus sign exactly when the integer is negative, and `int` reads it back as the same integer |
| `Decimal.ParseInt` | app.py:374 | `int` accepts exactly a run of digits or a minus sign followed by one; a plain run of digits reads as its value, and only a text starting with a minus sign reads as a negative number |
| `Decimal.ParseIntCanonical` | app.py:374 | for digits without a leading zero, with or without a minus sign, `str(int(s))` gives back `s` |
| `Adjustments.AdjustmentId` | app.py:374 | the confirmation number is what `int` reads from `str(bill_id) + str(year) + str(month)` |
| `Adjustments.AdjustmentIdValue` | app.py:374 | the number equals the bill id's magnitude shifted past the digits of the year and the month, plus the year shifted past the month's digits, plus the month, with the bill id's sign |
| `Adjustments.AdjustmentIdDigits` | app.py:374 | for a non-zero bill id, the number's decimal text is the bill id's, then the year's, then the month's |
| `Adjustments.BillZeroDropsItsDigit` | app.py:374 | for bill 0 the leading "0" is lost: the number's text shows only the year and the month |
| `Adjustments.AdjustmentIdFourDigitYear` | app.py:374 | for a four-digit year, the number is the bill magnitude times 10000 plus the year, times 10 or 100 (for a one- or two-digit month), plus the month, with the bill id's sign |
| `Adjustments.MonthShiftInjective` | app.py:374 | for four-digit years and months 1 to 12, the unsigned number determines the year and the month |
| `Adjustments.AdjustmentIdSameMonthIff` | app.py:371-374 | for one bill and four-digit years, two numbers are equal if and only if the year and the month are the same |
| `Adjustments.DifferentBillsCanShareNumber` | app.py:374 | bill 12 in January 2021 and bill 1 in November 2202 both get the confirmation number 1220211 |
| `Adjustments.PlanAdjustment` | app.py:354-377 | the guards run in order: no bill row gives "Invalid BillID provided."; then an original amount different from the amount due gives the mismatch message; then a missing payment row gives an unhandled error; then a truthy payment status gives the already-paid message; the stored function is called exactly when the bill exists, the amounts agree and the bill is unpaid, with this bill's id, the current date and the confirmation number, and the officer's name and designation, the original and adjustment amounts and the reason exactly as the form gave them |
| `Adjustments.PostBillAdjustments` | app.py:354-393 | the receipt is shown exactly when the stored function is called and returns 1, and it shows the call's details; a call that returns anything else gives the processing-error page; a guard that stops the handler gives that guard's page |
| `Adjustments.GuardsDecideBeforeTheCall` | app.py:354-377 | when a guard stops the handler, the stored function's result cannot affect the response |
| `Adjustments.ConfirmationNumberPerMonth` | app.py:371-377 | two adjustments of the same bill that reach the stored function carry the same confirmation number if and only if they are made in the same year and month, whatever the day and time |

## Left out

- FastAPI routing, CORS middleware, static files and Jinja rendering are framework input and output with no logic of their own. A rendered page is a template name plus the value shown on it.
- Cookie attributes (`httponly`, `samesite`, `secure`) are left out. The model keeps only the cookie's value and its 15-second max-age.
- `get_index` and `get_dashboard` are left out. The dashboard only validates the session, which `ValidateSession` covers.
- `post_bill_payment`, `post_bill_retrieval` and `util.get_bill_data` are left out. They fetch from the database and assemble dictionaries, with floating-point tax arithmetic. `util.py` is not part of this model.
- The HTTP request to the OAuth server and `jwt.decode` are network and cryptography libraries. Their result is the input `TokenExchange`. A JSON decoding failure of the reply counts as `ExchangeFailed`, because `requests` raises it as a `RequestException`.
- `uuid.uuid4()` is random. It is the parameter `freshId`, which must be non-empty and not already in the store.
- Redis runs on a millisecond wall clock. It removes expired keys both on access and by periodic sampling, but a GET never returns an expired key, which is all the model relies on. The model uses a whole-second clock and drops a key as soon as the clock reaches its stamp. So a session lives for seconds 0 to 14 after issuance. Redis connection errors are not modelled.
- The session payload's JSON encoding is not modelled. The payload is stored as the value itself, and `json.loads(json.dumps(p))` is taken to give back `p`.
- Amounts are `real`, not Python floats. Float rounding, and equality of a float with what Oracle returns, are not modelled.
- `PaymentStatus` is reduced to its truthiness. The column's actual type is not known here, so `paymentStatus` is a `bool` input.
- Database errors inside `post_bill_adjustments` are not modelled. The one unhandled error that is modelled is the missing payment-details row.
- `AccessController` lives in `access_ctrl.py`, which is not part of this model. Its `is_allowed` is the parameter `isAllowed`, with no assumption about the policy.
- The unused module-level `SESSIONS` dictionary and the `print` of the confirmation number are left out.
- The handlers are `async` and can interleave. The model treats each request as one atomic step.
- `Decimal.ParseInt` reads only an optional minus sign followed by digits. That is all `str` of an integer produces. Python's `int` also accepts whitespace, `+` and underscores, which never occur here.
- `AdjustmentIdSameMonthIff` and `ConfirmationNumberPerMonth` are about one bill and require four-digit years. With other year lengths the digits of the year and the month can run together. Different bills can share a number even with four-digit years (`DifferentBillsCanShareNumber`), so nothing is claimed across bills. The source promises nothing on this point.

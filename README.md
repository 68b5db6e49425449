# Phoenix IMF Gadget API — a Dafny model

This project models the core of a small authenticated CRUD service that tracks fictional gadgets. Each gadget has a name, a unique codename and a lifecycle status. Users are admins or agents.

The model covers:

- the **gadget store**: a table class holding `map<Id, Gadget>`. The service's list, lookup, create, partial-update, decommission and destroy operations are methods and functions over it.
- the **codename generator**: draw an adjective and a noun from two fixed ten-word lists, form `"The <Adjective> <Noun>"`, and retry until no stored gadget has that codename.
- the **gadget controller**: the order in which each handler checks its request, and how service results map to 200/201/400/404/500 responses.
- the **authentication middleware**: parsing the `Authorization: Bearer <token>` header, verifying the token (which records the caller on the request), and the role gate `authorize(roles)`.
- the **auth controller**: register and login over a user table keyed by username.
- the **gadget router**: the seven routes and their middleware chains, how a chain runs, and a `Serve` method that runs a chain and then one handler.

Inputs stand in for the parts the model cannot see:

- Time, store-assigned ids and `Math.random()` are parameters. This includes the `expectedCode` that self-destruct generates per request. The caller's `confirmationCode` is a request field.
- bcrypt and jsonwebtoken are datatypes of function values. The ghost predicates `SoundBcrypt` and `SoundJwt` state the only assumptions made about them:
  - `compare(p, hash(p, salt))` holds;
  - `verify(sign(c)) == Some(c)`;
  - a signed token contains no space.

Store behaviour the code depends on is modelled explicitly:

- An absent field in an update leaves that column unchanged.
- A status string outside the four-value enum makes the store throw. The controller turns this into a 500.
- Codenames are unique. `GadgetTable.Valid()` states this, and every mutator keeps it.

Files, one module each: `wrappers.dfy`, `text.dfy`, `gadgets.dfy`, `codename_generator.dfy`, `gadget_service.dfy`, `http.dfy`, `auth.dfy`, `auth_controller.dfy`, `gadget_controller.dfy`, `gadget_routes.dfy`.

Behaviour of the code that the model keeps, including places where it differs from the design description:

- `updateGadget` answers 400 when neither `name` nor `status` is truthy. It checks this **before** the lookup, so an unknown id also gets 400.
- An update body with `name: ""` and a valid status overwrites the name with the empty string. An update body with `status: ""` and a valid name makes the store throw (500).
- `getGadgetsByStatus` filters on the **query** parameter `status`, not on the `:status` path segment. With no query it lists every gadget. With `?status=` (empty) the store throws.
- `getGadgets` treats an empty `?status=` as no filter.
- On `destroy`, `decommissionedAt` is not touched.
- The self-destruct code is compared against a code generated in the same request. Only a caller who supplies exactly that code reaches `destroy`.

## Model

| member | source | states |
|---|---|---|
| `Text.Split` | src/middleware/auth.ts:27 | `split(' ')` yields at least one part, and no part contains the separator |
| `Text.JoinSplit` | src/middleware/auth.ts:27 | splitting loses nothing: joining the parts with the separator gives back the header |
| `Text.SplitJoin` | src/middleware/auth.ts:27 | splitting inverts joining for separator-free parts |
| `Text.SplitAfterField` | src/middleware/auth.ts:27 | a separator-free field followed by the separator is split off as the first part, so the token is the second part |
| `Gadgets.ParseStatus` | src/routes/gadgetRoutes.ts:26 | exactly the four enum spellings are accepted, each as its own status; any other string is rejected |
| `Gadgets.StatusRoundTrip` | src/routes/gadgetRoutes.ts:26 | spelling a status and parsing it back gives the same status, and an accepted string is the status's spelling |
| `Gadgets.FindMany` | src/services/gadgetService.ts:12-14 | with a status, exactly the rows of that status come back, unchanged; with no status, the whole table |
| `Gadgets.FindManyPartition` | src/services/gadgetService.ts:94-105 | each gadget is listed under its own status and under no other |
| `Gadgets.PatchedOverwritesOnlySupplied` | src/services/gadgetService.ts:57-60 | a partial update sets name and status only when they are supplied; id, codename and decommission time are kept; an empty patch changes nothing |
| `Gadgets.InsertKeepsValid` | src/services/gadgetService.ts:38-44 | inserting a fresh-id row whose codename is unused keeps rows keyed by id and codenames unique |
| `Gadgets.ReplaceKeepsValid` | src/services/gadgetService.ts:70-76 | rewriting a row without changing its codename keeps the table valid |
| `CodenameGenerator.PickIndex` | src/utils/codeNameGenerator.ts:19-20 | `Math.floor(Math.random() * length)` is an index in [0, length) |
| `CodenameGenerator.Candidate` | src/utils/codeNameGenerator.ts:19-21 | every candidate has the form "The " + adjective + " " + noun with both words from the fixed lists |
| `CodenameGenerator.GenerateCodename` | src/utils/codeNameGenerator.ts:14-33 | reads the table without writing it. A result is well-formed, unused, and the first unused candidate among the draws. No result happens exactly when every draw collides |
| `CodenameGenerator.FullTableBlocksGenerator` | src/utils/codeNameGenerator.ts:18-30 | once 100 distinct generator codenames are stored, all 100 combinations are in use, so no draw can end the loop |
| `GadgetService.GetAllGadgets` | src/services/gadgetService.ts:11-20 | a falsy status lists all gadgets; a status string lists exactly the gadgets with that status; the store throws exactly when the string is not an enum value |
| `GadgetService.GetGadgetById` | src/services/gadgetService.ts:22-33 | `None` exactly when the id is not stored, otherwise that record |
| `GadgetService.CreateGadget` | src/services/gadgetService.ts:35-45 | adds one Available record with the given name, the new id and a fresh generator codename; other records are unchanged and codenames stay unique; nothing is written while the search runs |
| `GadgetService.UpdateGadget` | src/services/gadgetService.ts:47-61 | unknown id: `None`, table unchanged; status outside the enum: throws, table unchanged; otherwise only the addressed row changes, to its patched form |
| `GadgetService.DecommissionGadget` | src/services/gadgetService.ts:63-77 | unknown id: `None`, table unchanged; otherwise that row alone gets status Decommissioned and `decommissionedAt = now` |
| `GadgetService.DestroyGadget` | src/services/gadgetService.ts:79-92 | unknown id: `None`, table unchanged; otherwise that row alone gets status Destroyed, decommission time kept |
| `GadgetService.GetGadgetsByStatus` | src/services/gadgetService.ts:94-105 | an absent status lists everything; a status string lists exactly the gadgets with it; an empty or unknown string makes the store throw |
| `GadgetService.ListingsAgree` | src/services/gadgetService.ts:11-20 | the two listings agree on every non-empty status string and differ on the empty one (all gadgets versus a store error) |
| `Auth.BearerToken` | src/middleware/auth.ts:20-27 | a token exists exactly when the header is present and starts with the case-sensitive "Bearer "; the token is the text after the prefix up to the next space |
| `Auth.BearerHeaderToken` | src/middleware/auth.ts:22-27 | the header "Bearer " + t, for a space-free t, yields exactly t |
| `Auth.Authentication` | src/middleware/auth.ts:19-36 | admit exactly when a token is extracted and verifies, with the decoded identity; otherwise 401 "Access denied. No token provided." or 401 "Invalid token." |
| `Auth.SignedTokenAdmits` | src/middleware/auth.ts:27-32 | a bearer header holding a token the service signed admits the identity signed into it |
| `Auth.Authenticate` | src/middleware/auth.ts:19-36 | on admit, `req.user` is the decoded identity and the request passes on; on deny, the 401 is returned and `req.user` is untouched |
| `Auth.Authorization` | src/middleware/auth.ts:38-52 | passes exactly when an identity is recorded and its role is listed; 401 when none is recorded, 403 when its role is not listed |
| `AuthController.ParseRole` | src/controllers/authController.ts:29 | only "admin" and "agent" are stored roles |
| `AuthController.RequestedRole` | src/controllers/authController.ts:29 | a falsy role defaults to agent; any other role string is stored as given or rejected by the store |
| `AuthController.Register` | src/controllers/authController.ts:11-45 | a taken username gets 400 and the table is unchanged; otherwise the user is stored with the hashed password and its role, and the 201 token signs `{id, username, role}` |
| `AuthController.Login` | src/controllers/authController.ts:47-77 | an unknown username and a wrong password get the identical 401; success is 200 exactly when the password matches, with a token for the stored identity, whose username is the one asked for because the table is keyed by username; the table is only read |
| `AuthController.RegisterThenLogin` | src/controllers/authController.ts:33-36 | after registering, login with the same password succeeds, and both tokens authenticate as the registered `{id, username, role}` |
| `GadgetController.GetGadgets` | src/controllers/gadgetController.ts:7-15 | 200 with the filtered list exactly when the query status is falsy or an enum value, else 500 |
| `GadgetController.GetGadget` | src/controllers/gadgetController.ts:17-30 | 404 for an unknown id, otherwise 200 with the stored gadget |
| `GadgetController.CreateGadget` | src/controllers/gadgetController.ts:32-45 | a falsy name gets 400 and the table is untouched; otherwise 201 with the new Available gadget, which has the given name and an unused codename |
| `GadgetController.UpdateGadget` | src/controllers/gadgetController.ts:47-66 | 400 when neither field is truthy, before any lookup; then 404 for an unknown id, 500 for a status outside the enum, 200 with the patched row |
| `GadgetController.DeleteGadget` | src/controllers/gadgetController.ts:68-84 | decommissions rather than removes: 404 for an unknown id, otherwise 200 "Gadget decommissioned successfully" with the decommissioned gadget |
| `GadgetController.SelfDestructGadget` | src/controllers/gadgetController.ts:86-111 | a falsy or wrong code gets 400 echoing the expected code, table untouched, before any lookup; only the matching code destroys (404 or 200) |
| `GadgetController.GetGadgetsByStatus` | src/controllers/gadgetController.ts:113-121 | the filter comes from the query, not the path segment: no query lists every gadget; an unknown query status gets 500 |
| `GadgetRoutes.EveryChainAuthenticatesFirst` | src/routes/gadgetRoutes.ts:86-330 | every route's chain begins with authenticate; create, update and delete add authorize(['admin']), the others nothing |
| `GadgetRoutes.RoutesDistinct` | src/routes/gadgetRoutes.ts:86-330 | no two routes share a verb and path |
| `GadgetRoutes.UnauthenticatedGets401` | src/routes/gadgetRoutes.ts:169-176 | a request authentication rejects gets that 401 on every route, admin routes included, never a 403 |
| `GadgetRoutes.AdmittedReachesOpenRoutes` | src/routes/gadgetRoutes.ts:86-330 | on the two list routes, get-by-id and self-destruct, any header `authenticate` admits reaches the handler with the decoded identity |
| `GadgetRoutes.AdmittedNonAdminForbidden` | src/routes/gadgetRoutes.ts:169-271 | any admitted identity whose role is not "admin" gets 403 "Access forbidden" on create, update and delete |
| `GadgetRoutes.AdmittedAdminReachesAdminRoutes` | src/routes/gadgetRoutes.ts:169-271 | any admitted identity whose role is "admin" reaches the create, update and delete handlers |
| `GadgetRoutes.AnyRoleReachesOpenRoutes` | src/routes/gadgetRoutes.ts:86-330 | on the two list routes, get-by-id and self-destruct, any role with a signed token reaches the handler |
| `GadgetRoutes.NonAdminForbidden` | src/routes/gadgetRoutes.ts:169-271 | a signed-in non-admin gets 403 on create, update and delete |
| `GadgetRoutes.AdminReachesAdminRoutes` | src/routes/gadgetRoutes.ts:169-271 | a signed-in admin reaches the create, update and delete handlers |
| `GadgetRoutes.Serve` | src/routes/gadgetRoutes.ts:86-330 | runs the route's middleware in order; a middleware's answer is the response and the table is unchanged; a request the chain lets through gets what that route's handler promises (`Handled`): the response and the new table for each of the seven endpoints |

## Left out

- The HTTP framework, helmet, CORS, rate limiting, Swagger generation, `app.ts`, `authRoutes.ts` and the `/health` route: framework and I/O with no logic of the core's own.
- Mounting under `/api/gadgets` and matching URL paths to routes: `Serve` takes the endpoint directly.
- The global error handler and any store or network failure: only the failures the code itself provokes are modelled. These are a status string outside the enum, and a role the user table does not accept. Both become 500.
- The random success probability attached to read responses. Its source file is not part of this model, and the value carries no meaning.
- The `createdAt` and `updatedAt` timestamps, which the database manages.
- `Math.random()`, as inputs. The codename draws are reals in [0, 1). The confirmation code is an arbitrary string: its base-36 formatting is not modelled.
- CodenameGenerator.GenerateCodename: the unbounded retry loop is modelled over a finite stream of draws. A `None` result means the search is still running when the stream ends. Non-termination itself is therefore stated through `FullTableBlocksGenerator` rather than as divergence.
- GadgetController.CreateGadget: when no codename was found among the draws, it returns `None` (no response yet) instead of hanging.
- List results are maps keyed by id, with no order. The order in which the store returns rows is not modelled.
- Check-then-write races between concurrent requests. Every operation runs alone.
- Request fields are modelled as strings or absent. A number, `null` or array body field is not modelled. Neither is an absent username or password. That gives 500 only once the missing value reaches `findUnique` or bcrypt. A taken username with no password still gets 400 from register. An unknown username with no password still gets 401 from login.
- bcrypt's cost factor. jsonwebtoken's `iat` claim, unset expiry and secret are left out too: the secret is fixed inside the `Jwt` value.
- The user table's role column is taken to be the admin/agent enum. The database schema is not part of this model.
- `prisma/seed.ts`. Its codenames do not follow the generator's format. The model therefore never assumes that stored codenames do, only that they are unique.

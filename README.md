# A verified model of a small social feed's core

The application lets users register, sign in, write short posts, read a feed
of everybody's posts newest first, and look at one user's profile and posts.
This Dafny project models the parts of it whose behaviour can be stated
exactly, and proves what they promise:

- the Mongoose `User` schema (required fields, defaults, the unique `email`
  index) and an in-memory user collection that keeps emails unique
  (`user_schema.dfy`, module `UserSchema`);
- the profile lookup `GET /api/users/:id`, which never reveals the password
  (`user_routes.dfy`, module `UserRoutes`);
- the post routes: `POST /api/posts` on an in-memory post collection, the
  feed `GET /api/posts` and `GET /api/posts/user/:userId`, both sorted by
  `createdAt` descending and populated with the author's public fields
  (`post_routes.dfy`, module `PostRoutes`);
- the client session of `AuthProvider`: token, user, loading flag and the
  `localStorage` entry `'token'`, with `loadUser`, `login`, `register` and
  `logout` as methods of a class (`auth_context.dfy`, module `AuthContext`);
- the post card's relative-time label `timeAgo` and its "no author, nothing
  rendered" guard (`post_card.dfy`, module `PostCard`), with the decimal
  writing of numbers and a reader that gives the number back
  (`decimal.dfy`, module `Decimal`).

`base.dfy` (options, results, ObjectIds, route id parameters), `http.dfy`
(the handlers' responses) and `types.dfy` (the client's user and post shapes)
hold shared vocabulary.

How the environment is represented:

- Stores are classes over `seq<User>` / `seq<Post>`. Ids are natural numbers
  handed out from a counter, standing for ObjectId generation. Timestamps
  are integers (milliseconds); the creation time is a parameter `now`.
- The `auth` middleware is represented by `caller: Option<ObjectId>`: `None`
  means it rejected the request, and the handler answers `AuthRejected`
  without running. Its own status code and message are not modelled.
- A route parameter is an `IdParam`: well formed, or malformed (the
  ObjectId cast fails).
- A store call that throws is a parameter: `dbFault: bool` for the queries,
  and `Fault` for the POST handler, which names the call that throws
  (the author lookup, the save, or the populate).
- On the client, each awaited API answer is an input to the transition:
  `ProfileLookup` for `api.loadUserFromToken()`, `AuthReply` for
  `api.login` / `api.register`. `localStorage` is a `map<string, string>` field.
- For `timeAgo`, the current instant and the post's instant are integer
  milliseconds. The post's date string is a `Stamp`: empty, a string the
  date parser cannot read, or an instant.

What the code does, which the model keeps:

- The content check is `check('content', …).not().isEmpty()`, with no
  trimming, so a whitespace-only post is accepted. `check` looks for `content`
  in the body, the cookies, the headers, the route parameters and the query
  string. Every place that holds it must hold a non-empty value; only when no
  place holds it is the body's missing value rejected. A request whose body
  has no `content` but whose query string has `?content=hi` therefore passes
  the check, and the post is then built from the body's absent `content`
  (which the `Post` schema's save may reject, a 500).
- The POST handler looks the author up but does not use the result. A post can
  therefore reference a user who does not exist; such a post is populated with
  `author: null`.
- When `populate` throws after `save` succeeded, the client gets 500
  `'Server Error'`, but the post stays stored. The other store failures
  (author lookup, save) leave the collection unchanged.
- A malformed `:userId` in `GET /api/posts/user/:userId` is a cast error that
  this route answers with 500. Only `GET /api/users/:id` maps it to 404.
- Mongoose's `required` on a String path rejects the empty string as well as
  a missing value.
- On the client, `if (storedToken)` and `isAuthenticated: !!token` use
  JavaScript truthiness. An empty stored token counts as no token, and
  `isAuthenticated` is false for it although `token` is not null.
- `isAuthenticated` (`AuthProvider.IsAuthenticated`) reads only `token`,
  never `user`.

## Model

| member | source | states |
|---|---|---|
| UserSchema.MissingFields | backend/models/User.js:5-17 | lists exactly the required paths (`name`, `email`, `password`) whose value is missing or empty, each once |
| UserSchema.Build | backend/models/User.js:4-29 | validation fails exactly when a required field is missing or empty, and then reports every such field; on success `name`, `email`, `password` are the given ones, `bio` is the given one or `''`, `avatarUrl` is the given one or absent (no default), `createdAt` is the given one or `now` |
| UserSchema.UserStore.Insert | backend/models/User.js:9-13 | a draft that fails validation is rejected with its missing fields; a valid draft whose email is already stored is rejected as a duplicate key; a rejection leaves the collection unchanged; a success appends exactly the built user with a fresh id; emails stay unique |
| UserRoutes.WithoutPassword | backend/routes/users.js:13 | the selected document keeps the id, `name`, `email`, `bio`, `avatarUrl` and `createdAt` unchanged and has no password |
| UserRoutes.FindById | backend/routes/users.js:13 | the result is a stored user carrying the id, and None only when no stored user carries it |
| UserRoutes.FindByIdFindsStored | backend/routes/users.js:13 | with distinct ids, looking up a stored user's id returns that user |
| UserRoutes.GetUser | backend/routes/users.js:11-25 | without an authenticated caller no handler runs; a malformed id gives 404 `'User not found'`; another store failure gives 500 `'Server Error'`; a well-formed id without a store failure gives 200 or 404, and 404 exactly when no user carries it; a 200 body is a stored user with that id, with every field but the password |
| UserRoutes.GetUserFindsStored | backend/routes/users.js:13-17 | for a stored user, the route answers 200 with that user's public view |
| PostRoutes.PopulateAuthor | backend/routes/posts.js:31 | the populated author is null exactly when no user carries the referenced id; otherwise it holds that user's id, `name`, `bio` and `avatarUrl` |
| PostRoutes.InsertByDate | backend/routes/posts.js:45 | inserting into a newest-first list keeps it newest first and adds exactly the one post |
| PostRoutes.SortNewestFirst | backend/routes/posts.js:45 | the result is a permutation of the posts with `createdAt` non-increasing |
| PostRoutes.NewestFirstUnique | backend/routes/posts.js:45 | two newest-first permutations of the same posts are equal when no two share a `createdAt`: only ties are left open |
| PostRoutes.OfAuthor | backend/routes/posts.js:58 | keeps every post of the author as often as it is stored and no post of any other author |
| PostRoutes.GetFeed | backend/routes/posts.js:40-51 | without an authenticated caller no handler runs; a store failure gives 500 `'Server Error'`; otherwise the body holds every stored post exactly once (as a multiset), with `createdAt` non-increasing, each with its author populated |
| PostRoutes.GetPostsByUser | backend/routes/posts.js:53-64 | without an authenticated caller no handler runs; a malformed id or a store failure gives 500; otherwise the body holds exactly the posts whose author is the requested id, each as often as stored, with `createdAt` non-increasing and the author populated |
| PostRoutes.FeedIsDetermined | backend/routes/posts.js:45 | with distinct creation times the feed equals any newest-first arrangement of the stored posts |
| PostRoutes.FeedOfThreePosts | backend/routes/posts.js:45 | posts created at t = 1, 2, 3 are listed in the order 3, 2, 1 |
| PostRoutes.ContentErrors | backend/routes/posts.js:14-19 | when no place of the request holds `content`, exactly one `'Content is required'` error for the body's missing value; otherwise one error for each place holding an empty `content`, each once, and no other; no error exactly when some place holds `content` and every place holding it holds a non-empty value |
| PostRoutes.QueryContentPassesCheck | backend/routes/posts.js:14-25 | a non-empty `content` in the query string passes the check although the body has none |
| PostRoutes.BodyOnlyCheck | backend/routes/posts.js:14 | when only the body can hold `content`, the request is rejected exactly when the body's `content` is missing or empty |
| PostRoutes.PostStore.Create | backend/routes/posts.js:10-38 | without an authenticated caller no handler runs; a request failing the content check gives 400 with exactly the check's errors; an author-lookup or save failure gives 500; in all of these the collection is unchanged; otherwise exactly one post is appended, whose content is the body's `content` unaltered (absent if the body had none), whose author is the caller (never a body field) and whose id is fresh; with no failure the answer is that post with its author populated, and a populate failure after the save gives 500 with the post kept; ids stay unique |
| Decimal.NatToString | components/PostCard.tsx:17 | the text of a number is a non-empty run of digits without a leading zero |
| Decimal.IntToString | components/PostCard.tsx:17 | the text of an integer starts with `-` exactly when it is negative; the rest is a run of digits, without a leading zero, whose value is the integer's magnitude |
| Decimal.DigitsValueOfNat | components/PostCard.tsx:17 | reading the digits of a number gives the number back |
| Decimal.IntRoundTrip | components/PostCard.tsx:17 | the text of any integer, followed by text that does not start with a digit, reads back as that integer and that text |
| PostCard.ElapsedSeconds | components/PostCard.tsx:13 | the elapsed seconds are the floor of the elapsed milliseconds divided by 1000 |
| PostCard.Bucket | components/PostCard.tsx:14-39 | seconds are used exactly when there are at most 60 of them, and then the count is the seconds themselves (negative for a future date); otherwise the unit's length is strictly exceeded, the count is the floor of seconds over that length and at least 1, and no larger unit's length is exceeded |
| PostCard.TimeAgo | components/PostCard.tsx:11-40 | the label is empty exactly for an empty date; for an instant it is the written label of the bucket of the elapsed seconds, and reads back as that bucket; an unreadable date gives `'NaNs ago'`, which reads back as no count at all |
| PostCard.Format | components/PostCard.tsx:17-39 | every label `"<count><unit> ago"` ends in `" ago"` and reads back as its count and unit |
| PostCard.FormatInjective | components/PostCard.tsx:14-39 | two different counts or units never give the same label |
| PostCard.StrictThresholds | components/PostCard.tsx:15-35 | exactly 60 s stays in seconds, exactly one hour gives 60 minutes, one day 24 hours, 30 days 30 days, 365 days 12 months |
| PostCard.OneHourAgoReadsSixtyMinutes | components/PostCard.tsx:29-38 | a post made exactly 3600000 ms ago is labelled `"60m ago"` |
| PostCard.FutureIsNegativeSeconds | components/PostCard.tsx:39 | a date in the future is labelled in seconds with a negative count |
| PostCard.BucketMonotone | components/PostCard.tsx:14-39 | more elapsed seconds never give a smaller unit |
| PostCard.Render | components/PostCard.tsx:43-68 | the card renders nothing exactly when the post has no author; otherwise it shows that author's id, name, bio and avatar, the post's label and its content |
| AuthContext.AuthProvider.constructor | contexts/AuthContext.tsx:8-11 | `token` starts as the stored `'token'` value or null, `user` as null, `isLoading` as true |
| AuthContext.AuthProvider.IsAuthenticated | contexts/AuthContext.tsx:72 | the session is authenticated exactly when the token is present and non-empty, whatever the user |
| AuthContext.AuthProvider.LoadUser | contexts/AuthContext.tsx:13-33 | with no (or an empty) stored token nothing but `isLoading` changes; with a stored token and a profile, `user` is the profile and `token` the stored token; with null or an exception the stored token is removed and `token` and `user` are null; `isLoading` is false on every path; afterwards being authenticated implies a user is held; the state keeps matching storage |
| AuthContext.AuthProvider.Login | contexts/AuthContext.tsx:39-49 | on success the received token is stored under `'token'` and held, `user` is the returned user with `id` set to its `_id`, and the result is `{success: true}`; on failure the result is `{success: false, error: message}` and state and storage are unchanged |
| AuthContext.AuthProvider.Register | contexts/AuthContext.tsx:51-61 | the same as `login`, for the register answer |
| AuthContext.AuthProvider.Logout | contexts/AuthContext.tsx:63-67 | the stored token is removed, `token` and `user` are null, nothing else in storage changes, and the session is not authenticated |
| AuthContext.SignInAndOut | contexts/AuthContext.tsx:8-78 | after mounting and `loadUser`, the session is authenticated exactly when a non-empty token was stored and its profile was found; after a successful `login` it is authenticated exactly when the received token is non-empty; after a failed one it is as before; after `logout` storage is the original without `'token'` |

## Left out

- The `auth` middleware, token signing and verification, password hashing and
  the register, login and identity routes: `backend/middleware/auth.js` and
  the auth routes are not part of this model. The middleware is only a
  yes-or-no gate that supplies the caller's id.
- The `Post` model file is not part of this model. Its fields are taken from
  their use in the post routes, and its creation time is the parameter `now`.
  Whether its schema rejects a post without content is not known here; such a
  rejection is a failing save (`SaveFault`, a 500).
- MongoDB and Mongoose mechanics: ObjectId syntax and generation, query
  execution, the tie order of `sort` among equal `createdAt` values, and the
  internals of `populate`. The model's sort picks some tie order and nothing
  is claimed about it.
- Request fields of other types than strings (express-validator converts them
  to strings first), and a `content` that one place holds several times (an
  array in the body or the query, a repeated header): each place holds at
  most one string in the model.
- The network client `services/api.ts`, including its own removal of the
  token when the identity lookup fails, and the AI suggestion call: their
  results are inputs to the session methods.
- React mechanics: asynchronous state updates, effect scheduling and
  re-rendering. Each transition is modelled as one atomic update. Concurrent
  and out-of-order completion of transitions is not modelled.
- Reading the clock and parsing ISO dates in `timeAgo`: both instants are
  integer parameters. Floating-point division is modelled as exact integer
  division, which agrees with it for all realistic instants. JavaScript's
  exponent notation for numbers of 21 digits or more is not modelled.
- The page, form and navigation components (`App.tsx`, `Navbar.tsx`,
  `HomePage.tsx`, `ProfilePage.tsx`, `RegisterPage.tsx`, `CreatePostForm.tsx`)
  and the markup of `PostCard`. Only what the card shows is modelled.

/** /api/posts: creating a post as the authenticated user, the feed of all
    posts newest first, and the posts of one author. */
module PostRoutes {
  import opened Base
  import opened Http
  import opened UserSchema
  import UserRoutes

  /** A stored post. `content` is whatever the request body carried, absent
      included; `createdAt` is milliseconds since the epoch. */
  datatype Post = Post(id: ObjectId, content: Option<string>, author: ObjectId, createdAt: int)

  /** The JSON body of POST /api/posts. Only `content` is read; an `author`
      sent by the client is ignored. */
  datatype PostBody = PostBody(content: Option<string>, author: Option<ObjectId>)

  /** The request as the validator sees it: the body, and the value named
      `content` in each of the other places `check` looks at. */
  datatype PostRequest = PostRequest(
    body: PostBody,
    cookies: Option<string>,
    headers: Option<string>,
    params: Option<string>,
    query: Option<string>)

  /** The author as populated with the fields `name`, `bio` and `avatarUrl`
      (Mongoose always keeps `_id`). */
  datatype AuthorView = AuthorView(id: ObjectId, name: string, bio: string, avatarUrl: Option<string>)

  /** A post as sent to the client: `author` is the populated author, or null
      (None) when no user carries the referenced id. */
  datatype PostView = PostView(post: Post, author: Option<AuthorView>)

  function AuthorFields(u: User): (a: AuthorView) {
    AuthorView(u.id, u.name, u.bio, u.avatarUrl)
  }

  /** `populate('author', ['name', 'bio', 'avatarUrl'])` for one reference. */
  function PopulateAuthor(users: seq<User>, author: ObjectId): (r: Option<AuthorView>)
    ensures r.None? <==> forall i :: 0 <= i < |users| ==> users[i].id != author
    ensures r.Some? ==> exists i :: 0 <= i < |users| && users[i].id == author && r.value == AuthorFields(users[i])
  {
    match UserRoutes.FindById(users, author)
    case None => None
    case Some(u) =>
      assert exists i :: 0 <= i < |users| && users[i] == u;
      Some(AuthorFields(u))
  }

  function Populate(users: seq<User>, p: Post): (v: PostView) {
    PostView(p, PopulateAuthor(users, p.author))
  }

  function PopulateAll(users: seq<User>, s: seq<Post>): (r: seq<PostView>)
    ensures |r| == |s|
    ensures forall i :: 0 <= i < |s| ==> r[i] == Populate(users, s[i])
  {
    seq(|s|, i requires 0 <= i < |s| => Populate(users, s[i]))
  }

  /** The stored posts behind a list of views. */
  function Stored(vs: seq<PostView>): (r: seq<Post>)
    ensures |r| == |vs|
    ensures forall i :: 0 <= i < |vs| ==> r[i] == vs[i].post
  {
    seq(|vs|, i requires 0 <= i < |vs| => vs[i].post)
  }

  lemma StoredPopulateAll(users: seq<User>, s: seq<Post>)
    ensures Stored(PopulateAll(users, s)) == s
  {
  }

  // ---------------------------------------------------------------------
  // `sort({ createdAt: -1 })`

  /** `createdAt` never increases along the sequence. */
  predicate NewestFirst(s: seq<Post>) {
    forall i, j :: 0 <= i < j < |s| ==> s[i].createdAt >= s[j].createdAt
  }

  function InsertByDate(p: Post, s: seq<Post>): (r: seq<Post>)
    requires NewestFirst(s)
    ensures NewestFirst(r)
    ensures multiset(r) == multiset(s) + multiset{p}
    ensures |r| == |s| + 1
    ensures r[0] == p || (|s| > 0 && r[0] == s[0])
  {
    if |s| == 0 then [p]
    else if p.createdAt >= s[0].createdAt then [p] + s
    else
      var rest := InsertByDate(p, s[1..]);
      assert s == [s[0]] + s[1..];
      [s[0]] + rest
  }

  /** The posts in an order with the newest first. The order among posts with
      equal `createdAt` is not specified by the store and nothing about it is
      claimed here. */
  function SortNewestFirst(s: seq<Post>): (r: seq<Post>)
    ensures NewestFirst(r)
    ensures multiset(r) == multiset(s)
    ensures |r| == |s|
  {
    if |s| == 0 then []
    else
      assert s == [s[0]] + s[1..];
      InsertByDate(s[0], SortNewestFirst(s[1..]))
  }

  predicate DistinctTimes(s: seq<Post>) {
    forall i, j :: 0 <= i < j < |s| ==> s[i].createdAt != s[j].createdAt
  }

  /** Two newest-first arrangements of the same posts start with the same
      post when no two posts share a creation time. */
  lemma SameNewest(a: seq<Post>, b: seq<Post>)
    requires NewestFirst(a) && NewestFirst(b)
    requires multiset(a) == multiset(b)
    requires DistinctTimes(a)
    requires |a| > 0
    ensures |b| > 0 && b[0] == a[0]
  {
    assert a[0] in multiset(b);
    var k :| 0 <= k < |b| && b[k] == a[0];
    assert b[0] in multiset(a);
    var m :| 0 <= m < |a| && a[m] == b[0];
    assert a[0].createdAt >= a[m].createdAt;
    assert b[0].createdAt >= b[k].createdAt;
  }

  lemma MultisetTail(a: seq<Post>, b: seq<Post>)
    requires |a| > 0 && |b| > 0 && a[0] == b[0]
    requires multiset(a) == multiset(b)
    ensures multiset(a[1..]) == multiset(b[1..])
  {
    assert a == [a[0]] + a[1..];
    assert b == [b[0]] + b[1..];
    assert multiset(a[1..]) == multiset(a) - multiset{a[0]};
    assert multiset(b[1..]) == multiset(b) - multiset{a[0]};
  }

  /** When no two posts share a creation time, the newest-first order is
      unique: ties are the only freedom the sort has. */
  lemma {:induction false} NewestFirstUnique(a: seq<Post>, b: seq<Post>)
    requires NewestFirst(a) && NewestFirst(b)
    requires multiset(a) == multiset(b)
    requires DistinctTimes(a)
    ensures a == b
  {
    assert |a| == |b| by {
      assert |multiset(a)| == |a| && |multiset(b)| == |b|;
    }
    if |a| > 0 {
      SameNewest(a, b);
      MultisetTail(a, b);
      NewestFirstUnique(a[1..], b[1..]);
      assert a == [a[0]] + a[1..];
      assert b == [b[0]] + b[1..];
    }
  }

  // ---------------------------------------------------------------------
  // `find({ author: userId })`

  function OfAuthor(s: seq<Post>, author: ObjectId): (r: seq<Post>)
    ensures forall p :: multiset(r)[p] == if p.author == author then multiset(s)[p] else 0
    ensures forall i :: 0 <= i < |r| ==> r[i].author == author
  {
    if |s| == 0 then []
    else
      assert s == [s[0]] + s[1..];
      var rest := OfAuthor(s[1..], author);
      if s[0].author == author then [s[0]] + rest else rest
  }

  // ---------------------------------------------------------------------
  // Handlers

  /** The places `check(...)` reads a field from, in the order it visits them. */
  datatype Location = InBody | InCookies | InHeaders | InParams | InQuery

  const Locations: seq<Location> := [InBody, InCookies, InHeaders, InParams, InQuery]

  lemma AllLocationsListed()
    ensures forall l: Location :: l in Locations
  {
    forall l: Location ensures l in Locations {
      match l {
        case InBody => assert Locations[0] == l;
        case InCookies => assert Locations[1] == l;
        case InHeaders => assert Locations[2] == l;
        case InParams => assert Locations[3] == l;
        case InQuery => assert Locations[4] == l;
      }
    }
  }

  function LocationName(l: Location): (name: string) {
    match l
    case InBody => "body"
    case InCookies => "cookies"
    case InHeaders => "headers"
    case InParams => "params"
    case InQuery => "query"
  }

  lemma LocationNameInjective()
    ensures forall l, m :: LocationName(l) == LocationName(m) ==> l == m
  {
  }

  function ContentAt(req: PostRequest, l: Location): (v: Option<string>) {
    match l
    case InBody => req.body.content
    case InCookies => req.cookies
    case InHeaders => req.headers
    case InParams => req.params
    case InQuery => req.query
  }

  function ContentRequired(value: Option<string>, l: Location): (e: FieldError) {
    FieldError(value, "Content is required", "content", LocationName(l))
  }

  /** The errors for the places in `ls` where `content` is present but empty. */
  function EmptyAt(req: PostRequest, ls: seq<Location>): (errs: seq<FieldError>)
    ensures forall e :: e in errs <==>
      exists l :: l in ls && ContentAt(req, l) == Some("") && e == ContentRequired(Some(""), l)
    ensures (forall i, j :: 0 <= i < j < |ls| ==> ls[i] != ls[j]) ==>
      forall i, j :: 0 <= i < j < |errs| ==> errs[i] != errs[j]
  {
    if |ls| == 0 then []
    else
      var rest := EmptyAt(req, ls[1..]);
      assert forall l :: l in ls <==> l == ls[0] || l in ls[1..];
      LocationNameInjective();
      assert (forall i, j :: 0 <= i < j < |ls| ==> ls[i] != ls[j]) ==>
        ls[0] !in ls[1..] && ContentRequired(Some(""), ls[0]) !in rest;
      if ContentAt(req, ls[0]) == Some("") then [ContentRequired(Some(""), ls[0])] + rest else rest
  }

  /** `check('content', 'Content is required').not().isEmpty()`. The check
      runs on every place that holds `content`; only if no place holds it
      does it run once, on the body, with the value missing (read as '').
      Only the empty string fails: whitespace is kept. */
  function ContentErrors(req: PostRequest): (errs: seq<FieldError>)
    ensures (forall l :: ContentAt(req, l).None?) ==> errs == [ContentRequired(None, InBody)]
    ensures (exists l :: ContentAt(req, l).Some?) ==>
      forall e :: e in errs <==> exists l :: ContentAt(req, l) == Some("") && e == ContentRequired(Some(""), l)
    ensures |errs| == 0 <==>
      (exists l :: ContentAt(req, l).Some?) && (forall l :: ContentAt(req, l).Some? ==> |ContentAt(req, l).value| > 0)
    ensures forall i, j :: 0 <= i < j < |errs| ==> errs[i] != errs[j]
  {
    AllLocationsListed();
    if forall l :: ContentAt(req, l).None? then [ContentRequired(None, InBody)]
    else
      var errs := EmptyAt(req, Locations);
      assert |errs| == 0 <==> forall l :: ContentAt(req, l) != Some("") by {
        if |errs| > 0 {
          assert errs[0] in errs;
        }
        forall l | ContentAt(req, l) == Some("") ensures |errs| > 0 {
          assert ContentRequired(Some(""), l) in errs;
        }
      }
      errs
  }

  /** A `content` given only in the query string passes the check, although
      the body, which the post is built from, has none. */
  lemma QueryContentPassesCheck(body: PostBody, q: string)
    requires body.content.None? && |q| > 0
    ensures ContentErrors(PostRequest(body, None, None, None, Some(q))) == []
  {
    var req := PostRequest(body, None, None, None, Some(q));
    assert ContentAt(req, InQuery).Some?;
  }

  /** A request that names `content` only in its body is rejected exactly when
      the body's `content` is missing or empty. */
  lemma BodyOnlyCheck(body: PostBody)
    ensures |ContentErrors(PostRequest(body, None, None, None, None))| > 0 <==>
      body.content.None? || body.content == Some("")
  {
    var req := PostRequest(body, None, None, None, None);
    if body.content.Some? {
      assert ContentAt(req, InBody).Some?;
    }
  }

  /** Where a store call of the POST handler throws, if anywhere. */
  datatype Fault = NoFault | LookupFault | SaveFault | PopulateFault

  /** GET /api/posts. `dbFault`: the query throws. */
  function GetFeed(caller: Option<ObjectId>, posts: seq<Post>, users: seq<User>, dbFault: bool)
    : (r: Response<seq<PostView>>)
    ensures caller.None? <==> r == AuthRejected
    ensures caller.Some? && dbFault ==> r == ServerError(ServerErrorText)
    ensures caller.Some? && !dbFault ==> r.Ok?
    ensures r.Ok? ==>
      && NewestFirst(Stored(r.body))
      && multiset(Stored(r.body)) == multiset(posts)
      && (forall i :: 0 <= i < |r.body| ==> r.body[i].author == PopulateAuthor(users, r.body[i].post.author))
  {
    if caller.None? then AuthRejected
    else if dbFault then ServerError(ServerErrorText)
    else
      var sorted := SortNewestFirst(posts);
      StoredPopulateAll(users, sorted);
      Ok(PopulateAll(users, sorted))
  }

  /** GET /api/posts/user/:userId. A malformed id makes the query throw a
      cast error, which this route, unlike GET /api/users/:id, answers with 500. */
  function GetPostsByUser(caller: Option<ObjectId>, posts: seq<Post>, users: seq<User>,
                          param: IdParam, dbFault: bool)
    : (r: Response<seq<PostView>>)
    ensures caller.None? <==> r == AuthRejected
    ensures caller.Some? && (param.Malformed? || dbFault) ==> r == ServerError(ServerErrorText)
    ensures caller.Some? && param.WellFormed? && !dbFault ==> r.Ok?
    ensures r.Ok? ==>
      && NewestFirst(Stored(r.body))
      && (forall p :: multiset(Stored(r.body))[p] ==
            if p.author == param.id then multiset(posts)[p] else 0)
      && (forall i :: 0 <= i < |r.body| ==>
            r.body[i].post.author == param.id
            && r.body[i].author == PopulateAuthor(users, param.id))
  {
    if caller.None? then AuthRejected
    else if param.Malformed? || dbFault then ServerError(ServerErrorText)
    else
      var sorted := SortNewestFirst(OfAuthor(posts, param.id));
      StoredPopulateAll(users, sorted);
      assert forall i :: 0 <= i < |sorted| ==> sorted[i] in multiset(OfAuthor(posts, param.id));
      Ok(PopulateAll(users, sorted))
  }

  /** With distinct creation times the feed is exactly `expected`, for any
      newest-first arrangement `expected` of the stored posts. */
  lemma FeedIsDetermined(caller: ObjectId, posts: seq<Post>, users: seq<User>, expected: seq<Post>)
    requires NewestFirst(expected) && multiset(expected) == multiset(posts)
    requires DistinctTimes(expected)
    ensures GetFeed(Some(caller), posts, users, false) == Ok(PopulateAll(users, expected))
  {
    var sorted := SortNewestFirst(posts);
    NewestFirstUnique(expected, sorted);
  }

  /** Three posts created at t = 1, 2, 3 are listed third, second, first. */
  lemma FeedOfThreePosts(caller: ObjectId, users: seq<User>, p1: Post, p2: Post, p3: Post)
    requires p1.createdAt == 1 && p2.createdAt == 2 && p3.createdAt == 3
    ensures GetFeed(Some(caller), [p1, p2, p3], users, false) == Ok(PopulateAll(users, [p3, p2, p1]))
  {
    assert multiset([p3, p2, p1]) == multiset([p1, p2, p3]);
    FeedIsDetermined(caller, [p1, p2, p3], users, [p3, p2, p1]);
  }

  /** The `posts` collection. Ids are handed out from a counter standing for
      ObjectId generation. */
  class PostStore {
    var posts: seq<Post>
    var nextId: ObjectId

    ghost predicate Valid()
      reads this
    {
      && (forall i :: 0 <= i < |posts| ==> posts[i].id < nextId)
      && (forall i, j :: 0 <= i < j < |posts| ==> posts[i].id != posts[j].id)
    }

    constructor ()
      ensures Valid() && posts == [] && nextId == 0
    {
      posts := [];
      nextId := 0;
    }

    /** POST /api/posts. `caller` is the identity resolved by the `auth`
        middleware, `now` the creation time, `users` the user collection
        used for the author lookup and population, and `fault` where a
        store call throws (a rejection by the post schema is a throw of
        the save). The post is built from the body's `content`, even when
        the check passed on `content` found elsewhere. A fault while
        populating comes after the save, so that post stays stored although
        the client gets a 500. */
    method Create(caller: Option<ObjectId>, req: PostRequest, users: seq<User>, now: int, fault: Fault)
      returns (r: Response<PostView>)
      requires Valid()
      modifies this
      ensures Valid()
      ensures caller.None? ==> r == AuthRejected
      ensures caller.Some? && |ContentErrors(req)| > 0 ==> r == BadRequest(ContentErrors(req))
      ensures caller.Some? && |ContentErrors(req)| == 0 && fault != NoFault ==>
        r == ServerError(ServerErrorText)
      ensures (caller.None? || |ContentErrors(req)| > 0 || fault in {LookupFault, SaveFault}) ==>
        posts == old(posts) && nextId == old(nextId)
      ensures caller.Some? && |ContentErrors(req)| == 0 && fault in {NoFault, PopulateFault} ==>
        var p := Post(old(nextId), req.body.content, caller.value, now);
        && posts == old(posts) + [p]
        && nextId == old(nextId) + 1
        && (fault == NoFault ==> r == Ok(Populate(users, p)))
    {
      if caller.None? {
        return AuthRejected;
      }
      var errors := ContentErrors(req);
      if |errors| > 0 {
        return BadRequest(errors);
      }
      // `User.findById(req.user.id)`: its result is not used, only its failure.
      if fault == LookupFault {
        return ServerError(ServerErrorText);
      }
      var p := Post(nextId, req.body.content, caller.value, now);
      if fault == SaveFault {
        return ServerError(ServerErrorText);
      }
      posts := posts + [p];
      nextId := nextId + 1;
      if fault == PopulateFault {
        return ServerError(ServerErrorText);
      }
      r := Ok(Populate(users, p));
    }
  }
}

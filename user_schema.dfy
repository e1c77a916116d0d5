/** The Mongoose `User` schema: which fields are required, which have
    defaults, and the unique index on `email`, enforced by an in-memory
    user collection. */
module UserSchema {
  import opened Base

  /** The document as handed to `new User({...})`: any field may be absent. */
  datatype Draft = Draft(
    name: Option<string>,
    email: Option<string>,
    password: Option<string>,
    bio: Option<string>,
    avatarUrl: Option<string>,
    createdAt: Option<int>)

  /** A stored user document. `createdAt` is milliseconds since the epoch. */
  datatype User = User(
    id: ObjectId,
    name: string,
    email: string,
    password: string,
    bio: string,
    avatarUrl: Option<string>,
    createdAt: int)

  datatype Field = Name | Email | Password

  /** Mongoose's `required` check for a String path: the value must be present
      and have non-zero length. */
  predicate Present(v: Option<string>) {
    v.Some? && |v.value| > 0
  }

  function FieldValue(d: Draft, f: Field): (v: Option<string>) {
    match f
    case Name => d.name
    case Email => d.email
    case Password => d.password
  }

  /** The required paths that fail validation, in schema order. */
  function MissingFields(d: Draft): (r: seq<Field>)
    ensures forall f :: f in r <==> !Present(FieldValue(d, f))
    ensures forall i, j :: 0 <= i < j < |r| ==> r[i] != r[j]
  {
    (if Present(d.name) then [] else [Name])
    + (if Present(d.email) then [] else [Email])
    + (if Present(d.password) then [] else [Password])
  }

  /** Validates a draft and fills in the schema defaults: `bio` becomes '',
      `createdAt` becomes `now`, `avatarUrl` stays absent when not given. */
  function Build(d: Draft, id: ObjectId, now: int): (r: Result<User, seq<Field>>)
    ensures r.Failure? <==> exists f :: !Present(FieldValue(d, f))
    ensures r.Failure? ==> |r.error| > 0 && forall f :: f in r.error <==> !Present(FieldValue(d, f))
    ensures r.Success? ==>
      && Some(r.value.name) == d.name && |r.value.name| > 0
      && Some(r.value.email) == d.email && |r.value.email| > 0
      && Some(r.value.password) == d.password && |r.value.password| > 0
      && r.value.id == id
      && r.value.bio == (if d.bio.Some? then d.bio.value else "")
      && r.value.avatarUrl == d.avatarUrl
      && r.value.createdAt == (if d.createdAt.Some? then d.createdAt.value else now)
  {
    var missing := MissingFields(d);
    if |missing| > 0 then
      assert !Present(FieldValue(d, missing[0]));
      Failure(missing)
    else
      assert Present(FieldValue(d, Name)) && Present(FieldValue(d, Email)) && Present(FieldValue(d, Password));
      Success(User(id, d.name.value, d.email.value, d.password.value,
                   d.bio.GetOr(""), d.avatarUrl, d.createdAt.GetOr(now)))
  }

  predicate EmailTaken(users: seq<User>, email: string) {
    exists i :: 0 <= i < |users| && users[i].email == email
  }

  /** No two stored users share an email (the unique index). */
  predicate EmailsUnique(users: seq<User>) {
    forall i, j :: 0 <= i < j < |users| ==> users[i].email != users[j].email
  }

  datatype InsertError = ValidationError(missing: seq<Field>) | DuplicateKey(email: string)

  /** The `users` collection. Ids are handed out from a counter standing for
      ObjectId generation, so every id is fresh. */
  class UserStore {
    var users: seq<User>
    var nextId: ObjectId

    ghost predicate Valid()
      reads this
    {
      && EmailsUnique(users)
      && (forall i :: 0 <= i < |users| ==> users[i].id < nextId)
      && (forall i, j :: 0 <= i < j < |users| ==> users[i].id != users[j].id)
    }

    constructor ()
      ensures Valid() && users == [] && nextId == 0
    {
      users := [];
      nextId := 0;
    }

    /** `new User(d).save()`: schema validation first, then the unique index.
        A rejected document leaves the collection unchanged. */
    method Insert(d: Draft, now: int) returns (r: Result<User, InsertError>)
      requires Valid()
      modifies this
      ensures Valid()
      ensures old(Build(d, nextId, now)).Failure? ==>
        r == Failure(ValidationError(old(Build(d, nextId, now)).error))
      ensures old(Build(d, nextId, now)).Success? && old(EmailTaken(users, d.email.value)) ==>
        r == Failure(DuplicateKey(d.email.value))
      ensures r.Success? <==> old(Build(d, nextId, now)).Success? && !old(EmailTaken(users, d.email.value))
      ensures r.Failure? ==> users == old(users) && nextId == old(nextId)
      ensures r.Success? ==>
        && Success(r.value) == old(Build(d, nextId, now))
        && !old(EmailTaken(users, d.email.value))
        && users == old(users) + [r.value]
        && nextId == old(nextId) + 1
    {
      var built := Build(d, nextId, now);
      if built.Failure? {
        return Failure(ValidationError(built.error));
      }
      var u := built.value;
      assert u.email == d.email.value;
      if EmailTaken(users, u.email) {
        return Failure(DuplicateKey(u.email));
      }
      users := users + [u];
      nextId := nextId + 1;
      r := Success(u);
    }
  }
}

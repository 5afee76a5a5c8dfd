/** The user table: e-mail addresses are stored lower-cased and are unique, so a look-up by
    e-mail ignores the case of the address it is given. */
module UserRepo {
  import opened Common
  import opened Seqs
  import opened Strings
  import opened UserEntity

  datatype CreateUserInput = CreateUserInput(email: string, password: string, name: string)

  /** `Partial<CreateUserInput>`: an absent field and an empty string both leave the stored
      value alone. */
  datatype UpdateUserInput = UpdateUserInput(email: Option<string>, password: Option<string>, name: Option<string>)

  function IdOf(u: User): Id { u.id }
  function EmailOf(u: User): string { u.email }
  function HasId(id: Id): User -> bool { (u: User) => u.id == id }
  function HasEmail(email: string): User -> bool { (u: User) => u.email == email }

  predicate TableValid(users: seq<User>, nextId: Id) {
    && KeysUnique(users, IdOf)
    && IdsBelow(users, IdOf, nextId)
    && KeysUnique(users, EmailOf)
    && forall k :: 0 <= k < |users| ==> ToLower(users[k].email) == users[k].email
  }

  /** A field given as a non-empty string (what `data.x && { x: … }` spreads in). */
  predicate Given(field: Option<string>) {
    field.Some? && field.value != []
  }

  /** The user `create` stores: the e-mail lower-cased, created and updated at `now`. */
  function NewUser(id: Id, data: CreateUserInput, now: Instant): (u: User)
    ensures u.id == id && u.email == ToLower(data.email) && ToLower(u.email) == u.email
    ensures u.password == data.password && u.name == data.name
    ensures u.createdAt == now && u.updatedAt == now
  {
    ToLowerIdempotent(data.email);
    User(id, ToLower(data.email), data.password, data.name, now, now)
  }

  /** The user `update` writes: each given field replaces the stored one (the e-mail
      lower-cased), and the update time becomes `now`. */
  function ApplyUpdate(u: User, data: UpdateUserInput, now: Instant): (q: User)
    ensures q.id == u.id && q.createdAt == u.createdAt && q.updatedAt == now
    ensures q.email == (if Given(data.email) then ToLower(data.email.value) else u.email)
    ensures q.password == (if Given(data.password) then data.password.value else u.password)
    ensures q.name == (if Given(data.name) then data.name.value else u.name)
    ensures ToLower(u.email) == u.email ==> ToLower(q.email) == q.email
  {
    ToLowerIdempotent(data.email.GetOr([]));
    u.(email := if Given(data.email) then ToLower(data.email.value) else u.email,
       password := if Given(data.password) then data.password.value else u.password,
       name := if Given(data.name) then data.name.value else u.name,
       updatedAt := now)
  }

  /** Appending a user with a fresh id and an unused lower-case e-mail keeps the table
      valid. */
  lemma AppendKeepsTable(users: seq<User>, nextId: Id, u: User)
    requires TableValid(users, nextId) && u.id == nextId && ToLower(u.email) == u.email
    requires forall v :: v in users ==> v.email != u.email
    ensures TableValid(users + [u], nextId + 1)
  {
    var t := users + [u];
    assert forall k :: 0 <= k < |users| ==> t[k] == users[k] && users[k] in users;
  }

  /** Replacing row `i` by a user with the same id and a lower-case e-mail no other row
      holds keeps the table valid. */
  lemma ReplaceKeepsTable(users: seq<User>, nextId: Id, i: nat, q: User)
    requires TableValid(users, nextId) && i < |users| && q.id == users[i].id && ToLower(q.email) == q.email
    requires forall k :: 0 <= k < |users| && k != i ==> users[k].email != q.email
    ensures TableValid(users[i := q], nextId)
  {
  }

  /** A user appended under an e-mail nobody held is the one a look-up by that e-mail
      finds. */
  lemma AppendedIsFound(users: seq<User>, u: User, email: string)
    requires forall v :: v in users ==> v.email != email
    requires u.email == email
    ensures Find(users + [u], HasEmail(email)) == Some(u)
  {
    var t := users + [u];
    assert forall k :: 0 <= k < |users| ==> t[k] == users[k] && users[k] in users && !HasEmail(email)(t[k]);
    assert HasEmail(email)(t[|users|]);
    assert IndexWhere(t, HasEmail(email)) == |users|;
  }

  class UserRepository {
    var users: seq<User>
    var nextId: Id

    predicate Valid()
      reads this
    {
      TableValid(users, nextId)
    }

    constructor()
      ensures Valid() && users == []
    {
      users := [];
      nextId := 0;
    }

    function FindById(id: Id): (r: Option<User>)
      reads this
      ensures r.Some? ==> r.value in users && r.value.id == id
      ensures r.None? ==> forall u :: u in users ==> u.id != id
    {
      Find(users, HasId(id))
    }

    /** The user registered under `email`, in any letter case. */
    function FindByEmail(email: string): (r: Option<User>)
      reads this
      ensures r.Some? ==> r.value in users && r.value.email == ToLower(email)
      ensures r.None? ==> forall u :: u in users ==> u.email != ToLower(email)
    {
      Find(users, HasEmail(ToLower(email)))
    }

    /** `create`, at `now`; the unique e-mail constraint rejects an address already
        registered in any letter case. Once created, the user is what a look-up by the same
        address finds. */
    method Create(data: CreateUserInput, now: Instant) returns (r: Option<User>)
      requires Valid()
      modifies this
      ensures Valid()
      ensures r.None? <==> old(FindByEmail(data.email)).Some?
      ensures r.None? ==> users == old(users) && nextId == old(nextId)
      ensures r.Some? ==> r.value == NewUser(old(nextId), data, now)
                          && users == old(users) + [r.value] && nextId == old(nextId) + 1
      ensures r.Some? ==> FindByEmail(data.email) == r
    {
      if FindByEmail(data.email).Some? {
        return None;
      }
      var u := NewUser(nextId, data, now);
      AppendKeepsTable(users, nextId, u);
      AppendedIsFound(users, u, ToLower(data.email));
      users := users + [u];
      nextId := nextId + 1;
      r := Some(u);
    }

    /** `update`, at `now`; a missing id or an e-mail that another user holds is an error
        and changes nothing. */
    method Update(id: Id, data: UpdateUserInput, now: Instant) returns (r: Option<User>)
      requires Valid()
      modifies this
      ensures Valid() && nextId == old(nextId)
      ensures r.None? <==> old(FindById(id)).None?
                           || (Given(data.email) && exists u :: u in old(users) && u.id != id && u.email == ToLower(data.email.value))
      ensures r.None? ==> users == old(users)
      ensures r.Some? ==>
        var i := IndexWhere(old(users), HasId(id));
        0 <= i && r.value == ApplyUpdate(old(users)[i], data, now) && users == old(users)[i := r.value]
    {
      var i := IndexWhere(users, HasId(id));
      if i == -1 {
        return None;
      }
      if Given(data.email) {
        var j := IndexWhere(users, HasEmail(ToLower(data.email.value)));
        if j != -1 && j != i {
          return None;
        }
        assert forall u :: u in users && u.id != id ==> u.email != ToLower(data.email.value);
      }
      var q := ApplyUpdate(users[i], data, now);
      ReplaceKeepsTable(users, nextId, i, q);
      users := users[i := q];
      r := Some(q);
    }

    /** `delete`; a missing id is an error and changes nothing. */
    method Delete(id: Id) returns (deleted: bool)
      requires Valid()
      modifies this
      ensures Valid() && nextId == old(nextId)
      ensures deleted <==> old(FindById(id)).Some?
      ensures !deleted ==> users == old(users)
      ensures deleted ==> users == RemoveAt(old(users), IndexWhere(old(users), HasId(id)))
    {
      var i := IndexWhere(users, HasId(id));
      if i == -1 {
        return false;
      }
      users := RemoveAt(users, i);
      deleted := true;
    }
  }

  /** Addresses differing only in letter case find the same user. */
  lemma LookupIgnoresCase(repo: UserRepository, a: string, b: string)
    requires ToLower(a) == ToLower(b)
    ensures repo.FindByEmail(a) == repo.FindByEmail(b)
  {
  }
}

/** The in-memory user store of `UsersService`: a list of users and a counter
    that hands out the next id, with create, findAll, findOne, update and
    remove as transitions from a store to a store and a reply. */
module Users {
  import opened Wrappers
  import Js

  datatype User = User(id: int, firstName: string, lastName: string, username: string, email: string, password: string)

  /** The fields a new user is created from. */
  datatype CreateUserDto = CreateUserDto(firstName: string, lastName: string, username: string, email: string, password: string)

  /** The fields an update may carry; `None` is a field the request left out. */
  datatype UpdateUserDto = UpdateUserDto(username: Option<string>, email: Option<string>, password: Option<string>)

  /** The `data` of a reply: `null`, one user, or the whole list. */
  datatype Payload = NoUser | OneUser(user: User) | AllUsers(users: seq<User>)

  /** The `{ status, message, data }` object every service call resolves to. */
  datatype Reply = Reply(status: bool, message: string, data: Payload)

  /** The service's private state: `users` and `nextId`. */
  datatype Store = Store(users: seq<User>, nextId: int)

  /** A transition: the store after the call and the reply it resolved to. */
  datatype Step = Step(store: Store, reply: Reply)

  /** A freshly constructed service. */
  const Initial: Store := Store([], 1)

  /** Ids are pairwise distinct and all below `nextId`. */
  predicate Valid(s: Store) {
    && (forall i, j :: 0 <= i < j < |s.users| ==> s.users[i].id != s.users[j].id)
    && (forall i :: 0 <= i < |s.users| ==> s.users[i].id < s.nextId)
  }

  predicate HasId(users: seq<User>, id: int) {
    exists i :: 0 <= i < |users| && users[i].id == id
  }

  /** `users.findIndex(user => user.id === id)`: the first position holding
      `id`, or -1 when there is none. */
  function FindIndex(users: seq<User>, id: int): (k: int)
    ensures -1 <= k < |users|
    ensures k == -1 <==> !HasId(users, id)
    ensures k >= 0 ==> users[k].id == id
    ensures forall i :: 0 <= i < k ==> users[i].id != id
    decreases |users|
  {
    if |users| == 0 then -1
    else if users[0].id == id then 0
    else
      var k := FindIndex(users[1..], id);
      if k == -1 then -1 else k + 1
  }

  /** The reply to a lookup of an id the store does not hold. */
  function NotFound(id: int): (r: Reply)
    ensures !r.status && r.data == NoUser
    ensures |r.message| > 23
    ensures r.message[..13] == "User with ID " && r.message[|r.message| - 10..] == " not found"
    ensures r.message[13..|r.message| - 10] == Js.IntToDecimal(id)
  {
    Reply(false, "User with ID " + Js.IntToDecimal(id) + " not found", NoUser)
  }

  /** The not-found message names the id: two lookups that miss with
      different ids get different replies. */
  lemma NotFoundNamesId(a: int, b: int)
    requires NotFound(a) == NotFound(b)
    ensures a == b
  {
    var m := NotFound(a).message;
    assert m[13..|m| - 10] == Js.IntToDecimal(a) == Js.IntToDecimal(b);
    Js.IntToDecimalInjective(a, b);
  }

  /** `create`: the new user takes the current `nextId`, the counter moves on
      by one, and the user is appended. */
  function Create(s: Store, dto: CreateUserDto): (r: Step)
    ensures r.store.nextId == s.nextId + 1
    ensures |r.store.users| == |s.users| + 1
    ensures r.store.users[..|s.users|] == s.users
    ensures r.reply.status && r.reply.message == "User created successfully"
    ensures r.reply.data.OneUser?
    ensures r.reply.data.user == r.store.users[|s.users|]
    ensures r.reply.data.user == User(s.nextId, dto.firstName, dto.lastName, dto.username, dto.email, dto.password)
    ensures Valid(s) ==> Valid(r.store) && !HasId(s.users, r.reply.data.user.id)
  {
    var newUser := User(s.nextId, dto.firstName, dto.lastName, dto.username, dto.email, dto.password);
    Step(Store(s.users + [newUser], s.nextId + 1), Reply(true, "User created successfully", OneUser(newUser)))
  }

  /** `findAll`: the whole list, with a message that tells an empty store apart. */
  function FindAll(s: Store): (r: Step)
    ensures r.store == s
    ensures r.reply.status
    ensures r.reply.data == AllUsers(s.users)
    ensures r.reply.message == "No users found" <==> |s.users| == 0
    ensures r.reply.message == "Users retrieved successfully" <==> |s.users| > 0
  {
    var message := if |s.users| > 0 then "Users retrieved successfully" else "No users found";
    Step(s, Reply(true, message, AllUsers(s.users)))
  }

  /** `findOne`: the first user with the id, or a not-found reply. */
  function FindOne(s: Store, id: int): (r: Step)
    ensures r.store == s
    ensures r.reply.status <==> HasId(s.users, id)
    ensures !HasId(s.users, id) ==> r.reply == NotFound(id)
    ensures HasId(s.users, id) ==>
      && r.reply.message == "User retrieved successfully"
      && r.reply.data.OneUser?
      && r.reply.data.user.id == id
      && exists k :: 0 <= k < |s.users| && s.users[k] == r.reply.data.user
                     && forall i :: 0 <= i < k ==> s.users[i].id != id
  {
    var k := FindIndex(s.users, id);
    if k == -1 then Step(s, NotFound(id))
    else Step(s, Reply(true, "User retrieved successfully", OneUser(s.users[k])))
  }

  /** `{ ...user, ...dto }`: every field the update carries overwrites, every
      other field is kept. */
  function Merge(u: User, dto: UpdateUserDto): (r: User)
    ensures r.id == u.id && r.firstName == u.firstName && r.lastName == u.lastName
    ensures r.username == (if dto.username.Some? then dto.username.value else u.username)
    ensures r.email == (if dto.email.Some? then dto.email.value else u.email)
    ensures r.password == (if dto.password.Some? then dto.password.value else u.password)
  {
    u.(username := dto.username.GetOr(u.username),
       email := dto.email.GetOr(u.email),
       password := dto.password.GetOr(u.password))
  }

  /** Applying the same update twice changes nothing the first did not, and
      an update that carries no field leaves the user as it was. */
  lemma MergeIdempotent(u: User, dto: UpdateUserDto)
    ensures Merge(Merge(u, dto), dto) == Merge(u, dto)
    ensures dto == UpdateUserDto(None, None, None) ==> Merge(u, dto) == u
  {
  }

  /** `update`: the first user with the id is merged with the DTO in place. */
  function Update(s: Store, id: int, dto: UpdateUserDto): (r: Step)
    ensures !HasId(s.users, id) ==> r == Step(s, NotFound(id))
    ensures r.store.nextId == s.nextId
    ensures |r.store.users| == |s.users|
    ensures HasId(s.users, id) ==>
      var k := FindIndex(s.users, id);
      && 0 <= k < |s.users|
      && r.reply.status
      && r.reply.message == "User updated successfully"
      && r.reply.data == OneUser(r.store.users[k])
      && (forall i :: 0 <= i < |s.users| && i != k ==> r.store.users[i] == s.users[i])
      && var before, after := s.users[k], r.store.users[k];
      && after.id == id && after.id == before.id
      && after.firstName == before.firstName && after.lastName == before.lastName
      && (dto.username.Some? ==> after.username == dto.username.value)
      && (dto.username.None? ==> after.username == before.username)
      && (dto.email.Some? ==> after.email == dto.email.value)
      && (dto.email.None? ==> after.email == before.email)
      && (dto.password.Some? ==> after.password == dto.password.value)
      && (dto.password.None? ==> after.password == before.password)
    ensures Valid(s) ==> Valid(r.store)
  {
    var k := FindIndex(s.users, id);
    if k == -1 then Step(s, NotFound(id))
    else
      var updated := Merge(s.users[k], dto);
      Step(s.(users := s.users[k := updated]), Reply(true, "User updated successfully", OneUser(updated)))
  }

  /** `remove`: the first user with the id is spliced out and returned. */
  function Remove(s: Store, id: int): (r: Step)
    ensures !HasId(s.users, id) ==> r == Step(s, NotFound(id))
    ensures r.store.nextId == s.nextId
    ensures HasId(s.users, id) ==>
      var k := FindIndex(s.users, id);
      && 0 <= k < |s.users|
      && |r.store.users| == |s.users| - 1
      && r.reply.status
      && r.reply.message == "User removed successfully"
      && r.reply.data == OneUser(s.users[k])
      && s.users[k].id == id
      && (forall i :: 0 <= i < k ==> r.store.users[i] == s.users[i])
      && (forall i :: k <= i < |r.store.users| ==> r.store.users[i] == s.users[i + 1])
      && multiset(r.store.users) + multiset{s.users[k]} == multiset(s.users)
    ensures Valid(s) ==> Valid(r.store) && !HasId(r.store.users, id)
  {
    var k := FindIndex(s.users, id);
    if k == -1 then Step(s, NotFound(id))
    else
      var removed := s.users[k];
      RemoveKeepsValid(s, k);
      Step(s.(users := s.users[..k] + s.users[k + 1..]), Reply(true, "User removed successfully", OneUser(removed)))
  }

  /** Splicing one position out of a valid store keeps it valid, keeps the
      multiset of the other users, and leaves no user with the removed id. */
  lemma RemoveKeepsValid(s: Store, k: int)
    requires 0 <= k < |s.users|
    ensures var rest := s.users[..k] + s.users[k + 1..];
      && multiset(rest) + multiset{s.users[k]} == multiset(s.users)
      && (Valid(s) ==> Valid(s.(users := rest)) && !HasId(rest, s.users[k].id))
  {
    var rest := s.users[..k] + s.users[k + 1..];
    assert s.users == s.users[..k] + [s.users[k]] + s.users[k + 1..];
    assert forall i :: 0 <= i < |rest| ==> rest[i] == s.users[if i < k then i else i + 1];
  }

  /** A call to the service. */
  datatype Op =
    | CreateOp(createDto: CreateUserDto)
    | FindAllOp
    | FindOneOp(findId: int)
    | UpdateOp(updateId: int, updateDto: UpdateUserDto)
    | RemoveOp(removeId: int)

  function Apply(s: Store, op: Op): (r: Step)
    ensures Valid(s) ==> Valid(r.store)
    ensures r.store.nextId >= s.nextId
  {
    match op
    case CreateOp(dto) => Create(s, dto)
    case FindAllOp => FindAll(s)
    case FindOneOp(id) => FindOne(s, id)
    case UpdateOp(id, dto) => Update(s, id, dto)
    case RemoveOp(id) => Remove(s, id)
  }

  /** The store after a sequence of calls. */
  function Run(s: Store, ops: seq<Op>): Store
    decreases |ops|
  {
    if |ops| == 0 then s else Run(Apply(s, ops[0]).store, ops[1..])
  }

  /** Every sequence of calls keeps the store valid and never lowers `nextId`. */
  lemma {:induction false} RunKeepsValid(s: Store, ops: seq<Op>)
    requires Valid(s)
    ensures Valid(Run(s, ops))
    ensures Run(s, ops).nextId >= s.nextId
    decreases |ops|
  {
    if |ops| > 0 {
      RunKeepsValid(Apply(s, ops[0]).store, ops[1..]);
    }
  }

  /** Ids are never reused: after any sequence of calls, including removals,
      the next user created gets an id that no user of the earlier store had. */
  lemma IdsNeverReused(s: Store, ops: seq<Op>, dto: CreateUserDto)
    requires Valid(s)
    ensures var created := Create(Run(s, ops), dto).reply.data.user;
      forall i :: 0 <= i < |s.users| ==> s.users[i].id != created.id
  {
    RunKeepsValid(s, ops);
  }

  /** Starting from an empty service, the store is valid after any calls. */
  lemma InitialRunsValid(ops: seq<Op>)
    ensures Valid(Run(Initial, ops))
    ensures Run(Initial, ops).nextId >= 1
  {
    RunKeepsValid(Initial, ops);
  }

  /** A user just created is what `findOne` returns for the new id. */
  lemma CreateThenFindOne(s: Store, dto: CreateUserDto)
    requires Valid(s)
    ensures var c := Create(s, dto);
      FindOne(c.store, s.nextId).reply == Reply(true, "User retrieved successfully", c.reply.data)
  {
    var c := Create(s, dto);
    var k := FindIndex(c.store.users, s.nextId);
    assert c.store.users[|s.users|].id == s.nextId;
    assert k == |s.users|;
  }

  /** After an update that hit, `findOne` returns the updated user. */
  lemma UpdateThenFindOne(s: Store, id: int, dto: UpdateUserDto)
    requires HasId(s.users, id)
    ensures var u := Update(s, id, dto);
      FindOne(u.store, id).reply == Reply(true, "User retrieved successfully", u.reply.data)
  {
    var u := Update(s, id, dto);
    var k := FindIndex(s.users, id);
    assert FindIndex(u.store.users, id) == k by {
      assert u.store.users[k].id == id;
    }
  }

  /** After a removal that hit, the id is gone: `findOne`, `update` and
      `remove` all answer not-found and leave the store alone. */
  lemma RemoveThenMiss(s: Store, id: int, dto: UpdateUserDto)
    requires Valid(s) && HasId(s.users, id)
    ensures var t := Remove(s, id).store;
      && FindOne(t, id) == Step(t, NotFound(id))
      && Update(t, id, dto) == Step(t, NotFound(id))
      && Remove(t, id) == Step(t, NotFound(id))
  {
  }
}

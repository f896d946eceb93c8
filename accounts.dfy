/** The account rules of the service: which request bodies the user handlers
    accept, the username-uniqueness invariant of the users collection, and the
    three-way signin decision. */
module Accounts {
  import opened Domain

  const SignupMissingMsg := "Please include both username and password to signup."
  const SignupCreatedMsg := "Successfully created new user."
  const DuplicateUserMsg := "A user with that username already exists."
  const UserNotFoundAuthMsg := "Authentication failed. User not found."
  const IncorrectPasswordMsg := "Authentication failed. Incorrect password."
  const UpdateMissingMsg := "User must have a name, username, and password."
  const UserNotFoundMsg := "User not found."
  const UpdateFailedMsg := "Failed to update user."
  const UserDeletedMsg := "User deleted."

  /** The scheme prefix put in front of every issued token. */
  const TokenScheme := "JWT "

  /** Token lifetime handed to the signer: one hour, in seconds. */
  const TokenLifetime: nat := 3600

  /** Signup needs a username and a password; the name is not checked. */
  predicate SignupAccepted(form: UserForm) {
    Truthy(form.username) && Truthy(form.password)
  }

  /** Update replaces the whole record, so all three fields are needed. */
  predicate UpdateAccepted(form: UserForm) {
    Truthy(form.name) && Truthy(form.username) && Truthy(form.password)
  }

  predicate UsernameTaken(users: map<Id, User>, username: string) {
    exists id :: id in users && users[id].username == username
  }

  /** Some user other than `self` already has `username`. */
  predicate TakenByOther(users: map<Id, User>, self: Id, username: string) {
    exists id :: id in users && id != self && users[id].username == username
  }

  /** The unique index on `username`: no two accounts share a username. */
  ghost predicate UniqueUsernames(users: map<Id, User>) {
    forall a, b :: a in users && b in users && a != b ==> users[a].username != users[b].username
  }

  /** Inserting a user under a fresh id with a fresh username keeps usernames unique. */
  lemma InsertKeepsUnique(users: map<Id, User>, id: Id, u: User)
    requires UniqueUsernames(users)
    requires id !in users && !UsernameTaken(users, u.username)
    ensures UniqueUsernames(users[id := u])
  {
  }

  /** Replacing a record with one whose username no other record has keeps usernames unique. */
  lemma ReplaceKeepsUnique(users: map<Id, User>, id: Id, u: User)
    requires UniqueUsernames(users)
    requires id in users && !TakenByOther(users, id, u.username)
    ensures UniqueUsernames(users[id := u])
  {
  }

  /** The signin decision once `User.findOne` has answered: no user, a wrong
      password, or a token `"JWT " + sign({id, username}, 1h)`. The password
      check (`comparePassword`) and the signer (`jwt.sign` with the
      process-wide secret) are opaque to the service and come in as functions. */
  function SigninDecision(found: Option<(Id, User)>, password: string,
                          matches: (User, string) -> bool,
                          sign: (Claims, nat) -> string): (r: Response)
    ensures r.status == 200 <==> found.Some? && matches(found.value.1, password)
    ensures r.status != 200 ==> r.status == 401
    ensures r.status == 401 ==> r.body.Msg? && !r.body.success
    ensures r.status == 401 ==>
      (r.body.text == UserNotFoundAuthMsg <==> found.None?)
    ensures r.status == 200 ==>
      && r.body.Token? && r.body.success
      && |r.body.token| >= |TokenScheme|
      && r.body.token[..|TokenScheme|] == TokenScheme
      && r.body.token[|TokenScheme|..] == sign(Claims(found.value.0, found.value.1.username), TokenLifetime)
  {
    match found
    case None => Response(401, Msg(false, UserNotFoundAuthMsg))
    case Some((id, user)) =>
      if matches(user, password) then
        Response(200, Token(true, TokenScheme + sign(Claims(id, user.username), TokenLifetime)))
      else
        Response(401, Msg(false, IncorrectPasswordMsg))
  }
}

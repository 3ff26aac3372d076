/** The three tables the services read and write, held by one database object. */
module Store {
  import opened UserSchema
  import opened VerificationCodeSchema
  import opened PostSchema

  /** Every row sits under its own id, and no two rows share an email (the unique index). */
  ghost predicate UsersWellFormed(users: map<int, User>) {
    && (forall id :: id in users ==> users[id].id == id)
    && (forall i, j :: i in users && j in users && users[i].email == users[j].email ==> i == j)
  }

  /** Every row sits under its own id, and no two rows share a code value (the unique index). */
  ghost predicate CodesWellFormed(codes: map<int, VerificationCode>) {
    && (forall id :: id in codes ==> codes[id].id == id)
    && (forall i, j :: i in codes && j in codes && codes[i].code == codes[j].code ==> i == j)
  }

  ghost predicate PostsWellFormed(posts: map<int, Post>) {
    forall id :: id in posts ==> posts[id].id == id
  }

  /** Inserting a row under a fresh id with an unused email keeps the users table well formed. */
  lemma UsersInsert(users: map<int, User>, u: User)
    requires UsersWellFormed(users) && u.id !in users && !EmailTaken(users, u.email)
    ensures UsersWellFormed(users[u.id := u])
  {
  }

  /** Rewriting a row in place, keeping its id and email, keeps the users table well formed. */
  lemma UsersReplace(users: map<int, User>, u: User)
    requires UsersWellFormed(users) && u.id in users && users[u.id].email == u.email
    ensures UsersWellFormed(users[u.id := u])
  {
  }

  /** Inserting a row under a fresh id with an unused code keeps the codes table well formed. */
  lemma CodesInsert(codes: map<int, VerificationCode>, c: VerificationCode)
    requires CodesWellFormed(codes) && c.id !in codes && !CodeTaken(codes, c.code)
    ensures CodesWellFormed(codes[c.id := c])
  {
  }

  /** Rewriting a row in place, keeping its id and code, keeps the codes table well formed. */
  lemma CodesReplace(codes: map<int, VerificationCode>, c: VerificationCode)
    requires CodesWellFormed(codes) && c.id in codes && codes[c.id].code == c.code
    ensures CodesWellFormed(codes[c.id := c])
  {
  }

  /** Some row holds this email. */
  predicate EmailTaken(users: map<int, User>, email: string) {
    exists id :: id in users && users[id].email == email
  }

  /** Some row holds this code value. */
  predicate CodeTaken(codes: map<int, VerificationCode>, code: string) {
    exists id :: id in codes && codes[id].code == code
  }

  /** The `on delete cascade` of `verification_codes.user_id`: the codes of other users, unchanged. */
  function CodesNotOwnedBy(codes: map<int, VerificationCode>, userId: int): (rest: map<int, VerificationCode>)
    ensures forall id :: id in rest <==> id in codes && codes[id].userId != userId
    ensures forall id :: id in rest ==> rest[id] == codes[id]
  {
    map id | id in codes && codes[id].userId != userId :: codes[id]
  }

  /** The `on delete cascade` of `posts.user_id`: the posts of other users, unchanged. */
  function PostsNotOwnedBy(posts: map<int, Post>, userId: int): (rest: map<int, Post>)
    ensures forall id :: id in rest <==> id in posts && posts[id].userId != userId
    ensures forall id :: id in rest ==> rest[id] == posts[id]
  {
    map id | id in posts && posts[id].userId != userId :: posts[id]
  }

  /** A message handed to the mailer: recipient and the code it carries. */
  datatype Mail = Mail(recipient: string, code: string)

  class Database {
    var users: map<int, User>
    var codes: map<int, VerificationCode>
    var posts: map<int, Post>
    /** The next values of the three identity columns. */
    var nextUserId: int
    var nextCodeId: int
    var nextPostId: int
    /** Everything handed to the mailer so far. */
    ghost var outbox: seq<Mail>

    /** The table constraints: keys, unique columns, identity columns, and the foreign keys to `users`. */
    ghost predicate Valid()
      reads this
    {
      && UsersWellFormed(users)
      && CodesWellFormed(codes)
      && PostsWellFormed(posts)
      && (forall id :: id in users ==> id < nextUserId)
      && (forall id :: id in codes ==> id < nextCodeId)
      && (forall id :: id in posts ==> id < nextPostId)
      && (forall id :: id in codes ==> codes[id].userId in users)
      && (forall id :: id in posts ==> posts[id].userId in users)
    }

    constructor ()
      ensures Valid()
      ensures users == map[] && codes == map[] && posts == map[] && outbox == []
    {
      users, codes, posts := map[], map[], map[];
      nextUserId, nextCodeId, nextPostId := 1, 1, 1;
      outbox := [];
    }
  }
}

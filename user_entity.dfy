/** A registered user, and the password-free view of one that leaves the backend. */
module UserEntity {
  import opened Common

  datatype User = User(
    id: Id,
    email: string,
    password: string,
    name: string,
    createdAt: Instant,
    updatedAt: Instant)

  /** The fields of a user other than the password hash. */
  datatype UserWithoutPassword = UserWithoutPassword(
    id: Id,
    email: string,
    name: string,
    createdAt: Instant,
    updatedAt: Instant)

  /** `toUserWithoutPassword`: every field but the password is kept. */
  function ToUserWithoutPassword(user: User): (r: UserWithoutPassword)
    ensures r.id == user.id && r.email == user.email && r.name == user.name
    ensures r.createdAt == user.createdAt && r.updatedAt == user.updatedAt
  {
    UserWithoutPassword(user.id, user.email, user.name, user.createdAt, user.updatedAt)
  }

  /** The projection ignores the password: users differing only there look the same, and
      the projection is otherwise one-to-one. */
  lemma ProjectionForgetsOnlyPassword(a: User, b: User)
    ensures ToUserWithoutPassword(a) == ToUserWithoutPassword(b) <==> a.(password := b.password) == b
  {
  }
}

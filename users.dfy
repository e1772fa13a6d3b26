/** The user records of domains/usermanagement: the stored account, the two
    requests that create and change one, and the response the use cases
    return.  Timestamps are abstract instants. */
module UserDomain {
  import opened Outcomes

  /** A stored account; `password` holds the bcrypt hash. */
  datatype User = User(id: int, username: string, password: string, isActive: bool, createdAt: int, updatedAt: int)

  datatype CreateUserRequest = CreateUserRequest(username: string, password: string)

  /** An empty username or password means "leave unchanged"; so does a
      missing `isActive` (a nil `*bool`). */
  datatype UpdateUserRequest = UpdateUserRequest(username: string, password: string, isActive: Option<bool>)

  datatype UserResponse = UserResponse(
    id: int, username: string, isActive: bool, isConnected: bool, isLoggedIn: bool,
    createdAt: int, updatedAt: int)
}

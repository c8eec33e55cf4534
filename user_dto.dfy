/** The user requests and responses of internal/domain/user/dto.go. */
module UserDto {
  import Jwt
  import opened UserRepository

  datatype CreateUserRequest = CreateUserRequest(name: string, email: string, password: string)

  /** An empty field leaves the user's value as it is. */
  datatype UpdateUserRequest = UpdateUserRequest(name: string, email: string)

  datatype RegisterRequest = RegisterRequest(name: string, email: string, password: string)

  datatype LoginRequest = LoginRequest(email: string, password: string)

  /** UserResponse: what a client sees of a user. */
  datatype UserResponse = UserResponse(id: nat, name: string, email: string, createdAt: int, updatedAt: int)

  datatype AuthResponse = AuthResponse(user: UserResponse, token: Jwt.Token)

  /** User.ToUserResponse */
  function ToUserResponse(u: User): (r: UserResponse)
    ensures r.id == u.id && r.name == u.name && r.email == u.email
    ensures r.createdAt == u.createdAt && r.updatedAt == u.updatedAt
  {
    UserResponse(u.id, u.name, u.email, u.createdAt, u.updatedAt)
  }

  /** The response tells two users apart by everything except the password
      hash and the soft-delete mark, which it never carries. */
  lemma UserResponseOmitsOnlySecrets(a: User, b: User)
    ensures ToUserResponse(a) == ToUserResponse(b) <==> a.(password := b.password, deletedAt := b.deletedAt) == b
  {
  }

  /** ToUserResponseList: one response per user, in the same order. */
  method ToUserResponseList(users: seq<User>) returns (r: seq<UserResponse>)
    ensures |r| == |users|
    ensures forall i :: 0 <= i < |users| ==> r[i] == ToUserResponse(users[i])
    ensures users == [] ==> r == []
  {
    r := [];
    var i := 0;
    while i < |users|
      invariant 0 <= i <= |users|
      invariant |r| == i
      invariant forall k :: 0 <= k < i ==> r[k] == ToUserResponse(users[k])
    {
      var next := r + [ToUserResponse(users[i])];
      assert forall k :: 0 <= k < i ==> next[k] == r[k];
      r := next;
      i := i + 1;
    }
  }
}

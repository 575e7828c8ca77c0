/** UserMapper.toEntity: the create mapping from request DTO to entity. */
module UserMapper {
  import opened Domain

  /** The entity for a new user: no id, the three fields copied as they are. */
  function ToEntity(request: UserRequest): (user: User)
    ensures user.id.None?
    ensures user.name == request.name && user.email == request.email && user.password == request.password
  {
    User(None, request.name, request.email, request.password)
  }

  /** Two requests map to the same entity exactly when they are the same request. */
  lemma ToEntityInjective(a: UserRequest, b: UserRequest)
    ensures ToEntity(a) == ToEntity(b) <==> a == b
  {
  }
}

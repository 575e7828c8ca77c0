/** UserService.save: one repository save of the mapped entity. The
    repository is a parameter: the model assumes nothing about what it
    stores or whether it assigns an id. */
module UserService {
  import opened Domain
  import UserMapper

  /** The repository operations a service call can issue. */
  datatype RepositoryCall =
    | SaveEntity(entity: User)
    | FindById(id: string)
    | FindAll
    | FindAndRemove(id: string)

  /** What a service call did: the repository calls it issued, in order, and what it returned. */
  datatype Run = Run(calls: seq<RepositoryCall>, outcome: Result<User, Exception>)

  /** save(request): repository.save(mapper.toEntity(request)), nothing caught. */
  function Save(request: UserRequest, repositorySave: User -> Result<User, Exception>): (run: Run)
    ensures |run.calls| == 1 && run.calls[0].SaveEntity?
    ensures var sent := run.calls[0].entity;
      && sent.id.None?
      && sent.name == request.name && sent.email == request.email && sent.password == request.password
      && run.outcome == repositorySave(sent)
  {
    var entity := UserMapper.ToEntity(request);
    Run([SaveEntity(entity)], repositorySave(entity))
  }

  /** A repository failure, a duplicate key say, comes back unchanged. */
  lemma SaveFailurePropagates(request: UserRequest, repositorySave: User -> Result<User, Exception>, e: Exception)
    requires repositorySave(UserMapper.ToEntity(request)) == Err(e)
    ensures Save(request, repositorySave).outcome == Err(e)
  {
  }

  /** Whatever the repository returns is what save returns. */
  lemma SaveReturnsRepositoryResult(request: UserRequest, repositorySave: User -> Result<User, Exception>, u: User)
    requires repositorySave(UserMapper.ToEntity(request)) == Ok(u)
    ensures Save(request, repositorySave).outcome == Ok(u)
  {
  }

  /** save asks the repository about the mapped entity and nothing else:
      two repositories that answer that entity alike give the same run. */
  lemma SaveConsultsOnlyTheEntity(request: UserRequest, repositoryA: User -> Result<User, Exception>,
                                  repositoryB: User -> Result<User, Exception>)
    requires repositoryA(UserMapper.ToEntity(request)) == repositoryB(UserMapper.ToEntity(request))
    ensures Save(request, repositoryA) == Save(request, repositoryB)
  {
  }
}

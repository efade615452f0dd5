/** The list of watched repositories. */
module Repositories {

  class RepositoryWatcher {
    var repositories: seq<string>

    constructor ()
      ensures repositories == []
    {
      repositories := [];
    }

    method AddRepository(r: string)
      modifies this
      ensures repositories == old(repositories) + [r]
    {
      repositories := repositories + [r];
    }

    method RepositoryIsWatched(r: string) returns (watched: bool)
      ensures watched <==> r in repositories
    {
      for i := 0 to |repositories|
        invariant r !in repositories[..i]
      {
        if repositories[i] == r {
          return true;
        }
      }
      return false;
    }
  }
}

/** `UserService.getAll`: the stored users the principal may list. */
module UserService {
  import opened Wrappers
  import opened Uuids
  import opened Principals
  import opened Users
  import opened Scope

  /** The user collection, keyed by document id. */
  type Repository = map<Uuid, User>

  /** Every stored user carries the id it is stored under. */
  predicate WellKeyed(repo: Repository)
  {
    forall k :: k in repo ==> repo[k].base.id == Some(k)
  }

  /** The stored users that pass the `me` filter, collected into a set. */
  function GetAll(principal: UserSecurity, stored: set<User>): (r: set<User>)
    ensures r <= stored
    ensures forall u :: u in r ==> u.base.id == Some(principal.id)
    ensures forall u :: u in stored && u.base.id == Some(principal.id) ==> u in r
  {
    set u | u in stored && Me(principal, u)
  }

  /** Over a repository keyed by id, the listing is the principal's own
      document when it is stored, and nothing otherwise. */
  lemma GetAllOfRepository(principal: UserSecurity, repo: Repository)
    requires WellKeyed(repo)
    ensures principal.id in repo ==> GetAll(principal, repo.Values) == {repo[principal.id]}
    ensures principal.id !in repo ==> GetAll(principal, repo.Values) == {}
  {
    var r := GetAll(principal, repo.Values);
    if principal.id in repo {
      assert repo[principal.id] in r;
      forall u | u in r
        ensures u == repo[principal.id]
      {
        var k :| k in repo && repo[k] == u;
      }
    }
  }

  /** Authorities play no part: an administrator lists only its own user too. */
  lemma GetAllIgnoresAuthorities(principal: UserSecurity, stored: set<User>, authorities: set<string>)
    ensures GetAll(principal.(authorities := authorities), stored) == GetAll(principal, stored)
  {
  }
}

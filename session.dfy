/** The admin session flag of the backend: login sets it for the one fixed
    credential pair, logout clears it, and `me` reports it. The Flask
    session cookie becomes one boolean field. */
module Session {
  import opened Common

  const AdminUser := "admin"
  const AdminPassword := "admin123"

  /** Whether a login request carries the admin credentials; a missing
      field (`data.get` giving None) never matches. */
  predicate AdminCredentials(username: Option<string>, password: Option<string>)
  {
    username == Some(AdminUser) && password == Some(AdminPassword)
  }

  /** A request to one of the three session endpoints. */
  datatype Request = LoginRequest(username: Option<string>, password: Option<string>) | LogoutRequest | MeRequest

  /** The session flag after a sequence of requests. */
  function FlagAfter(flag: bool, requests: seq<Request>): bool
    decreases |requests|
  {
    if |requests| == 0 then flag
    else
      var before := FlagAfter(flag, requests[..|requests| - 1]);
      match requests[|requests| - 1]
      case LoginRequest(u, p) => if AdminCredentials(u, p) then true else before
      case LogoutRequest => false
      case MeRequest => before
  }

  /** The request logs in with the admin credentials. */
  predicate IsAdminLogin(r: Request)
  {
    r.LoginRequest? && AdminCredentials(r.username, r.password)
  }

  /** Starting logged out, the flag is set exactly when some login with the
      admin credentials was not followed by a logout. */
  lemma {:induction false} FlagMeansUnrevokedLogin(requests: seq<Request>)
    ensures FlagAfter(false, requests) <==>
              exists i :: 0 <= i < |requests| && IsAdminLogin(requests[i])
                            && forall j :: i < j < |requests| ==> !requests[j].LogoutRequest?
    decreases |requests|
  {
    if |requests| > 0 {
      var n := |requests| - 1;
      var init := requests[..n];
      FlagMeansUnrevokedLogin(init);
      var last := requests[n];
      if IsAdminLogin(last) {
        assert 0 <= n < |requests| && IsAdminLogin(requests[n]);
      } else if last.LogoutRequest? {
        forall i | 0 <= i < |requests| && IsAdminLogin(requests[i])
          ensures exists j :: i < j < |requests| && requests[j].LogoutRequest?
        {
          assert i != n;
          assert i < n < |requests| && requests[n].LogoutRequest?;
        }
      } else {
        if FlagAfter(false, init) {
          var i :| 0 <= i < |init| && IsAdminLogin(init[i])
                   && forall j :: i < j < |init| ==> !init[j].LogoutRequest?;
          assert IsAdminLogin(requests[i]);
          assert forall j :: i < j < |requests| ==> !requests[j].LogoutRequest? by {
            forall j | i < j < |requests| ensures !requests[j].LogoutRequest? {
              if j < n { assert requests[j] == init[j]; }
            }
          }
        } else {
          forall i | 0 <= i < |requests| && IsAdminLogin(requests[i])
            ensures exists j :: i < j < |requests| && requests[j].LogoutRequest?
          {
            assert i != n;
            assert requests[i] == init[i];
            var j :| i < j < |init| && init[j].LogoutRequest?;
            assert requests[j] == init[j];
          }
        }
      }
    }
  }

  class AdminSession {
    /** `'admin_logged_in' in session`. */
    var adminLoggedIn: bool

    constructor ()
      ensures !adminLoggedIn
    {
      adminLoggedIn := false;
    }

    /** `api_login`: 200 and the flag set for the admin credentials, 401 and
        the flag as it was otherwise. */
    method Login(username: Option<string>, password: Option<string>) returns (success: bool, status: int)
      modifies this
      ensures success <==> AdminCredentials(username, password)
      ensures success ==> adminLoggedIn && status == 200
      ensures !success ==> adminLoggedIn == old(adminLoggedIn) && status == 401
    {
      if username == Some(AdminUser) && password == Some(AdminPassword) {
        adminLoggedIn := true;
        return true, 200;
      }
      return false, 401;
    }

    /** `api_logout`: always succeeds and clears the flag. */
    method Logout() returns (success: bool)
      modifies this
      ensures success && !adminLoggedIn
    {
      adminLoggedIn := false;
      success := true;
    }

    /** `api_me`: 200 when the flag is set, 401 otherwise. */
    method Me() returns (success: bool, status: int)
      ensures success <==> adminLoggedIn
      ensures status == (if adminLoggedIn then 200 else 401)
    {
      if adminLoggedIn {
        return true, 200;
      }
      return false, 401;
    }

    /** Serve one request; the flag moves as `FlagAfter` says. */
    method Serve(r: Request) returns (success: bool)
      modifies this
      ensures adminLoggedIn == FlagAfter(old(adminLoggedIn), [r])
      ensures r.MeRequest? ==> (success <==> adminLoggedIn)
      ensures r.LoginRequest? ==> (success <==> IsAdminLogin(r))
      ensures r.LogoutRequest? ==> success
    {
      assert [r][..0] == [];
      match r
      case LoginRequest(u, p) =>
        var status;
        success, status := Login(u, p);
      case LogoutRequest =>
        success := Logout();
      case MeRequest =>
        var status;
        success, status := Me();
    }
  }
}

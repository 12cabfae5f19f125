/** The login check: an exact-match lookup of a username and password pair. */
module Accounts {
  import opened Common

  /** A stored user; the password is plain text compared for equality. */
  datatype Account = Account(username: string, password: string)

  predicate Matches(a: Account, username: string, password: string)
  {
    a.username == username && a.password == password
  }

  /** Login succeeds, answering the user's name, exactly when some stored
      account carries both the given username and the given password;
      otherwise it is refused as unauthorised. */
  function Login(users: seq<Account>, username: string, password: string): (r: Response<string>)
    ensures r.Ok? <==> exists i :: 0 <= i < |users| && Matches(users[i], username, password)
    ensures r.Ok? ==> r.value == username
    ensures !r.Ok? ==> r == Unauthorized
  {
    if |users| == 0 then Unauthorized
    else if Matches(users[0], username, password) then Ok(users[0].username)
    else
      var r := Login(users[1..], username, password);
      assert r.Ok? ==> exists i :: 0 <= i < |users| && Matches(users[i], username, password) by {
        if r.Ok? {
          var i :| 0 <= i < |users[1..]| && Matches(users[1..][i], username, password);
          assert Matches(users[i + 1], username, password);
        }
      }
      r
  }
}

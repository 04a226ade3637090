/**
 * Login and registration of `auth.py` over the users table, seen as a map
 * from e-mail address (the table's UNIQUE key) to the account stored for it.
 */
module Auth {
  import opened Wrappers

  /** The administrator's credentials are fixed in the code and never stored. */
  const AdminEmail := "admin@ids.com"
  const AdminPassword := "admin123"

  /** A row of the users table; a new row's status defaults to "active". */
  datatype Account = Account(password: string, role: string, status: string)

  type Users = map<string, Account>

  predicate IsAdminLogin(email: string, password: string) {
    email == AdminEmail && password == AdminPassword
  }

  /**
   * `login_user`: the admin pair wins outright; otherwise an unknown e-mail is
   * "not_found", a wrong password is None (whatever the status), a right
   * password on a blocked account is "blocked", and any other right password
   * yields the stored role.
   */
  function Login(users: Users, email: string, password: string): (r: Option<string>)
    ensures IsAdminLogin(email, password) ==> r == Some("admin")
    ensures !IsAdminLogin(email, password) && email !in users ==> r == Some("not_found")
    ensures r == None <==> !IsAdminLogin(email, password) && email in users && users[email].password != password
    ensures !IsAdminLogin(email, password) && email in users && users[email].password == password ==>
      r == Some(if users[email].status == "blocked" then "blocked" else users[email].role)
  {
    if IsAdminLogin(email, password) then Some("admin")
    else if email !in users then Some("not_found")
    else
      var account := users[email];
      if password != account.password then None
      else if account.status == "blocked" then Some("blocked")
      else Some(account.role)
  }

  /** The admin pair is answered without looking at the table at all. */
  lemma AdminIgnoresTable(users1: Users, users2: Users)
    ensures Login(users1, AdminEmail, AdminPassword) == Login(users2, AdminEmail, AdminPassword) == Some("admin")
  {
  }

  /** The password is checked before the status: blocking never hides a wrong password. */
  lemma WrongPasswordBeatsBlocked(users: Users, email: string, password: string)
    requires email in users && users[email].status == "blocked" && users[email].password != password
    requires !IsAdminLogin(email, password)
    ensures Login(users, email, password) == None
  {
  }

  /** The row `register_user` inserts. */
  function NewAccount(password: string): Account {
    Account(password, "user", "active")
  }

  /** The users table, which `register_user` changes by an INSERT. */
  class UserTable {
    var users: Users

    constructor ()
      ensures users == map[]
    {
      users := map[];
    }

    /**
     * `register_user`: the INSERT succeeds, adding a "user" row with status
     * "active", exactly when the e-mail is new; a duplicate e-mail violates the
     * UNIQUE constraint and leaves the table as it was. A freshly registered
     * account logs in as "user" unless its credentials are the admin pair.
     */
    method RegisterUser(email: string, password: string) returns (ok: bool)
      modifies this
      ensures ok <==> email !in old(users)
      ensures users == if ok then old(users)[email := NewAccount(password)] else old(users)
      ensures ok ==> Login(users, email, password) == Some(if IsAdminLogin(email, password) then "admin" else "user")
    {
      if email in users {
        ok := false;
      } else {
        users := users[email := NewAccount(password)];
        ok := true;
      }
    }
  }

  /** Registering one e-mail does not change how any other e-mail logs in. */
  lemma RegisterLeavesOthers(users: Users, email: string, password: string, other: string, otherPassword: string)
    requires email !in users && other != email
    ensures Login(users[email := NewAccount(password)], other, otherPassword) == Login(users, other, otherPassword)
  {
  }
}

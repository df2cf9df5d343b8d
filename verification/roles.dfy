/**
 * The login gate of the storage page: a client enters a phone number and no
 * password; each staff role has one fixed password.
 */
module Roles {
  import opened JsRuntime

  datatype Role = Client | Cashier | Admin | Creator | Nikitovsky

  predicate IsStaff(r: Role)
  {
    r != Client
  }

  /** Every character of `s` is whitespace (this includes the empty string). */
  predicate IsBlank(s: string)
  {
    forall i :: 0 <= i < |s| ==> IsWhitespace(s[i])
  }

  /** The fixed staff passwords (the client role has none). */
  function StaffPassword(r: Role): (pw: string)
    requires IsStaff(r)
    ensures pw != "" && forall i :: 0 <= i < |pw| ==> '0' <= pw[i] <= '9'
  {
    match r
    case Cashier => "25"
    case Admin => "2025"
    case Creator => "202505"
    case Nikitovsky => "20252025"
  }

  /**
   * Whether `handleLogin(role)` accepts the entered user name and password:
   * a client needs a non-blank user name and a blank password (both trimmed),
   * a staff role its own password, whatever the user name.
   */
  function Accepts(role: Role, username: string, password: string): (r: bool)
    ensures role == Client ==> (r <==> !IsBlank(username) && IsBlank(password))
    ensures r && IsStaff(role) ==> !IsBlank(password)
  {
    if role == Client then
      TrimEmptyIffAllWhitespace(username);
      TrimEmptyIffAllWhitespace(password);
      !(Trim(username) == "" || Trim(password) != "")
    else
      StaffPasswordNotBlank(role);
      password == StaffPassword(role)
  }

  /** A staff password starts with a digit, so it is not blank. */
  lemma StaffPasswordNotBlank(role: Role)
    requires IsStaff(role)
    ensures !IsBlank(StaffPassword(role))
  {
    var pw := StaffPassword(role);
    assert '0' <= pw[0] <= '9';
  }

  /** No password opens two different staff roles. */
  lemma StaffPasswordsDistinct(r1: Role, r2: Role, username: string, password: string)
    requires IsStaff(r1) && IsStaff(r2)
    requires Accepts(r1, username, password) && Accepts(r2, username, password)
    ensures r1 == r2
  {
  }

  /** No credentials open both the client role and a staff role: staff passwords are not blank. */
  lemma ClientAndStaffExclusive(role: Role, username: string, password: string)
    requires IsStaff(role) && Accepts(role, username, password)
    ensures !Accepts(Client, username, password)
  {
  }
}

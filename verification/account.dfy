/**
 The signed-in user. There is no credential check: the display name is
 derived from the e-mail address alone.
 */
module Account {

  datatype UserData = UserData(email: string, name: string)

  /** The part of `email` before its first `@` (all of it when there is none). */
  function DisplayName(email: string): (name: string)
    ensures name <= email
    ensures '@' !in name
    ensures '@' !in email ==> name == email
    ensures '@' in email ==> |name| < |email| && email[|name|] == '@'
  {
    if email == [] || email[0] == '@' then []
    else
      assert email == [email[0]] + email[1..];
      [email[0]] + DisplayName(email[1..])
  }

  /**
   The display name is the only prefix that contains no `@` and is followed
   by an `@` or by the end of the address.
   */
  lemma DisplayNameUnique(email: string, p: string)
    requires p <= email && '@' !in p
    requires |p| == |email| || email[|p|] == '@'
    ensures p == DisplayName(email)
  {
  }

  /** Signing in as "a@b.com" shows the name "a". */
  lemma DisplayNameExample()
    ensures DisplayName("a@b.com") == "a"
  {
    DisplayNameUnique("a@b.com", "a");
  }

  /** The user record that signing in with `email` creates. */
  function SignedIn(email: string): (u: UserData)
    ensures u.email == email
    ensures u.name <= email && '@' !in u.name
    ensures |u.name| == |email| || email[|u.name|] == '@'
    ensures u.name == DisplayName(email)
  {
    UserData(email, DisplayName(email))
  }
}

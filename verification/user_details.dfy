/** `CustomUserDetailsService`: the email-keyed principal lookup that both
    the password login and the request filter use. */
module UserDetails {
  import opened Wrappers
  import opened Entity
  import opened Exceptions
  import opened Directory

  const NotFoundPrefix: string := "해당 이메일에 대한 회원을 찾을 수 없습니다: "

  /** `loadUserByUsername`. It only reads the directory. */
  function LoadUserByUsername(d: Directory, email: string): (r: Result<User, Exc>)
    ensures r.Success? ==> Username(r.value) == email && exists i :: 0 <= i < |d.rows| && d.rows[i] == r.value
    ensures r.Failure? && r.error.UsernameNotFound? <==> !ExistsByEmail(d, email)
    ensures r.Failure? && r.error.UsernameNotFound? ==> r.error.text == NotFoundPrefix + email
    ensures Valid(d) ==> (r.Success? <==> ExistsByEmail(d, email))
  {
    match FindByEmail(d, email)
    case NotFound => Failure(UsernameNotFound(NotFoundPrefix + email))
    case Found(_, u) => Success(u)
    case NonUnique =>
      Failure(LibraryFault(IncorrectResultSize))
  }

  /** Every stored account is found again under its own username: on a
      valid table the lookup returns exactly that row. */
  lemma LoadsOwnRow(d: Directory, i: nat)
    requires Valid(d) && i < |d.rows|
    ensures LoadUserByUsername(d, Username(d.rows[i])) == Success(d.rows[i])
  {
    var r := FindByEmail(d, d.rows[i].email);
    FindByEmailUnique(d, d.rows[i].email);
    assert r.Found?;
    assert r.user == d.rows[i];
  }
}

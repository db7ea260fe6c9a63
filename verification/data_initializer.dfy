/**
 * `DataInitializer.run`: at start-up, create the demo administrator and
 * the demo user unless an account with that email already exists. The
 * console lines it prints are not modelled.
 */
module DataInitializer {
  import opened Wrappers
  import opened Entity
  import opened Exceptions
  import opened Directory
  import opened Passwords

  const AdminEmail: string := "admin@example.com"
  const UserEmail: string := "user@example.com"

  /** The administrator's builder values. */
  function AdminDraft(enc: PasswordEncoder): NewUser {
    NewUser(AdminEmail, Encode(enc, "admin123"), "Admin User", ADMIN, LOCAL, None)
  }

  /** The demo user's builder values. */
  function UserDraft(enc: PasswordEncoder): NewUser {
    NewUser(UserEmail, Encode(enc, "user123"), "Regular User", USER, LOCAL, None)
  }

  /** The directory after seeding and how many `save` calls were made. */
  datatype Seeded = Seeded(dir: Directory, saves: nat)

  /** Appending a row adds exactly its email to the taken ones. */
  lemma ExistsAfterAppend(d: Directory, u: User, n: nat, e: string)
    ensures ExistsByEmail(Directory(d.rows + [u], n), e) <==> ExistsByEmail(d, e) || u.email == e
  {
    var rows := d.rows + [u];
    if ExistsByEmail(d, e) {
      var i :| 0 <= i < |d.rows| && d.rows[i].email == e;
      assert rows[i] == d.rows[i];
    }
    if u.email == e {
      assert rows[|d.rows|] == u;
    }
  }

  /** One guarded block: `existsByEmail`, and `save` only when absent. */
  function SeedAccount(d: Directory, draft: NewUser, now: nat): (r: Seeded)
    ensures |r.dir.rows| == |d.rows| + r.saves && r.dir.rows[..|d.rows|] == d.rows
    ensures ExistsByEmail(d, draft.email) ==> r == Seeded(d, 0)
    ensures !ExistsByEmail(d, draft.email) ==> r.saves == 1 && r.dir == Insert(d, draft, now).value.dir
    ensures forall e :: ExistsByEmail(r.dir, e) <==> ExistsByEmail(d, e) || e == draft.email
    ensures Valid(d) ==> Valid(r.dir)
  {
    if ExistsByEmail(d, draft.email) then Seeded(d, 0)
    else
      var s := Insert(d, draft, now).value;
      assert s.dir.rows[..|d.rows|] == d.rows;
      assert forall e :: ExistsByEmail(s.dir, e) <==> ExistsByEmail(d, e) || e == draft.email by {
        forall e ensures ExistsByEmail(s.dir, e) <==> ExistsByEmail(d, e) || e == draft.email {
          ExistsAfterAppend(d, s.user, s.dir.nextId, e);
        }
      }
      Seeded(s.dir, 1)
  }

  /** Seeding the administrator neither takes nor frees the user's email. */
  lemma AdminSeedKeepsUserEmail(d: Directory, enc: PasswordEncoder, now: nat)
    ensures ExistsByEmail(SeedAccount(d, AdminDraft(enc), now).dir, UserEmail) <==> ExistsByEmail(d, UserEmail)
    ensures ExistsByEmail(SeedAccount(d, AdminDraft(enc), now).dir, AdminEmail)
  {
    assert AdminDraft(enc).email == AdminEmail;
  }

  lemma PrefixOfPrefix(a: seq<User>, b: seq<User>, c: seq<User>)
    requires |a| <= |b| <= |c| && b[..|a|] == a && c[..|b|] == b
    ensures c[..|a|] == a
  {
    assert c[..|a|] == c[..|b|][..|a|];
  }

  /** `run`. Existing rows are never touched; afterwards both seed emails
      are taken, and a seed account was saved exactly when its email was
      free. */
  function Run(d: Directory, enc: PasswordEncoder, now: nat): (r: Seeded)
    ensures ExistsByEmail(r.dir, AdminEmail) && ExistsByEmail(r.dir, UserEmail)
    ensures |r.dir.rows| >= |d.rows| && r.dir.rows[..|d.rows|] == d.rows
    ensures r.saves == (if ExistsByEmail(d, AdminEmail) then 0 else 1) + (if ExistsByEmail(d, UserEmail) then 0 else 1)
    ensures |r.dir.rows| == |d.rows| + r.saves
    ensures Valid(d) ==> Valid(r.dir)
  {
    var admin := SeedAccount(d, AdminDraft(enc), now);
    var user := SeedAccount(admin.dir, UserDraft(enc), now);
    AdminSeedKeepsUserEmail(d, enc, now);
    assert ExistsByEmail(user.dir, AdminEmail);
    PrefixOfPrefix(d.rows, admin.dir.rows, user.dir.rows);
    Seeded(user.dir, admin.saves + user.saves)
  }

  /** A second run saves nothing and leaves the directory as it was. */
  lemma RunIdempotent(d: Directory, enc: PasswordEncoder, t1: nat, t2: nat)
    ensures Run(Run(d, enc, t1).dir, enc, t2) == Seeded(Run(d, enc, t1).dir, 0)
  {
    var d1 := Run(d, enc, t1).dir;
    assert SeedAccount(d1, AdminDraft(enc), t2) == Seeded(d1, 0);
  }

  /** On a fresh directory the seeded administrator has role ADMIN and the
      password "admin123". */
  lemma SeededAdmin(enc: PasswordEncoder, now: nat)
    ensures var d := Run(Directory([], 1), enc, now).dir;
      && |d.rows| == 2
      && d.rows[0].email == AdminEmail && d.rows[0].role == ADMIN && d.rows[0].provider == LOCAL
      && Matches(enc, "admin123", d.rows[0].password)
      && d.rows[1].email == UserEmail && d.rows[1].role == USER
      && Matches(enc, "user123", d.rows[1].password)
  {
    var d0 := Directory([], 1);
    assert !ExistsByEmail(d0, AdminEmail);
    var a := SeedAccount(d0, AdminDraft(enc), now);
    assert |a.dir.rows| == 1 && a.dir.rows[0].email == AdminEmail;
    assert AdminEmail != UserEmail;
    assert !ExistsByEmail(a.dir, UserEmail);
  }
}

/**
 * The user directory: the `users` table behind `UserRepository`, its three
 * derived queries and the two ways `save` writes a row. The table is a
 * sequence of rows; row order carries no meaning.
 */
module Directory {
  import opened Wrappers
  import opened Entity
  import opened Exceptions

  /** The table and the next value of its IDENTITY column. */
  datatype Directory = Directory(rows: seq<User>, nextId: nat)

  /** The outcome of a single-result query (`Optional<User>`): no row, one
      row (with its position), or several rows, which Spring Data reports by
      throwing `IncorrectResultSizeDataAccessException`. */
  datatype Lookup = NotFound | Found(index: nat, user: User) | NonUnique

  /** A successful `save`: the new table and the row as stored. */
  datatype Saved = Saved(dir: Directory, user: User)

  /** The schema's guarantees: unique generated ids below the counter and
      the `unique = true` email column. */
  ghost predicate Valid(d: Directory) {
    && (forall i :: 0 <= i < |d.rows| ==> d.rows[i].id < d.nextId)
    && (forall i, j :: 0 <= i < j < |d.rows| ==> d.rows[i].id != d.rows[j].id)
    && (forall i, j :: 0 <= i < j < |d.rows| ==> d.rows[i].email != d.rows[j].email)
  }

  /** No two federated rows share (provider, providerId). The schema does NOT
      enforce this; only the federation resolver's find-before-create does. */
  ghost predicate FederatedUnique(d: Directory) {
    forall i, j :: 0 <= i < j < |d.rows| && d.rows[i].provider != LOCAL ==>
      d.rows[i].provider != d.rows[j].provider || d.rows[i].providerId != d.rows[j].providerId
  }

  /** The single-result query for `p`: the unique matching row, if any. */
  function Select(rows: seq<User>, p: User -> bool): (r: Lookup)
    ensures r.NotFound? <==> forall i :: 0 <= i < |rows| ==> !p(rows[i])
    ensures r.Found? ==>
      && r.index < |rows| && rows[r.index] == r.user && p(r.user)
      && forall j :: 0 <= j < |rows| && p(rows[j]) ==> j == r.index
    ensures r.NonUnique? ==> exists i, j :: 0 <= i < j < |rows| && p(rows[i]) && p(rows[j])
  {
    if |rows| == 0 then NotFound
    else
      var last := |rows| - 1;
      var rest := Select(rows[..last], p);
      assert forall i :: 0 <= i < last ==> rows[..last][i] == rows[i];
      if !p(rows[last]) then rest
      else if rest.NotFound? then Found(last, rows[last])
      else NonUnique
  }

  /** `findByEmail`. */
  function FindByEmail(d: Directory, email: string): (r: Lookup)
    ensures r.Found? ==> r.user.email == email && r.index < |d.rows| && d.rows[r.index] == r.user
    ensures r.NotFound? <==> forall i :: 0 <= i < |d.rows| ==> d.rows[i].email != email
  {
    Select(d.rows, (u: User) => u.email == email)
  }

  /** `existsByEmail`: an existence query, which never fails on several rows. */
  function ExistsByEmail(d: Directory, email: string): (b: bool)
    ensures b <==> !FindByEmail(d, email).NotFound?
  {
    exists i :: 0 <= i < |d.rows| && d.rows[i].email == email
  }

  /** `findByProviderAndProviderId`. A null `providerId` argument becomes
      `IS NULL`, which is equality on the optional value. */
  function FindByProviderAndProviderId(d: Directory, provider: AuthProvider, providerId: Option<string>): (r: Lookup)
    ensures r.Found? ==>
      && r.user.provider == provider && r.user.providerId == providerId
      && r.index < |d.rows| && d.rows[r.index] == r.user
    ensures r.NotFound? <==>
      forall i :: 0 <= i < |d.rows| ==> d.rows[i].provider != provider || d.rows[i].providerId != providerId
  {
    Select(d.rows, (u: User) => u.provider == provider && u.providerId == providerId)
  }

  /** Under the unique email column a lookup by email is never ambiguous.
      The body is empty because `Select` reports `NonUnique` only when a
      second row matches, which `Valid` rules out. */
  lemma FindByEmailUnique(d: Directory, email: string)
    requires Valid(d)
    ensures !FindByEmail(d, email).NonUnique?
  {
  }

  /** A federated lookup is never ambiguous while federated ids are unique.
      As above, `Select`'s contract on a second match closes it directly. */
  lemma FindFederatedUnique(d: Directory, provider: AuthProvider, providerId: Option<string>)
    requires FederatedUnique(d) && provider != LOCAL
    ensures !FindByProviderAndProviderId(d, provider, providerId).NonUnique?
  {
  }

  /**
   * `save` of a new entity (`persist`): `@PrePersist` stamps it, the IDENTITY
   * column numbers it, and the unique email column rejects a second row with
   * the same email, in which case nothing is written.
   */
  function Insert(d: Directory, draft: NewUser, now: nat): (r: Result<Saved, Exc>)
    ensures r.Failure? <==> ExistsByEmail(d, draft.email)
    ensures r.Failure? ==> r.error == LibraryFault(DataIntegrityViolation)
    ensures r.Success? ==>
      && r.value.user.id == d.nextId && FromDraft(r.value.user, draft)
      && r.value.user.createdAt == now && r.value.user.updatedAt == now
      && r.value.dir.rows == d.rows + [r.value.user]
      && r.value.dir.nextId == d.nextId + 1
    ensures r.Success? && Valid(d) ==> Valid(r.value.dir)
  {
    if ExistsByEmail(d, draft.email) then Failure(LibraryFault(DataIntegrityViolation))
    else
      var u := OnCreate(draft, d.nextId, now);
      Success(Saved(Directory(d.rows + [u], d.nextId + 1), u))
  }

  /** The entity differs from the stored row in a column the update writes.
      Only the creation time is `updatable = false`; the modification time
      is an ordinary column and is dirty-checked like the rest. */
  predicate Dirty(stored: User, u: User) {
    u.(createdAt := stored.createdAt) != stored
  }

  /**
   * `save` of an entity read earlier from row `i` (`merge`). The
   * `updatable = false` creation time is never written. An entity equal to
   * the stored row apart from that column is not dirty, so `@PreUpdate` does not fire and nothing
   * changes; otherwise the row is replaced and stamped, unless the new email
   * collides with another row.
   */
  function Update(d: Directory, i: nat, u: User, now: nat): (r: Result<Saved, Exc>)
    requires i < |d.rows| && u.id == d.rows[i].id
    ensures !Dirty(d.rows[i], u) ==> r == Success(Saved(d, d.rows[i]))
    ensures Dirty(d.rows[i], u) ==>
      (r.Failure? <==> exists j :: 0 <= j < |d.rows| && j != i && d.rows[j].email == u.email)
    ensures Dirty(d.rows[i], u) && r.Success? ==> r.value.user.updatedAt == now
    ensures r.Failure? ==> r.error == LibraryFault(DataIntegrityViolation)
    ensures r.Success? ==>
      && |r.value.dir.rows| == |d.rows| && r.value.dir.nextId == d.nextId
      && r.value.dir.rows == d.rows[i := r.value.user]
      && r.value.user.(updatedAt := u.updatedAt, createdAt := u.createdAt) == u
      && r.value.user.createdAt == d.rows[i].createdAt
    ensures r.Success? && Valid(d) ==> Valid(r.value.dir)
  {
    var stored := d.rows[i];
    var written := u.(createdAt := stored.createdAt);
    if written == stored then
      assert d.rows[i := stored] == d.rows;
      Success(Saved(d, stored))
    else if exists j :: 0 <= j < |d.rows| && j != i && d.rows[j].email == u.email then
      Failure(LibraryFault(DataIntegrityViolation))
    else
      var row := OnUpdate(written, now);
      Success(Saved(d.(rows := d.rows[i := row]), row))
  }

  /** A change to the modification time alone is still a change: the row
      is written, and `@PreUpdate` stamps it with the current time. */
  lemma ModificationTimeIsDirtyChecked(d: Directory, i: nat, x: nat, now: nat)
    requires Valid(d) && i < |d.rows| && x != d.rows[i].updatedAt
    ensures Update(d, i, d.rows[i].(updatedAt := x), now).Success?
    ensures Update(d, i, d.rows[i].(updatedAt := x), now).value.user.updatedAt == now
  {
    assert Dirty(d.rows[i], d.rows[i].(updatedAt := x));
  }
}

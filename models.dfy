/**
 * The database models of the feedback application: users with a role, the
 * role-to-permission table, and the shape of a stored feedback record.
 */
module Models {
  import opened Wrappers

  // ---------------------------------------------------------------------------
  // Users and roles
  // ---------------------------------------------------------------------------

  datatype User = User(id: int, username: string, password: string, role: string)

  const AdministratorRole := "administrator"
  const DeveloperRole := "developer"
  const CustomerRole := "customer"

  /** The class-level table of roles and the permissions each one grants. */
  const Roles: map<string, seq<string>> := map[
    AdministratorRole := ["admin", "analyst", "viewer"],
    DeveloperRole := ["analyst", "viewer"],
    CustomerRole := ["viewer"]
  ]

  /** The permission list of a role; a role missing from the table gets the empty list. */
  function PermissionsOf(role: string): (ps: seq<string>)
    ensures role !in Roles ==> ps == []
    ensures role in Roles ==> ps == Roles[role]
  {
    if role in Roles then Roles[role] else []
  }

  predicate HasPermission(u: User, required: string)
  {
    required in PermissionsOf(u.role)
  }

  predicate IsAdmin(u: User)
  {
    u.role == AdministratorRole
  }

  /** An independent statement of the permission table, one role at a time. */
  lemma HasPermissionExactly(u: User, p: string)
    ensures HasPermission(u, p) <==>
      || (u.role == AdministratorRole && (p == "admin" || p == "analyst" || p == "viewer"))
      || (u.role == DeveloperRole && (p == "analyst" || p == "viewer"))
      || (u.role == CustomerRole && p == "viewer")
  {
    if u.role == AdministratorRole {
      assert PermissionsOf(u.role) == ["admin", "analyst", "viewer"];
    } else if u.role == DeveloperRole {
      assert PermissionsOf(u.role) == ["analyst", "viewer"];
    } else if u.role == CustomerRole {
      assert PermissionsOf(u.role) == ["viewer"];
    } else {
      assert PermissionsOf(u.role) == [];
    }
  }

  /** A role that is not in the table grants nothing. */
  lemma UnknownRoleHasNoPermission(u: User, p: string)
    requires u.role != AdministratorRole && u.role != DeveloperRole && u.role != CustomerRole
    ensures !HasPermission(u, p)
  {
    HasPermissionExactly(u, p);
  }

  /** customer permissions are developer permissions, which are administrator permissions. */
  lemma PermissionsNested(u: User, p: string)
    ensures HasPermission(u.(role := CustomerRole), p) ==> HasPermission(u.(role := DeveloperRole), p)
    ensures HasPermission(u.(role := DeveloperRole), p) ==> HasPermission(u.(role := AdministratorRole), p)
  {
    HasPermissionExactly(u.(role := CustomerRole), p);
    HasPermissionExactly(u.(role := DeveloperRole), p);
    HasPermissionExactly(u.(role := AdministratorRole), p);
  }

  /** No role grants a permission called "administrator". */
  lemma NoRoleGrantsAdministrator(u: User)
    ensures !HasPermission(u, "administrator")
  {
    HasPermissionExactly(u, "administrator");
  }

  /** Being an administrator is the same as holding the "admin" permission. */
  lemma AdminIffAdminPermission(u: User)
    ensures IsAdmin(u) <==> HasPermission(u, "admin")
  {
    HasPermissionExactly(u, "admin");
  }

  // ---------------------------------------------------------------------------
  // The gate of the administrator page (app/routes.py, line 197)
  // ---------------------------------------------------------------------------

  /** The gate as written: it asks for a permission called "administrator". */
  predicate AdminPageOpenAsWritten(u: User)
  {
    HasPermission(u, "administrator")
  }

  /** As written the page turns every user away, administrators included. */
  lemma AdminPageClosedToEveryone(u: User)
    ensures !AdminPageOpenAsWritten(u)
  {
    NoRoleGrantsAdministrator(u);
  }

  /** The gate as intended: it asks for the "admin" permission. */
  predicate AdminPageOpen(u: User)
  {
    HasPermission(u, "admin")
  }

  /** The intended gate lets in exactly the administrators. */
  lemma AdminPageOpenToAdministrators(u: User)
    ensures AdminPageOpen(u) <==> IsAdmin(u)
    ensures AdminPageOpen(u) <==> u.role == AdministratorRole
  {
    AdminIffAdminPermission(u);
  }

  // ---------------------------------------------------------------------------
  // Feedback records
  // ---------------------------------------------------------------------------

  /** A calendar date without a time of day. */
  datatype Date = Date(year: int, month: int, day: int)

  /**
   * A stored feedback row: every column is NOT NULL. `rating` is kept as a
   * real number because the value handed over may be a median of two ratings.
   */
  datatype Feedback = Feedback(
    date: Date,
    source: string,
    feedbackText: string,
    sentimentScore: string,
    productServiceCategory: string,
    rating: real,
    feedbackLength: int,
    sentimentCategory: string,
    sentimentNumeric: int)

  /**
   * A Feedback object that has been built and added to the session but not yet
   * flushed. Its attributes are whatever the table row held, so the two columns
   * that can still be null at that point are optional here.
   */
  datatype Draft = Draft(
    date: Date,
    source: string,
    feedbackText: string,
    sentimentScore: string,
    productServiceCategory: Option<string>,
    rating: Option<real>,
    feedbackLength: int,
    sentimentCategory: string,
    sentimentNumeric: int)

  /** The NOT NULL check a flush applies: a draft becomes a row only when no column is null. */
  function ToRecord(d: Draft): (r: Option<Feedback>)
    ensures r.Some? <==> d.productServiceCategory.Some? && d.rating.Some?
    ensures r.Some? ==>
      && r.value.date == d.date && r.value.source == d.source
      && r.value.feedbackText == d.feedbackText && r.value.sentimentScore == d.sentimentScore
      && Some(r.value.productServiceCategory) == d.productServiceCategory
      && Some(r.value.rating) == d.rating
      && r.value.feedbackLength == d.feedbackLength
      && r.value.sentimentCategory == d.sentimentCategory
      && r.value.sentimentNumeric == d.sentimentNumeric
  {
    match (d.productServiceCategory, d.rating)
    case (Some(c), Some(x)) =>
      Some(Feedback(d.date, d.source, d.feedbackText, d.sentimentScore, c, x,
                    d.feedbackLength, d.sentimentCategory, d.sentimentNumeric))
    case _ => None
  }

  predicate Persistable(ds: seq<Draft>)
  {
    forall k :: 0 <= k < |ds| ==> ToRecord(ds[k]).Some?
  }

  /** The rows a successful flush writes, one per draft, in order. */
  function Records(ds: seq<Draft>): (rs: seq<Feedback>)
    requires Persistable(ds)
    ensures |rs| == |ds|
    ensures forall k :: 0 <= k < |ds| ==> ToRecord(ds[k]) == Some(rs[k])
  {
    seq(|ds|, k requires 0 <= k < |ds| && Persistable(ds) => ToRecord(ds[k]).value)
  }
}

/**
 * Role-based permission checks: a user's permission strings, the `"*"`
 * wildcard, and the any/all checks over a list of required permissions.
 */
module Permissions {

  const AdminFull := "*"
  const UsersRead := "users:read"
  const UsersWrite := "users:write"
  const UsersDelete := "users:delete"
  const QuestionsRead := "questions:read"
  const QuestionsWrite := "questions:write"
  const QuestionsDelete := "questions:delete"
  const ResultsRead := "results:read"
  const ResultsWrite := "results:write"
  const ResultsDelete := "results:delete"
  const ResultsOwn := "results:own"
  const AnalyticsRead := "analytics:read"
  const AnalyticsWrite := "analytics:write"
  const TestsTake := "tests:take"
  const TestsCreate := "tests:create"
  const AiGenerate := "ai:generate"

  /** The `PERMISSIONS` catalogue. */
  const AllPermissions: set<string> := {
    AdminFull, UsersRead, UsersWrite, UsersDelete, QuestionsRead, QuestionsWrite, QuestionsDelete,
    ResultsRead, ResultsWrite, ResultsDelete, ResultsOwn, AnalyticsRead, AnalyticsWrite,
    TestsTake, TestsCreate, AiGenerate}

  datatype Role = Admin | Teacher | Student

  /** `ROLE_PERMISSIONS`. */
  function RolePermissions(r: Role): seq<string> {
    match r
    case Admin => [AdminFull]
    case Teacher => [QuestionsRead, QuestionsWrite, ResultsRead, UsersRead, AnalyticsRead, AiGenerate]
    case Student => [TestsTake, ResultsOwn]
  }

  /** `list.includes(x)`: a scan from the front. */
  function Includes(list: seq<string>, x: string): (r: bool)
    ensures r <==> x in list
  {
    if list == [] then false else list[0] == x || Includes(list[1..], x)
  }

  /** `hasPermission`: the wildcard grants everything, otherwise the permission must be listed. */
  function HasPermission(user: seq<string>, required: string): bool {
    if Includes(user, AdminFull) then true else Includes(user, required)
  }

  /** `hasAnyPermission`: `some` over the required permissions. */
  function HasAnyPermission(user: seq<string>, required: seq<string>): (r: bool)
    ensures r <==> exists k :: 0 <= k < |required| && HasPermission(user, required[k])
  {
    if required == [] then false
    else
      var rest := HasAnyPermission(user, required[1..]);
      assert forall k :: 1 <= k < |required| ==> required[k] == required[1..][k - 1];
      HasPermission(user, required[0]) || rest
  }

  /** `hasAllPermissions`: `every` over the required permissions. */
  function HasAllPermissions(user: seq<string>, required: seq<string>): (r: bool)
    ensures r <==> forall k :: 0 <= k < |required| ==> HasPermission(user, required[k])
  {
    if required == [] then true
    else
      var rest := HasAllPermissions(user, required[1..]);
      assert forall k :: 1 <= k < |required| ==> required[k] == required[1..][k - 1];
      HasPermission(user, required[0]) && rest
  }

  /** A user holds a permission exactly when they hold the wildcard or that permission. */
  lemma HasPermissionMeaning(user: seq<string>, required: string)
    ensures HasPermission(user, required) <==> AdminFull in user || required in user
  {
  }

  /** The empty requirement list: `some` is false and `every` is true, whoever asks. */
  lemma EmptyRequirements(user: seq<string>)
    ensures !HasAnyPermission(user, [])
    ensures HasAllPermissions(user, [])
  {
  }

  /** Holding all of a non-empty list means holding some of it. */
  lemma AllImpliesAny(user: seq<string>, required: seq<string>)
    requires required != []
    ensures HasAllPermissions(user, required) ==> HasAnyPermission(user, required)
  {
  }

  /** Granting more permissions never revokes one. */
  lemma MorePermissionsMonotone(user: seq<string>, more: seq<string>, required: seq<string>)
    requires forall p :: p in user ==> p in more
    ensures HasAnyPermission(user, required) ==> HasAnyPermission(more, required)
    ensures HasAllPermissions(user, required) ==> HasAllPermissions(more, required)
  {
  }

  /** The order of a user's permissions does not matter. */
  lemma OrderIrrelevant(user: seq<string>, other: seq<string>, required: string)
    requires multiset(user) == multiset(other)
    ensures HasPermission(user, required) == HasPermission(other, required)
  {
    assert forall p :: p in user <==> p in multiset(user);
    assert forall p :: p in other <==> p in multiset(other);
  }

  /** The wildcard holder passes every check. */
  lemma AdminHasEverything(required: seq<string>)
    ensures HasAllPermissions(RolePermissions(Admin), required)
    ensures required != [] ==> HasAnyPermission(RolePermissions(Admin), required)
  {
  }

  /**
   * What the two other roles can and cannot do: a teacher reads and writes
   * questions but cannot delete them or take tests; a student takes tests and
   * sees their own results but cannot read all results. Every role's list is
   * drawn from the catalogue.
   */
  lemma RoleFacts()
    ensures HasAllPermissions(RolePermissions(Teacher), [QuestionsRead, QuestionsWrite, AiGenerate])
    ensures !HasPermission(RolePermissions(Teacher), QuestionsDelete)
    ensures !HasPermission(RolePermissions(Teacher), TestsTake)
    ensures HasAllPermissions(RolePermissions(Student), [TestsTake, ResultsOwn])
    ensures !HasPermission(RolePermissions(Student), ResultsRead)
    ensures forall r: Role, p :: p in RolePermissions(r) ==> p in AllPermissions
  {
    TeacherFacts();
    StudentFacts();
    RolesInCatalogue();
  }

  lemma TeacherFacts()
    ensures HasAllPermissions(RolePermissions(Teacher), [QuestionsRead, QuestionsWrite, AiGenerate])
    ensures !HasPermission(RolePermissions(Teacher), QuestionsDelete)
    ensures !HasPermission(RolePermissions(Teacher), TestsTake)
  {
    var t := RolePermissions(Teacher);
    assert QuestionsRead in t && QuestionsWrite in t && AiGenerate in t;
    assert AdminFull !in t && QuestionsDelete !in t && TestsTake !in t;
  }

  lemma StudentFacts()
    ensures HasAllPermissions(RolePermissions(Student), [TestsTake, ResultsOwn])
    ensures !HasPermission(RolePermissions(Student), ResultsRead)
  {
    var t := RolePermissions(Student);
    assert TestsTake in t && ResultsOwn in t;
    assert AdminFull !in t && ResultsRead !in t;
  }

  lemma RolesInCatalogue()
    ensures forall r: Role, p :: p in RolePermissions(r) ==> p in AllPermissions
  {
    forall r: Role, p | p in RolePermissions(r) ensures p in AllPermissions {
    }
  }

  /** A student holds only the two test permissions: writing users and reading questions are refused. */
  lemma StudentRefused()
    ensures !HasPermission(RolePermissions(Student), UsersWrite)
    ensures !HasPermission(RolePermissions(Student), QuestionsRead)
    ensures forall p :: HasPermission(RolePermissions(Student), p) <==> p in {TestsTake, ResultsOwn}
  {
  }
}

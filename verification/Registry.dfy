// The operator's registry: which targets a run may be built from.
module Registry {
  import opened Text
  import opened ExecutionDomain
  import opened ExecutionInvariants

  // The registered packages, and the package each role of a target is assigned.
  datatype Assignment = Assignment(participants: map<Role, Principal>, packages: map<Role, string>, maxTokens: int)

  type Catalogue = map<string, Package>

  const ROLES: seq<Role> := [Builder, Evaluator, Delivery, Diagnosis, Remediation]

  predicate Alphanumeric(c: char) { 'A' <= c <= 'Z' || 'a' <= c <= 'z' || '0' <= c <= '9' }

  // ValidProductKey: a letter or digit, then up to 127 of those and _ . : / -
  predicate ValidKey(key: string) {
    && 1 <= |key| <= 128 && Alphanumeric(key[0])
    && forall i | 0 <= i < |key| :: Alphanumeric(key[i]) || key[i] in "_.:/-"
  }

  predicate RoleAssigned(catalogue: Catalogue, a: Assignment, role: Role) {
    && role in a.participants && ValidKey(a.participants[role])
    && role in a.packages && a.packages[role] in catalogue
    && var pkg := catalogue[a.packages[role]];
       pkg.role == role && (pkg.UsesModel() ==> pkg.MaxTokenCharge() <= a.maxTokens)
  }

  predicate Distinct(a: Assignment, n: nat)
    requires n <= |ROLES|
  {
    forall i, j | 0 <= i < j < n ::
      ROLES[i] in a.participants && ROLES[j] in a.participants ==> a.participants[ROLES[i]] != a.participants[ROLES[j]]
  }

  // Every role gets a matching package and a workload of its own, and a model
  // package fits the token budget of the target.
  method ValidateRoles(catalogue: Catalogue, a: Assignment) returns (ok: bool)
    requires forall key | key in catalogue :: ValidKey(key)
    ensures ok <==> (forall i | 0 <= i < |ROLES| :: RoleAssigned(catalogue, a, ROLES[i])) && Distinct(a, |ROLES|)
                    && |a.participants| == 5 && |a.packages| == 5
  {
    var actors: set<Principal> := {};
    for n := 0 to |ROLES|
      invariant forall i | 0 <= i < n :: RoleAssigned(catalogue, a, ROLES[i])
      invariant Distinct(a, n)
      invariant forall p :: p in actors <==> exists i | 0 <= i < n :: a.participants[ROLES[i]] == p
    {
      var role := ROLES[n];
      var actor := if role in a.participants then a.participants[role] else "";
      var key := if role in a.packages then a.packages[role] else "";
      var pkg := if key in catalogue then catalogue[key] else NO_PACKAGE;
      if !ValidKey(actor) || actor in actors || key !in catalogue || pkg.role != role {
        return false;
      }
      actors := actors + {actor};
      if pkg.UsesModel() && pkg.MaxTokenCharge() > a.maxTokens { return false; }
    }
    return |a.participants| == 5 && |a.packages| == 5;
  }

  predicate HexDigit(c: char) { '0' <= c <= '9' || 'a' <= c <= 'f' }

  predicate DigestText(s: string) { |s| == 64 && forall i | 0 <= i < |s| :: HexDigit(s[i]) }

  predicate ImageName(s: string) {
    s != "" && forall i | 0 <= i < |s| :: Alphanumeric(s[i]) || s[i] in "./:_-"
  }

  // An image by its digest alone, or a name pinned to one.
  predicate PinnedImage(s: string) {
    |s| >= 71
    && var n := |s| - 71;
       s[n..n + 7] == "sha256:" && DigestText(s[n + 7..]) && (n > 0 ==> s[n - 1] == '@' && ImageName(s[..n - 1]))
  }

  predicate BoundedText(s: string, n: nat) { TrimSpace(s) != "" && |s| <= n }

  // The checks of AgentPackage.Validate on what is modelled of a package.
  predicate PackageValid(pkg: Package) {
    && KnownRole(pkg.role) && BoundedText(pkg.instructions, 16384)
    && 1 <= pkg.concurrency <= 16 && 1024 <= pkg.maxInputBytes <= 256 * 1024
    && 1 <= pkg.timeoutSeconds <= 600
    && (if ModelRole(pkg.role) then
          BoundedText(pkg.model, 128) && DigestText(pkg.modelSha) && 128 <= pkg.maxOutputTokens <= 32768
        else !pkg.UsesModel() && pkg.modelSha == "")
    && (pkg.role == Evaluator ==> PinnedImage(pkg.evaluatorImage))
  }

  lemma RoleIndex(role: Role) returns (i: nat)
    requires KnownRole(role)
    ensures i < |ROLES| && ROLES[i] == role
  {
    if role == Builder { i := 0; }
    else if role == Evaluator { i := 1; }
    else if role == Delivery { i := 2; }
    else if role == Diagnosis { i := 3; }
    else { i := 4; }
  }

  lemma ValidFits(pkg: Package)
    requires PackageValid(pkg)
    ensures PackageFits(pkg, pkg.role)
  {
    hide DigestText, PinnedImage;
  }

  // A target that passes validation, with the packages it names, is what the
  // execution protocol assumes of a frozen target.
  lemma {:induction false} ValidatedTargetFits(catalogue: Catalogue, a: Assignment, t: Target,
                                               packages: map<Role, Package>)
    requires forall i | 0 <= i < |ROLES| :: RoleAssigned(catalogue, a, ROLES[i])
    requires Distinct(a, |ROLES|)
    requires forall key | key in catalogue :: PackageValid(catalogue[key])
    requires t.participants == a.participants
    requires packages == map role | role in a.packages && a.packages[role] in catalogue :: catalogue[a.packages[role]]
    ensures FrozenOk(t, packages)
    ensures forall role | KnownRole(role) && packages[role].UsesModel() ::
              packages[role].MaxTokenCharge() <= a.maxTokens
  {
    hide PackageValid, PackageFits, ValidKey;
    forall role | KnownRole(role)
      ensures RoleAssigned(catalogue, a, role) && role in packages && PackageFits(packages[role], role)
    {
      var i := RoleIndex(role);
      ValidFits(packages[role]);
    }
    forall r, s | KnownRole(r) && KnownRole(s) && r != s ensures t.participants[r] != t.participants[s] {
      var i := RoleIndex(r);
      var j := RoleIndex(s);
      if i < j { assert a.participants[ROLES[i]] != a.participants[ROLES[j]]; }
      else { assert a.participants[ROLES[j]] != a.participants[ROLES[i]]; }
    }
  }
}

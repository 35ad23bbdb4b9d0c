/** The access and routing rules of `auth.ts`: classifying an address,
    choosing where to send a user, deciding who may open a path, and the
    branch sign-up takes. */
module Auth {

  import opened Wrappers
  import opened Strings
  import opened Utils

  datatype Role = Admin | Employee

  /** What an address looks like: a company's own domain or personal webmail. */
  datatype UserType = CompanyType | EmployeeType

  datatype User = User(id: string, email: string, role: Role, companyId: string)

  /** `detectUserType`. */
  function DetectUserType(email: string): (t: UserType)
    ensures t == EmployeeType <==> IsPersonalEmail(email)
  {
    if IsPersonalEmail(email) then EmployeeType else CompanyType
  }

  /** An address at a domain that is not a listed webmail provider, in any
      case, is a company address. */
  lemma CompanyDomainDetected(local: string, domain: string)
    requires '@' !in local && '@' !in domain
    requires Lower(domain) !in PersonalDomains
    ensures DetectUserType(local + "@" + domain) == CompanyType
    ensures DetectUserType(Lower(local + "@" + domain)) == CompanyType
  {
    PersonalIffDomain(local, domain);
    PersonalCaseInsensitive(local + "@" + domain);
  }

  // ---------------------------------------------------------------------
  // Routing

  /** `getRedirectPath(user, intendedPath)`; `None` is an absent path. */
  function GetRedirectPath(user: Option<User>, intended: Option<string>): (r: string)
    ensures user.None? ==> r == "/"
    ensures user.Some? && intended.Some? && intended.value != "" && intended.value != "/" ==> r == intended.value
    ensures user.Some? && (intended.None? || intended.value in {"", "/"}) ==>
              r == (if user.value.role == Admin then "/admin" else "/app")
  {
    if user.None? then "/"
    else if intended.Some? && intended.value != "" && intended.value != "/" then intended.value
    else if user.value.role == Admin then "/admin"
    else "/app"
  }

  const PublicRoutes: seq<string> := ["/", "/design-system", "/login", "/signup"]
  const AdminRoutes: seq<string> := ["/admin"]
  const EmployeeRoutes: seq<string> := ["/app", "/bookings"]

  /** `routes.some(route => path.startsWith(route))`. */
  predicate UnderAny(path: string, routes: seq<string>) {
    exists k | 0 <= k < |routes| :: StartsWith(path, routes[k])
  }

  /** `canAccessRoute(user, path)`: public paths match exactly, the others by
      prefix, and the admin prefix is checked first. */
  function CanAccessRoute(user: Option<User>, path: string): bool {
    if path in PublicRoutes then true
    else if user.None? then false
    else if UnderAny(path, AdminRoutes) then user.value.role == Admin
    else UnderAny(path, EmployeeRoutes)
  }

  /** The four public paths are open to everybody, signed in or not. */
  lemma PublicOpenToAll(user: Option<User>, path: string)
    requires path in {"/", "/design-system", "/login", "/signup"}
    ensures CanAccessRoute(user, path)
  {
  }

  /** Without a user, only the four exact public paths are open. */
  lemma AnonymousOnlyPublic(path: string)
    ensures CanAccessRoute(None, path) <==> path in {"/", "/design-system", "/login", "/signup"}
  {
  }

  /** Under `/admin`, only admins get in. */
  lemma AdminPrefixAdminOnly(user: User, path: string)
    requires StartsWith(path, "/admin")
    ensures CanAccessRoute(Some(user), path) <==> user.role == Admin
  {
    assert path[..6] == "/admin";
    assert path[1] == 'a' && |path| >= 6;
    assert path !in PublicRoutes;
    assert StartsWith(path, AdminRoutes[0]);
  }

  /** Under `/app` or `/bookings`, every signed-in user gets in. */
  lemma MemberPrefixesOpen(user: User, path: string)
    requires StartsWith(path, "/app") || StartsWith(path, "/bookings")
    ensures CanAccessRoute(Some(user), path)
  {
    assert !StartsWith(path, "/admin") by {
      assert path[1] == 'a' ==> path[2] == 'p';
    }
    if StartsWith(path, "/app") {
      assert StartsWith(path, EmployeeRoutes[0]);
    } else {
      assert StartsWith(path, EmployeeRoutes[1]);
    }
  }

  /** Access grows with role: whatever an employee may open, an admin may. */
  lemma AdminSeesAllEmployeeSees(employee: User, admin: User, path: string)
    requires employee.role == Employee && admin.role == Admin
    ensures CanAccessRoute(Some(employee), path) ==> CanAccessRoute(Some(admin), path)
  {
  }

  /** Where a user is sent by default, they may go. */
  lemma DefaultRedirectAccessible(user: Option<User>)
    ensures CanAccessRoute(user, GetRedirectPath(user, None))
  {
    if user.Some? {
      if user.value.role == Admin {
        AdminPrefixAdminOnly(user.value, "/admin");
      } else {
        MemberPrefixesOpen(user.value, "/app");
      }
    }
  }

  /** An intended path is honoured whether or not the user may open it: an
      employee asking for the admin dashboard is sent there and refused. */
  lemma IntendedPathNotChecked(user: User)
    requires user.role == Employee
    ensures GetRedirectPath(Some(user), Some("/admin")) == "/admin"
    ensures !CanAccessRoute(Some(user), "/admin")
  {
    AdminPrefixAdminOnly(user, "/admin");
  }

  // ---------------------------------------------------------------------
  // Sign-up

  /** The two ways `signUpUser` goes: create a company and its admin, or look
      up an existing company by the address's domain. */
  datatype SignUp = CreateCompany(companyName: string, adminEmail: string) | JoinCompany(domain: string)

  /** The branch decision of `signUpUser`; the database work after it is not
      modelled. */
  function SignUpBranch(email: string, companyName: Option<string>): (r: SignUp)
    ensures r.CreateCompany? <==> !IsPersonalEmail(email) && companyName.Some? && companyName.value != ""
    ensures r.CreateCompany? ==> r.companyName == companyName.value && r.adminEmail == email
    ensures r.JoinCompany? ==> r.domain == GetCompanyDomain(email)
  {
    if DetectUserType(email) == CompanyType && companyName.Some? && companyName.value != "" then
      CreateCompany(companyName.value, email)
    else JoinCompany(GetCompanyDomain(email))
  }

  /** A webmail address never creates a company, whatever name is given. */
  lemma WebmailNeverCreatesCompany(local: string, domain: string, companyName: Option<string>)
    requires '@' !in local && '@' !in domain
    requires Lower(domain) in PersonalDomains
    ensures SignUpBranch(local + "@" + domain, companyName) == JoinCompany(domain)
  {
    PersonalIffDomain(local, domain);
    DomainBetween(local, domain, "");
  }
}

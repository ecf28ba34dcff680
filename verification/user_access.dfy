/**
 * The user account document: its password-format validator, its pre-save
 * hook (hash a new plain-text password, keep the creation time, stamp the
 * update time) and its role enumeration. The bcrypt hash function and the
 * clock are parameters.
 */
module UserAccess {
  import opened Wrappers

  // ---------------------------------------------------------------------------
  // Password validator
  // ---------------------------------------------------------------------------

  /** The prefix of a bcrypt hash; a value carrying it counts as already hashed. */
  const HashPrefix: string := "$2a$"

  predicate HasHashPrefix(v: string)
  {
    |v| >= |HashPrefix| && v[..|HashPrefix|] == HashPrefix
  }

  predicate IsLower(c: char) { 'a' <= c <= 'z' }
  predicate IsUpper(c: char) { 'A' <= c <= 'Z' }
  predicate IsDigit(c: char) { '0' <= c <= '9' }
  predicate IsSpecial(c: char) { c == '@' || c == '$' || c == '!' || c == '%' || c == '*' || c == '?' || c == '&' }

  /** The character class of the pattern's body: letters, digits and `@$!%*?&`. */
  predicate IsAllowed(c: char) { IsLower(c) || IsUpper(c) || IsDigit(c) || IsSpecial(c) }

  /**
   * The meaning of the password pattern: 8 to 15 characters, all from the
   * allowed class, with at least one lower-case letter, one upper-case letter,
   * one digit and one special character (the four look-aheads).
   */
  ghost predicate PasswordPattern(v: string)
  {
    && 8 <= |v| <= 15
    && (forall i :: 0 <= i < |v| ==> IsAllowed(v[i]))
    && (exists i :: 0 <= i < |v| && IsLower(v[i]))
    && (exists i :: 0 <= i < |v| && IsUpper(v[i]))
    && (exists i :: 0 <= i < |v| && IsDigit(v[i]))
    && (exists i :: 0 <= i < |v| && IsSpecial(v[i]))
  }

  /** Which character classes a string contains, and whether it has only allowed characters. */
  datatype Classes = Classes(lower: bool, upper: bool, digit: bool, special: bool, onlyAllowed: bool)

  /** One pass over the string collecting its character classes, as a pattern matcher does. */
  function ScanClasses(v: string): (c: Classes)
    ensures c.lower <==> exists i :: 0 <= i < |v| && IsLower(v[i])
    ensures c.upper <==> exists i :: 0 <= i < |v| && IsUpper(v[i])
    ensures c.digit <==> exists i :: 0 <= i < |v| && IsDigit(v[i])
    ensures c.special <==> exists i :: 0 <= i < |v| && IsSpecial(v[i])
    ensures c.onlyAllowed <==> forall i :: 0 <= i < |v| ==> IsAllowed(v[i])
  {
    if v == [] then Classes(false, false, false, false, true)
    else
      var rest := ScanClasses(v[1..]);
      assert forall i :: 1 <= i < |v| ==> v[i] == v[1..][i - 1];
      assert forall i :: 0 <= i < |v[1..]| ==> v[1..][i] == v[i + 1];
      Classes(IsLower(v[0]) || rest.lower, IsUpper(v[0]) || rest.upper, IsDigit(v[0]) || rest.digit,
              IsSpecial(v[0]) || rest.special, IsAllowed(v[0]) && rest.onlyAllowed)
  }

  /** The schema's password validator: hashed values pass, plain ones must match the pattern. */
  function ValidatePassword(v: string): (ok: bool)
    ensures ok <==> HasHashPrefix(v) || PasswordPattern(v)
  {
    if HasHashPrefix(v) then true
    else
      var c := ScanClasses(v);
      8 <= |v| <= 15 && c.onlyAllowed && c.lower && c.upper && c.digit && c.special
  }

  /** A hashed value is accepted whatever its length or characters. */
  lemma HashedValuesBypass(v: string, tail: string)
    ensures ValidatePassword(HashPrefix + tail)
  {
  }

  /** The password the registration test uses is accepted. */
  lemma {:induction false} SamplePasswordAccepted()
    ensures ValidatePassword("Password123!")
  {
    var v := "Password123!";
    assert IsUpper(v[0]) && IsLower(v[1]) && IsDigit(v[8]) && IsSpecial(v[11]);
    assert forall i :: 0 <= i < |v| ==> IsAllowed(v[i]);
  }

  /** Without an upper-case letter, too short, too long, or with a space, a plain value is refused. */
  lemma SamplePasswordsRefused()
    ensures !ValidatePassword("password123!")
    ensures !ValidatePassword("Pass12!")
    ensures !ValidatePassword("Password123!Password")
    ensures !ValidatePassword("Pass word123!")
  {
    var noUpper := "password123!";
    assert !HasHashPrefix(noUpper) by { assert noUpper[0] != '$'; }
    assert forall i :: 0 <= i < |noUpper| ==> !IsUpper(noUpper[i]);
    assert !HasHashPrefix("Pass12!") by { assert "Pass12!"[0] != '$'; }
    assert !HasHashPrefix("Password123!Password") by { assert "Password123!Password"[0] != '$'; }
    var spaced := "Pass word123!";
    assert !HasHashPrefix(spaced) by { assert spaced[0] != '$'; }
    assert !IsAllowed(spaced[4]);
  }

  // ---------------------------------------------------------------------------
  // Roles
  // ---------------------------------------------------------------------------

  datatype Role = Admin | SuperAdmin | Mediator | Purchaser | Supplier | Customer | Individual

  /** The role as stored in the document. */
  function RoleName(r: Role): string
  {
    match r
    case Admin => "admin"
    case SuperAdmin => "super-admin"
    case Mediator => "mediator"
    case Purchaser => "purchaser"
    case Supplier => "supplier"
    case Customer => "customer"
    case Individual => "individual"
  }

  /** The enum check of the schema: a stored string is one of the seven role names. */
  function ParseRole(s: string): (r: Option<Role>)
    ensures r.Some? ==> RoleName(r.value) == s
    ensures r.None? ==> forall x :: RoleName(x) != s
  {
    if s == "admin" then Some(Admin)
    else if s == "super-admin" then Some(SuperAdmin)
    else if s == "mediator" then Some(Mediator)
    else if s == "purchaser" then Some(Purchaser)
    else if s == "supplier" then Some(Supplier)
    else if s == "customer" then Some(Customer)
    else if s == "individual" then Some(Individual)
    else None
  }

  /** Every role's name parses back to that role. */
  lemma ParseRoleName(r: Role)
    ensures ParseRole(RoleName(r)) == Some(r)
  {
  }

  /** The role a registration stores: "individual" when none is given, otherwise the given one if valid. */
  function RegistrationRole(requested: string): (r: Option<Role>)
    ensures requested == "" ==> r == Some(Individual)
    ensures requested != "" ==> (r.Some? <==> exists x :: RoleName(x) == requested)
    ensures r.Some? && requested != "" ==> RoleName(r.value) == requested
  {
    ParseRole(if requested == "" then RoleName(Individual) else requested)
  }

  // ---------------------------------------------------------------------------
  // The pre-save hook
  // ---------------------------------------------------------------------------

  /** The password the pre-save hook leaves: hashed only when modified and not already hashed. */
  function SavedPassword(password: string, modified: bool, hash: string -> string): (saved: string)
    ensures HasHashPrefix(password) || !modified ==> saved == password
    ensures modified && !HasHashPrefix(password) ==> saved == hash(password)
  {
    if modified && !HasHashPrefix(password) then hash(password) else password
  }

  /**
   * When hashes carry the bcrypt prefix, a newly set password is stored hashed
   * and later saves, whether or not they mark it modified, never hash it again.
   */
  lemma NoDoubleHashing(password: string, modifiedAgain: bool, hash: string -> string)
    requires forall p :: HasHashPrefix(hash(p))
    ensures HasHashPrefix(SavedPassword(password, true, hash))
    ensures SavedPassword(SavedPassword(password, true, hash), modifiedAgain, hash)
            == SavedPassword(password, true, hash)
  {
  }

  /** When hashes carry the bcrypt prefix, a password that passed validation still passes after the hook. */
  lemma SavedPasswordStaysValid(password: string, modified: bool, hash: string -> string)
    requires forall p :: HasHashPrefix(hash(p))
    requires ValidatePassword(password)
    ensures ValidatePassword(SavedPassword(password, modified, hash))
  {
  }

  class UserAccount {
    var email: string
    var password: string
    var role: Role
    var createdAt: Option<int>
    var updatedAt: int
    /** Whether the password was set since the document was last saved. */
    var passwordModified: bool

    /** A new document: both timestamps default to the creation time, the password counts as modified. */
    constructor (email: string, password: string, role: Role, now: int)
      ensures this.email == email && this.password == password && this.role == role
      ensures createdAt == Some(now) && updatedAt == now && passwordModified
    {
      this.email := email;
      this.password := password;
      this.role := role;
      createdAt := Some(now);
      updatedAt := now;
      passwordModified := true;
    }

    /**
     * The pre-save hook: replaces a modified plain-text password by its hash,
     * sets the creation time when it is missing and always stamps the update time.
     */
    method PreSave(now: int, hash: string -> string)
      modifies this
      ensures password == SavedPassword(old(password), old(passwordModified), hash)
      ensures old(passwordModified) && !HasHashPrefix(old(password)) ==> password == hash(old(password))
      ensures !old(passwordModified) || HasHashPrefix(old(password)) ==> password == old(password)
      ensures createdAt == if old(createdAt).None? then Some(now) else old(createdAt)
      ensures updatedAt == now
      ensures email == old(email) && role == old(role) && passwordModified == old(passwordModified)
    {
      if passwordModified && !HasHashPrefix(password) {
        password := hash(password);
      }
      if createdAt.None? {
        createdAt := Some(now);
      }
      updatedAt := now;
    }
  }
}

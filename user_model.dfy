/** The user record of the users service, the record `create` builds, the
    field patch `update` applies, and the allow-list serialization
    (`modelPropFilter`). A field that is `null` or `undefined` in
    JavaScript is `None` here. */
module UserModel {
  import opened Wrappers

  /** The `SocialProfile` type of the GraphQL schema. */
  datatype SocialProfile = SocialProfile(
    name: Option<string>, gender: Option<string>,
    picture: Option<string>, location: Option<string>)

  /** The `SocialLinks` type of the GraphQL schema. */
  datatype SocialLinks = SocialLinks(
    facebook: Option<string>, twitter: Option<string>,
    google: Option<string>, github: Option<string>)

  /** A stored user: its external `code` and every field the service reads
      or writes. */
  datatype User = User(
    code: string,
    fullName: Option<string>,
    email: Option<string>,
    username: Option<string>,
    password: Option<string>,
    passwordLess: Option<bool>,
    passwordLessToken: Option<string>,
    provider: Option<string>,
    profile: Option<SocialProfile>,
    socialLinks: Option<SocialLinks>,
    roles: Option<seq<string>>,
    resetPasswordToken: Option<string>,
    resetPasswordExpires: Option<int>,
    verified: Option<bool>,
    verifyToken: Option<string>,
    apiKey: Option<string>,
    lastLogin: Option<int>,
    locale: Option<string>,
    status: Option<int>,
    createdAt: Option<int>,
    updatedAt: Option<int>)

  /** The inbound `ctx.params` of `create` and `update`: one optional value
      per field the handlers read. */
  datatype UserParams = UserParams(
    fullName: Option<string>,
    email: Option<string>,
    username: Option<string>,
    password: Option<string>,
    passwordLess: Option<bool>,
    passwordLessToken: Option<string>,
    provider: Option<string>,
    profile: Option<SocialProfile>,
    socialLinks: Option<SocialLinks>,
    roles: Option<seq<string>>,
    resetPasswordToken: Option<string>,
    resetPasswordExpires: Option<int>,
    verified: Option<bool>,
    verifyToken: Option<string>,
    apiKey: Option<string>,
    lastLogin: Option<int>,
    locale: Option<string>,
    status: Option<int>)

  /** Params in which every field is `null` or absent. */
  const NoParams: UserParams :=
    UserParams(None, None, None, None, None, None, None, None, None,
               None, None, None, None, None, None, None, None, None)

  /** `24 * 3600000`: the reset token expires 24 hours after creation. */
  const ResetTokenLifetime: int := 24 * 3600000

  // ---------------------------------------------------------------------
  // Field values and documents

  /** The fields of a user document, in the order of the full field list
      the service settings keep in a comment. */
  datatype Field =
    | Code | FullName | Email | Username | Password | PasswordLess
    | PasswordLessToken | Provider | Profile | SocialLinksField | Roles
    | ResetPasswordToken | ResetPasswordExpires | Verified | VerifyToken
    | ApiKey | LastLogin | Locale | Status | CreatedAt | UpdatedAt

  /** The property name of a field in the stored and serialized document. */
  function Name(f: Field): string {
    match f
    case Code => "code"
    case FullName => "fullName"
    case Email => "email"
    case Username => "username"
    case Password => "password"
    case PasswordLess => "passwordLess"
    case PasswordLessToken => "passwordLessToken"
    case Provider => "provider"
    case Profile => "profile"
    case SocialLinksField => "socialLinks"
    case Roles => "roles"
    case ResetPasswordToken => "resetPasswordToken"
    case ResetPasswordExpires => "resetPasswordExpires"
    case Verified => "verified"
    case VerifyToken => "verifyToken"
    case ApiKey => "apiKey"
    case LastLogin => "lastLogin"
    case Locale => "locale"
    case Status => "status"
    case CreatedAt => "createdAt"
    case UpdatedAt => "updatedAt"
  }

  const AllFields: set<Field> :=
    {Code, FullName, Email, Username, Password, PasswordLess, PasswordLessToken,
     Provider, Profile, SocialLinksField, Roles, ResetPasswordToken,
     ResetPasswordExpires, Verified, VerifyToken, ApiKey, LastLogin, Locale,
     Status, CreatedAt, UpdatedAt}

  /** The value of one field in a document. */
  datatype Value =
    | VStr(s: string)
    | VBool(b: bool)
    | VNum(n: int)
    | VStrs(ss: seq<string>)
    | VProfile(profile: SocialProfile)
    | VLinks(links: SocialLinks)

  /** A document: field to value, with unset fields absent. */
  type Json = map<Field, Value>

  function StrOf(v: Option<string>): Option<Value> { if v.Some? then Some(VStr(v.value)) else None }
  function BoolOf(v: Option<bool>): Option<Value> { if v.Some? then Some(VBool(v.value)) else None }
  function NumOf(v: Option<int>): Option<Value> { if v.Some? then Some(VNum(v.value)) else None }

  /** The value of field `f` of a stored user, `None` when unset. */
  function FieldOf(u: User, f: Field): Option<Value> {
    match f
    case Code => Some(VStr(u.code))
    case FullName => StrOf(u.fullName)
    case Email => StrOf(u.email)
    case Username => StrOf(u.username)
    case Password => StrOf(u.password)
    case PasswordLess => BoolOf(u.passwordLess)
    case PasswordLessToken => StrOf(u.passwordLessToken)
    case Provider => StrOf(u.provider)
    case Profile => if u.profile.Some? then Some(VProfile(u.profile.value)) else None
    case SocialLinksField => if u.socialLinks.Some? then Some(VLinks(u.socialLinks.value)) else None
    case Roles => if u.roles.Some? then Some(VStrs(u.roles.value)) else None
    case ResetPasswordToken => StrOf(u.resetPasswordToken)
    case ResetPasswordExpires => NumOf(u.resetPasswordExpires)
    case Verified => BoolOf(u.verified)
    case VerifyToken => StrOf(u.verifyToken)
    case ApiKey => StrOf(u.apiKey)
    case LastLogin => NumOf(u.lastLogin)
    case Locale => StrOf(u.locale)
    case Status => NumOf(u.status)
    case CreatedAt => NumOf(u.createdAt)
    case UpdatedAt => NumOf(u.updatedAt)
  }

  /** The value param `f` carries, `None` when it is `null`/`undefined` or
      when `f` is not one of the eighteen fields the params name. */
  function ParamOf(p: UserParams, f: Field): Option<Value> {
    match f
    case FullName => StrOf(p.fullName)
    case Email => StrOf(p.email)
    case Username => StrOf(p.username)
    case Password => StrOf(p.password)
    case PasswordLess => BoolOf(p.passwordLess)
    case PasswordLessToken => StrOf(p.passwordLessToken)
    case Provider => StrOf(p.provider)
    case Profile => if p.profile.Some? then Some(VProfile(p.profile.value)) else None
    case SocialLinksField => if p.socialLinks.Some? then Some(VLinks(p.socialLinks.value)) else None
    case Roles => if p.roles.Some? then Some(VStrs(p.roles.value)) else None
    case ResetPasswordToken => StrOf(p.resetPasswordToken)
    case ResetPasswordExpires => NumOf(p.resetPasswordExpires)
    case Verified => BoolOf(p.verified)
    case VerifyToken => StrOf(p.verifyToken)
    case ApiKey => StrOf(p.apiKey)
    case LastLogin => NumOf(p.lastLogin)
    case Locale => StrOf(p.locale)
    case Status => NumOf(p.status)
    case _ => None
  }

  /** The whole stored document of a user, internal fields included. */
  function Document(u: User): Json {
    map f | f in AllFields && FieldOf(u, f).Some? :: FieldOf(u, f).value
  }

  /** The params that are set, as a document. */
  function ParamsDocument(p: UserParams): Json {
    map f | f in AllFields && ParamOf(p, f).Some? :: ParamOf(p, f).value
  }

  // ---------------------------------------------------------------------
  // Serialization

  /** The `modelPropFilter` allow-list of the service settings. */
  const AllowList: set<Field> :=
    {Code, FullName, Email, Username, Provider, Profile, SocialLinksField, Roles,
     Verified, ApiKey, LastLogin, Locale, Status, CreatedAt, UpdatedAt}

  /** The fields of the full list that the allow-list deliberately drops. */
  const Secrets: set<Field> :=
    {Password, PasswordLess, PasswordLessToken, ResetPasswordToken,
     ResetPasswordExpires, VerifyToken}

  /** The property names `modelPropFilter` lists, in its order. */
  const PropFilterNames: seq<string> :=
    ["code", "fullName", "email", "username", "provider", "profile", "socialLinks", "roles",
     "verified", "apiKey", "lastLogin", "locale", "status", "createdAt", "updatedAt"]

  /** The allow-list is exactly the set of fields whose property name
      `modelPropFilter` lists. */
  lemma AllowListIsPropFilter()
    ensures forall f: Field :: f in AllowList <==> Name(f) in PropFilterNames
  {
  }

  /** `toJSON`: the stored document projected onto the allow-list. */
  function ToJSON(u: User): (r: Json)
    ensures r.Keys <= AllowList && r.Keys !! Secrets
    ensures forall f :: f in r <==> f in AllowList && FieldOf(u, f).Some?
    ensures forall f :: f in r ==> Some(r[f]) == FieldOf(u, f)
  {
    map f | f in AllowList && FieldOf(u, f).Some? :: FieldOf(u, f).value
  }

  // ---------------------------------------------------------------------
  // create

  /** The user `create` saves: the params it copies, a generated password,
      the generated reset token with an expiry 24 hours after `now`, and
      `passwordLess` and `verified` forced to true (the later assignment
      overrides `verified: ctx.params.verified`). `code` is the identity
      the storage layer assigns. */
  function NewUser(code: string, p: UserParams, password: string, resetToken: string, now: int): (u: User)
    ensures u.code == code && u.password == Some(password)
    ensures u.passwordLess == Some(true) && u.verified == Some(true)
    ensures u.resetPasswordToken == Some(resetToken)
    ensures u.resetPasswordExpires == Some(now + 86400000)
    ensures u.passwordLessToken == None && u.createdAt == None && u.updatedAt == None
  {
    User(code, p.fullName, p.email, p.username, Some(password), Some(true), None,
         p.provider, p.profile, p.socialLinks, p.roles, Some(resetToken),
         Some(now + ResetTokenLifetime), Some(true), p.verifyToken, p.apiKey,
         p.lastLogin, p.locale, p.status, None, None)
  }

  /** The params `create` copies into the new record. */
  const CopiedOnCreate: set<Field> :=
    {FullName, Email, Username, Provider, Profile, SocialLinksField, Roles,
     VerifyToken, ApiKey, LastLogin, Locale, Status}

  /** What `create` returns, stated from the params alone: the code,
      `verified: true`, and the copied params the allow-list lets through.
      The params `password`, `passwordLess`, `passwordLessToken`,
      `resetPasswordToken`, `resetPasswordExpires` and `verified` have no
      influence on it. */
  function CreatedView(code: string, p: UserParams, f: Field): Option<Value> {
    if f == Code then Some(VStr(code))
    else if f == Verified then Some(VBool(true))
    else if f in CopiedOnCreate && f in AllowList then ParamOf(p, f)
    else None
  }

  lemma CreatedJson(code: string, p: UserParams, password: string, resetToken: string, now: int)
    ensures ToJSON(NewUser(code, p, password, resetToken, now))
         == map f | f in AllFields && CreatedView(code, p, f).Some? :: CreatedView(code, p, f).value
  {
    var lhs := ToJSON(NewUser(code, p, password, resetToken, now));
    var rhs := map f | f in AllFields && CreatedView(code, p, f).Some? :: CreatedView(code, p, f).value;
    forall f ensures (f in lhs <==> f in rhs) && (f in lhs ==> lhs[f] == rhs[f]) {
      CreatedField(code, p, password, resetToken, now, f);
      AllFieldsComplete(f);
    }
    SameEntries(lhs, rhs);
  }

  /** Every field is one of the full field list. */
  lemma AllFieldsComplete(f: Field)
    ensures f in AllFields
  {
  }

  /** Two documents with the same entries are equal. */
  lemma SameEntries(a: Json, b: Json)
    requires forall f :: (f in a <==> f in b) && (f in a ==> a[f] == b[f])
    ensures a == b
  {
    assert a.Keys == b.Keys;
  }

  lemma CreatedField(code: string, p: UserParams, password: string, resetToken: string, now: int, f: Field)
    ensures var u := NewUser(code, p, password, resetToken, now);
      (f in AllowList && FieldOf(u, f).Some?) == CreatedView(code, p, f).Some?
      && (CreatedView(code, p, f).Some? ==> FieldOf(u, f) == CreatedView(code, p, f))
  {
    NewUserField(code, p, password, resetToken, now, f);
  }

  /** Field by field, the new user holds the copied params, the code and
      `verified: true`. */
  lemma NewUserField(code: string, p: UserParams, password: string, resetToken: string, now: int, f: Field)
    ensures f in CopiedOnCreate ==> FieldOf(NewUser(code, p, password, resetToken, now), f) == ParamOf(p, f)
    ensures f == Code ==> FieldOf(NewUser(code, p, password, resetToken, now), f) == Some(VStr(code))
    ensures f == Verified ==> FieldOf(NewUser(code, p, password, resetToken, now), f) == Some(VBool(true))
  {
  }

  // ---------------------------------------------------------------------
  // update

  function Override<T>(param: Option<T>, current: Option<T>): Option<T> {
    if param.Some? then param else current
  }

  /** The record `update` saves: each of the eighteen fields is replaced by
      its param when the param is not `null`/`undefined` (`!= null`), and
      kept otherwise; `code`, `createdAt` and `updatedAt` are not touched. */
  function Patch(u: User, p: UserParams): (r: User)
    ensures r.code == u.code && r.createdAt == u.createdAt && r.updatedAt == u.updatedAt
  {
    u.(fullName := Override(p.fullName, u.fullName),
       email := Override(p.email, u.email),
       username := Override(p.username, u.username),
       password := Override(p.password, u.password),
       passwordLess := Override(p.passwordLess, u.passwordLess),
       passwordLessToken := Override(p.passwordLessToken, u.passwordLessToken),
       provider := Override(p.provider, u.provider),
       profile := Override(p.profile, u.profile),
       socialLinks := Override(p.socialLinks, u.socialLinks),
       roles := Override(p.roles, u.roles),
       resetPasswordToken := Override(p.resetPasswordToken, u.resetPasswordToken),
       resetPasswordExpires := Override(p.resetPasswordExpires, u.resetPasswordExpires),
       verified := Override(p.verified, u.verified),
       verifyToken := Override(p.verifyToken, u.verifyToken),
       apiKey := Override(p.apiKey, u.apiKey),
       lastLogin := Override(p.lastLogin, u.lastLogin),
       locale := Override(p.locale, u.locale),
       status := Override(p.status, u.status))
  }

  /** The patch is a document override: the stored document after `update`
      is the old one with every set param written over it, and nothing
      else changed. */
  lemma PatchIsOverride(u: User, p: UserParams)
    ensures Document(Patch(u, p)) == Document(u) + ParamsDocument(p)
  {
    var lhs, rhs := Document(Patch(u, p)), Document(u) + ParamsDocument(p);
    forall f ensures (f in lhs <==> f in rhs) && (f in lhs ==> lhs[f] == rhs[f]) {
      PatchField(u, p, f);
    }
  }

  /** Field by field, the patched value is the param when set and the old
      value otherwise. */
  lemma PatchField(u: User, p: UserParams, f: Field)
    ensures FieldOf(Patch(u, p), f) == if ParamOf(p, f).Some? then ParamOf(p, f) else FieldOf(u, f)
  {
  }

  /** Empty params leave the record as it was. */
  lemma PatchWithNoParams(u: User)
    ensures Patch(u, NoParams) == u
  {
  }

  /** Applying the same params twice gives the same record as once. */
  lemma PatchIdempotent(u: User, p: UserParams)
    ensures Patch(Patch(u, p), p) == Patch(u, p)
  {
  }
}

/** The Mongoose document of a user that `create` and `update` change
    field by field before saving it. */
module UserDocument {
  import opened Wrappers
  import opened UserModel

  /** The record `new User({...})` builds in `create`, before the handler
      overrides `passwordLess` and `verified`. */
  function Constructed(code: string, p: UserParams, password: string, resetToken: string, expiry: int): User {
    User(code, p.fullName, p.email, p.username, Some(password), None, None,
         p.provider, p.profile, p.socialLinks, p.roles, Some(resetToken),
         Some(expiry), p.verified, p.verifyToken, p.apiKey,
         p.lastLogin, p.locale, p.status, None, None)
  }

  /** Setting `passwordLess` and `verified` on the constructed document
      gives the record `create` saves, whatever `params.verified` was. */
  lemma ConstructedThenForced(code: string, p: UserParams, password: string, resetToken: string, now: int)
    ensures Constructed(code, p, password, resetToken, now + ResetTokenLifetime)
              .(passwordLess := Some(true), verified := Some(true))
         == NewUser(code, p, password, resetToken, now)
  {
  }

  class UserDoc {
    var code: string
    var fullName: Option<string>
    var email: Option<string>
    var username: Option<string>
    var password: Option<string>
    var passwordLess: Option<bool>
    var passwordLessToken: Option<string>
    var provider: Option<string>
    var profile: Option<SocialProfile>
    var socialLinks: Option<SocialLinks>
    var roles: Option<seq<string>>
    var resetPasswordToken: Option<string>
    var resetPasswordExpires: Option<int>
    var verified: Option<bool>
    var verifyToken: Option<string>
    var apiKey: Option<string>
    var lastLogin: Option<int>
    var locale: Option<string>
    var status: Option<int>
    var createdAt: Option<int>
    var updatedAt: Option<int>

    /** The record the document holds. */
    function Snapshot(): User
      reads this
    {
      User(code, fullName, email, username, password, passwordLess, passwordLessToken,
           provider, profile, socialLinks, roles, resetPasswordToken, resetPasswordExpires,
           verified, verifyToken, apiKey, lastLogin, locale, status, createdAt, updatedAt)
    }

    /** `new User({...})` in `create`. */
    constructor FromParams(code: string, p: UserParams, password: string, resetToken: string, expiry: int)
      ensures Snapshot() == Constructed(code, p, password, resetToken, expiry)
    {
      this.code := code;
      fullName := p.fullName;
      email := p.email;
      username := p.username;
      this.password := Some(password);
      passwordLess := None;
      passwordLessToken := None;
      provider := p.provider;
      profile := p.profile;
      socialLinks := p.socialLinks;
      roles := p.roles;
      resetPasswordToken := Some(resetToken);
      resetPasswordExpires := Some(expiry);
      verified := p.verified;
      verifyToken := p.verifyToken;
      apiKey := p.apiKey;
      lastLogin := p.lastLogin;
      locale := p.locale;
      status := p.status;
      createdAt := None;
      updatedAt := None;
    }

    /** The document `findById` returns for a stored record. */
    constructor Load(u: User)
      ensures Snapshot() == u
    {
      code := u.code;
      fullName := u.fullName;
      email := u.email;
      username := u.username;
      password := u.password;
      passwordLess := u.passwordLess;
      passwordLessToken := u.passwordLessToken;
      provider := u.provider;
      profile := u.profile;
      socialLinks := u.socialLinks;
      roles := u.roles;
      resetPasswordToken := u.resetPasswordToken;
      resetPasswordExpires := u.resetPasswordExpires;
      verified := u.verified;
      verifyToken := u.verifyToken;
      apiKey := u.apiKey;
      lastLogin := u.lastLogin;
      locale := u.locale;
      status := u.status;
      createdAt := u.createdAt;
      updatedAt := u.updatedAt;
    }

    /** The eighteen `if (ctx.params.f != null) doc.f = ctx.params.f;`
        statements of `update`, in the source's order. */
    method ApplyPatch(p: UserParams)
      modifies this
      ensures Snapshot() == Patch(old(Snapshot()), p)
    {
      PatchName(p);
      PatchCredentials(p);
      PatchProfile(p);
      PatchAccess(p);
      PatchVerification(p);
      PatchActivity(p);
    }

    /** The guarded assignments of the names. */
    method PatchName(p: UserParams)
      modifies this`fullName, this`email, this`username
      ensures Snapshot() == old(Snapshot()).(fullName := Override(p.fullName, old(fullName)),
        email := Override(p.email, old(email)),
        username := Override(p.username, old(username)))
    {
      if p.fullName.Some? { fullName := p.fullName; }
      if p.email.Some? { email := p.email; }
      if p.username.Some? { username := p.username; }
    }

    /** The guarded assignments of the credentials. */
    method PatchCredentials(p: UserParams)
      modifies this`password, this`passwordLess, this`passwordLessToken
      ensures Snapshot() == old(Snapshot()).(password := Override(p.password, old(password)),
        passwordLess := Override(p.passwordLess, old(passwordLess)),
        passwordLessToken := Override(p.passwordLessToken, old(passwordLessToken)))
    {
      if p.password.Some? { password := p.password; }
      if p.passwordLess.Some? { passwordLess := p.passwordLess; }
      if p.passwordLessToken.Some? { passwordLessToken := p.passwordLessToken; }
    }

    /** The guarded assignments of the provider and the profile. */
    method PatchProfile(p: UserParams)
      modifies this`provider, this`profile, this`socialLinks
      ensures Snapshot() == old(Snapshot()).(provider := Override(p.provider, old(provider)),
        profile := Override(p.profile, old(profile)),
        socialLinks := Override(p.socialLinks, old(socialLinks)))
    {
      if p.provider.Some? { provider := p.provider; }
      if p.profile.Some? { profile := p.profile; }
      if p.socialLinks.Some? { socialLinks := p.socialLinks; }
    }

    /** The guarded assignments of the roles and the reset token. */
    method PatchAccess(p: UserParams)
      modifies this`roles, this`resetPasswordToken, this`resetPasswordExpires
      ensures Snapshot() == old(Snapshot()).(roles := Override(p.roles, old(roles)),
        resetPasswordToken := Override(p.resetPasswordToken, old(resetPasswordToken)),
        resetPasswordExpires := Override(p.resetPasswordExpires, old(resetPasswordExpires)))
    {
      if p.roles.Some? { roles := p.roles; }
      if p.resetPasswordToken.Some? { resetPasswordToken := p.resetPasswordToken; }
      if p.resetPasswordExpires.Some? { resetPasswordExpires := p.resetPasswordExpires; }
    }

    /** The guarded assignments of the verification and the API key. */
    method PatchVerification(p: UserParams)
      modifies this`verified, this`verifyToken, this`apiKey
      ensures Snapshot() == old(Snapshot()).(verified := Override(p.verified, old(verified)),
        verifyToken := Override(p.verifyToken, old(verifyToken)),
        apiKey := Override(p.apiKey, old(apiKey)))
    {
      if p.verified.Some? { verified := p.verified; }
      if p.verifyToken.Some? { verifyToken := p.verifyToken; }
      if p.apiKey.Some? { apiKey := p.apiKey; }
    }

    /** The guarded assignments of the last login, the locale and the status. */
    method PatchActivity(p: UserParams)
      modifies this`lastLogin, this`locale, this`status
      ensures Snapshot() == old(Snapshot()).(lastLogin := Override(p.lastLogin, old(lastLogin)),
        locale := Override(p.locale, old(locale)),
        status := Override(p.status, old(status)))
    {
      if p.lastLogin.Some? { lastLogin := p.lastLogin; }
      if p.locale.Some? { locale := p.locale; }
      if p.status.Some? { status := p.status; }
    }
  }

  /** The document `create` saves: the constructed one with `passwordLess`
      and `verified` set to true. */
  method CreateDocument(code: string, p: UserParams, password: string, resetToken: string, now: int)
    returns (doc: UserDoc)
    ensures fresh(doc) && doc.Snapshot() == NewUser(code, p, password, resetToken, now)
  {
    doc := new UserDoc.FromParams(code, p, password, resetToken, now + ResetTokenLifetime);
    doc.passwordLess := Some(true);
    doc.verified := Some(true);
    ConstructedThenForced(code, p, password, resetToken, now);
  }

  /** The document `update` saves: the stored one loaded and patched. */
  method PatchedDocument(u: User, p: UserParams) returns (doc: UserDoc)
    ensures fresh(doc) && doc.Snapshot() == Patch(u, p)
  {
    doc := new UserDoc.Load(u);
    doc.ApplyPatch(p);
  }
}

/**
 * The user record kept by the document store, the sanitised view of it that
 * handlers send back, and the HTTP replies the account handlers produce.
 */
module Records {
  import opened Wrappers

  /** A document id; the store hands them out in increasing order. */
  type Id = nat

  /** The `profile` sub-document. Fields the core never sets start out absent. */
  datatype Profile = Profile(
    bio: Option<string>,
    skills: seq<string>,
    resume: Option<string>,
    resumeOriginalName: Option<string>,
    profilePhoto: string)

  /** One stored user. `password` holds the bcrypt digest, never the plaintext. */
  datatype User = User(
    id: Id,
    fullname: string,
    email: string,
    phoneNumber: string,
    password: string,
    role: string,
    profile: Profile,
    isVerified: bool,
    verificationToken: Option<string>,
    resetPasswordToken: Option<string>,
    resetPasswordExpires: Option<int>)

  /** What login and profile update send to the client: there is no password field at all. */
  datatype UserView = UserView(
    id: Id,
    fullname: string,
    email: string,
    phoneNumber: string,
    role: string,
    profile: Profile)

  function View(u: User): (v: UserView)
    ensures v.id == u.id && v.email == u.email && v.role == u.role && v.profile == u.profile
    ensures v.fullname == u.fullname && v.phoneNumber == u.phoneNumber
  {
    UserView(u.id, u.fullname, u.email, u.phoneNumber, u.role, u.profile)
  }

  datatype Status = Ok200 | Created201 | BadRequest400 | Unauthorized401 | Forbidden403 | ServerError500

  /** A cookie set on (or cleared from) the response. */
  datatype Cookie = Cookie(name: string, value: string, maxAgeMs: nat, httpOnly: bool, sameSiteStrict: bool)

  /** A JSON reply `{message, success, user?}` with its status code and an optional cookie. */
  datatype Reply = Reply(status: Status, message: string, success: bool, user: Option<UserView>, cookie: Option<Cookie>)

  /** A reply with `success: false` and nothing else attached. */
  function Fail(status: Status, message: string): (r: Reply)
    ensures !r.success && r.status == status && r.message == message
    ensures r.user == None && r.cookie == None
  {
    Reply(status, message, false, None, None)
  }
}

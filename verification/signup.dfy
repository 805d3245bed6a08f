/** The signup route: schema validation, duplicate email and username checks,
    and the initial user record with its "join" activity. */
module Signup {
  import opened Wrappers
  import opened Documents
  import opened Http
  import Seqs
  import Strings

  /** The request body's four fields; None is a missing field. */
  datatype SignUpForm = SignUpForm(name: Option<string>, email: Option<string>, username: Option<string>, password: Option<string>)

  /** The 201 reply. */
  datatype SignUpReply = SignUpReply(message: string, userId: Id)

  const REQUIRED: string := "Required"
  const NAME_TOO_SHORT: string := "Name must be at least 2 characters"
  const INVALID_EMAIL: string := "Invalid email address"
  const USERNAME_TOO_SHORT: string := "Username must be at least 3 characters"
  const USERNAME_CHARSET: string := "Username can only contain letters, numbers, and underscores"
  const PASSWORD_TOO_SHORT: string := "Password must be at least 6 characters"

  // ---------------------------------------------------------------------------
  // The schema

  /** A character of the username class `[a-zA-Z0-9_]`. */
  predicate UsernameChar(c: char) {
    'a' <= c <= 'z' || 'A' <= c <= 'Z' || '0' <= c <= '9' || c == '_'
  }

  /** `^[a-zA-Z0-9_]+$`: non-empty and every character in the class. */
  predicate UsernamePattern(u: string) {
    |u| >= 1 && forall i :: 0 <= i < |u| ==> UsernameChar(u[i])
  }

  /** The issues of one field, in the order its checks are declared. */
  function NameIssues(name: Option<string>): seq<string> {
    match name
    case None => [REQUIRED]
    case Some(n) => if |n| < 2 then [NAME_TOO_SHORT] else []
  }

  function EmailIssues(email: Option<string>, isEmail: string -> bool): seq<string> {
    match email
    case None => [REQUIRED]
    case Some(e) => if !isEmail(e) then [INVALID_EMAIL] else []
  }

  /** Both username checks run: a short username with a bad character has two issues. */
  function UsernameIssues(username: Option<string>): seq<string> {
    match username
    case None => [REQUIRED]
    case Some(u) =>
      (if |u| < 3 then [USERNAME_TOO_SHORT] else []) + (if !UsernamePattern(u) then [USERNAME_CHARSET] else [])
  }

  function PasswordIssues(password: Option<string>): seq<string> {
    match password
    case None => [REQUIRED]
    case Some(p) => if |p| < 6 then [PASSWORD_TOO_SHORT] else []
  }

  /** Every issue of the form, field by field in declaration order. */
  function Issues(form: SignUpForm, isEmail: string -> bool): seq<string> {
    NameIssues(form.name) + EmailIssues(form.email, isEmail) + UsernameIssues(form.username) + PasswordIssues(form.password)
  }

  /** The schema's rules stated field by field. */
  predicate Valid(form: SignUpForm, isEmail: string -> bool) {
    && form.name.Some? && |form.name.value| >= 2
    && form.email.Some? && isEmail(form.email.value)
    && form.username.Some? && |form.username.value| >= 3 && UsernamePattern(form.username.value)
    && form.password.Some? && |form.password.value| >= 6
  }

  /** The schema parses exactly the valid forms, and the first issue belongs to
      the first field that breaks a rule. */
  lemma IssuesMatchRules(form: SignUpForm, isEmail: string -> bool)
    ensures |Issues(form, isEmail)| == 0 <==> Valid(form, isEmail)
    ensures (form.name.None? || |form.name.value| < 2) ==> Issues(form, isEmail)[0] == NameIssues(form.name)[0]
    ensures NameIssues(form.name) == [] && (form.email.None? || !isEmail(form.email.value)) ==>
      Issues(form, isEmail)[0] == EmailIssues(form.email, isEmail)[0]
    ensures NameIssues(form.name) == [] && EmailIssues(form.email, isEmail) == [] && form.username.None? ==>
      Issues(form, isEmail)[0] == REQUIRED
    ensures NameIssues(form.name) == [] && EmailIssues(form.email, isEmail) == [] && form.username.Some? && |form.username.value| < 3 ==>
      Issues(form, isEmail)[0] == USERNAME_TOO_SHORT
    ensures NameIssues(form.name) == [] && EmailIssues(form.email, isEmail) == []
            && form.username.Some? && |form.username.value| >= 3 && !UsernamePattern(form.username.value) ==>
      Issues(form, isEmail)[0] == USERNAME_CHARSET
    ensures NameIssues(form.name) == [] && EmailIssues(form.email, isEmail) == [] && UsernameIssues(form.username) == []
            && (form.password.None? || |form.password.value| < 6) ==>
      Issues(form, isEmail)[0] == (if form.password.None? then REQUIRED else PASSWORD_TOO_SHORT)
  {
  }

  // ---------------------------------------------------------------------------
  // The fallback username

  predicate BaseChar(c: char) {
    'a' <= c <= 'z' || '0' <= c <= '9'
  }

  /** The base of a generated username: the name lower-cased, stripped to
      `[a-z0-9]`, and cut to fifteen characters. */
  function UsernameBase(name: string): (base: string)
    ensures var kept := Seqs.Filter(Strings.Lower(name), BaseChar);
      |base| == (if |kept| <= 15 then |kept| else 15) && base <= kept
    ensures forall i :: 0 <= i < |base| ==> BaseChar(base[i])
  {
    var kept := Seqs.Filter(Strings.Lower(name), BaseChar);
    var base := Seqs.Take(kept, 15);
    assert forall i :: 0 <= i < |base| ==> base[i] == kept[i];
    base
  }

  /** A generated username: the base followed by `suffix`, a random integer
      below 1000. */
  function GenerateUniqueUsername(name: string, suffix: nat): (u: string)
    requires suffix < 1000
    ensures |UsernameBase(name)| < |u| <= |UsernameBase(name)| + 3
    ensures u[..|UsernameBase(name)|] == UsernameBase(name)
    ensures forall i :: 0 <= i < |u| ==> BaseChar(u[i])
    ensures var tail := u[|UsernameBase(name)|..];
      && (forall i :: 0 <= i < |tail| ==> '0' <= tail[i] <= '9')
      && (|tail| > 1 ==> tail[0] != '0')
      && Strings.DigitsValue(tail) == suffix
  {
    var base := UsernameBase(name);
    var digits := Strings.NatToString(suffix);
    Strings.NatToStringLength(suffix);
    Strings.NatToStringValue(suffix);
    assert (base + digits)[|base|..] == digits;
    base + digits
  }

  // ---------------------------------------------------------------------------
  // The route

  const AVATAR_PREFIX: string := "https://api.dicebear.com/7.x/avatars/svg?seed="

  /** The record the route inserts. */
  function InitialUser(id: Id, name: string, email: string, username: string, hashedPassword: string, now: Time): (u: User)
    ensures u.id == id && u.name == name && u.email == email && u.username == username && u.password == hashedPassword
    ensures u.postsCount == 0 && u.followersCount == 0 && u.followingCount == 0
    ensures u.posts == [] && u.followers == [] && u.following == Some([]) && u.savedPosts == []
    ensures u.image == Some(AVATAR_PREFIX + username)
  {
    User(id, name, email, username, hashedPassword,
         Some(AVATAR_PREFIX + username), None,
         "Hi, I'm " + name + "! \U{1F44B}", "", "",
         0, 0, 0, [], [], Some([]), [],
         NotificationPrefs(true, true, true, true), Privacy(false, true),
         None, None, None, now, now)
  }

  /** Some user record has this email (`findOne({email})`). */
  predicate EmailTaken(users: seq<User>, email: string) {
    exists i :: 0 <= i < |users| && users[i].email == email
  }

  /** Some user record has this username (`findOne({username})`). */
  predicate UsernameTaken(users: seq<User>, username: string) {
    exists i :: 0 <= i < |users| && users[i].username == username
  }

  function HasEmail(email: string): User -> bool {
    (u: User) => u.email == email
  }

  function HasUsername(username: string): User -> bool {
    (u: User) => u.username == username
  }

  /** POST: sign up. `isEmail` is the schema's email check, `hash` the password
      hash, `suffix` the random fallback suffix (below 1000); the user record is
      stamped `now` and the activity `later`. */
  function SignUp(form: SignUpForm, st: Store, isEmail: string -> bool, hash: string -> string,
                  suffix: nat, now: Time, later: Time): (r: Handled<SignUpReply>)
    requires suffix < 1000
    ensures !Valid(form, isEmail) ==> r == Handled(Failure(BAD_REQUEST, Issues(form, isEmail)[0]), st)
    ensures Valid(form, isEmail) && EmailTaken(st.users, form.email.value) ==>
      r == Handled(Failure(BAD_REQUEST, "Email already exists"), st)
    ensures Valid(form, isEmail) && !EmailTaken(st.users, form.email.value) && UsernameTaken(st.users, form.username.value) ==>
      r == Handled(Failure(BAD_REQUEST, "Username already exists"), st)
    ensures r.response.Success? <==>
      Valid(form, isEmail) && !EmailTaken(st.users, form.email.value) && !UsernameTaken(st.users, form.username.value)
    ensures r.response.Success? ==>
      var id := r.response.body.userId;
      && r.response == Success(CREATED, SignUpReply("User created successfully", id))
      && id !in UserIds(st.users)
      && |r.store.activities| == |st.activities| + 1
      && r.store == st.(
           users := st.users + [InitialUser(id, form.name.value, form.email.value, form.username.value, hash(form.password.value), now)],
           activities := st.activities + [Activity(r.store.activities[|st.activities|].id, id, "join", "joined the platform", later)])
      && r.store.activities[|st.activities|].id !in ActivityIds(st.activities)
  {
    var issues := Issues(form, isEmail);
    IssuesMatchRules(form, isEmail);
    if |issues| > 0 then Handled(Failure(BAD_REQUEST, issues[0]), st)
    else
      var email := form.email.value;
      var username := form.username.value;
      if Seqs.Find(st.users, HasEmail(email)).Some? then
        Handled(Failure(BAD_REQUEST, "Email already exists"), st)
      else if Seqs.Find(st.users, HasUsername(username)).Some? then
        Handled(Failure(BAD_REQUEST, "Username already exists"), st)
      else
        var finalUsername := OrElse(form.username, GenerateUniqueUsername(form.name.value, suffix));
        var id := FreshId(UserIds(st.users));
        var user := InitialUser(id, form.name.value, email, finalUsername, hash(form.password.value), now);
        var activity := Activity(FreshId(ActivityIds(st.activities)), id, "join", "joined the platform", later);
        Handled(Success(CREATED, SignUpReply("User created successfully", id)),
                st.(users := st.users + [user], activities := st.activities + [activity]))
  }

  // ---------------------------------------------------------------------------
  // Laws

  /** The duplicate checks run only on valid forms, and email comes first. */
  lemma EmailCheckedFirst(form: SignUpForm, st: Store, isEmail: string -> bool, hash: string -> string,
                          suffix: nat, now: Time, later: Time)
    requires suffix < 1000
    requires Valid(form, isEmail)
    requires EmailTaken(st.users, form.email.value) && UsernameTaken(st.users, form.username.value)
    ensures SignUp(form, st, isEmail, hash, suffix, now, later).response == Failure(BAD_REQUEST, "Email already exists")
  {
  }

  /** The stored username is the submitted one: the schema makes it truthy, so
      the generated fallback is never used. */
  lemma StoredUsernameIsSubmitted(form: SignUpForm, st: Store, isEmail: string -> bool, hash: string -> string,
                                  suffix: nat, now: Time, later: Time)
    requires suffix < 1000
    ensures var r := SignUp(form, st, isEmail, hash, suffix, now, later);
      r.response.Success? ==> r.store.users[|r.store.users| - 1].username == form.username.value
  {
  }

  /** Signing up twice with the same form: the second attempt finds the email
      taken and writes nothing. */
  lemma SignUpTwice(form: SignUpForm, st: Store, isEmail: string -> bool, hash: string -> string,
                    suffix: nat, now: Time, later: Time, now': Time, later': Time)
    requires suffix < 1000
    ensures var r := SignUp(form, st, isEmail, hash, suffix, now, later);
      r.response.Success? ==>
        SignUp(form, r.store, isEmail, hash, suffix, now', later') == Handled(Failure(BAD_REQUEST, "Email already exists"), r.store)
  {
    var r := SignUp(form, st, isEmail, hash, suffix, now, later);
    if r.response.Success? {
      assert r.store.users[|st.users|].email == form.email.value;
    }
  }

  /** A signup keeps every collection's ids distinct. */
  lemma SignUpKeepsUniqueIds(form: SignUpForm, st: Store, isEmail: string -> bool, hash: string -> string,
                             suffix: nat, now: Time, later: Time)
    requires suffix < 1000
    requires UniqueIds(st)
    ensures UniqueIds(SignUp(form, st, isEmail, hash, suffix, now, later).store)
  {
    var r := SignUp(form, st, isEmail, hash, suffix, now, later);
    if r.response.Success? {
      var u := r.store.users[|st.users|];
      var a := r.store.activities[|st.activities|];
      assert r.store == st.(users := st.users + [u], activities := st.activities + [a]);
      AppendKeepsUniqueIds(st, u, a);
    }
  }

  /** Appending a user and an activity with fresh ids keeps the ids distinct. */
  lemma AppendKeepsUniqueIds(st: Store, u: User, a: Activity)
    requires UniqueIds(st)
    requires u.id !in UserIds(st.users) && a.id !in ActivityIds(st.activities)
    ensures UniqueIds(st.(users := st.users + [u], activities := st.activities + [a]))
  {
    var st' := st.(users := st.users + [u], activities := st.activities + [a]);
    assert UserIds(st'.users) == UserIds(st.users) + [u.id];
    assert ActivityIds(st'.activities) == ActivityIds(st.activities) + [a.id];
    DistinctSnoc(UserIds(st.users), u.id);
    DistinctSnoc(ActivityIds(st.activities), a.id);
  }
}

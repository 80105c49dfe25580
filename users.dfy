/*
 * User management from the web pages (UserWebController.java): who may
 * create, edit and delete a user, the weekly working hours a form builds
 * or merges into the stored ones, and the user name derived from an email.
 * The controller guards with the exact spelling "superadmin".
 */
module Users {
  import opened Base
  import opened JavaStrings
  import opened Roles

  // ---------------------------------------------------------------------------
  // Weekly working hours
  // ---------------------------------------------------------------------------

  /** The seven days of `horairesTravail`, in the order the controller visits them. */
  const JOURS: seq<string> := ["lundi", "mardi", "mercredi", "jeudi", "vendredi", "samedi", "dimanche"]

  /** One day of `horairesTravail`. */
  datatype DayHours = DayHours(heureDebut: string, heureFin: string, actif: bool)

  /** A day as stored: each of its three entries may be missing. */
  datatype StoredDay = StoredDay(heureDebut: Option<string>, heureFin: Option<string>, actif: Option<bool>)

  /** The form's parameters, `allParams`. */
  type Params = map<string, string>

  const EMPTY_DAY := DayHours("", "", false)

  /** `allParams.getOrDefault(key, default)`. */
  function ParamOr(params: Params, key: string, default: string): string
  {
    if key in params then params[key] else default
  }

  /** A day is active iff its checkbox parameter `actif_<day>` was sent as "true". */
  predicate ActifOf(params: Params, jour: string)
  {
    "actif_" + jour in params && params["actif_" + jour] == "true"
  }

  /** A day of a new user's week: the times as sent (or ""), the checkbox as sent. */
  function FreshDay(params: Params, jour: string): DayHours
  {
    DayHours(ParamOr(params, "heureDebut_" + jour, ""), ParamOr(params, "heureFin_" + jour, ""), ActifOf(params, jour))
  }

  /** No day is listed twice. */
  predicate Distinct(days: seq<string>)
  {
    forall i, j :: 0 <= i < j < |days| ==> days[i] != days[j]
  }

  lemma JoursDistinct()
    ensures Distinct(JOURS)
  {
  }

  /** The week a creation stores over `days`: exactly those days, each as the form gives it. */
  predicate IsFreshOver(params: Params, days: seq<string>, h: map<string, DayHours>)
  {
    h.Keys == (set d | d in days) && forall d :: d in h ==> h[d] == FreshDay(params, d)
  }

  /** The week a creation stores: exactly the seven days, each as the form gives it. */
  predicate IsFreshWeek(params: Params, h: map<string, DayHours>)
  {
    IsFreshOver(params, JOURS, h)
  }

  /** The days of a stored user; a user without `horairesTravail` has none. */
  function CopyDay(sd: StoredDay): DayHours
  {
    DayHours(sd.heureDebut.GetOr(""), sd.heureFin.GetOr(""), sd.actif.GetOr(false))
  }

  /** The day an update starts from: the stored one, or an empty inactive day. */
  function BaseDay(existing: map<string, StoredDay>, d: string): DayHours
  {
    if d in existing then CopyDay(existing[d]) else EMPTY_DAY
  }

  /** A time is replaced only by a parameter that is sent and not blank after `trim()`. */
  function KeepUnlessGiven(current: string, params: Params, key: string): string
  {
    if key in params && Trim(params[key]) != [] then params[key] else current
  }

  /** A day after an update: times kept unless given, the checkbox recomputed from the form. */
  function MergedDay(base: DayHours, params: Params, jour: string): DayHours
  {
    DayHours(KeepUnlessGiven(base.heureDebut, params, "heureDebut_" + jour),
             KeepUnlessGiven(base.heureFin, params, "heureFin_" + jour),
             ActifOf(params, jour))
  }

  /**
   * The week an update stores over `days`: every stored key (a key outside
   * `days` is copied through) plus `days`, each of these merged with the form.
   */
  predicate IsMergedOver(existing: map<string, StoredDay>, params: Params, days: seq<string>,
                         h: map<string, DayHours>)
  {
    && (forall d :: d in h ==> d in existing || d in days)
    && (forall d :: d in existing ==> d in h)
    && (forall d :: d in days ==> d in h)
    && (forall d :: d in h && d in days ==> h[d] == MergedDay(BaseDay(existing, d), params, d))
    && (forall d :: d in h && d !in days ==> h[d] == CopyDay(existing[d]))
  }

  /** The week an update stores: the stored keys plus the seven days, these merged with the form. */
  predicate IsMergedWeek(existing: map<string, StoredDay>, params: Params, h: map<string, DayHours>)
  {
    IsMergedOver(existing, params, JOURS, h)
  }

  /** The creation loop over the given days. */
  method BuildDays(params: Params, days: seq<string>) returns (h: map<string, DayHours>)
    ensures IsFreshOver(params, days, h)
  {
    h := map[];
    var i := 0;
    while i < |days|
      invariant 0 <= i <= |days|
      invariant h.Keys == set d | d in days[..i]
      invariant forall d :: d in h ==> h[d] == FreshDay(params, d)
    {
      var jour := days[i];
      h := h[jour := FreshDay(params, jour)];
      assert days[..i + 1] == days[..i] + [jour];
      i := i + 1;
    }
    assert days[..i] == days;
  }

  /** The creation loop over the seven days. */
  method BuildHoraires(params: Params) returns (h: map<string, DayHours>)
    ensures IsFreshWeek(params, h)
  {
    h := BuildDays(params, JOURS);
  }

  /** Copy every stored day. */
  method CopyStoredDays(existing: map<string, StoredDay>) returns (h: map<string, DayHours>)
    ensures h.Keys == existing.Keys
    ensures forall d :: d in h ==> h[d] == CopyDay(existing[d])
  {
    h := map[];
    var pending := existing.Keys;
    while pending != {}
      invariant pending <= existing.Keys
      invariant h.Keys == existing.Keys - pending
      invariant forall d :: d in h ==> h[d] == CopyDay(existing[d])
      decreases |pending|
    {
      var k :| k in pending;
      h := h[k := CopyDay(existing[k])];
      pending := pending - {k};
    }
  }

  /** Merge each of the given days, in order, into the copied week. */
  method MergeDays(existing: map<string, StoredDay>, params: Params, days: seq<string>)
    returns (h: map<string, DayHours>)
    requires Distinct(days)
    ensures IsMergedOver(existing, params, days, h)
  {
    h := CopyStoredDays(existing);
    MergeStart(existing, params, h);
    assert days[..0] == [];
    var i := 0;
    while i < |days|
      invariant 0 <= i <= |days|
      invariant IsMergedOver(existing, params, days[..i], h)
    {
      var jour := days[i];
      assert jour !in days[..i];
      var day := if jour in h then h[jour] else EMPTY_DAY;
      MergeStep(existing, params, days[..i], jour, h);
      h := h[jour := MergedDay(day, params, jour)];
      assert days[..i + 1] == days[..i] + [jour];
      i := i + 1;
    }
    assert days[..i] == days;
  }

  /** The copied week is merged over no day. */
  lemma MergeStart(existing: map<string, StoredDay>, params: Params, h: map<string, DayHours>)
    requires h.Keys == existing.Keys
    requires forall d :: d in h ==> h[d] == CopyDay(existing[d])
    ensures IsMergedOver(existing, params, [], h)
  {
  }

  /** Merging one more day keeps the week merged over the longer prefix. */
  lemma MergeStep(existing: map<string, StoredDay>, params: Params, done: seq<string>, jour: string,
                  h: map<string, DayHours>)
    requires IsMergedOver(existing, params, done, h)
    requires jour !in done
    ensures var day := if jour in h then h[jour] else EMPTY_DAY;
            day == BaseDay(existing, jour)
            && IsMergedOver(existing, params, done + [jour], h[jour := MergedDay(day, params, jour)])
  {
    var day := if jour in h then h[jour] else EMPTY_DAY;
    assert day == BaseDay(existing, jour) by {
      if jour in h { assert jour in existing && h[jour] == CopyDay(existing[jour]); }
      else { assert jour !in existing; }
    }
    var h' := h[jour := MergedDay(day, params, jour)];
    MergeStepMerged(existing, params, done, jour, h, h');
    MergeStepCopied(existing, params, done, jour, h, h');
  }

  lemma MergeStepMerged(existing: map<string, StoredDay>, params: Params, done: seq<string>, jour: string,
                        h: map<string, DayHours>, h': map<string, DayHours>)
    requires forall d :: d in h && d in done ==> h[d] == MergedDay(BaseDay(existing, d), params, d)
    requires h' == h[jour := MergedDay(BaseDay(existing, jour), params, jour)]
    ensures forall d :: d in h' && d in done + [jour] ==> h'[d] == MergedDay(BaseDay(existing, d), params, d)
  {
    forall d | d in h' && d in done + [jour]
      ensures h'[d] == MergedDay(BaseDay(existing, d), params, d)
    {
      if d != jour { assert d in done; }
    }
  }

  lemma MergeStepCopied(existing: map<string, StoredDay>, params: Params, done: seq<string>, jour: string,
                        h: map<string, DayHours>, h': map<string, DayHours>)
    requires forall d :: d in h ==> d in existing || d in done
    requires forall d :: d in h && d !in done ==> d in existing && h[d] == CopyDay(existing[d])
    requires h'.Keys == h.Keys + {jour} && forall d :: d in h && d != jour ==> h'[d] == h[d]
    ensures forall d :: d in h' && d !in done + [jour] ==> d in existing
    ensures forall d :: d in h' && d !in done + [jour] ==> h'[d] == CopyDay(existing[d])
  {
    forall d | d in h' && d !in done + [jour]
      ensures h'[d] == CopyDay(existing[d])
    {
      assert d != jour && d !in done;
    }
  }

  /** The update: copy the stored days, then merge each of the seven days with the form. */
  method MergeHoraires(existing: map<string, StoredDay>, params: Params) returns (h: map<string, DayHours>)
    ensures IsMergedWeek(existing, params, h)
  {
    JoursDistinct();
    h := MergeDays(existing, params, JOURS);
  }

  /** The update's description determines the week completely. */
  lemma MergedWeekUnique(existing: map<string, StoredDay>, params: Params, h1: map<string, DayHours>,
                         h2: map<string, DayHours>)
    requires IsMergedWeek(existing, params, h1) && IsMergedWeek(existing, params, h2)
    ensures h1 == h2
  {
    assert forall d :: d in h1 ==> h1[d] == h2[d];
  }

  /** The days as the database keeps them after an update writes them. */
  function Stored(h: map<string, DayHours>): map<string, StoredDay>
  {
    map d | d in h :: StoredDay(Some(h[d].heureDebut), Some(h[d].heureFin), Some(h[d].actif))
  }

  /** Submitting the same edit form twice stores the same week as submitting it once. */
  lemma ResubmitStable(existing: map<string, StoredDay>, params: Params, h1: map<string, DayHours>,
                       h2: map<string, DayHours>)
    requires IsMergedWeek(existing, params, h1)
    requires IsMergedWeek(Stored(h1), params, h2)
    ensures h2 == h1
  {
    forall d | d in h2
      ensures h2[d] == h1[d]
    {
      assert d in h1;
      StoredRoundTrip(h1, d);
      if d in JOURS {
        MergedDayTwice(BaseDay(existing, d), params, d);
      }
    }
  }

  /** A stored day reads back as the day that was written. */
  lemma StoredRoundTrip(h: map<string, DayHours>, d: string)
    requires d in h
    ensures BaseDay(Stored(h), d) == h[d]
  {
  }

  /** Merging the same form twice into a day changes it only once. */
  lemma MergedDayTwice(b: DayHours, params: Params, jour: string)
    ensures MergedDay(MergedDay(b, params, jour), params, jour) == MergedDay(b, params, jour)
  {
  }

  /**
   * A creation and an update from a user without hours agree whenever the
   * form sends no time that is present but blank.
   */
  lemma FreshIsMergedFromNothing(params: Params, h: map<string, DayHours>)
    requires forall k :: k in params && Trim(params[k]) == [] ==> params[k] == ""
    requires IsFreshWeek(params, h)
    ensures IsMergedWeek(map[], params, h)
  {
    forall d | d in h && d in JOURS
      ensures h[d] == MergedDay(EMPTY_DAY, params, d)
    {
      var kd := "heureDebut_" + d;
      var kf := "heureFin_" + d;
      assert kd in params && Trim(params[kd]) == [] ==> params[kd] == "";
      assert kf in params && Trim(params[kf]) == [] ==> params[kf] == "";
    }
  }

  /** A start time sent as spaces is stored as spaces by a creation but ignored by an update. */
  lemma BlankTimeDiffers(params: Params, jour: string, h1: map<string, DayHours>, h2: map<string, DayHours>)
    requires jour in JOURS
    requires "heureDebut_" + jour in params
    requires params["heureDebut_" + jour] != [] && Trim(params["heureDebut_" + jour]) == []
    requires IsFreshWeek(params, h1) && IsMergedWeek(map[], params, h2)
    ensures h1[jour].heureDebut == params["heureDebut_" + jour]
    ensures h2[jour].heureDebut == ""
  {
    assert jour in h1 && jour in h2;
  }

  // ---------------------------------------------------------------------------
  // User name
  // ---------------------------------------------------------------------------

  /** The characters before the first '@' (all of them when there is none). */
  function BeforeAt(s: string): (r: string)
    ensures '@' !in r
    ensures r <= s
    ensures r == s || s[|r|] == '@'
  {
    if s == [] || s[0] == '@' then [] else [s[0]] + BeforeAt(s[1..])
  }

  /** The string is made of '@' only and is not empty. */
  predicate OnlyAts(s: string)
  {
    s != [] && forall k :: 0 <= k < |s| ==> s[k] == '@'
  }

  /**
   * `email.split("@")[0]`. `split` drops trailing empty pieces, so for an
   * email made only of '@' the array is empty and the index throws (None).
   */
  function NomUtilisateurOf(email: string): (r: Option<string>)
    ensures r.None? <==> OnlyAts(email)
  {
    if OnlyAts(email) then None else Some(BeforeAt(email))
  }

  /** The user name of an address with a non-empty local part is that local part. */
  lemma NomUtilisateurIsLocalPart(local: string, domain: string)
    requires '@' !in local && local != []
    ensures NomUtilisateurOf(local + "@" + domain) == Some(local)
  {
    var e := local + "@" + domain;
    assert e == local + ("@" + domain);
    LocalPartOf(local, "@" + domain);
    assert e[0] == local[0] && e[0] != '@';
  }

  lemma {:induction false} LocalPartOf(local: string, rest: string)
    requires '@' !in local
    requires rest != [] && rest[0] == '@'
    ensures BeforeAt(local + rest) == local
  {
    if local != [] {
      assert (local + rest)[1..] == local[1..] + rest;
      LocalPartOf(local[1..], rest);
    }
  }

  // ---------------------------------------------------------------------------
  // Creation (UserWebController.java:104-188)
  // ---------------------------------------------------------------------------

  /** The fields of the user forms. */
  datatype UserForm = UserForm(nom: string, prenom: string, email: string, numeroTelephone: string, role: string)

  datatype CreateUserRefusal =
    | CreateForbidden | MissingNom | MissingPrenom | MissingEmail | ShortPassword | MissingTelephone
    | InvalidRole | SuperAdminNotAssignable

  /** The checks of `createUser`, in the controller's order. */
  function CreateUserRefusalOf(currentRole: Option<string>, form: UserForm, password: string): Option<CreateUserRefusal>
  {
    if !IsSuperAdminExact(currentRole) then Some(CreateForbidden)
    else if Trim(form.nom) == [] then Some(MissingNom)
    else if Trim(form.prenom) == [] then Some(MissingPrenom)
    else if Trim(form.email) == [] then Some(MissingEmail)
    else if |password| < 6 then Some(ShortPassword)
    else if Trim(form.numeroTelephone) == [] then Some(MissingTelephone)
    else if form.role != ADMIN && form.role != TECHNICIEN && form.role != SUPERADMIN then Some(InvalidRole)
    else if form.role == SUPERADMIN then Some(SuperAdminNotAssignable)
    else None
  }

  /** Only a superadmin creates users, and only admins and technicians with a 6-character password. */
  lemma CreateUserAccepted(currentRole: Option<string>, form: UserForm, password: string)
    ensures CreateUserRefusalOf(currentRole, form, password).None?
            <==> && IsSuperAdminExact(currentRole)
                 && Trim(form.nom) != [] && Trim(form.prenom) != [] && Trim(form.email) != []
                 && Trim(form.numeroTelephone) != []
                 && |password| >= 6
                 && (form.role == ADMIN || form.role == TECHNICIEN)
  {
    RoleNamesDistinct();
  }

  /** The record `createUser` writes. The password is stored as given. */
  datatype NewUser = NewUser(uid: string, nom: string, prenom: string, email: string, nomUtilisateur: string,
                             motDePasse: string, role: string, statut: string, telephone: string,
                             horairesTravail: map<string, DayHours>)

  datatype UserCreation =
    | UserCreated(user: NewUser)
    | CreateRejected(reason: CreateUserRefusal)
    | CreateFailed

  /**
   * `createUser`. The authentication account is created first; `uid` is the
   * identifier it returns, None when the authentication service refuses.
   */
  method CreateUser(currentRole: Option<string>, form: UserForm, password: string, params: Params,
                    uid: Option<string>)
    returns (r: UserCreation)
    ensures r.CreateRejected? <==> CreateUserRefusalOf(currentRole, form, password).Some?
    ensures r.CreateRejected? ==> r.reason == CreateUserRefusalOf(currentRole, form, password).value
    ensures r.CreateFailed? <==> (CreateUserRefusalOf(currentRole, form, password).None?
                                 && (uid.None? || OnlyAts(form.email)))
    ensures r.UserCreated? ==> && uid == Some(r.user.uid)
                               && IsFreshWeek(params, r.user.horairesTravail)
                               && Some(r.user.nomUtilisateur) == NomUtilisateurOf(form.email)
                               && r.user.role == form.role && r.user.statut == "actif"
                               && r.user.motDePasse == password
                               && r.user.nom == form.nom && r.user.prenom == form.prenom
                               && r.user.email == form.email && r.user.telephone == form.numeroTelephone
  {
    var refusal := CreateUserRefusalOf(currentRole, form, password);
    if refusal.Some? {
      return CreateRejected(refusal.value);
    }
    if uid.None? {
      return CreateFailed;
    }
    var horaires := BuildHoraires(params);
    var login := NomUtilisateurOf(form.email);
    if login.None? {
      return CreateFailed;
    }
    r := UserCreated(NewUser(uid.value, form.nom, form.prenom, form.email, login.value, password, form.role,
                             "actif", form.numeroTelephone, horaires));
  }

  // ---------------------------------------------------------------------------
  // Edition (UserWebController.java:220-465)
  // ---------------------------------------------------------------------------

  /** What `updateUser` reads of the stored user. */
  datatype StoredUser = StoredUser(role: Option<string>, email: Option<string>,
                                   horairesTravail: Option<map<string, StoredDay>>)

  function ExistingWeek(u: StoredUser): map<string, StoredDay>
  {
    if u.horairesTravail.Some? then u.horairesTravail.value else map[]
  }

  datatype UserEditRefusal = EditForbidden | UserNotFound | UserLookupFailed | SuperAdminProtected | EditPasswordTooShort

  /** Whether the caller may open or submit the edit form of `userId`, in the controller's order. */
  function EditAccessOf(currentRole: Option<string>, currentUserId: Option<string>, userId: string,
                        target: Lookup<StoredUser>): Option<UserEditRefusal>
  {
    if !IsSuperAdminExact(currentRole) && currentUserId != Some(userId) then Some(EditForbidden)
    else match target
      case NotFound => Some(UserNotFound)
      case LookupFailed => Some(UserLookupFailed)
      case Found(u) =>
        if !IsSuperAdminExact(currentRole) && u.role == Some(SUPERADMIN) then Some(SuperAdminProtected) else None
  }

  /** A new password is taken only when it is sent and not blank after `trim()`. */
  predicate PasswordGiven(password: Option<string>)
  {
    !IsEmptyAfterTrim(password)
  }

  /** The checks of `updateUser`: the access rules, then the new password's length. */
  function UpdateRefusalOf(currentRole: Option<string>, currentUserId: Option<string>, userId: string,
                           target: Lookup<StoredUser>, password: Option<string>): Option<UserEditRefusal>
  {
    var access := EditAccessOf(currentRole, currentUserId, userId, target);
    if access.Some? then access
    else if PasswordGiven(password) && |password.value| < 6 then Some(EditPasswordTooShort)
    else None
  }

  /** The role written: a non-superadmin editing their own profile keeps the stored one. */
  function EffectiveRole(currentRole: Option<string>, currentUserId: Option<string>, userId: string,
                         target: StoredUser, submitted: string): Option<string>
  {
    if currentUserId == Some(userId) && !IsSuperAdminExact(currentRole) then target.role else Some(submitted)
  }

  /**
   * The access rule: allowed iff the caller is a superadmin, or edits their
   * own profile and that profile is not a superadmin's.
   */
  lemma EditAccessRule(currentRole: Option<string>, currentUserId: Option<string>, userId: string, u: StoredUser)
    ensures EditAccessOf(currentRole, currentUserId, userId, Found(u)).None?
            <==> IsSuperAdminExact(currentRole) || (currentUserId == Some(userId) && u.role != Some(SUPERADMIN))
  {
  }

  /** An accepted edit by a non-superadmin keeps the role and never writes "superadmin". */
  lemma NoRoleEscalation(currentRole: Option<string>, currentUserId: Option<string>, userId: string,
                         u: StoredUser, submitted: string, password: Option<string>)
    requires UpdateRefusalOf(currentRole, currentUserId, userId, Found(u), password).None?
    requires !IsSuperAdminExact(currentRole)
    ensures EffectiveRole(currentRole, currentUserId, userId, u, submitted) == u.role
    ensures EffectiveRole(currentRole, currentUserId, userId, u, submitted) != Some(SUPERADMIN)
  {
  }

  /** What an accepted edit writes, and which authentication updates it asks for. */
  datatype UserUpdate = UserUpdate(nom: string, prenom: string, email: string, telephone: string,
                                   role: Option<string>, horairesTravail: map<string, DayHours>)

  /**
   * The outcome of an edit. `AuthFailed` is a `FirebaseAuthException` from the
   * authentication updates: nothing is written to the database, but a password
   * already changed before the email update threw stays changed.
   */
  datatype UserEdit =
    | UserEdited(update: UserUpdate, newPassword: Option<string>, newEmail: Option<string>)
    | EditRejected(reason: UserEditRefusal)
    | AuthFailed(passwordChanged: Option<string>)

  /**
   * `updateUser`. `passwordUpdateOk` and `emailUpdateOk` say whether
   * `updateUserPassword` and `updateUserEmail` return or throw; the password
   * is updated first, and the email only after it.
   */
  method UpdateUser(currentRole: Option<string>, currentUserId: Option<string>, userId: string,
                    target: Lookup<StoredUser>, form: UserForm, password: Option<string>, params: Params,
                    passwordUpdateOk: bool, emailUpdateOk: bool)
    returns (r: UserEdit)
    ensures r.EditRejected? <==> UpdateRefusalOf(currentRole, currentUserId, userId, target, password).Some?
    ensures r.AuthFailed? <==> && UpdateRefusalOf(currentRole, currentUserId, userId, target, password).None?
                               && ((PasswordGiven(password) && !passwordUpdateOk)
                                   || (target.value.email != Some(form.email) && !emailUpdateOk))
    ensures r.AuthFailed? ==> r.passwordChanged == (if PasswordGiven(password) && passwordUpdateOk then password else None)
    ensures r.EditRejected? ==> r.reason == UpdateRefusalOf(currentRole, currentUserId, userId, target, password).value
    ensures r.UserEdited? ==> && target.Found?
                              && r.update.role == EffectiveRole(currentRole, currentUserId, userId, target.value, form.role)
                              && IsMergedWeek(ExistingWeek(target.value), params, r.update.horairesTravail)
                              && r.update.nom == form.nom && r.update.prenom == form.prenom
                              && r.update.email == form.email && r.update.telephone == form.numeroTelephone
    ensures r.UserEdited? ==> (r.newPassword.Some? <==> PasswordGiven(password))
                              && (r.newPassword.Some? ==> r.newPassword == password && |password.value| >= 6)
    ensures r.UserEdited? ==> (r.newEmail.Some? <==> target.value.email != Some(form.email))
                              && (r.newEmail.Some? ==> r.newEmail.value == form.email)
  {
    var refusal := UpdateRefusalOf(currentRole, currentUserId, userId, target, password);
    if refusal.Some? {
      return EditRejected(refusal.value);
    }
    var u := target.value;
    var role := Some(form.role);
    if currentUserId == Some(userId) && !IsSuperAdminExact(currentRole) {
      role := u.role;
    }
    var newPassword := if PasswordGiven(password) then password else None;
    if newPassword.Some? && !passwordUpdateOk {
      return AuthFailed(None);
    }
    var newEmail := if u.email != Some(form.email) then Some(form.email) else None;
    if newEmail.Some? && !emailUpdateOk {
      return AuthFailed(newPassword);
    }
    var horaires := MergeHoraires(ExistingWeek(u), params);
    r := UserEdited(UserUpdate(form.nom, form.prenom, form.email, form.numeroTelephone, role, horaires),
                    newPassword, newEmail);
  }

  // ---------------------------------------------------------------------------
  // Deletion (UserWebController.java:477-516)
  // ---------------------------------------------------------------------------

  datatype DeleteRefusal = DeleteForbidden | SelfDeletion | SuperAdminUndeletable | DeleteLookupFailed

  /**
   * The checks of `deleteUser`; `target` is the stored user's role. A
   * missing user is not refused: the deletion goes ahead.
   */
  function DeleteRefusalOf(currentRole: Option<string>, currentUserId: Option<string>, userId: string,
                           target: Lookup<Option<string>>): Option<DeleteRefusal>
  {
    if !IsSuperAdminExact(currentRole) then Some(DeleteForbidden)
    else if currentUserId == Some(userId) then Some(SelfDeletion)
    else match target
      case LookupFailed => Some(DeleteLookupFailed)
      case NotFound => None
      case Found(role) => if role == Some(SUPERADMIN) then Some(SuperAdminUndeletable) else None
  }

  /** A deletion goes ahead iff a superadmin deletes someone else who is not a superadmin. */
  lemma DeleteRule(currentRole: Option<string>, currentUserId: Option<string>, userId: string,
                   target: Lookup<Option<string>>)
    ensures DeleteRefusalOf(currentRole, currentUserId, userId, target).None?
            <==> && IsSuperAdminExact(currentRole)
                 && currentUserId != Some(userId)
                 && !target.LookupFailed?
                 && target != Found(Some(SUPERADMIN))
  {
  }
}

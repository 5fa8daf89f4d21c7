/**
  The data-access layer (src/utils/firebaseService.ts): saving and
  subscribing to RSVPs against either the in-memory development store or
  Firestore, reading and updating admin profiles, and changing passwords.
  Every Firebase SDK call is represented by its outcome, passed in as a
  parameter; ids and timestamps are passed in as fresh values.
*/
module FirebaseService {
  import opened Types
  import opened FirebaseConfig

  /** A rejected SDK call: Firebase's error code and (possibly empty) message. */
  datatype FirebaseError = FirebaseError(code: string, message: Option<string>)

  /** What an SDK call that yields nothing of interest did. */
  datatype CallOutcome = Succeeded | Failed(error: FirebaseError)

  /** `{ success: boolean; error?: string }`. */
  datatype SaveResult = SaveResult(success: bool, error: Option<string>)

  /** The guard `isDevMode || !db` used by every data call. */
  predicate UsesMemoryStore(rt: Runtime) {
    rt.isDevMode || !rt.hasDb
  }

  const InitialSaveError := "Възникна грешка при изпращане на RSVP."
  const PermissionDeniedMessage := "Няма достъп до базата данни. Моля, свържете се с администратор."
  const OfflineMessage := "Няма връзка с интернет. Моля, проверете връзката си."
  const NotFoundMessage := "База данни не е намерена. Моля, свържете се с администратор."
  const ErrorPrefix := "Грешка: "
  const UnknownErrorText := "Неизвестна грешка"

  /** The user-facing message for a failed save. Three codes have fixed
      messages; any other error reports its own message (or a placeholder)
      after a fixed prefix. The message the code starts from is never the
      one it returns. */
  function SaveErrorMessage(e: FirebaseError): (m: string)
    ensures e.code == "permission-denied" ==> m == PermissionDeniedMessage
    ensures e.code == "unavailable" ==> m == OfflineMessage
    ensures e.code == "not-found" ==> m == NotFoundMessage
    ensures e.code !in {"permission-denied", "unavailable", "not-found"} ==>
              m == ErrorPrefix + OrElse(e.message, UnknownErrorText)
    ensures m != InitialSaveError
  {
    if e.code == "permission-denied" then PermissionDeniedMessage
    else if e.code == "unavailable" then OfflineMessage
    else if e.code == "not-found" then NotFoundMessage
    else
      var m := ErrorPrefix + OrElse(e.message, UnknownErrorText);
      assert m[0] != InitialSaveError[0];
      m
  }

  /** The document handed to Firestore: the form fields plus the server
      timestamp. */
  datatype NewDoc = NewDoc(data: RSVPFormData, createdAt: nat)

  /** The outcome of `saveRSVPToFirebase`: the result the caller sees, the
      in-memory store afterwards, and the document handed to Firestore. */
  datatype Saved = Saved(result: SaveResult, store: seq<RSVPRecord>, sent: Option<NewDoc>)

  /** In memory mode the new record (every form field, a fresh id and
      timestamp) goes to the front of the store, earlier records keep their
      order, nothing is sent and the save always succeeds. Otherwise the
      form data and the timestamp go to Firestore, the store is untouched, and the result
      follows the SDK's outcome, a failure carrying a classified message. */
  function SaveRSVP(rt: Runtime, store: seq<RSVPRecord>, data: RSVPFormData,
                    id: string, createdAt: nat, addDoc: CallOutcome): (s: Saved)
    ensures UsesMemoryStore(rt) ==>
              && |s.store| == |store| + 1
              && s.store[0] == RSVPRecord(data, id, createdAt)
              && s.store[1..] == store
              && s.result == SaveResult(true, None)
              && s.sent.None?
    ensures !UsesMemoryStore(rt) ==> s.store == store && s.sent == Some(NewDoc(data, createdAt))
    ensures !UsesMemoryStore(rt) ==> (s.result.success <==> addDoc.Succeeded?)
    ensures s.result.success <==> s.result.error.None?
    ensures !s.result.success ==> addDoc.Failed? && s.result.error == Some(SaveErrorMessage(addDoc.error))
  {
    if UsesMemoryStore(rt) then
      Saved(SaveResult(true, None), [RSVPRecord(data, id, createdAt)] + store, None)
    else
      match addDoc
      case Succeeded => Saved(SaveResult(true, None), store, Some(NewDoc(data, createdAt)))
      case Failed(e) => Saved(SaveResult(false, Some(SaveErrorMessage(e))), store, Some(NewDoc(data, createdAt)))
  }

  /** What Firestore's listener reports: a query snapshot or an error. */
  datatype ListenEvent = Snapshot(records: seq<RSVPRecord>) | ListenError(error: FirebaseError)

  /** A call the subscription makes: `callback(records)` or `onError(error)`. */
  datatype Delivery = Callback(records: seq<RSVPRecord>) | OnError(error: FirebaseError)

  function Forward(e: ListenEvent): Delivery {
    match e
    case Snapshot(rs) => Callback(rs)
    case ListenError(err) => OnError(err)
  }

  /** `subscribeToRSVPs`: in memory mode the callback runs exactly once, with
      the store as it is now, and later listener events are never seen;
      otherwise each listener event is forwarded, in order, to the callback
      or to the error handler. The store is an input only: neither the
      subscription nor its unsubscribe function changes it. */
  function Subscribe(rt: Runtime, store: seq<RSVPRecord>, events: seq<ListenEvent>): (d: seq<Delivery>)
    ensures UsesMemoryStore(rt) ==> d == [Callback(store)]
    ensures !UsesMemoryStore(rt) ==> |d| == |events|
    ensures !UsesMemoryStore(rt) ==> forall i :: 0 <= i < |events| ==>
              (events[i].Snapshot? ==> d[i] == Callback(events[i].records)) &&
              (events[i].ListenError? ==> d[i] == OnError(events[i].error))
  {
    if UsesMemoryStore(rt) then [Callback(store)]
    else seq(|events|, i requires 0 <= i < |events| => Forward(events[i]))
  }

  /** Saving in memory mode and then subscribing delivers exactly one list:
      the new record first, then what was stored before. */
  lemma SaveThenSubscribe(rt: Runtime, store: seq<RSVPRecord>, data: RSVPFormData,
                          id: string, createdAt: nat, addDoc: CallOutcome, events: seq<ListenEvent>)
    requires UsesMemoryStore(rt)
    ensures var s := SaveRSVP(rt, store, data, id, createdAt, addDoc);
            var d := Subscribe(rt, s.store, events);
            |d| == 1 && d[0].Callback? && |d[0].records| == |store| + 1 &&
            d[0].records == [RSVPRecord(data, id, createdAt)] + store
  {
    var s := SaveRSVP(rt, store, data, id, createdAt, addDoc);
    assert s.store == [s.store[0]] + s.store[1..];
  }

  /** Saves are not deduplicated: submitting the same form twice stores two
      records, the later one first. */
  lemma RepeatedSavesAreKept(rt: Runtime, store: seq<RSVPRecord>, data: RSVPFormData,
                             id1: string, t1: nat, id2: string, t2: nat, addDoc: CallOutcome)
    requires UsesMemoryStore(rt)
    ensures var s1 := SaveRSVP(rt, store, data, id1, t1, addDoc);
            var s2 := SaveRSVP(rt, s1.store, data, id2, t2, addDoc);
            s2.store == [RSVPRecord(data, id2, t2), RSVPRecord(data, id1, t1)] + store
  {
    var s1 := SaveRSVP(rt, store, data, id1, t1, addDoc);
    var s2 := SaveRSVP(rt, s1.store, data, id2, t2, addDoc);
    assert s1.store == [RSVPRecord(data, id1, t1)] + store;
    assert s2.store == [RSVPRecord(data, id2, t2)] + s1.store;
  }

  /** What reading the `users/{uid}` document gave. */
  datatype ProfileRead = Found(profile: UserProfile) | Absent | ReadFailed(error: FirebaseError)

  /** The outcome of `getUserProfile`: the profile returned (null on error)
      and the profile written when one had to be created. */
  datatype ProfileLookup = ProfileLookup(profile: Option<UserProfile>, created: Option<UserProfile>)

  const DevProfileEmail := "admin@dev.local"

  /** The profile a first sign-in creates: the user's email (or empty), a
      pending forced password change, and the admin role. */
  function NewProfile(user: User): (p: UserProfile)
    ensures p.requiresPasswordChange && p.role == Some(Admin)
    ensures p.email == if user.email.Some? then user.email.value else ""
  {
    UserProfile(OrElse(user.email, ""), true, Some(Admin))
  }

  /** `getUserProfile`: memory mode answers with a mock profile that never
      forces a password change; otherwise a stored profile is returned as
      is, a missing one is created with the defaults above (returned only if
      the write succeeded), and any error gives null. */
  function GetUserProfile(rt: Runtime, user: User, read: ProfileRead, create: CallOutcome): (r: ProfileLookup)
    ensures UsesMemoryStore(rt) ==>
              r == ProfileLookup(Some(UserProfile(OrElse(user.email, DevProfileEmail), false, None)), None)
    ensures !UsesMemoryStore(rt) && read.Found? ==> r == ProfileLookup(Some(read.profile), None)
    ensures !UsesMemoryStore(rt) && read.Absent? ==> r.created == Some(NewProfile(user))
    ensures !UsesMemoryStore(rt) && read.Absent? ==>
              (r.profile == if create.Succeeded? then Some(NewProfile(user)) else None)
    ensures !UsesMemoryStore(rt) && read.ReadFailed? ==> r == ProfileLookup(None, None)
  {
    if UsesMemoryStore(rt) then
      ProfileLookup(Some(UserProfile(OrElse(user.email, DevProfileEmail), false, None)), None)
    else
      match read
      case Found(p) => ProfileLookup(Some(p), None)
      case ReadFailed(_) => ProfileLookup(None, None)
      case Absent =>
        var p := NewProfile(user);
        ProfileLookup(if create.Succeeded? then Some(p) else None, Some(p))
  }

  /** A forced password change can only come from the backend: memory mode
      never asks for one, and a profile created on first sign-in always does. */
  lemma ForcedChangeOnlyFromBackend(rt: Runtime, user: User, read: ProfileRead, create: CallOutcome)
    ensures var r := GetUserProfile(rt, user, read, create);
            r.profile.Some? && r.profile.value.requiresPasswordChange ==>
              !UsesMemoryStore(rt) && (read.Found? || read.Absent?)
    ensures var r := GetUserProfile(rt, user, read, create);
            !UsesMemoryStore(rt) && read.Absent? && r.profile.Some? ==> r.profile.value.requiresPasswordChange
  {
  }

  /** `Partial<UserProfile>`: the fields to merge into the stored profile. */
  datatype ProfilePatch = ProfilePatch(email: Option<string>, requiresPasswordChange: Option<bool>, role: Option<Role>)

  /** The outcome of `updateUserProfile`: the boolean result and the patch
      handed to Firestore's merge write. */
  datatype ProfileUpdate = ProfileUpdate(ok: bool, sent: Option<ProfilePatch>)

  /** `updateUserProfile`: memory mode reports success without writing;
      otherwise the patch is merged and the result says whether the write
      went through. It never throws. */
  function UpdateUserProfile(rt: Runtime, uid: string, patch: ProfilePatch, setDoc: CallOutcome): (r: ProfileUpdate)
    ensures UsesMemoryStore(rt) ==> r == ProfileUpdate(true, None)
    ensures !UsesMemoryStore(rt) ==> r.sent == Some(patch) && (r.ok <==> setDoc.Succeeded?)
  {
    if UsesMemoryStore(rt) then ProfileUpdate(true, None)
    else ProfileUpdate(setDoc.Succeeded?, Some(patch))
  }

  const GenericPasswordError := "Failed to update password."
  const RecentLoginError := "Please log out and log in again to change your password."
  const WeakPasswordError := "Password should be at least 6 characters."

  /** Classification of a failed password update. */
  function PasswordErrorMessage(code: string): (m: string)
    ensures code == "auth/requires-recent-login" ==> m == RecentLoginError
    ensures code == "auth/weak-password" ==> m == WeakPasswordError
    ensures code !in {"auth/requires-recent-login", "auth/weak-password"} ==> m == GenericPasswordError
  {
    if code == "auth/requires-recent-login" then RecentLoginError
    else if code == "auth/weak-password" then WeakPasswordError
    else GenericPasswordError
  }

  /** The outcome of `updateUserPassword`: the result and the password handed
      to the authentication service, if any. */
  datatype PasswordUpdate = PasswordUpdate(result: SaveResult, sent: Option<string>)

  /** `updateUserPassword`: only the development-mode flag short-circuits
      (a missing database does not), in which case it succeeds without a
      call; otherwise the authentication service decides. */
  function UpdateUserPassword(rt: Runtime, newPassword: string, update: CallOutcome): (r: PasswordUpdate)
    ensures rt.isDevMode ==> r == PasswordUpdate(SaveResult(true, None), None)
    ensures !rt.isDevMode ==> r.sent == Some(newPassword)
    ensures !rt.isDevMode ==> (r.result.success <==> update.Succeeded?)
    ensures !r.result.success ==> r.result.error == Some(PasswordErrorMessage(update.error.code))
    ensures r.result.success <==> r.result.error.None?
  {
    if rt.isDevMode then PasswordUpdate(SaveResult(true, None), None)
    else
      match update
      case Succeeded => PasswordUpdate(SaveResult(true, None), Some(newPassword))
      case Failed(e) => PasswordUpdate(SaveResult(false, Some(PasswordErrorMessage(e.code))), Some(newPassword))
  }

  /** The password guard differs from the data guards as written: without a
      database but outside development mode, data calls use memory while a
      password update still goes to the authentication service. Start-up
      never produces such a runtime (see `StartupGuardsAgree`). */
  lemma PasswordGuardIgnoresDatabase(uid: string, pw: string, patch: ProfilePatch, e: FirebaseError)
    ensures var rt := Runtime(false, false, true);
            UsesMemoryStore(rt) &&
            UpdateUserProfile(rt, uid, patch, Failed(e)).ok &&
            UpdateUserPassword(rt, pw, Failed(e)).sent == Some(pw) &&
            !UpdateUserPassword(rt, pw, Failed(e)).result.success
  {
  }

  /** Every runtime that start-up produces has a database exactly outside
      development mode, so there the data guard and the password guard
      agree and the difference above cannot be observed. */
  lemma StartupGuardsAgree(env: Env)
    requires Initialize(env).Ok?
    ensures UsesMemoryStore(Initialize(env).value) <==> Initialize(env).value.isDevMode
  {
  }
}

/**
  Start-up configuration (src/config/firebase.ts): development-mode
  detection, the Firebase options read from the environment, the check for
  missing required options, and which backend handles exist afterwards.
*/
module FirebaseConfig {
  import opened Types
  import opened Strings
  import opened Seqs

  /** `import.meta.env`: a variable that is not set is absent from the map. */
  type Env = map<string, string>

  const DevModeVar := "VITE_DEV_MODE"
  const ApiKeyVar := "VITE_FIREBASE_API_KEY"
  const DomainVar := "VITE_FIREBASE_DOMAIN"
  const AuthDomainVar := "VITE_FIREBASE_AUTH_DOMAIN"
  const ProjectIdVar := "VITE_FIREBASE_PROJECT_ID"
  const StorageBucketVar := "VITE_FIREBASE_STORAGE_BUCKET"
  const SenderIdVar := "VITE_FIREBASE_MESSAGING_SENDER_ID"
  const AppIdVar := "VITE_FIREBASE_APP_ID"

  function Lookup(env: Env, key: string): Option<string> {
    if key in env then Some(env[key]) else None
  }

  /** Development mode: switched on explicitly, or by the placeholder API key. */
  function IsDevMode(env: Env): (b: bool)
    ensures b <==> (DevModeVar in env && env[DevModeVar] == "true")
                   || (ApiKeyVar in env && env[ApiKeyVar] == "dev-mode")
  {
    Lookup(env, DevModeVar) == Some("true") || Lookup(env, ApiKeyVar) == Some("dev-mode")
  }

  /** The build configuration substitutes the literal "true" for
      `import.meta.env.VITE_DEV_MODE`, whatever the environment says. */
  function WithBuildDefines(env: Env): (e: Env)
    ensures Lookup(e, DevModeVar) == Some("true")
    ensures forall k :: k in env && k != DevModeVar ==> k in e && e[k] == env[k]
  {
    env[DevModeVar := "true"]
  }

  /** Every build of this site runs in development mode. */
  lemma BuildIsDevMode(env: Env)
    ensures IsDevMode(WithBuildDefines(env))
  {
  }

  datatype FirebaseOptions = FirebaseOptions(
    apiKey: Option<string>,
    authDomain: Option<string>,
    projectId: Option<string>,
    storageBucket: Option<string>,
    messagingSenderId: Option<string>,
    appId: Option<string>)

  /** `VITE_FIREBASE_DOMAIN ?? VITE_FIREBASE_AUTH_DOMAIN`: only an unset
      variable falls back; a set but empty one is kept. */
  function AuthDomain(env: Env): (r: Option<string>)
    ensures DomainVar in env ==> r == Some(env[DomainVar])
    ensures DomainVar !in env ==> r == Lookup(env, AuthDomainVar)
  {
    match Lookup(env, DomainVar)
    case Some(d) => Some(d)
    case None => Lookup(env, AuthDomainVar)
  }

  function OptionsOf(env: Env): FirebaseOptions {
    FirebaseOptions(
      Lookup(env, ApiKeyVar), AuthDomain(env), Lookup(env, ProjectIdVar),
      Lookup(env, StorageBucketVar), Lookup(env, SenderIdVar), Lookup(env, AppIdVar))
  }

  const RequiredFields: seq<string> :=
    ["apiKey", "authDomain", "projectId", "storageBucket", "messagingSenderId", "appId"]

  /** `firebaseConfig[field]`. */
  function FieldValue(o: FirebaseOptions, field: string): Option<string> {
    if field == "apiKey" then o.apiKey
    else if field == "authDomain" then o.authDomain
    else if field == "projectId" then o.projectId
    else if field == "storageBucket" then o.storageBucket
    else if field == "messagingSenderId" then o.messagingSenderId
    else if field == "appId" then o.appId
    else None
  }

  /** `!value` for a string that may be undefined. */
  predicate IsFalsy(v: Option<string>) {
    v.None? || v.value == ""
  }

  /** The required fields whose value is falsy, in the listed order. */
  function Missing(o: FirebaseOptions): (m: seq<string>)
    ensures IsSubseq(m, RequiredFields)
    ensures forall f :: f in m <==> f in RequiredFields && IsFalsy(FieldValue(o, f))
  {
    Filter(RequiredFields, f => IsFalsy(FieldValue(o, f)))
  }

  function MissingMessage(missing: seq<string>): string {
    "Missing Firebase config: " + Join(missing, ", ") + ". Check DEVELOPMENT_GUIDE.md for setup instructions."
  }

  /** The production-mode part of the check. */
  function CheckOptions(o: FirebaseOptions): (r: Result<bool>)
    ensures r == Ok(true) <==> Missing(o) == []
    ensures r.Err? ==> r.message == MissingMessage(Missing(o))
    ensures r.Ok? ==> r.value
  {
    var missing := Missing(o);
    if |missing| > 0 then Err(MissingMessage(missing)) else Ok(true)
  }

  /** `validateConfig()`: false in development mode without looking at the
      options; otherwise an error naming the missing fields, or true. */
  function ValidateConfig(env: Env): (r: Result<bool>)
    ensures IsDevMode(env) ==> r == Ok(false)
    ensures !IsDevMode(env) ==> (r == Ok(true) <==> Missing(OptionsOf(env)) == [])
    ensures r.Err? ==> !IsDevMode(env) && r.message == MissingMessage(Missing(OptionsOf(env)))
    ensures !IsDevMode(env) && Missing(OptionsOf(env)) != [] ==> r.Err?
    ensures r.Ok? ==> r.value == !IsDevMode(env)
  {
    if IsDevMode(env) then Ok(false)
    else CheckOptions(OptionsOf(env))
  }

  /** The module's exports after start-up: the mode flag and whether the
      database and authentication handles were created. */
  datatype Runtime = Runtime(isDevMode: bool, hasDb: bool, hasAuth: bool)

  /** Module initialisation: start-up fails exactly when production mode
      finds a required option missing, with the validation message; in
      development mode no backend handle is created; in production mode a
      successful start-up creates both. */
  function Initialize(env: Env): (r: Result<Runtime>)
    ensures r.Err? <==> !IsDevMode(env) && Missing(OptionsOf(env)) != []
    ensures r.Err? ==> r.message == MissingMessage(Missing(OptionsOf(env)))
    ensures r.Ok? && IsDevMode(env) ==> r.value == Runtime(true, false, false)
    ensures r.Ok? && !IsDevMode(env) ==> r.value == Runtime(false, true, true)
  {
    var validated := ValidateConfig(env);
    if validated.Err? then Err(validated.message)
    else Ok(Runtime(IsDevMode(env), validated.value, validated.value))
  }

  /** Outside development mode, a successful start-up means every required
      option was set to a non-empty value, and the backend is live. */
  lemma InitializedMeansConfigured(env: Env, f: string)
    requires !IsDevMode(env) && Initialize(env).Ok?
    requires f in RequiredFields
    ensures !IsFalsy(FieldValue(OptionsOf(env), f))
    ensures Initialize(env).value.hasDb && Initialize(env).value.hasAuth
  {
  }

  /** A start-up failure names every missing field in its message. */
  lemma MissingFieldNamed(env: Env, f: string)
    requires ValidateConfig(env).Err?
    requires f in RequiredFields && IsFalsy(FieldValue(OptionsOf(env), f))
    ensures exists k :: OccursAt(ValidateConfig(env).message, f, k)
  {
    var missing := Missing(OptionsOf(env));
    assert f in missing;
    var i :| 0 <= i < |missing| && missing[i] == f;
    MessageNamesPart(missing, i);
  }

  lemma MessageNamesPart(missing: seq<string>, i: nat)
    requires i < |missing|
    ensures exists k :: OccursAt(MissingMessage(missing), missing[i], k)
  {
    var pre := "Missing Firebase config: ";
    var post := ". Check DEVELOPMENT_GUIDE.md for setup instructions.";
    var j := Join(missing, ", ");
    var k := JoinContainsPart(missing, ", ", i);
    var msg := pre + j + post;
    assert msg == MissingMessage(missing);
    assert msg[|pre| + k..|pre| + k + |missing[i]|] == j[k..k + |missing[i]|];
    assert OccursAt(msg, missing[i], |pre| + k);
  }

  /** Each part of a join occurs in it. */
  lemma {:induction false} JoinContainsPart(xs: seq<string>, sep: string, i: nat) returns (k: nat)
    requires i < |xs|
    ensures OccursAt(Join(xs, sep), xs[i], k)
    decreases |xs|
  {
    if |xs| == 1 {
      k := 0;
    } else if i == 0 {
      k := 0;
      assert Join(xs, sep)[..|xs[0]|] == xs[0];
    } else {
      var k' := JoinContainsPart(xs[1..], sep, i - 1);
      var off := |xs[0]| + |sep|;
      var rest := Join(xs[1..], sep);
      assert Join(xs, sep) == xs[0] + sep + rest;
      k := off + k';
      assert Join(xs, sep)[k..k + |xs[i]|] == rest[k'..k' + |xs[i]|];
    }
  }

  /** With the build's substitution, start-up never fails and creates no
      backend handles: every service call takes the in-memory path. */
  lemma BuildRunsInMemory(env: Env)
    ensures Initialize(WithBuildDefines(env)) == Ok(Runtime(true, false, false))
  {
  }
}

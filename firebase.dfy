/**
 * src/lib/firebase.ts: the Firebase configuration read from the environment,
 * `validateFirebaseConfig`, and whether the module-level `db` ends up set.
 */
module Firebase {
  import opened Wrappers
  import opened Text

  /** `import.meta.env`: a key that is not set reads as `undefined`. */
  type Env = map<string, string>

  const RequiredKeys: seq<string> := [
    "VITE_FIREBASE_API_KEY",
    "VITE_FIREBASE_AUTH_DOMAIN",
    "VITE_FIREBASE_PROJECT_ID",
    "VITE_FIREBASE_STORAGE_BUCKET",
    "VITE_FIREBASE_MESSAGING_SENDER_ID",
    "VITE_FIREBASE_APP_ID"
  ]

  function EnvValue(env: Env, key: string): Option<string>
  {
    if key in env then Some(env[key]) else None
  }

  /** JavaScript truthiness of a possibly undefined string. */
  predicate Truthy(v: Option<string>)
  {
    v.Some? && v.value != ""
  }

  datatype FirebaseConfig = FirebaseConfig(
    apiKey: Option<string>,
    authDomain: Option<string>,
    projectId: Option<string>,
    storageBucket: Option<string>,
    messagingSenderId: Option<string>,
    appId: Option<string>)

  /** The `firebaseConfig` object literal. */
  function ConfigFromEnv(env: Env): FirebaseConfig
  {
    FirebaseConfig(
      EnvValue(env, "VITE_FIREBASE_API_KEY"),
      EnvValue(env, "VITE_FIREBASE_AUTH_DOMAIN"),
      EnvValue(env, "VITE_FIREBASE_PROJECT_ID"),
      EnvValue(env, "VITE_FIREBASE_STORAGE_BUCKET"),
      EnvValue(env, "VITE_FIREBASE_MESSAGING_SENDER_ID"),
      EnvValue(env, "VITE_FIREBASE_APP_ID"))
  }

  /** `Object.values(firebaseConfig)`, in declaration order. */
  function ConfigValues(c: FirebaseConfig): seq<Option<string>>
  {
    [c.apiKey, c.authDomain, c.projectId, c.storageBucket, c.messagingSenderId, c.appId]
  }

  /** The placeholder scan reads exactly the six values the required-key check asks for, key by key. */
  lemma ConfigValuesAreRequiredKeys(env: Env)
    ensures |ConfigValues(ConfigFromEnv(env))| == |RequiredKeys|
    ensures forall i :: 0 <= i < |RequiredKeys| ==> ConfigValues(ConfigFromEnv(env))[i] == EnvValue(env, RequiredKeys[i])
  {
  }

  /** `requiredKeys.filter(key => !import.meta.env[key])` */
  function MissingKeys(env: Env, keys: seq<string>): (missing: seq<string>)
    ensures forall k :: k in missing <==> k in keys && !Truthy(EnvValue(env, k))
  {
    if keys == [] then []
    else (if Truthy(EnvValue(env, keys[0])) then [] else [keys[0]]) + MissingKeys(env, keys[1..])
  }

  /** `value && (value.includes('your_') || value.includes('here'))` */
  predicate IsPlaceholder(v: Option<string>)
  {
    Truthy(v) && (Contains(v.value, "your_") || Contains(v.value, "here"))
  }

  /** `Object.values(firebaseConfig).some(...)` */
  function HasPlaceholders(values: seq<Option<string>>): (r: bool)
    ensures r <==> exists i :: 0 <= i < |values| && IsPlaceholder(values[i])
  {
    if values == [] then false
    else
      assert forall i :: 1 <= i < |values| ==> values[i] == values[1..][i - 1];
      IsPlaceholder(values[0]) || HasPlaceholders(values[1..])
  }

  function ValidateFirebaseConfig(env: Env): bool
  {
    if |MissingKeys(env, RequiredKeys)| > 0 then false
    else if HasPlaceholders(ConfigValues(ConfigFromEnv(env))) then false
    else true
  }

  /**
   * The configuration is valid exactly when each of the six keys is set to a
   * non-empty value and no value contains "your_" or "here" (case-sensitive).
   */
  lemma ValidateFirebaseConfigIff(env: Env)
    ensures ValidateFirebaseConfig(env) <==>
              (forall k :: k in RequiredKeys ==> k in env && env[k] != "") &&
              (forall k :: k in RequiredKeys ==> !Contains(env[k], "your_") && !Contains(env[k], "here"))
  {
    ConfigValuesAreRequiredKeys(env);
    var missing := MissingKeys(env, RequiredKeys);
    if |missing| > 0 {
      assert missing[0] in missing;
    }
    var values := ConfigValues(ConfigFromEnv(env));
    if HasPlaceholders(values) {
      var i :| 0 <= i < |values| && IsPlaceholder(values[i]);
      assert RequiredKeys[i] in RequiredKeys;
    } else if |missing| == 0 {
      forall k | k in RequiredKeys
        ensures !Contains(env[k], "your_") && !Contains(env[k], "here")
      {
        var i :| 0 <= i < |RequiredKeys| && RequiredKeys[i] == k;
        assert !IsPlaceholder(values[i]);
      }
    }
  }

  /**
   * The placeholder test looks for "here" anywhere, so a real value that
   * merely contains the word (a project named "atmosphere-1234") fails
   * validation too.
   */
  lemma ValueContainingHereRejected(env: Env)
    requires "VITE_FIREBASE_PROJECT_ID" in env && env["VITE_FIREBASE_PROJECT_ID"] == "atmosphere-1234"
    ensures !ValidateFirebaseConfig(env)
  {
    ValidateFirebaseConfigIff(env);
    assert OccursAt(env["VITE_FIREBASE_PROJECT_ID"], "here", 6);
    assert "VITE_FIREBASE_PROJECT_ID" in RequiredKeys;
  }

  /** An opaque Firestore handle, made from the configuration it was initialised with. */
  datatype Firestore = Firestore(config: FirebaseConfig)

  /** Whether `initializeApp` was called, and the resulting `db`. */
  datatype DbInit = DbInit(initAttempted: bool, db: Option<Firestore>)

  /**
   * The module's `try` block. `initSucceeds` stands for `initializeApp` and
   * `getFirestore` returning rather than throwing.
   */
  function InitializeDb(env: Env, initSucceeds: bool): (r: DbInit)
    ensures r.initAttempted <==> ValidateFirebaseConfig(env)
    ensures r.db.Some? <==> ValidateFirebaseConfig(env) && initSucceeds
    ensures r.db.Some? ==> r.db.value.config == ConfigFromEnv(env)
  {
    if ValidateFirebaseConfig(env) then
      if initSucceeds then DbInit(true, Some(Firestore(ConfigFromEnv(env)))) else DbInit(true, None)
    else DbInit(false, None)
  }
}

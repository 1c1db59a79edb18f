/** The security manager: PIN policy, key derivation, the lock state machine,
    the encrypted envelope with its embedded checksum, the integrity cache and
    the auto-lock timer (src/core/SecurityManager.js). The clock is an explicit
    `now` argument (milliseconds), the random bytes of a salt or an iv are
    arguments, and the pending `setTimeout` is an absolute deadline that the
    explicit `Tick` step fires. */
module Security {
  import opened Values
  import opened Crypto

  /** The errors the manager reports (the `error` messages of the source). */
  datatype SecError =
    | LockedError            // 'Security manager is locked'
    | NoEncryptionConfigured // 'No encryption configured. Please set up encryption first.'
    | WeakPin                // 'PIN must be at least 6 characters with numbers and letters'
    | InvalidCurrentPin      // 'Invalid current PIN'
    | DecryptionFailed       // the platform's AES-GCM failure
    | IntegrityFailed        // 'Data integrity verification failed'

  datatype Result<T> = Ok(value: T) | Err(error: SecError)

  /** What `encrypt` returns in `encrypted`: `{iv, data, version}`. */
  datatype Envelope = Envelope(iv: seq<bv8>, data: Json, version: string)
  {
    function ToJson(): Json
    {
      JObj(map["iv" := JBytes(iv), "data" := data, "version" := JStr(version)])
    }
  }

  /** What a successful `decrypt` returns besides `success`. */
  datatype Decrypted = Decrypted(data: Json, metadata: Option<Json>)

  /** `getState()`. */
  datatype SecurityState = SecurityState(isInitialized: bool, isLocked: bool, hasSalt: bool, hasEncryptionKey: bool)

  /** `getConfig()` (with `lastActivity`) and `exportConfig()` (without). */
  datatype SecurityConfig = SecurityConfig(salt: Option<seq<bv8>>, autoLockMinutes: int, version: string, lastActivity: Option<int>)

  /** `getStatus()`. */
  datatype SecurityStatus = SecurityStatus(isLocked: bool, hasEncryption: bool, autoLockMinutes: int, lastActivity: int, cacheSize: nat)

  const EnvelopeVersion: string := "2.0"
  const DefaultAutoLockMinutes: int := 15
  const SaltLength: nat := 16
  const IvLength: nat := 12
  const MinPinLength: nat := 6

  // ---------------------------------------------------------------- PIN policy

  predicate IsAsciiDigit(c: char) { '0' <= c <= '9' }

  predicate IsAsciiLetter(c: char) { 'a' <= c <= 'z' || 'A' <= c <= 'Z' }

  /** `/\d/.test(s)`. */
  function HasDigit(s: string): (r: bool)
    ensures r <==> exists i :: 0 <= i < |s| && IsAsciiDigit(s[i])
  {
    if s == [] then false
    else if IsAsciiDigit(s[0]) then true
    else
      var rest := HasDigit(s[1..]);
      assert forall i :: 1 <= i < |s| ==> s[i] == s[1..][i - 1];
      rest
  }

  /** `/[a-zA-Z]/.test(s)`. */
  function HasLetter(s: string): (r: bool)
    ensures r <==> exists i :: 0 <= i < |s| && IsAsciiLetter(s[i])
  {
    if s == [] then false
    else if IsAsciiLetter(s[0]) then true
    else
      var rest := HasLetter(s[1..]);
      assert forall i :: 1 <= i < |s| ==> s[i] == s[1..][i - 1];
      rest
  }

  /** `isValidPIN`: at least six UTF-16 code units, at least one ASCII digit
      and at least one ASCII letter. */
  function IsValidPin(pin: string): (r: bool)
    ensures r <==> Utf16Length(pin) >= MinPinLength
                   && (exists i :: 0 <= i < |pin| && IsAsciiDigit(pin[i]))
                   && (exists i :: 0 <= i < |pin| && IsAsciiLetter(pin[i]))
  {
    if Utf16Length(pin) < MinPinLength then false
    else HasDigit(pin) && HasLetter(pin)
  }

  /** The policy on four sample PINs. */
  lemma PinPolicyExamples()
    ensures IsValidPin("abc123")
    ensures !IsValidPin("abc") && !IsValidPin("abcdef") && !IsValidPin("123456")
  {
    assert Utf16Length("abc") == 3;
    assert HasDigit("abc123") && HasLetter("abc123");
    assert !HasDigit("abcdef");
    assert !HasLetter("123456");
  }

  // ------------------------------------------------------------- the timer

  /** The WebIDL `long` conversion `setTimeout` applies to its delay. */
  function ToInt32(x: int): (r: int)
    ensures -0x8000_0000 <= r < 0x8000_0000
    ensures (r - x) % 0x1_0000_0000 == 0
  {
    var m := x % 0x1_0000_0000;
    if m >= 0x8000_0000 then m - 0x1_0000_0000 else m
  }

  /** The delay `setTimeout` actually waits: converted to 32 bits, negative
      delays clamped to 0. */
  function TimerDelay(ms: int): (d: nat)
    ensures 0 <= ms < 0x8000_0000 ==> d == ms
  {
    var t := ToInt32(ms);
    if t < 0 then 0 else t
  }

  /** The auto-lock delay armed by `resetAutoLock`: `autoLockMinutes * 60 * 1000` ms. */
  function AutoLockDelay(minutes: int): nat
  {
    TimerDelay(minutes * 60 * 1000)
  }

  /** The "Never" choice (0 minutes) arms a timer that fires at once; ordinary
      choices give minutes * 60000 ms. */
  lemma AutoLockDelayValues(minutes: int)
    ensures minutes == 0 ==> AutoLockDelay(minutes) == 0
    ensures 0 <= minutes <= 35791 ==> AutoLockDelay(minutes) == minutes * 60000
    ensures AutoLockDelay(15) == 900000
  {
  }

  // ---------------------------------------------- envelope format (pure part)

  /** The inner plaintext `encrypt` serialises: `{data, timestamp, checksum}`
      plus `metadata` when the additional data is truthy. */
  function Payload(data: Json, metadata: Option<Json>, now: int): Json
  {
    var base := map["data" := data, "timestamp" := JNum(now as real), "checksum" := Checksum(data)];
    JObj(if Truthy(metadata) then base["metadata" := metadata.value] else base)
  }

  /** The envelope `encrypt` returns for a given key, iv and clock. */
  function Seal(key: Key, iv: seq<bv8>, data: Json, metadata: Option<Json>, now: int): Envelope
  {
    Envelope(iv, AesGcmEncrypt(key, iv, Payload(data, metadata, now)), EnvelopeVersion)
  }

  /** `new Uint8Array(v)` for the iv argument: a byte array gives its bytes, a
      non-negative integer n gives n zero bytes, anything else (undefined, an
      object) gives an empty array. */
  function IvBytes(v: Option<Json>): seq<bv8>
  {
    match v
    case Some(JBytes(b)) => b
    case Some(JNum(n)) => if 0.0 <= n && IsIntegral(n) then seq(n.Floor, _ => 0) else []
    case _ => []
  }

  /** What `decrypt` computes once the lock gate has passed: AES-GCM open of
      `encrypted.data` with `encrypted.iv`, then the embedded checksum check. */
  function Open(key: Key, encrypted: Json): Result<Decrypted>
  {
    match AesGcmDecrypt(key, IvBytes(Field(encrypted, "iv")), Field(encrypted, "data"))
    case None => Err(DecryptionFailed)
    case Some(payload) =>
      var data := Field(payload, "data");
      if data.Some? && Field(payload, "checksum") == Some(Checksum(data.value))
      then Ok(Decrypted(data.value, Field(payload, "metadata")))
      else Err(IntegrityFailed)
  }

  /** Round trip: what `encrypt` seals, `decrypt` opens under the same key,
      giving back the data and the metadata (a falsy metadata is not stored
      and comes back undefined). */
  lemma RoundTrip(key: Key, iv: seq<bv8>, data: Json, metadata: Option<Json>, now: int)
    requires |iv| == IvLength
    ensures var e := Seal(key, iv, data, metadata, now);
            |e.iv| == 12 && e.version == "2.0"
            && Open(key, e.ToJson()) == Ok(Decrypted(data, if Truthy(metadata) then metadata else None))
  {
    var e := Seal(key, iv, data, metadata, now);
    assert Field(e.ToJson(), "iv") == Some(JBytes(iv));
    assert Field(e.ToJson(), "data") == Some(e.data);
  }

  /** An envelope sealed under one key never opens under another. */
  lemma WrongKeyFails(key: Key, other: Key, iv: seq<bv8>, data: Json, metadata: Option<Json>, now: int)
    requires other != key
    ensures Open(other, Seal(key, iv, data, metadata, now).ToJson()) == Err(DecryptionFailed)
  {
    var e := Seal(key, iv, data, metadata, now);
    assert Field(e.ToJson(), "data") == Some(e.data);
  }

  /** A sealed payload whose embedded checksum is not the checksum of its data
      is rejected even though AES-GCM accepts it. */
  lemma ChecksumMismatchFails(key: Key, iv: seq<bv8>, data: Json, checksum: Json)
    requires |iv| > 0 && checksum != Checksum(data)
    ensures var payload := JObj(map["data" := data, "checksum" := checksum]);
            Open(key, JObj(map["iv" := JBytes(iv), "data" := AesGcmEncrypt(key, iv, payload)])) == Err(IntegrityFailed)
  {
  }

  /** `decryptData` (the compatibility path) gives back the whole inner
      payload `{data, timestamp, checksum}`, not the data: the two decrypt
      paths return differently shaped results for the same envelope. */
  lemma LegacyPathReturnsPayload(key: Key, iv: seq<bv8>, data: Json, now: int)
    requires |iv| == IvLength
    ensures var e := Seal(key, iv, data, None, now);
            var legacy := AesGcmDecrypt(key, iv, Some(e.data));
            legacy.Some? && Field(legacy.value, "data") == Some(data)
            && Field(legacy.value, "checksum") == Some(Checksum(data))
            && Open(key, e.ToJson()) == Ok(Decrypted(data, None))
  {
    RoundTrip(key, iv, data, None, now);
  }

  // ------------------------------------------------------- the manager itself

  class SecurityManager {
    var encryptionKey: Option<Key>
    var salt: Option<seq<bv8>>
    var isLocked: bool
    /** The pending auto-lock `setTimeout`, as the absolute time it fires. */
    var lockDeadline: Option<int>
    var autoLockMinutes: int
    var lastActivity: int
    /** Checksum of an envelope produced by `encrypt` -> time it was produced. */
    var integrityCache: map<Json, int>
    /** localStorage 'expenseflow_encryption_salt'. */
    var storedSalt: Option<seq<bv8>>
    /** localStorage 'expenseflow_autolock_minutes', already parsed. */
    var storedAutoLockMinutes: Option<int>

    /** What `updateActivity(now)` leaves behind: the activity time is `now`
        and the one pending auto-lock timer fires a full delay later. */
    predicate ActiveAt(now: int)
      reads this
    {
      lastActivity == now && lockDeadline == Some(now + AutoLockDelay(autoLockMinutes))
    }

    /** The manager holds a key exactly when it is unlocked, a key is only ever
        held together with a salt, and the integrity cache is empty while
        locked. */
    ghost predicate Valid()
      reads this
    {
      && (isLocked <==> encryptionKey.None?)
      && (encryptionKey.Some? ==> salt.Some?)
      && (isLocked ==> integrityCache == map[])
    }

    /** The constructor, with `loadAutoLockSettings` and `loadSalt`: the saved
        minutes are used unless absent or 0 (`parseInt(saved) || 15`). */
    constructor (now: int, savedSalt: Option<seq<bv8>>, savedMinutes: Option<int>)
      ensures Valid()
      ensures encryptionKey == None && isLocked && lockDeadline == None
      ensures salt == savedSalt && storedSalt == savedSalt && storedAutoLockMinutes == savedMinutes
      ensures autoLockMinutes == (if savedMinutes.Some? && savedMinutes.value != 0 then savedMinutes.value else DefaultAutoLockMinutes)
      ensures lastActivity == now && integrityCache == map[]
    {
      encryptionKey := None;
      salt := None;
      isLocked := true;
      lockDeadline := None;
      autoLockMinutes := DefaultAutoLockMinutes;
      lastActivity := now;
      integrityCache := map[];
      storedSalt := savedSalt;
      storedAutoLockMinutes := savedMinutes;
      if savedMinutes.Some? && savedMinutes.value != 0 {
        autoLockMinutes := savedMinutes.value;
      }
      if savedSalt.Some? {
        salt := savedSalt;
      }
    }

    /** `isInitialized()`: for a valid manager it is the same as being unlocked. */
    function IsInitialized(): (r: bool)
      reads this
      ensures Valid() ==> (r <==> !isLocked) && (r <==> encryptionKey.Some?)
      ensures r ==> salt.Some?
    {
      salt.Some? && encryptionKey.Some? && !isLocked
    }

    /** `getState()`: an initialized manager has a salt and a key and is not locked. */
    function GetState(): (r: SecurityState)
      reads this
      ensures r.isInitialized ==> r.hasSalt && r.hasEncryptionKey && !r.isLocked
      ensures Valid() ==> (r.hasEncryptionKey <==> !r.isLocked) && (r.isInitialized <==> !r.isLocked)
    {
      SecurityState(IsInitialized(), isLocked, salt.Some?, encryptionKey.Some?)
    }

    /** `getConfig()`: never exposes the key. */
    function GetConfig(): (r: SecurityConfig)
      reads this
      ensures r.salt == salt && r.autoLockMinutes == autoLockMinutes
      ensures r.version == EnvelopeVersion && r.lastActivity == Some(lastActivity)
    {
      SecurityConfig(salt, autoLockMinutes, EnvelopeVersion, Some(lastActivity))
    }

    /** `exportConfig()`: like `getConfig()` without the activity time. */
    function ExportConfig(): (r: SecurityConfig)
      reads this
      ensures r.salt == salt && r.autoLockMinutes == autoLockMinutes
      ensures r.version == EnvelopeVersion && r.lastActivity == None
    {
      SecurityConfig(salt, autoLockMinutes, EnvelopeVersion, None)
    }

    /** `getStatus()`. */
    function GetStatus(): (r: SecurityStatus)
      reads this
      ensures r.hasEncryption <==> salt.Some?
      ensures Valid() && r.isLocked ==> r.cacheSize == 0
    {
      SecurityStatus(isLocked, salt.Some?, autoLockMinutes, lastActivity, |integrityCache|)
    }

    /** `generateSalt()`: 16 random bytes become the salt. */
    method GenerateSalt(random: seq<bv8>) returns (s: seq<bv8>)
      requires |random| == SaltLength
      modifies this`salt
      ensures s == random && salt == Some(random)
    {
      salt := Some(random);
      s := random;
    }

    /** `saveSalt()`: persists the salt when there is one. */
    method SaveSalt()
      modifies this`storedSalt
      ensures storedSalt == (if salt.Some? then salt else old(storedSalt))
    {
      if salt.Some? {
        storedSalt := salt;
      }
    }

    /** `resetAutoLock()`: cancels the pending timer and arms one for the
        configured delay. */
    method ResetAutoLock(now: int)
      modifies this`lockDeadline
      ensures lockDeadline == Some(now + AutoLockDelay(autoLockMinutes))
    {
      lockDeadline := Some(now + AutoLockDelay(autoLockMinutes));
    }

    /** `updateActivity()`. */
    method UpdateActivity(now: int)
      modifies this`lastActivity, this`lockDeadline
      ensures lastActivity == now && lockDeadline == Some(now + AutoLockDelay(autoLockMinutes))
    {
      lastActivity := now;
      ResetAutoLock(now);
    }

    /** `deriveKey(pin, salt)`. The salt is chosen BEFORE the PIN is checked:
        the given salt, else the current one, else a fresh one made from
        `random`; a given or freshly made salt is also saved at that point. A weak PIN then fails with the key, the lock and the
        timer untouched. */
    method DeriveKey(pin: string, givenSalt: Option<seq<bv8>>, random: seq<bv8>, now: int) returns (r: Result<seq<bv8>>)
      requires Valid()
      requires givenSalt.Some? || salt.Some? || |random| == SaltLength
      modifies this
      ensures Valid()
      ensures var s := if givenSalt.Some? then givenSalt.value
                       else if old(salt).Some? then old(salt).value else random;
              salt == Some(s)
              && storedSalt == (if givenSalt.Some? || old(salt).None? then Some(s) else old(storedSalt))
              && (if IsValidPin(pin)
                  then r == Ok(s) && encryptionKey == Some(Pbkdf2(pin, s)) && !isLocked
                       && lockDeadline == Some(now + AutoLockDelay(autoLockMinutes))
                  else r == Err(WeakPin) && encryptionKey == old(encryptionKey)
                       && isLocked == old(isLocked) && lockDeadline == old(lockDeadline))
      ensures autoLockMinutes == old(autoLockMinutes) && lastActivity == old(lastActivity)
      ensures integrityCache == old(integrityCache) && storedAutoLockMinutes == old(storedAutoLockMinutes)
    {
      var s: seq<bv8>;
      if givenSalt.None? {
        if salt.None? {
          var generated := GenerateSalt(random);
          SaveSalt();
        }
        s := salt.value;
      } else {
        salt := givenSalt;
        SaveSalt();
        s := givenSalt.value;
      }
      if !IsValidPin(pin) {
        return Err(WeakPin);
      }
      encryptionKey := Some(Pbkdf2(pin, s));
      isLocked := false;
      ResetAutoLock(now);
      r := Ok(s);
    }

    /** `unlock(pin)`: without a salt nothing changes; otherwise the key is
        re-derived from the existing salt, which stays as it was. A wrong but
        well-formed PIN is accepted here: it yields a different key. */
    method Unlock(pin: string, now: int) returns (r: Result<seq<bv8>>)
      requires Valid()
      modifies this
      ensures Valid()
      ensures old(salt).None? ==> r == Err(NoEncryptionConfigured) && unchanged(this)
      ensures old(salt).Some? ==>
                salt == old(salt) && storedSalt == old(salt)
                && (if IsValidPin(pin)
                    then r == Ok(old(salt).value) && encryptionKey == Some(Pbkdf2(pin, old(salt).value)) && !isLocked
                         && lockDeadline == Some(now + AutoLockDelay(autoLockMinutes))
                    else r == Err(WeakPin) && encryptionKey == old(encryptionKey)
                         && isLocked == old(isLocked) && lockDeadline == old(lockDeadline))
      ensures autoLockMinutes == old(autoLockMinutes) && lastActivity == old(lastActivity)
      ensures integrityCache == old(integrityCache) && storedAutoLockMinutes == old(storedAutoLockMinutes)
    {
      if salt.None? {
        return Err(NoEncryptionConfigured);
      }
      r := DeriveKey(pin, salt, [], now);
    }

    /** `lock()`: drops the key, empties the integrity cache and cancels the timer. */
    method Lock()
      modifies this`encryptionKey, this`isLocked, this`integrityCache, this`lockDeadline
      ensures Valid()
      ensures encryptionKey == None && isLocked && integrityCache == map[] && lockDeadline == None
    {
      encryptionKey := None;
      isLocked := true;
      integrityCache := map[];
      if lockDeadline.Some? {
        lockDeadline := None;
      }
    }

    /** The clock reaching `now`: the pending auto-lock timer fires (it runs
        `lock()`) exactly when its deadline has passed. */
    method Tick(now: int) returns (fired: bool)
      requires Valid()
      modifies this
      ensures Valid()
      ensures fired <==> old(lockDeadline).Some? && now >= old(lockDeadline).value
      ensures fired ==> encryptionKey == None && isLocked && integrityCache == map[] && lockDeadline == None
      ensures !fired ==> unchanged(this)
      ensures salt == old(salt) && autoLockMinutes == old(autoLockMinutes) && lastActivity == old(lastActivity)
      ensures storedSalt == old(storedSalt) && storedAutoLockMinutes == old(storedAutoLockMinutes)
    {
      fired := lockDeadline.Some? && now >= lockDeadline.value;
      if fired {
        Lock();
      }
    }

    /** `changePIN(old, new)`: unlocks with the old PIN, then replaces the salt
        with a fresh one and derives with the new PIN. A weak new PIN still
        leaves the new salt in place and saved, while the key stays the one
        derived from the old PIN and the old salt. */
    method ChangePin(oldPin: string, newPin: string, random: seq<bv8>, now: int) returns (r: Result<seq<bv8>>)
      requires Valid()
      requires |random| == SaltLength
      modifies this
      ensures Valid()
      ensures old(salt).None? ==> r == Err(InvalidCurrentPin) && unchanged(this)
      ensures old(salt).Some? && !IsValidPin(oldPin) ==>
                r == Err(InvalidCurrentPin) && salt == old(salt) && storedSalt == old(salt)
                && encryptionKey == old(encryptionKey) && isLocked == old(isLocked) && lockDeadline == old(lockDeadline)
      ensures old(salt).Some? && IsValidPin(oldPin) ==>
                salt == Some(random) && storedSalt == Some(random) && !isLocked
                && lockDeadline == Some(now + AutoLockDelay(autoLockMinutes))
                && (if IsValidPin(newPin)
                    then r == Ok(random) && encryptionKey == Some(Pbkdf2(newPin, random))
                    else r == Err(WeakPin) && encryptionKey == Some(Pbkdf2(oldPin, old(salt).value)))
      ensures autoLockMinutes == old(autoLockMinutes) && lastActivity == old(lastActivity)
      ensures integrityCache == old(integrityCache) && storedAutoLockMinutes == old(storedAutoLockMinutes)
    {
      var unlocked := Unlock(oldPin, now);
      if unlocked.Err? {
        return Err(InvalidCurrentPin);
      }
      var newSalt := GenerateSalt(random);
      r := DeriveKey(newPin, Some(newSalt), random, now);
    }

    /** `encrypt(data, additionalData)`: fails while locked or keyless, before
        touching anything; otherwise records the activity, re-arms the timer,
        seals `{data, timestamp, checksum[, metadata]}` under the key with the
        12-byte iv, and caches the envelope's checksum. */
    method Encrypt(data: Json, metadata: Option<Json>, now: int, iv: seq<bv8>) returns (r: Result<Envelope>)
      requires Valid()
      requires |iv| == IvLength
      modifies this
      ensures Valid()
      ensures old(isLocked || encryptionKey.None?) ==> r == Err(LockedError) && unchanged(this)
      ensures !old(isLocked || encryptionKey.None?) ==>
                r == Ok(Seal(old(encryptionKey).value, iv, data, metadata, now))
                && lastActivity == now && lockDeadline == Some(now + AutoLockDelay(autoLockMinutes))
                && integrityCache == old(integrityCache)[Checksum(r.value.ToJson()) := now]
                && encryptionKey == old(encryptionKey) && isLocked == old(isLocked)
      ensures salt == old(salt) && autoLockMinutes == old(autoLockMinutes)
      ensures storedSalt == old(storedSalt) && storedAutoLockMinutes == old(storedAutoLockMinutes)
    {
      if isLocked || encryptionKey.None? {
        return Err(LockedError);
      }
      UpdateActivity(now);
      var envelope := Seal(encryptionKey.value, iv, data, metadata, now);
      var hash := Checksum(envelope.ToJson());
      integrityCache := integrityCache[hash := now];
      r := Ok(envelope);
    }

    /** `decrypt(encryptedData)`: gated like `encrypt`; a cache miss is only
        logged, so the result is `Open` under the current key whatever the
        cache holds. */
    method Decrypt(encrypted: Json, now: int) returns (r: Result<Decrypted>)
      requires Valid()
      modifies this
      ensures Valid()
      ensures old(isLocked || encryptionKey.None?) ==> r == Err(LockedError) && unchanged(this)
      ensures !old(isLocked || encryptionKey.None?) ==>
                r == Open(old(encryptionKey).value, encrypted)
                && lastActivity == now && lockDeadline == Some(now + AutoLockDelay(autoLockMinutes))
      ensures encryptionKey == old(encryptionKey) && isLocked == old(isLocked) && integrityCache == old(integrityCache)
      ensures salt == old(salt) && autoLockMinutes == old(autoLockMinutes)
      ensures storedSalt == old(storedSalt) && storedAutoLockMinutes == old(storedAutoLockMinutes)
    {
      if isLocked || encryptionKey.None? {
        return Err(LockedError);
      }
      UpdateActivity(now);
      r := Open(encryptionKey.value, encrypted);
    }

    /** `decryptData(encryptedData, iv)`: the compatibility path. Gated like
        `decrypt`; returns the parsed plaintext as it is, with no checksum
        check, and fails (throws) when AES-GCM does. */
    method DecryptData(ciphertext: Option<Json>, iv: Option<Json>, now: int) returns (r: Result<Json>)
      requires Valid()
      modifies this
      ensures Valid()
      ensures old(isLocked || encryptionKey.None?) ==> r == Err(LockedError) && unchanged(this)
      ensures !old(isLocked || encryptionKey.None?) ==>
                r == (match AesGcmDecrypt(old(encryptionKey).value, IvBytes(iv), ciphertext)
                      case Some(plain) => Ok(plain)
                      case None => Err(DecryptionFailed))
                && lastActivity == now && lockDeadline == Some(now + AutoLockDelay(autoLockMinutes))
      ensures encryptionKey == old(encryptionKey) && isLocked == old(isLocked) && integrityCache == old(integrityCache)
      ensures salt == old(salt) && autoLockMinutes == old(autoLockMinutes)
      ensures storedSalt == old(storedSalt) && storedAutoLockMinutes == old(storedAutoLockMinutes)
    {
      if isLocked || encryptionKey.None? {
        return Err(LockedError);
      }
      UpdateActivity(now);
      var plain := AesGcmDecrypt(encryptionKey.value, IvBytes(iv), ciphertext);
      if plain.None? {
        return Err(DecryptionFailed);
      }
      r := Ok(plain.value);
    }

    /** `setAutoLockDuration(minutes)`: stores the minutes, re-arms the timer
        with them even while locked (0 minutes fires at once), and persists them. */
    method SetAutoLockDuration(minutes: int, now: int)
      modifies this`autoLockMinutes, this`lockDeadline, this`storedAutoLockMinutes
      ensures autoLockMinutes == minutes && storedAutoLockMinutes == Some(minutes)
      ensures lockDeadline == Some(now + AutoLockDelay(minutes))
    {
      autoLockMinutes := minutes;
      ResetAutoLock(now);
      storedAutoLockMinutes := Some(minutes);
    }

    /** `importConfig(config)`: a present salt replaces the current one; the
        minutes are taken only when truthy, so 0 ("Never") is ignored. Nothing
        is re-armed or persisted. `configSalt` is None when `config.salt` is
        absent or null. */
    method ImportConfig(configSalt: Option<seq<bv8>>, configMinutes: Option<int>)
      requires Valid()
      modifies this`salt, this`autoLockMinutes
      ensures Valid()
      ensures salt == (if configSalt.Some? then configSalt else old(salt))
      ensures autoLockMinutes == (if configMinutes.Some? && configMinutes.value != 0 then configMinutes.value else old(autoLockMinutes))
    {
      if configSalt.Some? {
        salt := configSalt;
      }
      if configMinutes.Some? && configMinutes.value != 0 {
        autoLockMinutes := configMinutes.value;
      }
    }

    /** `clearAll()`: locks and forgets the salt. The salt saved in local
        storage is left in place. */
    method ClearAll()
      modifies this`encryptionKey, this`isLocked, this`integrityCache, this`lockDeadline, this`salt
      ensures Valid()
      ensures encryptionKey == None && isLocked && integrityCache == map[] && lockDeadline == None && salt == None
    {
      Lock();
      salt := None;
      integrityCache := map[];
    }
  }

  /** Locking twice is the same as locking once, and the auto-lock timer
      firing is exactly `lock()`. */
  method LockIsIdempotent(m: SecurityManager, now: int)
    requires m.Valid()
    modifies m
    ensures m.encryptionKey == None && m.isLocked && m.integrityCache == map[] && m.lockDeadline == None
    ensures m.salt == old(m.salt) && m.autoLockMinutes == old(m.autoLockMinutes) && m.lastActivity == old(m.lastActivity)
  {
    m.Lock();
    m.Lock();
    var fired := m.Tick(now);
    assert !fired;
  }

  /** The auto-lock timer on a fresh manager: after setting up a PIN at time
      t with the default 15 minutes, a tick at any time before t + delay leaves
      the manager initialized, and the tick at t + delay locks it without any
      explicit `lock()`. */
  method AutoLockScenario(pin: string, random: seq<bv8>, t: int, early: int)
    returns (initializedEarly: bool, initializedLate: bool)
    requires IsValidPin(pin) && |random| == SaltLength
    requires t <= early < t + AutoLockDelay(DefaultAutoLockMinutes)
    ensures initializedEarly && !initializedLate
  {
    var m := new SecurityManager(t, None, None);
    var r := m.DeriveKey(pin, None, random, t);
    assert r == Ok(random) && !m.isLocked;
    var fired := m.Tick(early);
    initializedEarly := m.IsInitialized();
    fired := m.Tick(t + AutoLockDelay(DefaultAutoLockMinutes));
    initializedLate := m.IsInitialized();
  }
}

/** Values shared by every module of the model: the JavaScript values the
    application stores, encrypts and compares, restricted to what JSON can
    carry, plus symbolic stand-ins for the byte arrays produced by the
    platform's cryptography. */
module Values {

  datatype Option<+T> = None | Some(value: T)

  /** An encryption key handle. PBKDF2 (section 5.2 of RFC 8018) is treated as
      collision-free, so a handle is identified by the PIN and the salt it was
      derived from; no operation of the managers looks inside it. */
  datatype Key = Key(pin: string, salt: seq<bv8>)

  /** A JSON-serialisable JavaScript value.
      - JBytes: an array of byte values (`Array.from(uint8Array)`), e.g. an iv or a salt.
      - JSealed: the byte array AES-GCM produced when encrypting the JSON text
        of `plain` under `key` with initialisation vector `iv`.
      - JDigest: the lower-case hex string of the SHA-256 digest of the JSON
        text of `of`; SHA-256 is treated as collision-free. */
  datatype Json =
    | JNull
    | JBool(b: bool)
    | JNum(n: real)
    | JStr(s: string)
    | JArr(items: seq<Json>)
    | JObj(fields: map<string, Json>)
    | JBytes(bytes: seq<bv8>)
    | JSealed(key: Key, iv: seq<bv8>, plain: Json)
    | JDigest(of: Json)

  /** JavaScript truthiness (`if (v)`), for the values the model represents.
      An absent property (undefined) is falsy. */
  predicate Truthy(v: Option<Json>)
  {
    match v
    case None => false
    case Some(JNull) => false
    case Some(JBool(b)) => b
    case Some(JNum(n)) => n != 0.0
    case Some(JStr(s)) => s != ""
    case Some(_) => true
  }

  /** Property access `v.f`: None stands for undefined. */
  function Field(v: Json, f: string): (r: Option<Json>)
    ensures r.Some? <==> v.JObj? && f in v.fields
    ensures r.Some? ==> r.value == v.fields[f]
  {
    if v.JObj? && f in v.fields then Some(v.fields[f]) else None
  }

  /** Property access on a value that may itself be undefined (`v?.f`). */
  function FieldOf(v: Option<Json>, f: string): Option<Json>
  {
    if v.Some? then Field(v.value, f) else None
  }

  /** The own enumerable properties copied by an object spread `{...v}` of an
      object; spreading null, a number or a boolean copies nothing. */
  function Spread(v: Json): map<string, Json>
  {
    if v.JObj? then v.fields else map[]
  }

  /** Length of a string in UTF-16 code units, which is what JavaScript's
      `length` counts: characters outside the Basic Multilingual Plane count
      twice. */
  function Utf16Length(s: string): (n: nat)
    ensures |s| <= n <= 2 * |s|
  {
    if s == [] then 0
    else (if s[0] as int > 0xFFFF then 2 else 1) + Utf16Length(s[1..])
  }

  /** `toLowerCase` on the letters A-Z; every other character is left as it
      is. */
  function LowerChar(c: char): char
  {
    if 'A' <= c <= 'Z' then (c as int + 32) as char else c
  }

  function Lower(s: string): (r: string)
    ensures |r| == |s| && forall i :: 0 <= i < |s| ==> r[i] == LowerChar(s[i])
  {
    seq(|s|, i requires 0 <= i < |s| => LowerChar(s[i]))
  }

  /** Decimal rendering of an integer, as JavaScript's String(n) gives it. */
  function IntToString(n: int): (s: string)
    ensures s != []
    decreases if n < 0 then 1 - n else n
  {
    if n < 0 then "-" + IntToString(-n)
    else if n < 10 then [DigitChar(n)]
    else IntToString(n / 10) + [DigitChar(n % 10)]
  }

  function DigitChar(d: int): char
    requires 0 <= d < 10
  {
    ('0' as int + d) as char
  }

  /** `JSON.stringify`-level equality of numbers used as integers. */
  predicate IsIntegral(r: real)
  {
    r.Floor as real == r
  }
}

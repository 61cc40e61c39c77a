/**
 * The attendance-session protocol of the QR attendance component
 * (src/components/dashboard/QRAttendance.tsx) as pure functions: the
 * time-to-live clamp, the payload a teacher issues, its serialised form,
 * the student's ordered checks of a scanned text, and the countdown.
 * Timestamps are integer milliseconds; the clock and the random bytes are
 * parameters.
 */
module AttendanceSession {
  import opened Wrappers
  import Decimal
  import SessionId
  import Wire

  const MsPerSecond := 1000
  const MsPerMinute := 60 * 1000
  const MinExpiryMinutes := 1
  const MaxExpiryMinutes := 60

  /** The type tag every attendance payload carries. */
  const AttendanceTag := "attendance"

  /**
   * An issued session (`AttendancePayload`). Its type tag is always
   * `"attendance"`, so it is not stored; the two ISO timestamps become
   * milliseconds.
   */
  datatype Payload = Payload(className: string, sessionId: string, issuedAt: nat, expiresAt: nat)

  /** Why a scanned text was refused, in the order the checks run. */
  datatype Reason =
    | Malformed(detail: string)   // the text does not parse; `detail` is the parser's message
    | NullValue                   // the text is `null`, whose `type` cannot be read
    | WrongType                   // the type tag is not "attendance"
    | ClassMismatch               // the class is not the one being scanned for
    | Expired                     // the expiry is unreadable or already passed

  datatype Verdict = Accepted | Rejected(reason: Reason)

  /**
   * The expiry input handler: `Math.max(1, Math.min(60, Number(v) || 1))`.
   * `None` stands for a value `Number` reads as `NaN`; `NaN` and `0` are
   * falsy and become 1.
   */
  function ClampExpiry(input: Option<int>): (minutes: int)
    ensures MinExpiryMinutes <= minutes <= MaxExpiryMinutes
    ensures input.None? || input.value < MinExpiryMinutes ==> minutes == MinExpiryMinutes
    ensures input.Some? && MinExpiryMinutes <= input.value <= MaxExpiryMinutes ==> minutes == input.value
    ensures input.Some? && input.value > MaxExpiryMinutes ==> minutes == MaxExpiryMinutes
  {
    var n := if input.None? || input.value == 0 then 1 else input.value;
    var upper := if n < MaxExpiryMinutes then n else MaxExpiryMinutes;
    if upper > MinExpiryMinutes then upper else MinExpiryMinutes
  }

  /** The session `generateQR` builds at time `now` for `minutes` minutes from the given random bytes. */
  function MakePayload(className: string, random: seq<SessionId.byte>, now: nat, minutes: nat): (p: Payload)
    requires |random| == SessionId.IdBytes
    ensures p.className == className && p.issuedAt == now
    ensures SessionId.IsSessionId(p.sessionId) && SessionId.DecodeHex(p.sessionId) == Some(random)
    ensures p.expiresAt - p.issuedAt == minutes * MsPerMinute
    ensures minutes >= MinExpiryMinutes ==> p.expiresAt > p.issuedAt
  {
    Payload(className, SessionId.GenerateSessionId(random), now, now + minutes * MsPerMinute)
  }

  /** The five fields of the serialised payload. */
  function ToFields(p: Payload): Wire.Fields
  {
    [ ("type", AttendanceTag),
      ("class", p.className),
      ("sessionId", p.sessionId),
      ("issuedAt", Decimal.FromNat(p.issuedAt)),
      ("expiresAt", Decimal.FromNat(p.expiresAt)) ]
  }

  /** `JSON.stringify(payload)`: the text the QR code shows. */
  function Encode(p: Payload): (text: string)
    ensures text != ""
  {
    Wire.Serialise(ToFields(p))
  }

  /** A timestamp field as `new Date(s).getTime()` reads it; `None` is `NaN`. */
  function ReadTime(fields: Wire.Fields, key: string): (t: Option<nat>)
    ensures Wire.Lookup(fields, key).None? ==> t.None?
    ensures t.Some? ==> Wire.Lookup(fields, key).Some? && Decimal.ParseNat(Wire.Lookup(fields, key).value).Some?
    ensures t.Some? ==> Decimal.ValueOf(Wire.Lookup(fields, key).value) == t.value
  {
    match Wire.Lookup(fields, key)
    case None => None
    case Some(s) => Decimal.ParseNat(s)
  }

  /** A time written as the decimal numeral of `n` reads back as `n`. */
  lemma ReadTimeOfNumeral(fields: Wire.Fields, key: string, n: nat)
    requires Wire.Lookup(fields, key) == Some(Decimal.FromNat(n))
    ensures ReadTime(fields, key) == Some(n)
  {
    Decimal.ParseFromNat(n);
  }

  /** `data.type === 'attendance'`; only an object can carry the tag. */
  predicate TypeOk(v: Wire.Value) { v.Object? && Wire.Lookup(v.fields, "type") == Some(AttendanceTag) }

  predicate ClassOk(f: Wire.Fields, expectedClass: string) { Wire.Lookup(f, "class") == Some(expectedClass) }

  /** Reads all five fields of a payload back; the partner of `Encode`. */
  function DecodePayload(text: string): (r: Option<Payload>)
    ensures r.Some? ==> Wire.Parse(text).Ok? && TypeOk(Wire.Parse(text).value)
  {
    match Wire.Parse(text)
    case Err(_) => None
    case Ok(v) =>
      if !TypeOk(v) then None
      else match (Wire.Lookup(v.fields, "class"), Wire.Lookup(v.fields, "sessionId"),
                  ReadTime(v.fields, "issuedAt"), ReadTime(v.fields, "expiresAt"))
        case (Some(c), Some(id), Some(i), Some(e)) => Some(Payload(c, id, i, e))
        case _ => None
  }

  /** The expiry is readable and `now` has not passed it (the boundary itself is still valid). */
  predicate NotExpired(f: Wire.Fields, now: int)
  {
    var e := ReadTime(f, "expiresAt");
    e.Some? && now <= e.value
  }

  /**
   * `handleDecode`'s checks on a scanned text at time `now`, first failure
   * wins: parse, reading the type tag (which throws on `null`), type tag,
   * class, expiry.
   */
  function Verify(text: string, expectedClass: string, now: int): (v: Verdict)
    ensures v.Rejected? && v.reason.Malformed? <==> Wire.Parse(text).Err?
    ensures Wire.Parse(text).Err? ==> v.reason.detail == Wire.Parse(text).message
    ensures v == Rejected(NullValue) <==> Wire.Parse(text) == Ok(Wire.Null)
    ensures v == Rejected(WrongType) <==>
      Wire.Parse(text).Ok? && Wire.Parse(text).value != Wire.Null && !TypeOk(Wire.Parse(text).value)
    ensures v == Rejected(ClassMismatch) <==>
      Wire.Parse(text).Ok? && TypeOk(Wire.Parse(text).value) && !ClassOk(Wire.Parse(text).value.fields, expectedClass)
    ensures v == Rejected(Expired) <==>
      Wire.Parse(text).Ok? && TypeOk(Wire.Parse(text).value) && ClassOk(Wire.Parse(text).value.fields, expectedClass)
      && !NotExpired(Wire.Parse(text).value.fields, now)
    ensures v == Accepted <==>
      Wire.Parse(text).Ok? && TypeOk(Wire.Parse(text).value) && ClassOk(Wire.Parse(text).value.fields, expectedClass)
      && NotExpired(Wire.Parse(text).value.fields, now)
  {
    match Wire.Parse(text)
    case Err(m) => Rejected(Malformed(m))
    case Ok(v) =>
      if v.Null? then Rejected(NullValue)
      else if !TypeOk(v) then Rejected(WrongType)
      else if !ClassOk(v.fields, expectedClass) then Rejected(ClassMismatch)
      else match ReadTime(v.fields, "expiresAt")
        case None => Rejected(Expired)
        case Some(e) => if now > e then Rejected(Expired) else Accepted
  }

  /** The message shown for a refusal: the thrown error's message, or the fallback when it is empty. */
  function Message(reason: Reason): (msg: string)
    ensures msg != ""
    ensures reason.Malformed? && reason.detail != "" ==> msg == reason.detail
  {
    match reason
    case Malformed(detail) => if detail != "" then detail else "Failed to read QR"
    case NullValue => "Cannot read properties of null (reading 'type')"
    case WrongType => "Invalid QR type"
    case ClassMismatch => "QR does not match this class"
    case Expired => "This QR has expired"
  }

  /** The countdown `tick`: whole seconds left, `Math.max(0, Math.floor((expiresAt - now) / 1000))`. */
  function Remaining(expiresAt: int, now: int): (r: nat)
    ensures expiresAt - now >= 0 ==> r * MsPerSecond <= expiresAt - now < (r + 1) * MsPerSecond
    ensures expiresAt - now < 0 ==> r == 0
    ensures r == 0 <==> expiresAt - now < MsPerSecond
  {
    var q := (expiresAt - now) / MsPerSecond;
    if q > 0 then q else 0
  }

  /** The display split `Math.floor(remaining / 60)` minutes and `remaining % 60` seconds. */
  function SplitCountdown(remaining: nat): (ms: (nat, nat))
    ensures 60 * ms.0 + ms.1 == remaining && ms.1 < 60
  {
    (remaining / 60, remaining % 60)
  }

  /** Each field of an encoded payload reads back as written. */
  lemma LookupPayloadFields(p: Payload)
    ensures Wire.Lookup(ToFields(p), "type") == Some(AttendanceTag)
    ensures Wire.Lookup(ToFields(p), "class") == Some(p.className)
    ensures Wire.Lookup(ToFields(p), "sessionId") == Some(p.sessionId)
    ensures ReadTime(ToFields(p), "issuedAt") == Some(p.issuedAt)
    ensures ReadTime(ToFields(p), "expiresAt") == Some(p.expiresAt)
  {
    var keys := ["type", "class", "sessionId", "issuedAt", "expiresAt"];
    var f := ToFields(p);
    assert keys[2][0] != keys[4][0];
    forall k | k in keys
      ensures Wire.Lookup(f, k) == Wire.Lookup(f[..4], k) || k == keys[4]
      ensures Wire.Lookup(f[..4], k) == Wire.Lookup(f[..3], k) || k == keys[3]
      ensures Wire.Lookup(f[..3], k) == Wire.Lookup(f[..2], k) || k == keys[2]
      ensures Wire.Lookup(f[..2], k) == Wire.Lookup(f[..1], k) || k == keys[1]
      ensures Wire.Lookup(f[..1], k) == Some(f[0].1) || k != keys[0]
    {
      assert f == f[..4] + [f[4]] && f[..4] == f[..3] + [f[3]] && f[..3] == f[..2] + [f[2]];
      assert f[..2] == f[..1] + [f[1]] && f[..1] == [] + [f[0]];
      Wire.LookupAppend(f[..4], f[4], k);
      Wire.LookupAppend(f[..3], f[3], k);
      Wire.LookupAppend(f[..2], f[2], k);
      Wire.LookupAppend(f[..1], f[1], k);
      Wire.LookupAppend([], f[0], k);
    }
    Decimal.ParseFromNat(p.issuedAt);
    Decimal.ParseFromNat(p.expiresAt);
  }

  /** Serialising and reading back a payload reproduces it exactly. */
  lemma DecodeEncode(p: Payload)
    ensures DecodePayload(Encode(p)) == Some(p)
  {
    Wire.ParseSerialise(ToFields(p));
    LookupPayloadFields(p);
  }

  /**
   * A payload scanned for its own class is accepted exactly up to and
   * including its expiry instant, and refused as expired afterwards.
   */
  lemma VerifyEncoded(p: Payload, now: int)
    ensures Verify(Encode(p), p.className, now) == if now <= p.expiresAt then Accepted else Rejected(Expired)
  {
    Wire.ParseSerialise(ToFields(p));
    LookupPayloadFields(p);
  }

  /** A payload scanned for another class is refused for the class, whatever the time. */
  lemma VerifyOtherClass(p: Payload, expectedClass: string, now: int)
    requires expectedClass != p.className
    ensures Verify(Encode(p), expectedClass, now) == Rejected(ClassMismatch)
  {
    Wire.ParseSerialise(ToFields(p));
    LookupPayloadFields(p);
  }

  /**
   * Issue then scan: a session generated for class `c` at `issuedAt` with a
   * clamped time-to-live is accepted for `c` at every `now` up to
   * `issuedAt + minutes * 60000` and refused as expired after it.
   */
  lemma IssueThenVerify(c: string, random: seq<SessionId.byte>, issuedAt: nat, input: Option<int>, now: int)
    requires |random| == SessionId.IdBytes
    ensures var minutes := ClampExpiry(input);
      Verify(Encode(MakePayload(c, random, issuedAt, minutes)), c, now)
        == if now <= issuedAt + minutes * MsPerMinute then Accepted else Rejected(Expired)
  {
    var minutes := ClampExpiry(input);
    VerifyEncoded(MakePayload(c, random, issuedAt, minutes), now);
  }

  /** While the issuer still counts down (at least one second left), a scan of its code is accepted. */
  lemma CountingDownImpliesAccepted(p: Payload, now: int)
    requires Remaining(p.expiresAt, now) > 0
    ensures Verify(Encode(p), p.className, now) == Accepted
  {
    VerifyEncoded(p, now);
  }

  /** The countdown never goes up as time passes. */
  lemma RemainingMonotone(expiresAt: int, now1: int, now2: int)
    requires now1 <= now2
    ensures Remaining(expiresAt, now2) <= Remaining(expiresAt, now1)
  {
  }

  /**
   * A sample session: "CS101" issued at `t` for 5 minutes expires 300 s
   * after `t`, is accepted at `t` + 299 s, expired at `t` + 301 s, and refused
   * for "Math201" at `t` + 100 s.
   */
  lemma Cs101Scenario(random: seq<SessionId.byte>, t: nat)
    requires |random| == SessionId.IdBytes
    ensures var p := MakePayload("CS101", random, t, ClampExpiry(Some(5)));
      p.expiresAt == t + 300 * MsPerSecond
      && Verify(Encode(p), "CS101", t + 299 * MsPerSecond) == Accepted
      && Verify(Encode(p), "CS101", t + 301 * MsPerSecond) == Rejected(Expired)
      && Verify(Encode(p), "Math201", t + 100 * MsPerSecond) == Rejected(ClassMismatch)
  {
    var minutes := ClampExpiry(Some(5));
    assert minutes == 5;
    var p := MakePayload("CS101", random, t, minutes);
    assert p.expiresAt == t + 300 * MsPerSecond;
    VerifyEncoded(p, t + 299 * MsPerSecond);
    VerifyEncoded(p, t + 301 * MsPerSecond);
    VerifyOtherClass(p, "Math201", t + 100 * MsPerSecond);
  }

  /** Text that is not an encoded object is refused as malformed, with the parser's message. */
  lemma NotAnObjectIsMalformed(expectedClass: string, now: int)
    ensures Verify("not json", expectedClass, now).reason == Malformed("Unexpected token")
  {
  }

  /**
   * Texts that parse to a number, a string, a boolean or an array have no
   * `type` field (it reads as `undefined`), so they are refused for the type.
   */
  lemma NonObjectIsWrongType(expectedClass: string, now: int)
    ensures Verify("42", expectedClass, now) == Rejected(WrongType)
    ensures Verify("-7", expectedClass, now) == Rejected(WrongType)
    ensures Verify("\"abc\"", expectedClass, now) == Rejected(WrongType)
    ensures Verify("true", expectedClass, now) == Rejected(WrongType)
    ensures Verify("[]", expectedClass, now) == Rejected(WrongType)
  {
    assert Wire.IsOtherValue("42") && Wire.IsOtherValue("-7");
    assert Wire.IsOtherValue("\"abc\"");
    assert Wire.DecodeStrings("") == Ok([]) && "[]"[1..1] == "";
  }

  /** The text `null` parses, and reading its `type` throws, which is shown as the refusal's message. */
  lemma NullIsRefused(expectedClass: string, now: int)
    ensures Verify("null", expectedClass, now) == Rejected(NullValue)
    ensures Message(NullValue) != Message(WrongType)
  {
  }
}

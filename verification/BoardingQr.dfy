/** The rotating boarding code (app/services/boarding.py): build, parse, verify, and how fresh is fresh. */
module BoardingQr {
  import opened Base
  import opened Text

  const SLICE_SECONDS := 30.0
  const SLICE_TOLERANCE := 1
  const MAX_PASSENGERS := 60

  datatype Payload = Payload(ticketId: string, passengerCount: int, timeSlice: int, nonce: string)

  /** Why a code is refused. */
  datatype InvalidQr = Malformed | CountTooLow | CountTooHigh | BadSignature | HasExpired

  datatype Parsed = Parsed(payload: Payload, signature: seq<byte>) | Unreadable(error: InvalidQr)

  datatype Verdict = Genuine(payload: Payload) | Invalid(error: InvalidQr)

  /** The signature scheme, with keys as raw bytes. */
  datatype Scheme = Scheme(
    publicKey: seq<byte> -> seq<byte>,
    sign: (seq<byte>, string) -> seq<byte>,
    verifies: (seq<byte>, string, seq<byte>) -> bool)

  /** The one law asked of a scheme: what a private key signs, its public key verifies. */
  ghost predicate Sound(sch: Scheme) {
    forall k, m :: sch.verifies(sch.publicKey(k), m, sch.sign(k, m))
  }

  function Fields(p: Payload): seq<string> {
    [p.ticketId, Decimal(p.passengerCount), Decimal(p.timeSlice), p.nonce]
  }

  function SigningBytes(p: Payload): string {
    Join(Fields(p), '.')
  }

  function CurrentSlice(unixSeconds: real): int {
    (unixSeconds / SLICE_SECONDS).Floor
  }

  /** `None` when the stored private key is not base64. */
  function BuildQr(sch: Scheme, privateKey: string, p: Payload): Option<string> {
    match Unb64(privateKey)
    case None => None
    case Some(k) => Some(Join(Fields(p) + [B64(sch.sign(k, SigningBytes(p)))], '.'))
  }

  function ParseQr(code: string): Parsed {
    var parts := Split(code, '.');
    if |parts| != 5 then Unreadable(Malformed)
    else
      match (ParseInt(parts[1]), ParseInt(parts[2]), Unb64(parts[4]))
      case (Some(count), Some(slice), Some(signature)) =>
        if count < 1 then Unreadable(CountTooLow)
        else if count > MAX_PASSENGERS then Unreadable(CountTooHigh)
        else Parsed(Payload(parts[0], count, slice, parts[3]), signature)
      case _ => Unreadable(Malformed)
  }

  function Abs(x: int): nat {
    if x < 0 then -x else x
  }

  predicate Fresh(slice: int, now: real) {
    Abs(CurrentSlice(now) - slice) <= SLICE_TOLERANCE
  }

  function VerifyQr(sch: Scheme, code: string, publicKey: string, now: real): (v: Verdict)
    ensures v.Genuine? ==> 1 <= v.payload.passengerCount <= MAX_PASSENGERS
    ensures v.Genuine? ==> '.' !in v.payload.ticketId && '.' !in v.payload.nonce
    ensures v.Genuine? ==>
      && ParseQr(code).Parsed? && ParseQr(code).payload == v.payload && Fresh(v.payload.timeSlice, now)
      && Unb64(publicKey).Some?
      && sch.verifies(Unb64(publicKey).value, SigningBytes(v.payload), ParseQr(code).signature)
  {
    match ParseQr(code)
    case Unreadable(e) => Invalid(e)
    case Parsed(p, signature) =>
      match Unb64(publicKey)
      case None => Invalid(BadSignature)
      case Some(k) =>
        if !sch.verifies(k, SigningBytes(p), signature) then Invalid(BadSignature)
        else if !Fresh(p.timeSlice, now) then Invalid(HasExpired)
        else Genuine(p)
  }

  // ----- round trips

  predicate DotFree(p: Payload) {
    '.' !in p.ticketId && '.' !in p.nonce
  }

  lemma FieldsSplit(p: Payload, tail: seq<string>)
    requires DotFree(p) && forall t :: t in tail ==> '.' !in t
    ensures Split(Join(Fields(p) + tail, '.'), '.') == Fields(p) + tail
  {
    DecimalHasNo(p.passengerCount, '.');
    DecimalHasNo(p.timeSlice, '.');
    SplitJoin(Fields(p) + tail, '.');
  }

  /** What reading makes of fields and a signature: those very ones, for a group of one to sixty. */
  function ReadAs(p: Payload, signature: seq<byte>): Parsed {
    if p.passengerCount < 1 then Unreadable(CountTooLow)
    else if p.passengerCount > 60 then Unreadable(CountTooHigh)
    else Parsed(p, signature)
  }

  /** Every code built reads back as the payload and the very signature it was built with, if the group is no empty and
      no oversized one. */
  lemma ParseAfterBuild(sch: Scheme, k: seq<byte>, p: Payload)
    requires DotFree(p)
    ensures var code := BuildQr(sch, B64(k), p);
      code.Some? && ParseQr(code.value) == ReadAs(p, sch.sign(k, SigningBytes(p)))
  {
    B64RoundTrip(k);
    var signature := sch.sign(k, SigningBytes(p));
    ReadsBack(p, signature);
  }

  lemma ReadsBack(p: Payload, signature: seq<byte>)
    requires DotFree(p)
    ensures ParseQr(Join(Fields(p) + [B64(signature)], '.')) == ReadAs(p, signature)
  {
    B64HasNoDot(signature);
    FieldsSplit(p, [B64(signature)]);
    var parts := Split(Join(Fields(p) + [B64(signature)], '.'), '.');
    assert parts[0] == p.ticketId && parts[1] == Decimal(p.passengerCount) && parts[2] == Decimal(p.timeSlice);
    assert parts[3] == p.nonce && parts[4] == B64(signature);
    ParseIntRoundTrip(p.passengerCount);
    ParseIntRoundTrip(p.timeSlice);
    B64RoundTrip(signature);
  }

  /** A built code verifies under the matching public key exactly while its slice is fresh, for a group of one to sixty;
      however well signed, no other group is taken. */
  lemma VerifyAfterBuild(sch: Scheme, k: seq<byte>, p: Payload, now: real)
    requires Sound(sch) && DotFree(p)
    ensures var code := BuildQr(sch, B64(k), p);
      code.Some? && VerifyQr(sch, code.value, B64(sch.publicKey(k)), now)
        == if p.passengerCount < 1 then Invalid(CountTooLow)
           else if p.passengerCount > 60 then Invalid(CountTooHigh)
           else if Fresh(p.timeSlice, now) then Genuine(p)
           else Invalid(HasExpired)
  {
    ParseAfterBuild(sch, k, p);
    B64RoundTrip(sch.publicKey(k));
  }

  /** Two payloads are signed over the same text only when they are equal. */
  lemma SigningBytesInjective(p: Payload, q: Payload)
    requires DotFree(p) && DotFree(q) && SigningBytes(p) == SigningBytes(q)
    ensures p == q
  {
    FieldsSplit(p, []);
    FieldsSplit(q, []);
    assert Fields(p) + [] == Fields(p) && Fields(q) + [] == Fields(q);
    ParseIntRoundTrip(p.passengerCount);
    ParseIntRoundTrip(p.timeSlice);
    ParseIntRoundTrip(q.passengerCount);
    ParseIntRoundTrip(q.timeSlice);
    assert Fields(p)[0] == Fields(q)[0] && Fields(p)[1] == Fields(q)[1];
    assert Fields(p)[2] == Fields(q)[2] && Fields(p)[3] == Fields(q)[3];
  }

  /** If only texts of `issued` payloads verify under a key, then only issued payloads are accepted under it:
      no field of a code can be edited. */
  lemma AcceptedWasIssued(sch: Scheme, code: string, publicKey: string, now: real, issued: set<Payload>)
    requires forall p :: p in issued ==> DotFree(p)
    requires Unb64(publicKey).Some?
    requires forall m, signature ::
      sch.verifies(Unb64(publicKey).value, m, signature) ==> exists p :: p in issued && m == SigningBytes(p)
    requires VerifyQr(sch, code, publicKey, now).Genuine?
    ensures VerifyQr(sch, code, publicKey, now).payload in issued
  {
    var accepted := VerifyQr(sch, code, publicKey, now).payload;
    var p :| p in issued && SigningBytes(accepted) == SigningBytes(p);
    SigningBytesInjective(accepted, p);
  }

  // ----- freshness in seconds

  function Gap(s: real, t: real): real {
    if s < t then t - s else s - t
  }

  lemma SliceBounds(t: real)
    ensures var n := CurrentSlice(t); n as real * SLICE_SECONDS <= t < (n as real + 1.0) * SLICE_SECONDS
  {
    var q := t / SLICE_SECONDS;
    assert q.Floor as real <= q < q.Floor as real + 1.0;
    assert t == q * SLICE_SECONDS;
  }

  /** A code made at `s` is accepted within 30 seconds either way and refused from 60 seconds on. */
  lemma FreshnessWindow(s: real, t: real)
    ensures Gap(s, t) <= 30.0 ==> Fresh(CurrentSlice(s), t)
    ensures Gap(s, t) >= 60.0 ==> !Fresh(CurrentSlice(s), t)
  {
    SliceBounds(s);
    SliceBounds(t);
  }

  /** Strictly between the two bounds it depends on where in its slice the code was made. */
  lemma FreshnessBoundsAreTight(gap: real)
    requires 30.0 < gap < 60.0
    ensures Fresh(CurrentSlice(0.0), gap)
    ensures var s := 60.0 - gap; !Fresh(CurrentSlice(s), s + gap)
  {
    SliceBounds(0.0);
    SliceBounds(gap);
    SliceBounds(2.0 * SLICE_SECONDS - gap);
    SliceBounds(2.0 * SLICE_SECONDS);
  }
}

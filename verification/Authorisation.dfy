/**
 Whom an agent takes an operator command to come from (`resolve_effective_operator` and the gate before it in
 `operator.rs`): a configured operator that sent it, or one whose authorisation it carries.

 `D` is what the authorised digest stands for: the digest of a command is its normal form, without the dispatch fields
 that change from hop to hop. Signatures are ideal: a `Signed` is what an operator really signed.
 */
module Authorisation {
  import opened Basics

  type Fp = nat

  const SKEW_MS := 300000

  /** An authorisation as decoded, with the sizes its byte fields had. */
  datatype Auth<+D> = Auth(
    operatorLen: nat, operator: Fp, digestLen: nat, digest: D, sigLen: nat, sig: nat, request: string, ts: nat)

  datatype Carried<+D> = Absent | Garbled | Given(auth: Auth<D>)

  /** What an operator signed: who, when, for which request, over which normal form, with which signature. */
  datatype Signed<+D> = Signed(operator: Fp, ts: nat, request: string, digest: D, sig: nat)

  datatype Reason =
    | DecodeFailed | BadOperatorLength | BadDigestLength | BadSignatureLength | RequestMismatch | NotAnOperator
    | EmptyCommand
    | DigestMismatch | OutsideSkewWindow | BadSignature

  datatype Resolved = Operator(fp: Fp) | Denied(why: Reason)

  /** The operator a command counts as coming from, with the checks in the order they are made. `body` is the
      command's normal form, absent for an empty command. */
  function Resolve<D(==)>(
      operators: set<Fp>, signed: set<Signed<D>>, request: string, carried: Carried<D>, body: Option<D>, sender: Fp,
        now: nat): Resolved
  {
    match carried
    case Absent => Operator(sender)
    case Garbled => Denied(DecodeFailed)
    case Given(a) =>
      if a.operatorLen != 32 then Denied(BadOperatorLength)
      else if a.digestLen != 32 then Denied(BadDigestLength)
      else if a.sigLen != 64 then Denied(BadSignatureLength)
      else if a.request != request then Denied(RequestMismatch)
      else if a.operator !in operators then Denied(NotAnOperator)
      else if body == None then Denied(EmptyCommand)
      else if body.value != a.digest then Denied(DigestMismatch)
      else if AbsDiff(now, a.ts) > SKEW_MS then Denied(OutsideSkewWindow)
      else if Signed(a.operator, a.ts, a.request, a.digest, a.sig) !in signed then Denied(BadSignature)
      else Operator(a.operator)
  }

  function AbsDiff(a: nat, b: nat): nat
  {
    if a >= b then a - b else b - a
  }

  /** A push passes both gates of the dispatcher: it is from an operator or carries something, and it resolves. */
  predicate Admits<D(==)>(
      operators: set<Fp>, signed: set<Signed<D>>, request: string, carried: Carried<D>, body: D, sender: Fp, now: nat)
  {
    && (sender in operators || carried != Absent)
    && Resolve(operators, signed, request, carried, Some(body), sender, now).Operator?
  }

  /** The authorisation is well formed, for this request and this body, and really signed. */
  predicate Genuine<D(==)>(signed: set<Signed<D>>, request: string, carried: Carried<D>, body: D)
  {
    && carried.Given?
    && var a := carried.auth;
       && a.operatorLen == 32 && a.digestLen == 32 && a.sigLen == 64 && a.request == request && a.digest == body
       && Signed(a.operator, a.ts, a.request, a.digest, a.sig) in signed
  }

  /** Within five minutes of the signing, on either side. */
  predicate Timely(ts: nat, now: nat)
  {
    ts <= now + SKEW_MS && now <= ts + SKEW_MS
  }

  /** The two ways in, and no third: sent bare by a configured operator, or carrying a timely genuine authorisation of
      one, whoever sends it. */
  lemma AdmitsExactlyWhen<D>(
      operators: set<Fp>, signed: set<Signed<D>>, request: string, carried: Carried<D>, body: D, sender: Fp, now: nat)
    ensures Admits(operators, signed, request, carried, body, sender, now) <==>
            (|| (carried == Absent && sender in operators)
             || (&& Genuine(signed, request, carried, body)
                 && carried.auth.operator in operators && Timely(carried.auth.ts, now)))
  {
  }

  /** A denial names what is wrong with the authorisation. */
  lemma DeniedForAReason<D>(
      operators: set<Fp>, signed: set<Signed<D>>, request: string, carried: Carried<D>, body: Option<D>, sender: Fp,
      now: nat)
    requires Resolve(operators, signed, request, carried, body, sender, now).Denied?
    ensures carried == Garbled || carried.Given?
    ensures match Resolve(operators, signed, request, carried, body, sender, now).why
      case DecodeFailed => carried == Garbled
      case BadOperatorLength => carried.Given? && carried.auth.operatorLen != 32
      case BadDigestLength => carried.Given? && carried.auth.digestLen != 32
      case BadSignatureLength => carried.Given? && carried.auth.sigLen != 64
      case RequestMismatch => carried.Given? && carried.auth.request != request
      case NotAnOperator => carried.Given? && carried.auth.operator !in operators
      case EmptyCommand => body == None
      case DigestMismatch => carried.Given? && body.Some? && body.value != carried.auth.digest
      case OutsideSkewWindow => carried.Given? && !Timely(carried.auth.ts, now)
      case BadSignature =>
        && carried.Given?
        && var a := carried.auth; Signed(a.operator, a.ts, a.request, a.digest, a.sig) !in signed
  {
  }

  /** The operators whose authorisations a flood travels under, and when the first and the last of these were signed. */
  datatype Drive = Drive(operators: set<Fp>, first: nat, last: nat)

  /** The authorisation is genuine and one of the drive's. */
  predicate Drives<D(==)>(drive: Drive, signed: set<Signed<D>>, request: string, carried: Carried<D>, body: D)
  {
    && Genuine(signed, request, carried, body)
    && carried.auth.operator in drive.operators && drive.first <= carried.auth.ts <= drive.last
  }

  /** Within the window of everything the drive signed. */
  predicate InWindow(drive: Drive, now: nat)
  {
    Timely(drive.first, now) && Timely(drive.last, now)
  }
}

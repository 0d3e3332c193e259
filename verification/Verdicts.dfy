/** The verdict, the signature that makes it non-bypassable, and the gate that checks it. */
module Verdicts {
  import opened Strings
  import opened Decimals
  import opened Json
  import opened Canonical
  import opened Domain

  datatype Severity = Hard | Soft
  datatype Decision = Approve | Reject

  datatype RuleResult = RuleResult(ruleId: string, passed: bool, severity: Severity, reasonCode: string) {
    predicate HardFailure() { !passed && severity.Hard? }
    predicate SoftFailure() { !passed && severity.Soft? }
  }

  datatype KernelVerdict = KernelVerdict(
    proposalHash: string,
    decision: Decision,
    approvedContracts: int,
    rules: seq<RuleResult>,
    rejectReasons: seq<string>,
    nonce: string,
    issuedAt: int,
    expiresAt: int,
    signature: Option<string>)

  function DecisionText(d: Decision): string { if d.Approve? then "APPROVE" else "REJECT" }

  // ----- signing ------------------------------------------------------------

  const PAYLOAD_KEYS := ["proposal_hash", "approved_contracts", "verdict", "nonce", "expires_at"]

  function PayloadValues(host: Host, hash: string, contracts: int, d: Decision, nonce: string, expiresAt: int)
    : (r: seq<Value>)
    ensures |r| == |PAYLOAD_KEYS|
  {
    [ TextValue(hash), VInt(contracts), TextValue(DecisionText(d)), TextValue(nonce),
      VIso(U(host.isoTime(expiresAt))) ]
  }

  /** `signing_payload`; "" stands for the refusal that never happens. */
  function SigningPayload(host: Host, hash: string, contracts: int, d: Decision, nonce: string,
                          expiresAt: int): string {
    match CanonicalJson(Record(PAYLOAD_KEYS, PayloadValues(host, hash, contracts, d, nonce, expiresAt)))
    case Some(t) => t
    case None => ""
  }

  /** `sign`; an empty secret refuses. */
  function Sign(host: Host, payload: string, secret: string): Option<string> {
    if secret == "" then None else Some(host.hmac(secret, payload))
  }

  /** `mint`, given its random nonce. `None` is the error an empty secret raises. */
  function Mint(host: Host, hash: string, d: Decision, contracts: int, rules: seq<RuleResult>,
                reasons: seq<string>, issuedAt: int, ttl: int, secret: string, nonce: string)
    : (r: Option<KernelVerdict>)
  {
    var expiresAt := issuedAt + ttl;
    var unsigned := KernelVerdict(hash, d, contracts, rules, reasons, nonce, issuedAt, expiresAt, None);
    if d.Reject? then Some(unsigned)
    else
      match Sign(host, SigningPayload(host, hash, contracts, d, nonce, expiresAt), secret)
      case None => None
      case Some(s) => Some(unsigned.(signature := Some(s)))
  }

  lemma PayloadHashable(host: Host, hash: string, contracts: int, d: Decision, nonce: string, expiresAt: int)
    ensures Hashable(Record(PAYLOAD_KEYS, PayloadValues(host, hash, contracts, d, nonce, expiresAt)))
  {
    RecordHashable(PAYLOAD_KEYS, PayloadValues(host, hash, contracts, d, nonce, expiresAt));
  }

  /** The signed bytes determine the proposal, the size, the decision, the nonce and the expiry. */
  lemma PayloadBinds(host: Host, h1: string, c1: int, d1: Decision, n1: string, e1: int,
                     h2: string, c2: int, d2: Decision, n2: string, e2: int)
    requires host.Sound()
    ensures SigningPayload(host, h1, c1, d1, n1, e1) == SigningPayload(host, h2, c2, d2, n2, e2)
       <==> h1 == h2 && c1 == c2 && d1 == d2 && n1 == n2 && e1 == e2
  {
    var x, y := PayloadValues(host, h1, c1, d1, n1, e1), PayloadValues(host, h2, c2, d2, n2, e2);
    if SigningPayload(host, h1, c1, d1, n1, e1) == SigningPayload(host, h2, c2, d2, n2, e2) {
      PayloadHashable(host, h1, c1, d1, n1, e1);
      PayloadHashable(host, h2, c2, d2, n2, e2);
      CanonicalJsonInjective(Record(PAYLOAD_KEYS, x), Record(PAYLOAD_KEYS, y));
      ValuesAgreeAt(PAYLOAD_KEYS, x, y);
      PayloadFieldsAgree(host, h1, c1, d1, n1, e1, h2, c2, d2, n2, e2, x, y);
    }
  }

  lemma PayloadFieldsAgree(host: Host, h1: string, c1: int, d1: Decision, n1: string, e1: int,
                           h2: string, c2: int, d2: Decision, n2: string, e2: int,
                           x: seq<Value>, y: seq<Value>)
    requires host.Sound()
    requires x == PayloadValues(host, h1, c1, d1, n1, e1) && y == PayloadValues(host, h2, c2, d2, n2, e2)
    requires AgreeAt(x, y, 0) && AgreeAt(x, y, 1) && AgreeAt(x, y, 2) && AgreeAt(x, y, 3) && AgreeAt(x, y, 4)
    ensures h1 == h2 && c1 == c2 && d1 == d2 && n1 == n2 && e1 == e2
  {
    TextAt(x, y, 0, h1, h2);
    IntAt(x, y, 1, c1, c2);
    TextAt(x, y, 2, DecisionText(d1), DecisionText(d2));
    TextAt(x, y, 3, n1, n2);
    IsoAt(x, y, 4, host.isoTime(e1), host.isoTime(e2));
  }

  // ----- the gate -----------------------------------------------------------

  datatype Refusal =
    | NoVerdict | NotApproved | Unsigned | NoContracts | Expired | WrongProposal
    | EmptySecret | BadSignature | NonceReused

  datatype Authorization = Granted(contracts: nat) | Refused(why: Refusal)

  /** The checks `authorize` makes before it touches the nonce, in its order. */
  function CheckVerdict(host: Host, v: Option<KernelVerdict>, hash: string, secret: string, now: int): Authorization {
    match v
    case None => Refused(NoVerdict)
    case Some(v) =>
      if !v.decision.Approve? then Refused(NotApproved)
      else if v.signature.None? then Refused(Unsigned)
      else if v.approvedContracts < 1 then Refused(NoContracts)
      else if now > v.expiresAt then Refused(Expired)
      else if v.proposalHash != hash then Refused(WrongProposal)
      else
        match Sign(host, SigningPayload(host, v.proposalHash, v.approvedContracts, v.decision, v.nonce, v.expiresAt),
                   secret)
        case None => Refused(EmptySecret)
        case Some(expected) =>
          if expected != v.signature.value then Refused(BadSignature) else Granted(v.approvedContracts)
  }

  /** `authorize`, with the nonces consumed so far before and after. */
  function AuthorizeWith(host: Host, v: Option<KernelVerdict>, hash: string, secret: string, now: int,
                         consumed: set<string>): (Authorization, set<string>) {
    match CheckVerdict(host, v, hash, secret, now)
    case Refused(why) => (Refused(why), consumed)
    case Granted(n) =>
      if v.value.nonce in consumed then (Refused(NonceReused), consumed)
      else (Granted(n), consumed + {v.value.nonce})
  }

  class NonceRegistry {
    var consumed: set<string>

    constructor ()
      ensures consumed == {}
    {
      consumed := {};
    }

    /** True on first use, false every time after. */
    method Consume(nonce: string) returns (first: bool)
      modifies this
      ensures first <==> nonce !in old(consumed)
      ensures consumed == if first then old(consumed) + {nonce} else old(consumed)
    {
      if nonce in consumed {
        return false;
      }
      consumed := consumed + {nonce};
      return true;
    }

    predicate Seen(nonce: string)
      reads this
    {
      nonce in consumed
    }
  }

  /** `authorize` */
  method Authorize(host: Host, v: Option<KernelVerdict>, hash: string, secret: string, now: int,
                   nonces: NonceRegistry) returns (a: Authorization)
    modifies nonces
    ensures (a, nonces.consumed) == AuthorizeWith(host, v, hash, secret, now, old(nonces.consumed))
  {
    a := CheckVerdict(host, v, hash, secret, now);
    if a.Granted? {
      var first := nonces.Consume(v.value.nonce);
      if !first {
        a := Refused(NonceReused);
      }
    }
  }

  /** A verdict no adversary could have made up: its signature is one the Kernel
      minted for some approval. Every other field may have been tampered with. */
  ghost predicate SignatureFrom(v: KernelVerdict, minted: set<KernelVerdict>) {
    v.signature.Some? ==> exists m :: m in minted && m.signature == v.signature
  }

  /** What `mint` puts into every signed verdict. */
  ghost predicate ProperlySigned(host: Host, secret: string, m: KernelVerdict) {
    m.signature.Some? ==>
      m.decision.Approve?
      && m.signature == Sign(host, SigningPayload(host, m.proposalHash, m.approvedContracts, m.decision, m.nonce,
                                                  m.expiresAt), secret)
  }

  /** The two verdicts authorise the same thing. */
  ghost predicate SameGrant(v: KernelVerdict, m: KernelVerdict) {
    v.proposalHash == m.proposalHash && v.approvedContracts == m.approvedContracts
    && v.decision == m.decision && v.nonce == m.nonce && v.expiresAt == m.expiresAt
  }

  /** The gate opens exactly for an unexpired, unaltered, unused copy of a minted
      approval of this very proposal, and grants exactly the minted size. */
  lemma GrantIsMinted(host: Host, secret: string, minted: set<KernelVerdict>, v: Option<KernelVerdict>,
                      hash: string, now: int, consumed: set<string>)
    requires host.Sound() && secret != ""
    requires forall m :: m in minted ==> ProperlySigned(host, secret, m)
    requires v.Some? ==> SignatureFrom(v.value, minted)
    ensures AuthorizeWith(host, v, hash, secret, now, consumed).0.Granted? <==>
      && v.Some? && v.value.signature.Some? && v.value.proposalHash == hash
      && v.value.approvedContracts >= 1 && now <= v.value.expiresAt && v.value.nonce !in consumed
      && exists m :: m in minted && m.signature == v.value.signature && SameGrant(v.value, m)
    ensures var (a, after) := AuthorizeWith(host, v, hash, secret, now, consumed);
      if a.Granted? then a.contracts == v.value.approvedContracts && after == consumed + {v.value.nonce}
      else after == consumed
  {
    if v.Some? && v.value.signature.Some? {
      var w := v.value;
      forall m | m in minted && m.signature == w.signature
        ensures SameGrant(w, m) <==>
          w.signature == Sign(host, SigningPayload(host, w.proposalHash, w.approvedContracts, w.decision, w.nonce,
                                                   w.expiresAt), secret)
      {
        PayloadBinds(host, w.proposalHash, w.approvedContracts, w.decision, w.nonce, w.expiresAt,
                     m.proposalHash, m.approvedContracts, m.decision, m.nonce, m.expiresAt);
      }
    }
  }

  // ----- what a refusal says ------------------------------------------------------

  /** The order in which the reasons are looked at. */
  function Rank(why: Refusal): nat {
    match why
    case NoVerdict => 0 case NotApproved => 1 case Unsigned => 2 case NoContracts => 3 case Expired => 4
    case WrongProposal => 5 case EmptySecret => 6 case BadSignature => 7 case NonceReused => 8
  }

  /** Whether a reason to refuse is present, each judged on its own. */
  predicate Stands(why: Refusal, host: Host, v: Option<KernelVerdict>, hash: string, secret: string, now: int,
                   consumed: set<string>) {
    if v.None? then why.NoVerdict?
    else
      var w := v.value;
      match why
      case NoVerdict => false
      case NotApproved => w.decision.Reject?
      case Unsigned => w.signature.None?
      case NoContracts => w.approvedContracts < 1
      case Expired => w.expiresAt < now
      case WrongProposal => w.proposalHash != hash
      case EmptySecret => secret == ""
      case BadSignature =>
        w.signature != Some(host.hmac(secret, SigningPayload(host, w.proposalHash, w.approvedContracts, w.decision,
                                                             w.nonce, w.expiresAt)))
      case NonceReused => w.nonce in consumed
  }

  ghost predicate FirstToStand(why: Refusal, host: Host, v: Option<KernelVerdict>, hash: string, secret: string,
                               now: int, consumed: set<string>) {
    && Stands(why, host, v, hash, secret, now, consumed)
    && forall other :: Rank(other) < Rank(why) ==> !Stands(other, host, v, hash, secret, now, consumed)
  }

  /** What is refused is refused for a reason that stands, and none that is looked at earlier does. */
  lemma RefusedForTheFirst(host: Host, v: Option<KernelVerdict>, hash: string, secret: string, now: int,
                           consumed: set<string>)
    ensures match AuthorizeWith(host, v, hash, secret, now, consumed).0
      case Refused(why) => FirstToStand(why, host, v, hash, secret, now, consumed)
      case Granted(_) => forall why :: !Stands(why, host, v, hash, secret, now, consumed)
  {
  }

  lemma SameRank(a: Refusal, b: Refusal)
    requires Rank(a) == Rank(b)
    ensures a == b
  {
  }

  /** A refusal names the first reason that stands, and the gate opens exactly if none does. */
  lemma RefusedExactly(host: Host, v: Option<KernelVerdict>, hash: string, secret: string, now: int,
                       consumed: set<string>, why: Refusal)
    ensures var a := AuthorizeWith(host, v, hash, secret, now, consumed).0;
      && (a == Refused(why) <==> FirstToStand(why, host, v, hash, secret, now, consumed))
      && (a.Granted? <==> forall other :: !Stands(other, host, v, hash, secret, now, consumed))
  {
    RefusedForTheFirst(host, v, hash, secret, now, consumed);
    var a := AuthorizeWith(host, v, hash, secret, now, consumed).0;
    if a.Refused? && FirstToStand(why, host, v, hash, secret, now, consumed) {
      SameRank(why, a.why);
    }
  }
}

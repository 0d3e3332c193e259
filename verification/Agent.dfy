/** The model that picks among priced candidates, as an adversary: whatever it answers,
    what comes out of the decision is a candidate it was offered, or nothing. */
module Agent {
  import opened Decimals
  import opened Domain

  const MAX_SCHEMA_ATTEMPTS := 2

  /** A decision that fits the schema; texts are kept by their lengths, and a rationale by
      whether it holds something it must not. */
  datatype ModelDecision = ModelDecision(
    write: bool,
    candidateId: Option<string>,
    hasConfidence: bool,
    contracts: Option<int>,
    riskLengths: seq<nat>,
    declinedReason: nat,
    instructs: bool)
  {
    /** `Field(ge=1, le=20)` */
    predicate FitsSchema() { contracts.None? || 1 <= contracts.value <= 20 }
  }

  datatype ModelReply = Unreachable | NotJson | Parsed(decision: ModelDecision)

  /** `validate_semantics` finds nothing wrong. */
  predicate Usable(d: ModelDecision, supplied: set<string>) {
    && !d.instructs
    && if d.write then
         && d.candidateId.Some? && d.candidateId.value != "" && d.candidateId.value in supplied
         && d.hasConfidence && d.contracts.Some?
         && 1 <= |d.riskLengths| <= 5 && (forall i :: 0 <= i < |d.riskLengths| ==> d.riskLengths[i] <= 200)
       else
         && 1 <= d.declinedReason <= 300
         && (d.candidateId.Some? && d.candidateId.value != "" ==> d.candidateId.value in supplied)
  }

  function SuppliedIds(ps: seq<Proposal>): set<string> {
    set p | p in ps :: p.candidateId
  }

  /** `{p.candidate_id: p for p in proposals}` */
  function ById(ps: seq<Proposal>, id: string): Option<Proposal> {
    if ps == [] then None
    else if ps[|ps| - 1].candidateId == id then Some(ps[|ps| - 1])
    else ById(ps[..|ps| - 1], id)
  }

  datatype Choice =
    | NoCandidates | Unavailable | SchemaViolation | Declined
    | Selected(proposal: Proposal, contracts: int)

  lemma {:induction false} ByIdFinds(ps: seq<Proposal>, id: string)
    ensures match ById(ps, id)
      case Some(p) => p in ps && p.candidateId == id
      case None => id !in SuppliedIds(ps)
  {
    if ps != [] {
      ByIdFinds(ps[..|ps| - 1], id);
      assert ps == ps[..|ps| - 1] + [ps[|ps| - 1]];
    }
  }

  /** One answer: a choice, or another attempt. */
  function Heard(ps: seq<Proposal>, reply: ModelReply): Option<Choice> {
    match reply
    case Unreachable => Some(Unavailable)
    case NotJson => None
    case Parsed(d) =>
      if !d.FitsSchema() || !Usable(d, SuppliedIds(ps)) then None
      else if !d.write then Some(Declined)
      else
        match ById(ps, d.candidateId.value)
        case Some(p) => Some(Selected(p, d.contracts.value))
        case None => None
  }

  /** `AIUnderwriter.decide`: one retry, then no trade. Only what the model says can make a
      choice, and only a candidate it was offered can be chosen. */
  method Decide(ps: seq<Proposal>, replies: nat -> ModelReply) returns (choice: Choice, calls: nat)
    ensures choice == Selection(ps, replies)
    ensures calls == (if ps == [] then 0 else if Heard(ps, replies(0)).Some? then 1 else MAX_SCHEMA_ATTEMPTS)
  {
    calls := 0;
    if ps == [] {
      return NoCandidates, 0;
    }
    while calls < MAX_SCHEMA_ATTEMPTS
      invariant calls <= MAX_SCHEMA_ATTEMPTS
      invariant forall k :: 0 <= k < calls ==> Heard(ps, replies(k)).None?
    {
      var heard := Heard(ps, replies(calls));
      calls := calls + 1;
      if heard.Some? {
        return heard.value, calls;
      }
    }
    choice := SchemaViolation;
  }

  function Selection(ps: seq<Proposal>, replies: nat -> ModelReply): Choice {
    if ps == [] then NoCandidates
    else if Heard(ps, replies(0)).Some? then Heard(ps, replies(0)).value
    else if Heard(ps, replies(1)).Some? then Heard(ps, replies(1)).value
    else SchemaViolation
  }

  /** The selection stays in the supplied set, at one to twenty contracts, for any replies. */
  lemma SelectionIsSupplied(ps: seq<Proposal>, replies: nat -> ModelReply)
    ensures match Selection(ps, replies)
      case Selected(p, n) => p in ps && 1 <= n <= 20
      case _ => true
  {
    HeardIsSupplied(ps, replies(0));
    HeardIsSupplied(ps, replies(1));
  }

  lemma HeardIsSupplied(ps: seq<Proposal>, reply: ModelReply)
    ensures match Heard(ps, reply)
      case Some(Selected(p, n)) => p in ps && 1 <= n <= 20
      case _ => true
  {
    if reply.Parsed? && reply.decision.candidateId.Some? {
      ByIdFinds(ps, reply.decision.candidateId.value);
    }
  }

  // ----- what a reply decides ---------------------------------------------------------------

  /** The decision names this candidate, which was offered, at so many contracts, with a confidence
      and one to five risks of reasonable length. */
  predicate Writes(d: ModelDecision, offered: set<string>, id: string, contracts: int) {
    && d.write && !d.instructs && d.candidateId == Some(id) && id != "" && id in offered
    && d.contracts == Some(contracts) && 1 <= contracts <= 20 && d.hasConfidence
    && d.riskLengths != [] && |d.riskLengths| <= 5 && forall i :: 0 <= i < |d.riskLengths| ==> d.riskLengths[i] <= 200
  }

  /** The decision declines, with a reason of reasonable length and no candidate but an offered one. */
  predicate Declines(d: ModelDecision, offered: set<string>) {
    && !d.write && !d.instructs && d.declinedReason != 0 && d.declinedReason <= 300
    && (d.contracts.None? || 1 <= d.contracts.value <= 20)
    && (d.candidateId.None? || d.candidateId.value == "" || d.candidateId.value in offered)
  }

  /** The reply decides nothing, and another attempt may be made. */
  predicate Wasted(reply: ModelReply, offered: set<string>) {
    match reply
    case Unreachable => false
    case NotJson => true
    case Parsed(d) =>
      !Declines(d, offered)
      && !(d.candidateId.Some? && d.contracts.Some? && Writes(d, offered, d.candidateId.value, d.contracts.value))
  }

  /** The candidate of this id is at this place; the last, should two share it. */
  predicate LastAt(ps: seq<Proposal>, p: Proposal, i: int) {
    0 <= i < |ps| && ps[i] == p && forall j :: i < j < |ps| ==> ps[j].candidateId != p.candidateId
  }

  ghost predicate LastWith(ps: seq<Proposal>, p: Proposal) {
    exists i :: LastAt(ps, p, i)
  }

  lemma {:induction false} ByIdIsLast(ps: seq<Proposal>, id: string)
    ensures ById(ps, id).Some? ==> ById(ps, id).value.candidateId == id && LastWith(ps, ById(ps, id).value)
  {
    if ps != [] {
      var n := |ps| - 1;
      if ps[n].candidateId == id {
        assert LastAt(ps, ps[n], n);
      } else if ById(ps[..n], id).Some? {
        ByIdIsLast(ps[..n], id);
        var p := ById(ps[..n], id).value;
        var i :| LastAt(ps[..n], p, i);
        assert LastAt(ps, p, i);
      }
    }
  }

  lemma OneIsLast(ps: seq<Proposal>, p: Proposal, q: Proposal)
    requires LastWith(ps, p) && LastWith(ps, q) && p.candidateId == q.candidateId
    ensures p == q
  {
    var i :| LastAt(ps, p, i);
    var j :| LastAt(ps, q, j);
  }

  lemma ByIdExactly(ps: seq<Proposal>, id: string, p: Proposal)
    ensures ById(ps, id) == Some(p) <==> p.candidateId == id && LastWith(ps, p)
  {
    ByIdFinds(ps, id);
    ByIdIsLast(ps, id);
    if p.candidateId == id && LastWith(ps, p) {
      var i :| LastAt(ps, p, i);
      assert ps[i] in ps;
      OneIsLast(ps, p, ById(ps, id).value);
    }
  }

  /** One reply, exactly: what is selected is the candidate it named, at the contracts it asked. */
  lemma ReplyDecides(ps: seq<Proposal>, reply: ModelReply)
    ensures var offered := SuppliedIds(ps);
      && (Heard(ps, reply).None? <==> Wasted(reply, offered))
      && (Heard(ps, reply) == Some(Unavailable) <==> reply.Unreachable?)
      && (Heard(ps, reply) == Some(Declined) <==> reply.Parsed? && Declines(reply.decision, offered))
      && forall p, n :: Heard(ps, reply) == Some(Selected(p, n)) <==>
           reply.Parsed? && Writes(reply.decision, offered, p.candidateId, n) && LastWith(ps, p)
  {
    if reply.Parsed? && reply.decision.candidateId.Some? {
      var id := reply.decision.candidateId.value;
      ByIdFinds(ps, id);
      forall p ensures ById(ps, id) == Some(p) <==> p.candidateId == id && LastWith(ps, p) {
        ByIdExactly(ps, id, p);
      }
    }
  }

  /** This reply writes the candidate, and none before it decided anything. */
  predicate DecidesAt(replies: nat -> ModelReply, k: nat, offered: set<string>, id: string, contracts: int) {
    && replies(k).Parsed? && Writes(replies(k).decision, offered, id, contracts)
    && forall j: nat :: j < k ==> Wasted(replies(j), offered)
  }

  /** The first reply that decides anything is the choice, if it is one of the first two. */
  lemma ChoiceIsTheFirstDecision(ps: seq<Proposal>, replies: nat -> ModelReply, p: Proposal, n: int)
    ensures var offered := SuppliedIds(ps);
      && (Selection(ps, replies) == Selected(p, n) <==>
            ps != [] && LastWith(ps, p)
            && exists k: nat :: k < MAX_SCHEMA_ATTEMPTS && DecidesAt(replies, k, offered, p.candidateId, n))
      && (Selection(ps, replies) == NoCandidates <==> ps == [])
      && (Selection(ps, replies) == SchemaViolation <==>
            ps != [] && Wasted(replies(0), offered) && Wasted(replies(1), offered))
  {
    var offered := SuppliedIds(ps);
    ReplyDecides(ps, replies(0));
    ReplyDecides(ps, replies(1));
    if Selection(ps, replies) == Selected(p, n) {
      var k: nat := if Heard(ps, replies(0)).Some? then 0 else 1;
      assert DecidesAt(replies, k, offered, p.candidateId, n);
    }
    if exists k: nat :: k < MAX_SCHEMA_ATTEMPTS && DecidesAt(replies, k, offered, p.candidateId, n) {
      var k: nat :| k < MAX_SCHEMA_ATTEMPTS && DecidesAt(replies, k, offered, p.candidateId, n);
      assert k == 1 ==> Wasted(replies(0), offered);
    }
  }
}

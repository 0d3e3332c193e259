# The Underwriter, modelled and proved

The Underwriter is an options desk built on one claim: no order reaches the broker unless a deterministic
kernel approved exactly that order at that size, and the firm's loss is bounded in advance. This project models
the code that carries that claim and proves what it promises; where the code does something else, a lemma
says exactly when. `dafny verify dfyconfig.toml` checks everything (Dafny 4.11).

The model follows the program's own form. What the program computes by expressions is a function here; what it
does step by step is a class or a method with loops, proved equal to a function of its inputs and its old state;
and the promises are lemmas about those functions. Modules, from the bottom up:

- `Strings`, `Numerals`, `Decimals`, `Division`, `Sorting`: Python's `str`, `Decimal` (text, quantisers, division
  rounded half-even to 28 digits, and when flooring such a quotient is exact) and stable `sorted`.
- `JsonText`, `Json`, `Canonical`: a JSON printer and reader after sections 4 to 7 of RFC 8259, and `canonicalize`.
- `Domain`, `Verdicts`: proposals, their hash, signed verdicts, nonces and the gate. SHA-256 and HMAC are arbitrary
  functions; `Host.Sound()` is the hypothesis that they have no collisions.
  One host meets every hypothesis made of hosts (`Hosts.HypothesesCanBeMet`).
- `KernelState`, `Rules`, `Kernel`, `Closes`, `Capacity`, `Entries`: the Solvency Kernel, its rule table, what its sizing
  comes to, and exactly which closes and entries it approves and at what size.
- `Orders`, `Broker`, `Engine`, `Patience`, `Execution`, `ExecutionEdges`: payloads; the broker as an adversary that loses requests
  and replies, refuses, fills and kills orders at will, and of which six things are assumed: one order per client id, at
  its payload's quantity; a fill between nothing and that quantity that never shrinks; an identity that never changes;
  terminal orders that stay as they are; lookups that, when answered, are truthful and current; and submits that land
  when they are made or never. The last two are hypotheses that the broker's port does not promise, and "every broker"
  below means every one that keeps all six. Then the execution protocol, its safety over whole runs, and the edges where
  its report and the broker's books part.
- `RateLimit`, `Ledger`: the token bucket and the hash chain.
- `Market`, `Formulas`, `Actuary`, `ActuaryLaws`, `ActuaryCounts`, `Spreads`, `Replay`: quotes and snapshots, pricing, the
  enumeration, what is offered read off the quotes, and replay.
- `Book`, `Solvency`, `LossHalt`, `SmallBook`, `PartialFills`, `BoundedLoss`: policies and reserves, the whole-run capital
  bounds, the loss halt, a sample entry with the runs made of it, where the bounds end, and the loss of one policy.
- `Claims`, `Management`, `Agent`, `Underwriting`, `Outcomes`, `Sizes`: exits, the management cycle, the model's choice, and
  the whole underwriting cycle, outcome by outcome, where the parts compose: `FirmStaysSolvent` and `BookAgreesWithBroker`.
- `ExitLegs`, `Exits`, `Positions`, `Returns`, `Escapes`, `Turns`: the way out of a policy: its legs through the book, the proposal
  rebuilt from its row and the Kernel's verdict on it, which policies a cycle is given, the errors that escape, and the
  turns of a cycle, each on its own reading of the clock.
- `OwnCycles`, `ExitRuns`, `ExitAttempts`, `FloorInputs`, `OneExit`, `OwnOrders`: runs of the desk's own jobs, what becomes
  of each policy in them, and what every order of theirs was approved as.

## Where the code and its documents differ

The model follows the code. These lemmas state the difference.

- `SRS.md:296` has every policy at the floor closed unconditionally. `ForceFlatIsSentExactly` says how far that goes: its
  exit is executed if and only if its entry filled in full, there is a key, no halt stands, the desk is live, and nothing
  disturbs the cycle up to its turn: no request unanswered, and no exit begun after the cycle's verdicts have expired. And executed is not filled: every exit of a policy carries one client order id
  (`ExitIdIsFixed`), so once an exit order has died unfilled, as every day order may, no later exit of that policy can
  fill (`ExitIsStuckForGood`). No capital, Greek or entry rule stands in the way (`EveryExitGetsThrough`); `evaluate`
  alone would halve a close that carried Greeks (`SoftFailureBlocksLastContract`), but the desk's exits carry none
  (`ExitsAreNotHalved`).
- `SRS.md:284` has a short fill escalated to the Claims Desk, and `backend/underwriter/execution/engine.py:351-353` says it
  goes straight there. A management cycle is given exactly the open and closing policies (`ManagedExactly`,
  `PolicyAttemptedExactly`), so never such a one, at any distance from its expiry, and its reserve is held for good
  (`ShortFillIsNeverManaged`); an operator's request to close it is accepted and never put to the Kernel
  (`ShortFillIsNeverAdjudicated`).
- `SRS.md:1093` has a policy end settled. No job of the program's settles one when its exit fills: what is held
  never falls (`HeldNeverFalls`), and a policy whose exit has filled stays open and is sent out again
  (`ExitIsSentAgain`), though never for more than the policy holds (`ExitNeverFillsPastItsPolicy`).
- `backend/underwriter/cycle/bootstrap.py:217-218` says the exit needs the same legs in the same order. It keeps one
  short and one long leg, which is enough exactly for spreads (`ExitCancelsExactly`); any other leg in its own symbol
  stays on (`DroppedLegStaysOpen`).
- `SRS.md:703` asks for no two identical open policies. The context the Kernel is given carries no strikes, so
  SK-021 sees no open policy at all, and SK-012 counts no open policy's assignment cost (`StrikesAreNotSeen`).
  So two identical policies are written one after the other (`TwinsAreWritten`). With real strikes it would refuse the
  policy's own close (`OwnPolicyBlocksClose`).
- `SRS.md:692` and `SRS.md:1521` describe a daily loss halt for the session. The figure read is the realized result of
  every policy ever settled, and the halt refuses closes too (`HaltIsOfTheWholeBook`). The two agree for the rest of a day
  if and only if the results of all other days come to nothing (`HaltsAgreeExactly`); a loss made on one day halts the
  later ones (`LossOutlivesItsDay`).
- `SRS.md:1515` says a submission in doubt is not resubmitted. It is, up to the last attempt; the broker's refusal of
  the duplicate is then reported as a rejection (`RejectedWhileLive`, and exactly when in `RejectionTruthfulExactly`).
- `SRS.md:1161` asserts DB-INV-1 at every reconcile. It fails exactly while a policy is pending or carries leg risk
  (`InvariantHoldsExactly`), and a partial fill is invisible to the Kernel: the same entry is approved again and again
  (`ShortFillsRepeat`), and nothing bounds what is held in all (`HeldPassesAnyBound`).
- `backend/underwriter/cycle/manage.py:76` says one failing policy does not stop a management cycle. Two things do. A
  broker that acknowledges one exit and then falls silent strands every position after it (`SilenceStrandsTheRest`,
  `SilenceStrandsForceFlat`). So does a broker that answers everything but takes a minute over one fill: every verdict
  of a cycle is minted at the moment its context was read and lives 45 seconds, while each execution reads the clock for
  itself and may wait 120, so the next exit is turned away as expired (`SlowFillStrandsTheRest`,
  `SlowFillStrandsForceFlat`, in figures `StrandedInFigures`). Nothing else does: `AttemptsEveryPositionExactly`.
- `backend/underwriter/domain/market.py:80-115` calls a snapshot's hash the check of its contents. The hash leaves out
  each quote's underlying, right, strike and expiry (`TermsAreNotHashed`, `StrikeSharesRow`).
- `backend/underwriter/claims/desk.py:6-14` ranks a breach above the profit target. The code closes for the
  profit when both hold (`PrecedenceExactly`).
- `backend/underwriter/cycle/underwrite.py:325-327` keeps positions the broker has never heard of off the book. What is
  kept off may be alive: CANCELLED may be reported of an order that goes on filling (`CancelledWhileFilling`, and
  exactly when in `CancelledWhileAliveExactly`), FAILED of one that is live (`FailedWhileLive`,
  `FailedLeavesOrderExactly`); and what is put on may be empty or of another size: FILLED is reported of an order filled
  with nothing (`FilledWithNothing`), and of an earlier order under the same id (`SizesAgreeExactly`).

## Model

| member | source | states |
|---|---|---|
| Decimals.ParseOfText | backend/underwriter/cycle/recorder.py:52-53 | Python's `Decimal(str(d))` gives back the same sign, digits and exponent, for every decimal |
| Decimals.QuantiseValue | backend/underwriter/domain/money.py:52-74 | a quantised amount is worth the scaled amount rounded in the named direction, at 2, 4 or 6 places |
| Decimals.RoundToExactly | backend/underwriter/domain/money.py:52-74 | each named direction, exactly: which whole number a scaled amount goes to, ties of half-up away from zero |
| Decimals.HalfEvenExactly | backend/underwriter/domain/money.py:77-81 | a quotient of 28 digits goes to the nearest, and to the even one of two as near |
| Decimals.Round28Exactly | backend/underwriter/domain/money.py:77-81 | and a factor of ten makes no difference to it, so the rounding is at the 28th significant digit |
| Division.FloorDivExact | backend/underwriter/kernel/kernel.py:76-82 | rounding a quotient to 28 digits and flooring is the true whole quotient for every numerator below 2·10^27: no contract is rounded into existence |
| Division.FloorDivOnGrid | backend/underwriter/kernel/kernel.py:76-82 | the same for amounts that are whole multiples of a common unit |
| Division.FloorDivInexact | backend/underwriter/kernel/kernel.py:76-82 | three above that bound, one contract too many is permitted |
| JsonText.ReadOfEscaped | backend/underwriter/domain/hashing.py:46-48 | reading an ASCII-escaped literal gives the text back, with side-by-side surrogates joined |
| Json.ReadUndoesPrint | backend/underwriter/domain/hashing.py:46-48 | a JSON reader undoes the printer on every document |
| Json.PrintInjective | backend/underwriter/domain/hashing.py:46-48 | two documents print alike if and only if they are equal once surrogate pairs are joined |
| Json.WellPairedPrintsApart | backend/underwriter/domain/hashing.py:46-48 | among documents whose texts hold no split pair, printed texts are equal if and only if the documents are |
| Canonical.KeyOrderIrrelevant | backend/underwriter/domain/hashing.py:22-48 | the insertion order of a dictionary's keys never reaches the text |
| Canonical.SortKeysOfCanonical | backend/underwriter/domain/hashing.py:22-48 | the printer's own key sort finds canonical values already sorted, at every depth |
| Canonical.PrintedInOrder | backend/underwriter/domain/hashing.py:46-48 | whatever is printed lists the keys of every dictionary, at every depth, in ascending code-point order |
| Canonical.HashedExactly | backend/underwriter/domain/hashing.py:22-48 | a value has a canonical text if and only if there is no float in it at any depth |
| Canonical.CanonicalJsonInjective | backend/underwriter/domain/hashing.py:22-48 | two canonical texts are equal if and only if the canonical values are, up to joined surrogates |
| Canonical.HashBinds | backend/underwriter/domain/hashing.py:51-53 | under a collision-free hash, equal digests mean equal canonical values |
| Canonical.SplitPairCollides | backend/underwriter/domain/hashing.py:46-48 | the one collision of the printer: a split surrogate pair and the character it stands for |
| Domain.ProposalHashBinds | backend/underwriter/domain/proposal.py:86-117 | two proposals share a hash if and only if they agree on every one of the eleven covered fields, every leg included |
| Verdicts.PayloadBinds | backend/underwriter/kernel/verdict.py:103-124 | the signed bytes determine proposal hash, size, decision, nonce and expiry, and are determined by them |
| Verdicts.NonceRegistry.Consume | backend/underwriter/kernel/verdict.py:189-194 | true on first use only, and the registry grows by exactly that nonce |
| Verdicts.Authorize | backend/underwriter/kernel/verdict.py:200-250 | the gate answers, and consumes a nonce, as the ordered checks say |
| Verdicts.GrantIsMinted | backend/underwriter/kernel/verdict.py:200-250 | the gate opens if and only if the verdict is an unexpired, unaltered, unused copy of a minted approval of this proposal, and grants exactly the minted size |
| Verdicts.RefusedExactly | backend/underwriter/kernel/verdict.py:213-248 | of nine reasons, each judged on its own, a refusal names the first that stands, and the gate opens if and only if none does |
| Rules.Sk004DefinedRisk | backend/underwriter/kernel/rules.py:188-229 | the search over legs passes if and only if there is a short leg, every short leg is covered and the loss is positive |
| Rules.ClientOrderIdBinds | backend/underwriter/kernel/rules.py:29-35 | two proposals share a client order id if and only if they agree on every field an approval is bound to, unless two hashes differ only after their first 24 characters |
| Kernel.RunRules | backend/underwriter/kernel/kernel.py:230-239 | every rule is run and none short-circuited; soft factor, reasons and hard failure are those of all results |
| Kernel.Adjudicate | backend/underwriter/kernel/kernel.py:166-287 | the whole evaluation, loop by loop, is `Evaluate`, of which `Entries.EntryApprovedExactly` and `Closes.CloseApprovedExactly` say for which proposals and contexts it approves, and how many contracts |
| Kernel.ApprovesExactly | backend/underwriter/kernel/kernel.py:222-287 | for any rule table: approval if and only if nothing failed hard, a contract is left and there is a secret; signature if and only if approval; size, nonce, expiry and hash as computed |
| Kernel.BrokenRuleRefuses | backend/underwriter/kernel/kernel.py:125-163 | one rule that raises or returns junk refuses the order, unsigned, with the fail-closed reason listed |
| Kernel.ReductionsReduceExactly | backend/underwriter/kernel/kernel.py:254-259 | reductions keep every size within what was permitted if and only if the combined factor is at most one |
| Kernel.ApprovedWithin | backend/underwriter/kernel/kernel.py:254-259 | with factors at most one, an approval is at least one contract, at most what was asked and what sizing permits |
| Kernel.CalibrationAboveOneOverrides | backend/underwriter/kernel/kernel.py:222-287 | with a calibration factor of two or more, an order no rule objects to is approved and signed at twice what every constraint permits, or more |
| Kernel.ApprovedMonotone | backend/underwriter/kernel/kernel.py:241-259 | asking for more never yields less |
| Kernel.DefaultSizeIsHalved | backend/underwriter/kernel/kernel.py:235-259 | under default limits k soft failures give the raw size over 2^k, rounded down once |
| Kernel.EveryReasonIsShown | backend/underwriter/kernel/kernel.py:230-287 | a verdict records the result of every rule in the table, in order, and of the size last; a refusal names every hard failure among them, each once and in order |
| Kernel.EveryRuleAnswersForItself | backend/underwriter/kernel/rules.py:717-743 | on every proposal and context each rule of the table answers under its own id, at its registered severity, with a reason if and only if it fails |
| Kernel.WithoutAKey | backend/underwriter/kernel/kernel.py:166-220 | without a signing secret every approval, and nothing else, becomes a refusal, for that reason alone |
| Capacity.PermittedExactly | backend/underwriter/kernel/kernel.py:85-122 | k contracts are permitted if and only if k fit at once under the position limit, beside what is open under the portfolio limit, the share of the underlying and the deployable capital, and, should every short leg be assigned, under the buying power |
| Capacity.NoCostNoSize | backend/underwriter/kernel/kernel.py:76-82 | nothing is permitted of a proposal without a loss or without a strike |
| Capacity.ApprovedEntryFits | backend/underwriter/kernel/kernel.py:241-259 | for any rule table and factors that only reduce, every contract of an approved entry fits in all five measures at once, though each rule tests one |
| Capacity.AffordsOnTheBook | backend/underwriter/cycle/bootstrap.py:178-211 | what fits on the desk's own book, in the book's figures: 3%, 15%, 15% and 60% of the equity, and twice the equity for assignment |
| Entries.EntryApprovedExactly | backend/underwriter/kernel/kernel.py:206-287 | an entry is approved at n contracts or more if and only if there is a secret, the proposal and the desk's state meet the conditions of the rule table, written out on their fields, and n contracts, doubled for each exposure past its limit, are no more than was asked and fit in every measure |
| Closes.TableMeaning | backend/underwriter/kernel/rules.py:717-745 | no hard failure in the table means exactly the conjunction of its capital, entry-quality and safety rules; soft failures are SK-008 and SK-009 |
| Closes.CloseApprovedExactly | backend/underwriter/kernel/kernel.py:241-287 | a close is approved if and only if the listed safety rules hold and its halved size is at least one, and at that size |
| Closes.CloseIgnoresCapital | backend/underwriter/kernel/rules.py:84-345 | the whole signed verdict on a close is blind to reserves, max losses, buying power, breaches, liquidity, leg spread, edge and days to expiry |
| Closes.SoftFailureBlocksLastContract | backend/underwriter/kernel/kernel.py:254-259 | of `evaluate` alone, for a close that carries Greeks: a single contract is refused whenever an exposure rule fails |
| Closes.OwnPolicyBlocksClose | backend/underwriter/kernel/rules.py:333-356 | an open policy recorded with the strikes and expiry of a close blocks that close |
| Orders.SimplifyRatiosLoop | backend/underwriter/execution/order.py:38-46 | the loop is the division by the greatest common divisor |
| Orders.SimplifiedIsProportional | backend/underwriter/execution/order.py:38-46 | simplified ratios multiply back to the originals by one common factor and stay positive |
| Orders.SimplifiedIsCoprime | backend/underwriter/execution/order.py:38-46 | simplified ratios have greatest common divisor one |
| Orders.SimplifyIdempotent | backend/underwriter/execution/order.py:38-46 | simplifying twice changes nothing more |
| Orders.LegsPayloadLoop | backend/underwriter/execution/order.py:91-109 | the loop builds each leg: sold to open what the proposal sells, bought to open what it buys, the opposite to close, with the intent to match, in the proposal's proportions |
| Orders.PayloadTrades | backend/underwriter/execution/order.py:80-109 | and so does every payload, for any legs of positive ratios and either action |
| Orders.OrderMovesPosition | backend/underwriter/execution/order.py:80-109 | a filled order leaves each symbol short where an opening order sold and long where it bought, and the opposite for a closing one, at the simplified ratio times the size |
| Orders.BuiltAsAuthorised | backend/underwriter/execution/order.py:112-171 | every order built carries the contracts it was given and the id of its proposal, and trades each leg the way its action says |
| Orders.BuiltExactly | backend/underwriter/execution/order.py:112-171 | an order is built if and only if it has a contract, two legs of positive ratios, a step of none to three, and credit left or a debit to pay; it is then a day order at a limit, whose text reads back as its price |
| Orders.EntryLimitIs | backend/underwriter/execution/order.py:49-64 | an entry's limit is the credit walked down, in whole cents and never above it; refused if and only if the step is out of range or the credit is gone |
| Orders.ExitLimitIs | backend/underwriter/execution/order.py:67-77 | an exit's limit is the debit walked up, in whole cents and never below it |
| Orders.EntryAndExitCancel | backend/underwriter/execution/order.py:80-109 | an entry and an exit of the same legs and size net every symbol to zero |
| ExitLegs.ExitCancelsExactly | backend/underwriter/cycle/bootstrap.py:214-248 | for legs in distinct symbols at any ratios and size: the exit rebuilt from the book nets every symbol of the entry to zero if and only if there are two legs, one sold and one bought, in either order |
| ExitLegs.SpreadCancels | backend/underwriter/cycle/bootstrap.py:214-248 | such an exit undoes its entry whatever the symbols |
| ExitLegs.DroppedLegStaysOpen | backend/underwriter/cycle/bootstrap.py:224-227 | a leg in its own symbol that is not read back stays on: that symbol nets to exactly the leg's signed contracts, which is not zero |
| ExitLegs.LostPairCancels | backend/underwriter/cycle/bootstrap.py:224-227 | with a symbol twice the exit may cancel although legs were lost |
| Orders.CheckValues | backend/underwriter/cli/preflight.py:201-237 | the problems listed are the header's and every leg's, in order |
| Orders.BuiltOrdersAreLegal | backend/underwriter/cli/preflight.py:201-237 | an order the builders produce passes that check if and only if no leg's symbol is blank |
| Orders.CheckedExactly | backend/underwriter/cli/preflight.py:201-237 | the check finds nothing wrong if and only if the payload is a limit order for the day or until cancelled, of a contract or more, in two legs or more, each with a legal side and intent and a symbol that is not blank |
| Broker.SubmitEvolves | backend/underwriter/execution/ports.py:80-89 | one submit adds at most one order, for its payload, only if none stood under that id |
| Broker.LookupEvolves | backend/underwriter/execution/ports.py:80-89 | a lookup finds the order under an id; that an absent answer means there is none is a hypothesis about the broker, which the port does not promise |
| Broker.CancelEvolves | backend/underwriter/execution/ports.py:80-89 | a cancel that is acknowledged has reached the broker, and nothing else changes but time |
| Engine.PollStepDecreases | backend/underwriter/execution/engine.py:235-262 | every poll uses up part of the time to the deadline, so the loop ends |
| Engine.ExecutionEngine.AwaitOrder | backend/underwriter/execution/engine.py:235-267 | the poll loop ends in the specified world and outcome |
| Engine.ExecutionEngine.CancelOrder | backend/underwriter/execution/engine.py:269-303 | cancel, confirm, and report what filled |
| Engine.ExecutionEngine.Resolve | backend/underwriter/execution/engine.py:305-339 | a submission in doubt is looked up by its id and followed to its end |
| Engine.ExecutionEngine.FinaliseOrder | backend/underwriter/execution/engine.py:341-403 | the terminal order is classified and positions are reconciled |
| Engine.ExecutionEngine.Transmit | backend/underwriter/execution/engine.py:177-222 | the retry loop ends in the specified world and outcome |
| Engine.ExecutionEngine.ExecuteOrder | backend/underwriter/execution/engine.py:126-175 | authorise, build, pre-flight, transmit: world, nonces and outcome as specified |
| Patience.SendsExactly | backend/underwriter/execution/engine.py:126-173 | one call speaks to the broker if and only if the verdict is granted, the order can be built and no pre-flight blocks it; a blocked one is reported REJECTED with nothing sent, its nonce spent |
| Patience.NoCancelBeforeTheTimeout | backend/underwriter/execution/engine.py:235-303 | against every broker, no cancel is asked for and nothing is reported as timed out before the whole timeout has passed |
| Patience.TimeoutIsKept | backend/underwriter/execution/engine.py:235-303 | and with a broker that answers at once, an acknowledged order is done with within one poll of its timeout |
| Patience.RetriesArePaced | backend/underwriter/execution/engine.py:177-231 | a result reports the order, the size and at most the configured attempts, and after the k-th comes no sooner than half a second, doubled for every attempt, adds up to |
| Patience.AttemptsAreReconciled | backend/underwriter/execution/engine.py:384-403 | a result that names an order, unless the order has vanished, reports the positions the broker gave as its last answer, or that it gave none |
| Patience.DivergencesExactly | backend/underwriter/execution/engine.py:384-403 | the positions reported are those the broker holds anything of |
| Execution.TransmitTells | backend/underwriter/execution/engine.py:177-339 | against any broker one transmission adds at most one order, for its payload, and its result is true of the order it names |
| Execution.ResultsMeanWhatTheySay | backend/underwriter/execution/engine.py:269-382 | whatever one transmission reports of an order it names, against any broker: FILLED and REJECTED are those states without a short fill, PARTIAL exactly a dead order filled short, TIMED_OUT a cancel that reached the broker and no fill seen, CANCELLED dead otherwise or alive with a fill after its cancel; FILLED stays filled in full, or with nothing if the result says nothing |
| Execution.AtMostOnce | backend/underwriter/execution/engine.py:126-231 | over every run: one order per client id, each sent under a granted verdict at the granted size, no nonce sent twice |
| Execution.NoOrderWithoutApproval | backend/underwriter/execution/engine.py:126-184 | over every run against every broker, with verdicts altered at will: each order on the broker's books has the legs, the client id and the size of one approval of the Kernel's, and no two share a client id |
| OwnOrders.EveryOrderWasApproved | backend/underwriter/cycle/bootstrap.py:442-481 | over every run of the desk's own jobs, each order at the broker is the entry of an offer or the exit of an open policy, trading each leg the way its action says, approved at that size by the Kernel on the context rebuilt from the book at that moment; no signature is taken on trust |
| ExecutionEdges.RejectedWhileLive | backend/underwriter/execution/engine.py:184-209 | with two attempts or more, a landed submit whose reply is lost ends as REJECTED with the order live |
| ExecutionEdges.RejectionTruthfulExactly | backend/underwriter/execution/engine.py:184-209 | for an id nobody has placed, an unnamed rejection is true of every broker if and only if the engine never resubmits |
| ExecutionEdges.FilledWithNothing | backend/underwriter/execution/engine.py:341-363 | an order in state filled with no quantity is reported FILLED, with nothing filled |
| ExecutionEdges.FailedWhileLive | backend/underwriter/execution/engine.py:184-339 | with every reply lost, FAILED is reported with the order live, at any number of retries and from any books |
| ExecutionEdges.FailedLeavesOrderExactly | backend/underwriter/execution/engine.py:184-339 | for every broker, a FAILED that names no order leaves one if and only if a submit had landed and the one resolving lookup went unanswered |
| ExecutionEdges.FailureTruthfulExactly | backend/underwriter/execution/engine.py:184-339 | for an id nobody has placed, such a FAILED is true of every broker if and only if nothing is ever submitted |
| ExecutionEdges.CancelledWhileFilling | backend/underwriter/execution/engine.py:269-303 | an order that fills between its cancel and the look at it is reported CANCELLED and lives on, for any time to wait, retries and size |
| ExecutionEdges.CancelledWhileAliveExactly | backend/underwriter/execution/engine.py:235-303 | for every broker, CANCELLED is reported of an order that is alive if and only if the lookup after the cancel found it alive with a fill and the market did not end it in the last tick of the call |
| ExecutionEdges.CancellationTruthfulExactly | backend/underwriter/execution/engine.py:235-303 | for an id nobody has placed, CANCELLED means dead for every broker if and only if nothing is ever submitted |
| RateLimit.TokenBucket.Refill | backend/underwriter/execution/ratelimit.py:41-45 | the refill, on whatever the clock reads |
| RateLimit.TokenBucket.Acquire | backend/underwriter/execution/ratelimit.py:47-62 | refuse, take, or wait and take: the whole new state and the answer |
| RateLimit.PaceExactly | backend/underwriter/execution/ratelimit.py:32-36 | a bucket is built for the calls a minute it is given, with the burst asked for or ten seconds' worth, and one at least |
| RateLimit.ConfiguredRateHolds | backend/underwriter/execution/ratelimit.py:32-62 | over every window of every run of a bucket so built, at most a burst and that many calls a minute are granted |
| RateLimit.NeverStarves | backend/underwriter/execution/ratelimit.py:47-62 | whatever fits in a full bucket is granted: at once if it is there, otherwise after just the time it takes to earn the rest |
| RateLimit.RunStaysWithin | backend/underwriter/execution/ratelimit.py:41-62 | with a monotone clock and full sleeps, tokens stay between zero and capacity over every run |
| RateLimit.BuiltBucketsStayWithin | backend/underwriter/execution/ratelimit.py:32-62 | so it is from the start for every bucket that can be built, unless its burst is negative |
| RateLimit.WindowConforms | backend/underwriter/execution/ratelimit.py:41-62 | over every window of consecutive acquires of every such run, at most capacity plus rate times time is granted |
| RateLimit.PaidForExactly | backend/underwriter/execution/ratelimit.py:55-62 | one acquire is covered by what was saved and earned if and only if it slept as long as it asked |
| RateLimit.EarlyWakeupsBreakTheLimit | backend/underwriter/execution/ratelimit.py:55-62 | sleeps that return at once grant any number of tokens in no time |
| Ledger.AuditLedger.Append | backend/underwriter/audit/ledger.py:82-129 | one row is added, linked to the last, or nothing if the record cannot be hashed |
| Ledger.VerifyChain | backend/underwriter/audit/ledger.py:142-192 | valid if and only if every link and every row holds; on failure the least failing row, and whether link or content failed |
| Ledger.BuiltLedgersVerify | backend/underwriter/audit/ledger.py:74-129 | every ledger built only by appending verifies |
| Ledger.BuiltLedgersTell | backend/underwriter/audit/ledger.py:82-129 | and holds the entries appended to it, in order, numbered from one |
| Ledger.RecordHashBinds | backend/underwriter/audit/ledger.py:42-72 | one record hash fixes every covered field and the link |
| Ledger.TipFixesHistory | backend/underwriter/audit/ledger.py:142-192 | two verifying ledgers with the same last hash are the same, row for row |
| Market.SnapshotHashBinds | backend/underwriter/domain/market.py:92-115 | two snapshots share a hash if and only if time, price dictionary and every covered field of every quote agree, in order |
| Market.TermsAreNotHashed | backend/underwriter/domain/market.py:92-115 | a quote's underlying, right, strike and expiry may all change under the same hash |
| Market.AssemblyForgetsOrder | backend/underwriter/data/snapshot.py:146-150 | the snapshot, and so its hash, is the same for every order of the same quotes |
| Market.AssembledInOrder | backend/underwriter/data/snapshot.py:146-150 | a snapshot holds the quotes it was given by underlying, then expiry, strike and symbol |
| Formulas.PositionGreeksLoop | backend/underwriter/actuary/formulas.py:133-150 | the loop sums signed exposures, or fails on the first leg without Greeks |
| Formulas.SpreadExposure | backend/underwriter/actuary/formulas.py:133-150 | on a spread the net Greeks are the bought leg's less the sold leg's, a hundred shares at a time |
| Formulas.ProfitPlusLoss | backend/underwriter/actuary/formulas.py:53-66 | profit and loss come out exact after rounding, and add up to a hundred times the width |
| Formulas.ValueIdentity | backend/underwriter/actuary/formulas.py:93-101 | expected value before rounding is 100·(credit − p·width) |
| Formulas.EdgeMeansOdds | backend/underwriter/actuary/formulas.py:93-106 | a positive edge means a loss probability below credit over width |
| Actuary.ScreenQuotes | backend/underwriter/actuary/engine.py:97-125 | the first loop: usable quotes and discards, in order |
| Actuary.PricePairs | backend/underwriter/actuary/engine.py:134-169 | the nested loops: every pair of one underlying and expiry, in bands of delta and width, offered or dropped, in order |
| Actuary.PricePutCreditSpreads | backend/underwriter/actuary/engine.py:79-173 | the whole pass is `Price`, of which `Spreads` says what is offered, at what, and what is not |
| Spreads.UsableExactly | backend/underwriter/actuary/validation.py:46-95 | a put is used if and only if it is in the universe and the window, tradable, quoted on both sides within the spread limit, with a volatility and Greeks in range |
| Spreads.PairExactly | backend/underwriter/actuary/engine.py:176-295 | a pair is dropped for the first thing against it, or offered with its legs, terms and figures as its two quotes give them |
| Spreads.EveryOfferIsASpread | backend/underwriter/actuary/engine.py:79-173 | everything offered is two usable puts of the snapshot, of one underlying and one expiry, the higher strike sold, width and delta in their bands, priced as above with nothing against it |
| Spreads.EverySpreadIsJudged | backend/underwriter/actuary/engine.py:134-169 | and every such pair is offered if and only if nothing stands against it, and otherwise recorded with what does |
| Spreads.DiscardsExactly | backend/underwriter/actuary/engine.py:97-173 | the discards are exactly those pairs and the puts of the universe that are not usable, each with its first reason |
| Spreads.BestEdgeFirst | backend/underwriter/actuary/engine.py:171-172 | offers come best edge first, and among equal edges by candidate id |
| Spreads.LiquidityExactly | backend/underwriter/actuary/formulas.py:109-130 | the score is half tightness, a quarter depth on the thinner side, a quarter open interest, each capped at one and an unknown interest a half; it lies between nothing and one |
| ActuaryLaws.CandidateIdBinds | backend/underwriter/actuary/engine.py:53-76 | two candidate ids are equal if and only if underlying, expiry, strikes and snapshot are, unless two digests differ only after their first 16 characters |
| ActuaryLaws.OrderIndependence | backend/underwriter/actuary/engine.py:94-173 | for every reordering of quotes with distinct symbols: the same proposals in the same order, the same discards as often |
| ActuaryLaws.CompleteAndConserved | backend/underwriter/actuary/engine.py:97-173 | proposals are exactly the offers of eligible pairs, discards exactly the failing pairs and unusable puts, the counts add up, and proposals end sorted by edge and id |
| ActuaryCounts.EachAsOften | backend/underwriter/actuary/engine.py:97-173 | the same as multisets: each proposal is there as often as pairs are offered at it, each discard as often as pairs and quotes are discarded with it |
| ActuaryLaws.OffersMeetTheKernel | backend/underwriter/actuary/engine.py:204-295 | every offer under default thresholds passes SK-002, 004, 011, 014, 015, 016 and 019 in every context, at odds below credit over width, with the two probabilities adding to one |
| Replay.SnapshotTable.Record | backend/underwriter/cycle/recorder.py:84-132 | a new row unless the hash is there already; no two rows share a hash |
| Replay.RebuildSnapshotLoop | backend/underwriter/cycle/replay.py:56-95 | the loop rebuilds every quote, or fails on the first unreadable one |
| Replay.RebuiltIfLegible | backend/underwriter/cycle/replay.py:56-95 | a row can be rebuilt if and only if every number in it can be read, and a quote comes back without a volatility or Greek exactly where the row holds none or a blank |
| Replay.SnapshotRoundTrip | backend/underwriter/cycle/replay.py:56-95 | every number and time comes back as it was; rights become puts, quotes tradable, sources REST, and all prices but the first are gone |
| Replay.RebuildsExactly | backend/underwriter/cycle/recorder.py:98-125 | nothing is lost if and only if the snapshot has one underlying price at most and only tradable REST puts |
| Replay.HashSurvivesExactly | backend/underwriter/cycle/replay.py:129-144 | the rebuilt hash is the recorded one if and only if there is one price at most and every quote is tradable and from REST |
| Replay.ReplayIsDeterministicExactly | backend/underwriter/cycle/replay.py:108-184 | for every proposal a pass offered: replay finds it with an empty diff if and only if the snapshot meets that condition |
| Replay.ReplayReportsExactly | backend/underwriter/cycle/replay.py:98-184 | for any candidate row that carries the hash of something offered: drift if the snapshot does not meet that condition, and otherwise exactly the columns whose recorded amount differs in value, in order; deterministic if and only if none of the nine does |
| Replay.NotReproducedExactly | backend/underwriter/cycle/replay.py:141-156 | a candidate is not reproduced if and only if nothing the rebuilt snapshot offers carries its hash |
| Replay.StrikeSharesRow | backend/underwriter/cycle/recorder.py:90-96 | a snapshot that differs in a strike shares the first one's row |
| Book.PolicyBook.WritePolicy | backend/underwriter/cycle/recorder.py:338-391 | one policy row and one held reserve of its max loss are added |
| Book.PolicyBook.Settle | backend/underwriter/cycle/recorder.py:495-530 | the policy is settled and every reserve held against it released; nothing else changes |
| Book.PolicyBook.RecordExecution | backend/underwriter/cycle/underwrite.py:313-348 | a policy for what filled in full or in part, none otherwise |
| Book.PolicyBook.CheckReserveInvariant | backend/underwriter/db/invariants.py:39-78 | held, exposed and difference are the two sums, and the invariant holds if and only if they agree |
| Book.ReserveConservation | backend/underwriter/db/invariants.py:1-27 | over every run, held reserves less exposed max loss is exactly the max loss of policies the invariant does not list |
| Book.InvariantHoldsExactly | backend/underwriter/db/invariants.py:39-78 | after any run DB-INV-1 holds if and only if no policy is pending or carries leg risk |
| Book.SettlingTwice | backend/underwriter/cycle/recorder.py:495-530 | settling again releases nothing more; no other policy or reserve is touched |
| Book.SettlementIsKept | backend/underwriter/cycle/recorder.py:495-530 | a settlement is kept as it was made, a win if and only if it made money, and every reserve of the policy is released |
| Book.PolicyNumbersUnique | backend/underwriter/cycle/recorder.py:56-67 | no two policies of any run share a number, whatever years the clock shows |
| Book.NumberReads | backend/underwriter/cycle/recorder.py:56-67 | a policy number reads as its year and, in four digits or more, which of that year's policies it is |
| Solvency.ShownSums | backend/underwriter/cycle/bootstrap.py:173-193 | the Kernel's reserve, max-loss, concentration and count figures are those of the book's open policies |
| Solvency.StrikesAreNotSeen | backend/underwriter/cycle/bootstrap.py:185-187 | no proposal with a short strike is ever a duplicate of an open policy, and assignment cost is always zero |
| Solvency.DrawdownOnTheBook | backend/underwriter/cycle/bootstrap.py:197-205 | the drawdown the Kernel halts on is measured from the peak on record, and with none there is none |
| SmallBook.TwinsAreWritten | backend/underwriter/cycle/bootstrap.py:185-187 | a run of approved entries that ends with two open policies of the same underlying, legs and expiry |
| LossHalt.HaltIsOfTheWholeBook | backend/underwriter/cycle/bootstrap.py:203 | SK-010 fails on a book exactly when the results of every policy ever settled pass the limit, and then every verdict is a refusal |
| LossHalt.HaltsAgree | backend/underwriter/db/queries.py:77-82 | on one book the code's halt and the daily one agree if and only if the results of other days lie on the same side of what today leaves to the limit as zero does |
| LossHalt.HaltsAgreeExactly | backend/underwriter/db/queries.py:77-82 | they agree whatever else is settled today if and only if the results of all other days sum to zero |
| LossHalt.LossOutlivesItsDay | backend/underwriter/cycle/bootstrap.py:203 | a run in which two policies are lost on one day: on every later day nothing has been lost and every verdict is a refusal |
| Solvency.ApprovalFits | backend/underwriter/kernel/kernel.py:85-122 | an approval leaves room for every contract in each capital measure, though each rule tests one |
| Solvency.WholeRunSolvency | backend/underwriter/kernel/kernel.py:85-122 | over every run of entries and settlements: open reserves within 60% of NAV, max loss 15%, each underlying 15%, each policy 3%, at most eight open; and all that is held within 60% while no policy is unlisted |
| PartialFills.ShortFillsRepeat | backend/underwriter/cycle/underwrite.py:339-348 | over a run of the desk's own moves, an entry that fills short is approved again at the same size however often it has, on an unchanged context, and each time its whole loss is held on top |
| PartialFills.HeldPassesAnyBound | backend/underwriter/cycle/underwrite.py:339-348 | for any bound there is such a run, on an account of ten thousand dollars, that holds more |
| BoundedLoss.OffersAreAllowed | backend/underwriter/actuary/engine.py:267-295 | every offer is an opening proposal with a positive loss in whole cents |
| BoundedLoss.PolicyLossIsBounded | backend/underwriter/actuary/formulas.py:53-66 | whatever is offered, written and settled at any debit up to its width loses at most its reserve, and makes at most the profit on its row |
| Claims.PrecedenceExactly | backend/underwriter/claims/desk.py:112-202 | a position is closed if and only if a reason applies, and for the one that ranks first |
| Claims.TargetExactly | backend/underwriter/claims/desk.py:112-202 | a close is meant to cost what the spread costs now, or its width, which only a force flat is closed at |
| Claims.PnlWithinReserve | backend/underwriter/claims/desk.py:205-212 | filled at the modelled credit or better, no debit within the width loses more than the reserve |
| Claims.PnlAtTheEnds | backend/underwriter/claims/desk.py:205-212 | at the full width exactly the reserve is lost; at nothing exactly the maximum profit is made |
| Claims.UnpriceableForceFlat | backend/underwriter/claims/desk.py:121-138 | a position without a price is bought back at its width and loses exactly its reserve |
| Claims.BreakevenExactly | backend/underwriter/actuary/formulas.py:69-71 | held to expiry, a policy makes money if and only if the underlying ends above the quantised breakeven, and nothing if and only if it ends there |
| Claims.PriceStepsExceedTheReserve | backend/underwriter/execution/order.py:49-64 | an entry walked down s cents can lose the reserve and s dollars a contract more, exactly |
| Management.RunManagementCycle | backend/underwriter/cycle/manage.py:61-131 | attempts, escalations, counts, broker and nonces after the loop are those of the specified cycle, up to the first escaped error, with the clock read anew at each execution |
| Management.ForceFlatIsNeverHeld | backend/underwriter/cycle/manage.py:88-118 | no cycle holds a position at or inside the floor; every one is reached unless an error escapes |
| Management.TurnExactly | backend/underwriter/cycle/manage.py:88-180 | one position, exactly: broker and nonces are touched only if there is reason to close it, its exit is at hand and approved, and the desk is live; otherwise it is reported with the one of these that kept it, vetoes with their reasons |
| Management.EscalatedExactly | backend/underwriter/cycle/manage.py:88-118 | a cycle escalates, each once and in order, the positions it came to that are closed for a breach, or cannot be priced above the floor |
| Management.CountsExactly | backend/underwriter/cycle/manage.py:86-126 | held and closed count the positions held and the exits filled in full |
| Returns.OfferComesBack | backend/underwriter/cycle/bootstrap.py:214-360 | whatever is offered and written, at any size, is rebuilt as an exit of exactly that spread, and managed at its own credit, strikes, expiry and contracts |
| Returns.ExitIsSentAtTheDebit | backend/underwriter/cycle/manage.py:169-170 | every exit a cycle sends is limited to the Claims Desk's debit raised to whole cents, or a cent if it costs nothing |
| Returns.RebuiltExitBuilds | backend/underwriter/cycle/bootstrap.py:231-248 | whatever row is rebuilt, its exit can be ordered if and only if neither leg is stored at a negative ratio; nought is read as one |
| Returns.LostLegIsNeverSent | backend/underwriter/cycle/bootstrap.py:219-223 | a policy without both legs on file touches neither broker nor nonces: it is escalated and held above the DTE floor; from there on its exit cannot be constructed and it is no longer escalated |
| Escapes.TransmitFaultsExactly | backend/underwriter/execution/engine.py:177-339 | for every broker an error escapes a transmission if and only if a poll, a cancel or its confirmation went unanswered |
| Turns.AttemptsEveryPositionExactly | backend/underwriter/cycle/manage.py:88-118 | with fresh nonces and buildable exits a cycle attempts every position if and only if each approved exit it comes to starts by the context's moment plus the time to live and no poll, cancel or confirmation goes unanswered; any other end is one of those two errors |
| Turns.AttemptedExactly | backend/underwriter/cycle/manage.py:88-118 | one position is attempted if and only if that is so up to and including its turn |
| Turns.SilenceStrandsTheRest | backend/underwriter/cycle/manage.py:88-118 | a broker that acknowledges the first exit and answers nothing else ends the cycle: the order stands, nothing is reported, no later position gets a turn |
| Turns.SlowFillStrandsTheRest | backend/underwriter/execution/engine.py:141-149 | a broker that answers everything and fills the first exit, but takes longer than a verdict lives, has the second turned away as expired and the cycle ended: no later position gets a turn |
| Escapes.NeverRaisesExactly | backend/underwriter/execution/engine.py:235-303 | no transmission of a new order raises, for every broker, if and only if nothing is ever submitted |
| ExitAttempts.SilenceStrandsForceFlat | backend/underwriter/cycle/manage.py:88-118 | on any book of the desk's own with no halt standing, one force flat into silence leaves the next policy at the floor without a turn |
| ExitAttempts.SlowFillStrandsForceFlat | backend/underwriter/cycle/manage.py:88-118 | and so does one filled in full by a broker that answers everything, a minute late |
| FloorInputs.StrandedInFigures | backend/underwriter/execution/engine.py:95-149 | both in figures: two approved spreads one day before expiry on ten thousand dollars, with the engine's own timeout and retries and a first exit of 46 seconds |
| Positions.OpenPositions | backend/underwriter/cycle/bootstrap.py:287-360 | the loop lists the open and closing policies, each with the exit rebuilt from its row |
| Positions.ManagedExactly | backend/underwriter/cycle/bootstrap.py:297-301 | on any book a policy is among the positions if and only if it is open or closing |
| Positions.ProposedExactly | backend/underwriter/cycle/bootstrap.py:319-323 | and its exit is at hand if and only if its legs can also be read back, and is the one rebuilt from its row |
| Positions.ShortFillIsNeverAdjudicated | backend/underwriter/controllers/operator_controller.py:32-87 | a request to close reaches the Kernel if and only if the policy is open or closing and can be rebuilt; for a short-filled one it is accepted and never does |
| Positions.RequestApprovedExactly | backend/underwriter/controllers/operator_controller.py:74-87 | a request that reaches the Kernel is approved, for every contract of the policy, if and only if there is a secret, no halt stands and the row is a spread of limited loss |
| OwnCycles.RunManagement | backend/underwriter/cycle/bootstrap.py:468-481 | the management job leaves broker, nonces and book, and reports attempts and error, as specified |
| OwnCycles.BookOnlyGrows | backend/underwriter/cycle/bootstrap.py:442-481 | over every run of the desk's own jobs every row stays as it was written |
| Exits.ExitsAreNotHalved | backend/underwriter/cycle/bootstrap.py:254-284 | neither exposure rule fails for a rebuilt exit on a context rebuilt from any book |
| Exits.ExitApprovedExactly | backend/underwriter/cycle/bootstrap.py:173-284 | a rebuilt exit is approved on any book if and only if there is a secret, the row is a spread of limited loss and a contract or more, at most eight are open and no halt stands; and then for every contract |
| ExitRuns.EveryExitGetsThrough | backend/underwriter/cycle/manage.py:134-180 | over every run of the desk's own jobs: a cycle is given exactly the policies whose entry filled in full, and each one's exit is rebuilt, approved for all its contracts and sent if and only if there is a secret, no halt stands and the desk is live |
| ExitAttempts.PolicyAttemptedExactly | backend/underwriter/cycle/manage.py:88-118 | on every such book a policy is attempted if and only if it is open or closing and nothing disturbs the cycle up to its turn |
| ExitAttempts.ForceFlatIsSentExactly | backend/underwriter/cycle/manage.py:88-180 | a policy at the floor has its force flat executed if and only if its entry filled in full, there is a secret, no halt stands, the desk is live, and nothing disturbs the cycle up to its turn |
| ExitAttempts.ShortFillIsNeverManaged | backend/underwriter/cycle/bootstrap.py:297-301 | over every later run a short-filled policy's row never changes, its reserve stays held and no cycle attempts it |
| ExitRuns.HeldNeverFalls | backend/underwriter/cycle/bootstrap.py:442-481 | over every run of the desk's own jobs every reserve stays held, and the sum held never falls |
| Exits.ExitIdIsFixed | backend/underwriter/cycle/bootstrap.py:254-284 | every exit of one policy, whenever rebuilt, has one proposal hash |
| OneExit.PlacesOnlyOnce | backend/underwriter/execution/engine.py:184-231 | a transmission can place an order if and only if none stands under its id, dead or alive |
| OneExit.ExpiresUnfilled | backend/underwriter/execution/engine.py:341-382 | an exit that expires at once leaves such a dead order, reported CANCELLED |
| OneExit.ExitIsStuckForGood | backend/underwriter/cycle/manage.py:88-180 | once a policy's exit order has died unfilled, no management cycle of any later run of the desk's own jobs fills that policy's exit |
| OneExit.ExitIsSentAgain | backend/underwriter/cycle/manage.py:88-180 | whatever its exit has come to at the broker, after any further run the policy's row is unchanged, its reserve held, and every cycle prepares the same exit again under the same client order id while no halt stands |
| OwnOrders.ExitNeverFillsPastItsPolicy | backend/underwriter/cycle/manage.py:134-180 | over every run, unless another proposal of the run falls on its client order id: at most one order stands under a policy's exit id, for exactly the policy's contracts, and no more is filled |
| Agent.Decide | backend/underwriter/agent/underwriter.py:102-158 | one call if the first reply decides, two if not, none without candidates, and the choice the replies make |
| Agent.SelectionIsSupplied | backend/underwriter/agent/underwriter.py:113-158 | whatever the model answers, only a supplied candidate is selected, at one to twenty contracts |
| Agent.ReplyDecides | backend/underwriter/agent/decision.py:111-167 | a reply selects exactly the candidate it names, at the contracts it asks, if and only if it meets every condition on a WRITE; and declines if and only if it meets those on a DECLINE |
| Agent.ChoiceIsTheFirstDecision | backend/underwriter/agent/underwriter.py:113-158 | the choice is what the first of two replies to decide anything decides |
| Underwriting.Trade | backend/underwriter/cycle/underwrite.py:253-270 | execute, then policy and order together or neither |
| Underwriting.RunUnderwritingCycle | backend/underwriter/cycle/underwrite.py:94-280 | broker, nonces, book and orders after a cycle, and its outcome, are those of the specified cycle; and a cycle that is not live changes none of them |
| Outcomes.OutcomeExactly | backend/underwriter/cycle/underwrite.py:94-280 | each outcome, exactly: dry-run if and only if the mode is active, there is a snapshot, a candidate is picked and approved, and the desk is not live; and no order, nonce, policy, reserve or order row is touched unless it is live and all of that holds |
| Outcomes.ApprovedEntryIsSentExactly | backend/underwriter/cycle/underwrite.py:243-254 | an approved entry is handed to the broker if and only if its verdict is alive, its nonce unused and no pre-flight blocks it; at the approved contracts, limited to the modelled credit |
| Outcomes.FillsAreWrittenDown | backend/underwriter/cycle/underwrite.py:313-348 | after a full or short fill there is one policy more, of the picked candidate at the approved contracts, live or at leg risk, its whole loss held, and one order row under its id; after anything else the tables are as they were |
| Outcomes.CandidateApprovedExactly | backend/underwriter/cycle/underwrite.py:199-241 | on the desk's own book a picked candidate is approved at n contracts or more if and only if no limit on the desk stands and n, halvings allowed for, are no more than the model asked and fit the book: nothing else the Kernel checks can refuse what the Actuary offers |
| Underwriting.FirmStaysSolvent | backend/underwriter/cycle/underwrite.py:94-280 | over every run of whole cycles, on any snapshots, model replies, broker and exits, the capital bounds hold of the open book |
| Underwriting.BookAgreesWithBroker | backend/underwriter/db/models.py:330-334 | over every run against every broker: one order per policy, no order twice, each filled at the broker exactly as recorded |
| Sizes.FillsAsApproved | backend/underwriter/execution/engine.py:126-231 | with no order of another size under the proposal's id, a FILLED with anything filled is filled at exactly the approved contracts |
| Sizes.SizesAgreeExactly | backend/underwriter/cycle/underwrite.py:313-348 | the policy row is as large as the fill its order row reports, on every broker, if and only if no order of another size stands under the id that is or still can be filled in full |
| Sizes.AdoptsOldOrder | backend/underwriter/execution/engine.py:184-339 | when every submit is lost, an order from before is reported FILLED at its own size |
| Sizes.TradesAtAnotherSize | backend/underwriter/cycle/underwrite.py:313-348 | and then a policy of the newly approved contracts is written beside it |

## Left out

- Orders.CheckedExactly: a quantity is a string of digits, as the builders write it; `int` reads signs and blanks too.
- Capacity.PermittedExactly: the amounts are multiples of a ten-thousandth, below 2·10^23 dollars, where Python's division is exact; on the desk's own book they are (`BookIsMeasurable`), for equities in whole cents.
- Decimal context: only quotients are rounded to 28 digits; sums and products are exact, and so is a quantised value of more than 28 digits, which Python refuses.
- Non-finite decimals: NaN and infinity do not occur, so their guards in quote validation never fire.
- Moments and dates: seconds and day numbers, all in UTC; their ISO texts come from the host, with distinct texts for distinct moments, and replay needs a reader that undoes them.
- Json reader: accepts what the printer can print (no blanks between tokens, no fractions or exponents).
- Rule texts: `observed`, `limit` and message strings, `explain`, and the verdict's own id.
- Kernel nonces: drawn at random in the program, parameters here; their freshness is not assumed.
- Rate limiting inside the engine: the wait of each `acquire` is part of the delay the broker's adversary chooses; the engine needs a positive poll interval.
- Broker positions: `list_positions` returns what the adversary likes; the reports made of them are kept, not judged.
- A rebuilt proposal's money: given as decimals worth the row's amounts, the loss divided by the contracts; the clock and the priced figures no rule reads for a close are parameters or zero, and a policy's id is its place in the table.
- Database columns: stored decimals and times come back as they went in; sessions appear only as the rollback of a policy together with its order.
- Audit records, risk events, candidates and decisions written beside the book: the ledger is modelled on its own.
- Settlement: no job of the program settles a policy (`HeldNeverFalls`); in the other runs it is an event that may come at any time.
- OwnOrders.ExitNeverFillsPastItsPolicy: a client order id is the first 24 digits of a hash, so that no other proposal of the run shares it is a hypothesis and cannot be had of all proposals.
- Broker.LookupEvolves: that an answered lookup is truthful and current, and that a submit lands when it is made or never, are hypotheses the port does not promise; under them the branch for an order that disappears mid-poll (`backend/underwriter/execution/engine.py:250-259`) is modelled and never taken.
- Clocks: the wall clock runs at the pace of the monotone one, in whole seconds; the reconcile job appears only through the equity and the mode the next job reads.
- Solvency.WholeRunSolvency: `nav` is the highest equity an entry was judged at; a fall in equity is not undone by the Kernel, and equities are whole cents below 10^22 dollars.
- Underwriting.FirmStaysSolvent: snapshots quote each symbol once, as an exchange's chain does.
- Replay.ReplayIsDeterministicExactly: symbols are distinct, and the candidate is replayed from the row stored for its own snapshot.
- Model replies: kept as schema-valid decisions with the lengths of their texts; prompts and the patterns a rationale must not match are left out.
- The reconcile cycle's partition of positions, volatility context, market-data adapters, scheduler, routes, controllers and the dashboard: only reads, sums and displays.
- Order and bracket pre-flight through the broker's command line: an arbitrary yes or no on the payload.

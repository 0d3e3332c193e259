/** From the offer to the settlement: what one policy can lose, and why it fits the book. */
module BoundedLoss {
  import opened Decimals
  import opened Domain
  import opened Market
  import opened Formulas
  import opened Actuary
  import opened ActuaryLaws
  import opened Book
  import opened Claims
  import opened Solvency

  lemma CentsAreOnGrid(x: real)
    requires Hundredths(x)
    ensures TenThousandths(x)
  {
    WholeIs(10000.0 * x, 100 * (100.0 * x).Floor);
  }

  /** Every offer of the Actuary is one the whole-run bounds speak of: an opening proposal
      whose loss is positive and in whole cents. */
  lemma OffersAreAllowed(host: Host, s: Snapshot, universe: Option<set<string>>, p: Proposal)
    requires DistinctSymbols(s.quotes) && p in Price(host, s, DEFAULT_THRESHOLDS, universe).proposals
    ensures p.action.Open? && p.maxLoss.V() > 0.0 && TenThousandths(p.maxLoss.V())
  {
    OffersMeetTheKernel(host, s, universe, p);
    CentsAreOnGrid(p.maxLoss.V());
  }

  lemma OfferIsPriced(host: Host, s: Snapshot, universe: Option<set<string>>, p: Proposal, width: Decimal)
    requires DistinctSymbols(s.quotes) && p in Price(host, s, DEFAULT_THRESHOLDS, universe).proposals
    requires SpreadWidth(p.shortStrike.V(), p.longStrike.V()) == Some(width)
    ensures PricedAt(width.V(), p.netCredit.V(), p.maxProfit, p.maxLoss)
  {
    OffersMeetTheKernel(host, s, universe, p);
  }

  lemma AmountsAreWritten(profit: Decimal, loss: Decimal, contracts: nat, width: real, credit: real, reserve: real,
                          most: real)
    requires PricedAt(width, credit, profit, loss)
    requires reserve == loss.V() * contracts as real && most == profit.V() * contracts as real
    ensures WrittenAt(width, credit, contracts, reserve, most)
  {
  }

  /** The reserve and the profit on the row are the ones the bounds are stated in. */
  lemma RowIsWritten(p: Proposal, ps: seq<Policy>, contracts: nat, year: nat, width: real, credit: real)
    requires PricedAt(width, credit, p.maxProfit, p.maxLoss)
    ensures var row := PolicyRow(ps, p, contracts, Live, year);
      WrittenAt(width, credit, contracts, row.capitalReserve, row.maxProfit)
  {
    var row := PolicyRow(ps, p, contracts, Live, year);
    AmountsAreWritten(p.maxProfit, p.maxLoss, contracts, width, credit, row.capitalReserve, row.maxProfit);
  }

  /** End to end: whatever the Actuary offers, written in any number of contracts and settled
      at any debit between nothing and its width, loses at most the reserve the book holds
      for it, if filled at its credit or better, and makes at most the profit on its row, if
      filled at its credit. */
  lemma PolicyLossIsBounded(host: Host, s: Snapshot, universe: Option<set<string>>, p: Proposal, width: Decimal,
                            ps: seq<Policy>, contracts: nat, year: nat, fill: real, debit: real)
    requires DistinctSymbols(s.quotes) && p in Price(host, s, DEFAULT_THRESHOLDS, universe).proposals
    requires SpreadWidth(p.shortStrike.V(), p.longStrike.V()) == Some(width)
    requires fill >= p.netCredit.V() && 0.0 <= debit <= width.V()
    ensures var row := PolicyRow(ps, p, contracts, Live, year);
      && 0.0 - row.capitalReserve <= RealizedPnl(fill, debit, contracts)
      && (fill == p.netCredit.V() ==> RealizedPnl(fill, debit, contracts) <= row.maxProfit)
  {
    OfferIsPriced(host, s, universe, p, width);
    RowIsWritten(p, ps, contracts, year, width.V(), p.netCredit.V());
    RowLossIsBounded(PolicyRow(ps, p, contracts, Live, year), width.V(), p.netCredit.V(), contracts, fill, debit);
  }

  lemma RowLossIsBounded(row: Policy, width: real, credit: real, contracts: nat, fill: real, debit: real)
    requires WrittenAt(width, credit, contracts, row.capitalReserve, row.maxProfit)
    requires fill >= credit && 0.0 <= debit <= width
    ensures 0.0 - row.capitalReserve <= RealizedPnl(fill, debit, contracts)
    ensures fill == credit ==> RealizedPnl(fill, debit, contracts) <= row.maxProfit
  {
    PnlWithinReserve(width, credit, contracts, row.capitalReserve, row.maxProfit, fill, debit);
  }
}

/** The shop tab: each catalog good has an exchange button that buys the good
    only when the balance covers its price. */
module Shop {
  import opened Config
  import opened Tables
  import opened Store
  import opened Progress

  datatype PurchaseOutcome = Bought | InsufficientBalance

  /** The exchange button for `item`: with enough balance, one purchase row
      costing the price; otherwise nothing is written. */
  method Redeem(db: Database, item: Good, u: UserId, now: int) returns (outcome: PurchaseOutcome)
    requires db.Valid()
    modifies db`expenseLog
    ensures db.Valid()
    ensures outcome == if old(Balance(db.taskLog, db.expenseLog, u)) >= item.price then Bought else InsufficientBalance
    ensures outcome == Bought ==>
      db.expenseLog == old(db.expenseLog) + [Row(|old(db.expenseLog)| + 1, u, Expense(now, item.name, item.price))]
    ensures outcome == Bought ==>
      Balance(db.taskLog, db.expenseLog, u) == old(Balance(db.taskLog, db.expenseLog, u)) - item.price >= 0
    ensures outcome == InsufficientBalance ==> db.expenseLog == old(db.expenseLog)
  {
    var bal := Balance(db.taskLog, db.expenseLog, u);
    if bal >= item.price {
      ghost var before := db.expenseLog;
      db.BuyItem(item.name, item.price, u, now);
      GatedPurchase(db.taskLog, before, db.expenseLog[|db.expenseLog| - 1]);
      outcome := Bought;
    } else {
      outcome := InsufficientBalance;
    }
  }
}

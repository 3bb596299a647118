/** The ledger record: `Transaction::withdrawal` and `Transactions::new`.

    The amount has the abstract type `A` (Rust's `f64`) and the date the
    abstract type `D` (Rust's `DateTime<Local>`); both are copied through
    unchanged and nothing here looks inside them. */
module Ledger {
  import opened Wrappers

  const WithdrawalType: string := "withdrawal"

  /** One transaction as it is sent to the ledger. */
  datatype Transaction<A, D> = Transaction(
    transactionType: string,
    date: D,
    amount: A,
    description: string,
    categoryName: string,
    sourceId: int,
    destinationName: string,
    tags: seq<string>,
    notes: Option<string>)

  /** The request body: a list of transactions. */
  datatype Transactions<A, D> = Transactions(transactions: seq<Transaction<A, D>>)

  /** `Transaction::withdrawal`. The source takes `tags` by value and pushes
      the person onto it; nobody else holds that vector, so the push is the
      value `tags + [person]`. */
  function Withdrawal<A, D>(
    category: string,
    amount: A,
    date: D,
    sourceId: int,
    destinationName: string,
    person: string,
    notes: Option<string>,
    tags: seq<string>): (t: Transaction<A, D>)
    ensures t.transactionType == WithdrawalType
    ensures t.description == category + " by " + person
    ensures |t.tags| == |tags| + 1 && t.tags[..|tags|] == tags && t.tags[|tags|] == person
    ensures multiset(t.tags) == multiset(tags) + multiset{person}
    ensures t.categoryName == category && t.amount == amount && t.date == date
    ensures t.sourceId == sourceId && t.destinationName == destinationName && t.notes == notes
  {
    var tags := tags + [person];
    Transaction(WithdrawalType, date, amount, category + " by " + person, category,
                sourceId, destinationName, tags, notes)
  }

  /** `Transactions::new`: a body holding exactly the given transaction. */
  function NewTransactions<A, D>(t: Transaction<A, D>): (r: Transactions<A, D>)
    ensures |r.transactions| == 1 && r.transactions[0] == t
  {
    Transactions([t])
  }

  /** The sender is always counted once more among the tags, even when the
      request already carried it: there is no deduplication. */
  lemma SenderAppendedWithoutDeduplication<A, D>(
    category: string, amount: A, date: D, sourceId: int, destinationName: string,
    person: string, notes: Option<string>, tags: seq<string>)
    requires person in tags
    ensures var t := Withdrawal(category, amount, date, sourceId, destinationName, person, notes, tags);
      multiset(t.tags)[person] >= 2
  {
    var t := Withdrawal(category, amount, date, sourceId, destinationName, person, notes, tags);
    assert multiset(tags)[person] >= 1;
  }
}

/** The transactions of core/transaction.go and the announcements of moved accounts, as
    values, with the fields that the pools and the execution of blocks look at. */
module Transactions {

  datatype Transaction = Transaction(
    sender: string,
    recipient: string,
    id: int,
    value: nat,
    nonce: nat,
    clientTimestamp: int,
    requestTime: int,
    secondRequestTime: int,
    txmig1Time: int,
    isRelay: bool,
    relayLock: bool,
    redirectTag: string,
    senLock: bool,
    recLock: bool,
    success: bool,
    lockTime: int,
    lockTime2: int,
    unlockTime: int,
    unlockTime2: int,
    senSupposeOnChain: int,
    recSupposeOnChain: int)
  {
    /** The logical time: the one given by the client, or else the arrival. */
    function OrderTimestamp(): int {
      if clientTimestamp > 0 then clientTimestamp else requestTime
    }

    /** A transfer that another shard has already taken from its sender. */
    predicate Relayed() {
      isRelay || relayLock
    }
  }

  /** The account has moved to the shard. */
  datatype Ann = Ann(address: string, toShard: int)

  /** The transaction without the marks and times of locking and unlocking. */
  function Bare(tx: Transaction): Transaction {
    tx.(senLock := false, recLock := false, success := false, lockTime := 0, lockTime2 := 0, unlockTime := 0,
        unlockTime2 := 0, senSupposeOnChain := 0, recSupposeOnChain := 0)
  }

  function AllBare(txs: seq<Transaction>): seq<Transaction> {
    seq(|txs|, i requires 0 <= i < |txs| => Bare(txs[i]))
  }

  lemma OneMoreBare(txs: seq<Transaction>, tx: Transaction)
    ensures multiset(AllBare(txs + [tx])) == multiset(AllBare(txs)) + multiset{Bare(tx)}
  {
    assert AllBare(txs + [tx]) == AllBare(txs) + [Bare(tx)];
  }
}

/** The processor itself: it holds the configured mint-contract address and
    scans a transaction's logs, crediting native balances in the world
    updater in place. Each method is proved against the functions of MintSpec. */
module NativeMint {
  import opened EvmTypes
  import opened MintSpec

  /** The in-progress world state, reduced to native balances: accounts are
      got or created by address and their balance is incremented with an
      overflow check. */
  class WorldUpdater {
    var balances: Balances

    constructor (initial: Balances)
      ensures balances == initial
    {
      balances := initial;
    }

    /** Creates the account with balance zero if it does not exist yet. */
    method GetOrCreate(address: Address)
      modifies this
      ensures address in balances
      ensures balances == if address in old(balances) then old(balances) else old(balances)[address := 0]
    {
      if address !in balances {
        balances := balances[address := 0];
      }
    }

    /** Adds `amount` to the balance of an existing account; `ok` is false,
        and nothing changes, when the sum would exceed 2^256 - 1. */
    method IncrementBalance(address: Address, amount: Wei) returns (ok: bool)
      requires address in balances
      modifies this
      ensures ok <==> old(balances[address]) + amount <= MaxWei
      ensures balances == if ok then old(balances)[address := old(balances[address]) + amount] else old(balances)
    {
      ok := balances[address] + amount <= MaxWei;
      if ok {
        balances := balances[address := balances[address] + amount];
      }
    }
  }

  class NativeMintEventProcessor {
    const mintContractAddress: Address

    constructor (mintContractAddress: Address)
      ensures this.mintContractAddress == mintContractAddress
    {
      this.mintContractAddress := mintContractAddress;
    }

    /** Scans the logs of one transaction in order. An absent or empty list
        changes nothing; otherwise the balances become the fold of the
        per-log step over the list. */
    method ProcessLogs(logs: Option<seq<Log>>, world: WorldUpdater)
      modifies world
      ensures logs == None || logs == Some([]) ==> world.balances == old(world.balances)
      ensures logs.Some? ==> world.balances == ApplyLogs(mintContractAddress, old(world.balances), logs.value)
    {
      if logs.None? || logs.value == [] {
        return;
      }
      var list := logs.value;
      for i := 0 to |list|
        invariant world.balances == ApplyLogs(mintContractAddress, old(world.balances), list[..i])
      {
        var log := list[i];
        assert list[..i + 1][..i] == list[..i];
        if log.logger != mintContractAddress {
          continue;
        }
        if |log.topics| == 0 || log.topics[0] != MintRequestedEventSignature {
          continue;
        }
        var _ := ProcessMintRequest(log, world);
      }
      assert list[..|list|] == list;
    }

    /** Shape check, decode, value checks and mint of one MintRequested log;
        the outcome records which warning or error the Java processor logs. */
    method ProcessMintRequest(log: Log, world: WorldUpdater) returns (outcome: Outcome)
      modifies world
      ensures outcome == MintOutcome(old(world.balances), log)
      ensures world.balances == Effect(old(world.balances), outcome)
    {
      if |log.topics| != MintEventTopicsCount {
        return Rejected(WrongTopicCount(MintEventTopicsCount, |log.topics|));
      }
      var recipient := TopicAddress(log.topics[1]);
      var data := log.data;
      if |data| != MintEventDataSize {
        return Rejected(WrongDataSize(MintEventDataSize, |data|));
      }
      var amount := WordValue(data);
      if amount == 0 {
        return Rejected(ZeroAmount);
      }
      if recipient == ZeroAddress {
        return Rejected(ZeroRecipient);
      }
      var ok := ExecuteMint(recipient, amount, world);
      outcome := if ok then Applied(MintRequest(recipient, amount)) else Failed(MintRequest(recipient, amount));
    }

    /** Gets or creates the recipient's account and increments its balance;
        `ok` is false when the increment would overflow, and then nothing
        changes (an overflowing account always existed already). */
    method ExecuteMint(recipient: Address, amount: Wei, world: WorldUpdater) returns (ok: bool)
      modifies world
      ensures ok <==> BalanceOf(old(world.balances), recipient) + amount <= MaxWei
      ensures ok ==> world.balances == Credit(old(world.balances), MintRequest(recipient, amount))
      ensures !ok ==> world.balances == old(world.balances)
    {
      world.GetOrCreate(recipient);
      ok := world.IncrementBalance(recipient, amount);
    }
  }
}

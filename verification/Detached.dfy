/** A run that leaves postponed blocks unconnected: the commit for a first heavier block fails,
    so it stays unattached; when its child arrives the node switches to it, but cannot read
    the child (src/main.cpp:2240-2272). */
module Detached {
  import opened Collections
  import opened Transactions
  import opened IndexEffects
  import opened ConnectSpec
  import opened BlockIndex
  import opened Branches
  import opened Chain

  function CoinBaseOf(h: Hash): Tx {
    Tx(h, 0, [OutPoint(0, NULL_N)], [TxOut(1, false)], 60)
  }

  /** Block n lies in block file n and has one transaction, with hash n. */
  function BlockOf(n: nat): Block {
    Block(n, 0, [CoinBaseOf(n)])
  }

  const FILES := Files((pos: DiskTxPos) => Some(CoinBaseOf(pos.nFile)), map[])

  function Says(readable: bool, commit: bool): Verdict {
    Verdict(true, true, (h: Hash, n: nat) => true, readable, commit)
  }

  /** Block 1 does not get committed the first time. */
  const FIRST := Arrival(1, 0, BlockOf(1), 1, true, true, (h: Hash) => Says(true, false))

  /** When block 2 arrives everything works but reading it back. */
  const SECOND := Arrival(2, 1, BlockOf(2), 1, true, true, (h: Hash) => Says(h != 2, true))

  lemma FirstFails(c: ChainState, l: Ledger, t: Turn, l': Ledger)
    requires c.files == FILES && c.pindexGenesisBlock == l.tip
    requires l.index == map[0 := l.tip] && l.tip.Path() == [l.tip] && l.tip.nChainTrust == 1 && l.tip.nHeight == 0
    requires t.a == FIRST && c.Offered(l, t, l')
    ensures l'.tip == l.tip && 1 in l'.index
    ensures l'.index == map[0 := l.tip, 1 := l'.index[1]] && c.ChildOf(l'.index[1], l.tip, FIRST)
  {
    CoinbaseAccepted(map[], FILES, BlockOf(1), 0, Says(true, true));
    assert !c.Repeats(l.index, t.a);
    var q := l'.index[1];
    assert q.Path() == [l.tip, q];
  }

  /** Block 1 can be read, connects and gets committed when block 2 arrives. */
  lemma FirstCanFollow(c: ChainState, g: CBlockIndex, p: CBlockIndex)
    requires c.files == FILES && g.Path() == [g] && g.nHeight == 0 && c.ChildOf(p, g, FIRST)
    ensures c.Reorganizable(g, p, g, SECOND.verdicts)
  {
    assert p.Path() == [g, p];
    assert p.Path()[..1] == [g];
    assert SECOND.verdicts(1) == Says(true, true);
    CoinbaseAccepted(map[], FILES, BlockOf(1), c.stakeSubsidy(1), SECOND.verdicts(1));
    hide ConnectBlockSpec;
    assert c.Connects(p.Path(), 1, SECOND.verdicts);
  }

  lemma SecondDetaches(c: ChainState, l: Ledger, t: Turn, l': Ledger)
    requires c.files == FILES && l.tip.Path() == [l.tip] && l.tip.nChainTrust == 1 && l.tip.nHeight == 0
    requires 1 in l.index && l.index == map[0 := l.tip, 1 := l.index[1]] && c.ChildOf(l.index[1], l.tip, FIRST)
    requires t.a == SECOND && c.Offered(l, t, l')
    ensures !c.CatchesUp(l, t, l') && l'.tip.hash == 2
  {
    var g, p, q := l.tip, l.index[1], l'.index[2];
    FirstCanFollow(c, g, p);
    CoinbaseAccepted(map[], FILES, BlockOf(2), 0, Says(true, true));
    hide CheckBlockShape, ConnectBlockSpec, ReplayIndex, ChainState.Reorganizable, ChainState.Extends;
    assert p.Path() == [g, p];
    assert Disjoint(p.block, SECOND.block);
    assert c.NewTransactions(p, SECOND.block);
    assert q.Path() == [g, p, q];
    assert t.first == p;
    assert t.pfork == g;
    assert l'.tip == q;
    assert SECOND.verdicts(2) == Says(false, true);
    assert q.Path()[2] == q;
    assert !c.PostponedFollow(p, q, SECOND.verdicts);
  }

  /** From genesis, two offered blocks leave the index on block 1 under a tip at block 2. */
  method TipLeftDetached(stakeSubsidy: nat -> int) returns (c: ChainState)
    ensures fresh(c) && c.Idle() && c.TipIs(c.pindexBest) && c.pindexBest.hash == 2
    ensures !c.Valid() && c.txdb.disk != ReplayIndex(c.pindexBest.Path())
  {
    c := new ChainState(FILES, stakeSubsidy, 0, BlockOf(0), 1);
    ghost var states, turns;
    var intact;
    var arrivals := [FIRST, SECOND];
    intact, states, turns := c.Run(arrivals);
    if |turns| > 0 {
      FirstFails(c, states[0], turns[0], states[1]);
    }
    if |turns| > 1 {
      SecondDetaches(c, states[1], turns[1], states[2]);
    }
  }
}

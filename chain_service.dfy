/** `ChainServiceImpl`: the active chains (companies), each mapped to its response body. */
module ChainService {
  import opened Seqs
  import opened Records

  /** `toDTO`: copies the id, the name and the active flag. */
  function ChainToDto(c: Chain): (d: ChainDto)
    ensures d.chainId == c.chainId && d.chainName == c.chainName && d.isActive == c.isActive
  {
    ChainDto(c.chainId, c.chainName, c.isActive)
  }

  predicate IsActiveChain(c: Chain) {
    c.isActive
  }

  /** `findByIsActiveTrue` of the chain repository. */
  function ActiveChains(chains: seq<Chain>): (r: seq<Chain>)
    ensures forall c :: c in r <==> c in chains && c.isActive
  {
    Filter(chains, IsActiveChain)
  }

  /**
   * `getAllActiveChains`: one body per active chain, in the repository's order, each copying
   * its chain's fields, so every body returned is marked active.
   */
  function GetAllActiveChains(chains: seq<Chain>): (r: seq<ChainDto>)
    ensures |r| == |ActiveChains(chains)|
    ensures forall k :: 0 <= k < |r| ==> r[k] == ChainToDto(ActiveChains(chains)[k])
    ensures forall d :: d in r ==> d.isActive
    ensures forall c :: c in chains && c.isActive ==> ChainToDto(c) in r
    ensures forall d :: d in r ==> exists c :: c in chains && c.isActive && d == ChainToDto(c)
  {
    var active := ActiveChains(chains);
    var r := seq(|active|, k requires 0 <= k < |active| => ChainToDto(active[k]));
    assert forall c :: c in active ==> ChainToDto(c) in r by {
      forall c | c in active ensures ChainToDto(c) in r {
        var k :| 0 <= k < |active| && active[k] == c;
        assert r[k] == ChainToDto(c);
      }
    }
    r
  }
}

/**
 * `BrandServiceImpl` over an in-memory brand table. The reads are functions of the table;
 * create, update and soft delete are methods of `BrandStore` that change the table the way
 * the transactional service methods do: on an exception nothing is stored.
 */
module BrandService {
  import opened Wrappers
  import opened Text
  import opened Seqs
  import opened Records
  import opened BrandEntity
  import opened BrandRepository
  import opened BrandRequestValidation

  /** The exceptions the service raises (the last one comes from the unique constraint on save). */
  datatype ServiceError =
    | ChainNotFound(chainId: int)
    | BrandNotFound(brandId: int)
    | DuplicateBrand(brandName: string, chainName: string)
    | LinkedToZone(brandName: string)
    | DataIntegrityViolation

  datatype Result<T> = Ok(value: T) | Err(error: ServiceError)

  /** `chainRepository.findById`: any chain with that key, active or not. */
  function FindChain(chains: seq<Chain>, id: int): (r: Option<Chain>)
    ensures r.Some? ==> r.value in chains && r.value.chainId == id
    ensures r.None? ==> forall c :: c in chains ==> c.chainId != id
  {
    if chains == [] then None
    else if chains[0].chainId == id then Some(chains[0])
    else FindChain(chains[1..], id)
  }

  /** Every row's `chain_id` names an existing chain (the `fk_brand_chain` foreign key). */
  predicate ChainsExist(rows: seq<Brand>, chains: seq<Chain>) {
    forall i :: 0 <= i < |rows| ==> FindChain(chains, rows[i].chainId).Some?
  }

  /** `toDTO`: the row's fields, with the chain's id and name read through the row's chain. */
  function ToDto(b: Brand, chains: seq<Chain>): (d: BrandDto)
    requires FindChain(chains, b.chainId).Some?
    ensures d.brandId == b.brandId && d.brandName == b.brandName && d.isActive == b.isActive
    ensures d.chainId == b.chainId && d.chainName == FindChain(chains, b.chainId).value.chainName
    ensures d.createdAt == b.createdAt && d.updatedAt == b.updatedAt
  {
    BrandDto(b.brandId, b.brandName, b.chainId, FindChain(chains, b.chainId).value.chainName,
             b.isActive, b.createdAt, b.updatedAt)
  }

  /** `.stream().map(this::toDTO).collect(...)`. */
  function ToDtos(rows: seq<Brand>, chains: seq<Chain>): (r: seq<BrandDto>)
    requires ChainsExist(rows, chains)
    ensures |r| == |rows|
    ensures forall k :: 0 <= k < |rows| ==> r[k] == ToDto(rows[k], chains)
  {
    seq(|rows|, k requires 0 <= k < |rows| => ToDto(rows[k], chains))
  }

  /** Rows drawn from a table whose chains exist have existing chains too. */
  lemma SubsetKeepsChains(sub: seq<Brand>, rows: seq<Brand>, chains: seq<Chain>)
    requires ChainsExist(rows, chains)
    requires forall b :: b in sub ==> b in rows
    ensures ChainsExist(sub, chains)
  {
    forall k | 0 <= k < |sub| ensures FindChain(chains, sub[k].chainId).Some? {
      assert sub[k] in rows;
    }
  }

  /** The setters `updateBrand` applies: trimmed name, new chain, and `isActive` only if the request has one. */
  function Edited(b: Brand, brandName: string, chainId: nat, isActive: Option<bool>): (r: Brand)
    ensures r.brandId == b.brandId && r.zones == b.zones
    ensures r.createdAt == b.createdAt && r.updatedAt == b.updatedAt
    ensures r.brandName == Trim(brandName) && r.chainId == chainId
    ensures r.isActive == if isActive.Some? then isActive.value else b.isActive
  {
    b.(brandName := Trim(brandName), chainId := chainId, isActive := isActive.GetOr(b.isActive))
  }

  /** The row a soft delete leaves: inactive, with `onUpdate`'s new `updatedAt`, everything else kept. */
  function SoftDeleted(b: Brand, now: Timestamp): (r: Brand)
    requires b.isActive
    ensures r == SaveChanges(b, b.(isActive := false), now)
    ensures !r.isActive && r.updatedAt == now
  {
    b.(isActive := false, updatedAt := now)
  }

  /**
   * After a soft delete of row `i` the row is still stored, with its key and name, but no
   * longer found by id; every other row is as it was.
   */
  lemma {:induction false} SoftDeleteKeepsRow(rows: seq<Brand>, i: nat, now: Timestamp)
    requires IdsAscending(rows) && i < |rows| && rows[i].isActive
    ensures var after := rows[i := SoftDeleted(rows[i], now)];
      && IdsAscending(after)
      && |after| == |rows|
      && after[i].brandId == rows[i].brandId && after[i].brandName == rows[i].brandName
      && (forall j :: 0 <= j < |rows| && j != i ==> after[j] == rows[j])
      && FindByBrandIdAndIsActiveTrue(after, rows[i].brandId).None?
  {
    var after := rows[i := SoftDeleted(rows[i], now)];
    assert IdsAscending(after);
    forall j | 0 <= j < |after| && after[j].brandId == rows[i].brandId ensures !after[j].isActive {
      assert j == i;
    }
  }

  /** The active listing is the listing of the rows before `i`, row `i` when it is active, and the listing of the rows after `i`. */
  lemma ListingAroundRow(rows: seq<Brand>, i: nat)
    requires i < |rows|
    ensures FindByIsActiveTrue(rows)
            == FindByIsActiveTrue(rows[..i]) + (if rows[i].isActive then [rows[i]] else []) + FindByIsActiveTrue(rows[i + 1..])
  {
    var pre, post := rows[..i], rows[i + 1..];
    assert rows == pre + [rows[i]] + post;
    FilterSplice(pre, rows[i], post, IsActiveRow);
  }

  /** The active listing after a soft delete of row `i` is the one before without that row. */
  lemma {:induction false} SoftDeleteDropsFromListing(rows: seq<Brand>, i: nat, now: Timestamp)
    requires i < |rows| && rows[i].isActive
    ensures FindByIsActiveTrue(rows)
            == FindByIsActiveTrue(rows[..i]) + [rows[i]] + FindByIsActiveTrue(rows[i + 1..])
    ensures FindByIsActiveTrue(rows[i := SoftDeleted(rows[i], now)])
            == FindByIsActiveTrue(rows[..i]) + FindByIsActiveTrue(rows[i + 1..])
  {
    var after := rows[i := SoftDeleted(rows[i], now)];
    ListingAroundRow(rows, i);
    ListingAroundRow(after, i);
    assert after[..i] == rows[..i] && after[i + 1..] == rows[i + 1..];
  }

  /** A newly stored active brand is listed last by `findByIsActiveTrue`, after the ones listed before. */
  lemma {:induction false} CreatedBrandListedLast(rows: seq<Brand>, b: Brand)
    requires b.isActive
    ensures FindByIsActiveTrue(rows + [b]) == FindByIsActiveTrue(rows) + [b]
  {
    FilterAppend(rows, [b], IsActiveRow);
  }

  /** The names the service stores: a trimmed request name, which validation keeps non-empty. */
  predicate NameStored(b: Brand) {
    b.brandName != [] && IsTrimmed(b.brandName)
  }

  /**
   * Primary key below the next generated key, foreign key, column length, the
   * (brand_name, chain_id) constraint, and the trimmed names the service writes.
   */
  predicate TableValid(rows: seq<Brand>, chains: seq<Chain>, nextId: nat) {
    && IdsAscending(rows)
    && (forall i :: 0 <= i < |rows| ==> rows[i].brandId < nextId)
    && ChainsExist(rows, chains)
    && (forall i :: 0 <= i < |rows| ==> RowFits(rows[i]) && NameStored(rows[i]))
    && UniqueNameChain(rows)
  }

  /** Appending a row with the next key, an existing chain, a fitting name and no clash keeps the table valid. */
  lemma AppendKeepsTableValid(rows: seq<Brand>, chains: seq<Chain>, nextId: nat, b: Brand)
    requires TableValid(rows, chains, nextId)
    requires b.brandId == nextId && FindChain(chains, b.chainId).Some? && RowFits(b) && NameStored(b)
    requires !ClashesWith(rows, b.brandName, b.chainId, -1)
    ensures TableValid(rows + [b], chains, nextId + 1)
  {
    AppendKeepsUnique(rows, b);
  }

  /** Replacing row `i` by a row with the same key, an existing chain, a fitting name and no clash keeps the table valid. */
  lemma ReplaceKeepsTableValid(rows: seq<Brand>, chains: seq<Chain>, nextId: nat, i: nat, b: Brand)
    requires TableValid(rows, chains, nextId) && i < |rows|
    requires b.brandId == rows[i].brandId && FindChain(chains, b.chainId).Some? && RowFits(b) && NameStored(b)
    requires !ClashesWith(rows, b.brandName, b.chainId, i)
    ensures TableValid(rows[i := b], chains, nextId)
  {
    ReplaceKeepsUnique(rows, i, b);
  }

  /** An edit with an accepted name saves a row that fits the column and stores the trimmed name under the same key. */
  lemma SavedEditFits(before: Brand, name: string, chainId: nat, isActive: Option<bool>, now: Timestamp)
    requires 1 <= |Trim(name)| <= MaxNameLength
    ensures var saved := SaveChanges(before, Edited(before, name, chainId, isActive), now);
      && saved.brandId == before.brandId && saved.brandName == Trim(name) && saved.chainId == chainId
      && RowFits(saved) && NameStored(saved)
  {
  }

  /** The bodies of the active rows are exactly the bodies of the table's active brands. */
  lemma ActiveListing(rows: seq<Brand>, chains: seq<Chain>)
    requires ChainsExist(rows, chains)
    ensures ChainsExist(FindByIsActiveTrue(rows), chains)
    ensures var r := ToDtos(FindByIsActiveTrue(rows), chains);
      && (forall i :: 0 <= i < |rows| && rows[i].isActive ==> ToDto(rows[i], chains) in r)
      && (forall d :: d in r ==> exists i :: 0 <= i < |rows| && rows[i].isActive && d == ToDto(rows[i], chains))
  {
    var active := FindByIsActiveTrue(rows);
    SubsetKeepsChains(active, rows, chains);
    var r := ToDtos(active, chains);
    forall i | 0 <= i < |rows| && rows[i].isActive ensures ToDto(rows[i], chains) in r {
      assert rows[i] in active;
      var k :| 0 <= k < |active| && active[k] == rows[i];
      assert r[k] == ToDto(rows[i], chains);
    }
    forall d | d in r ensures exists i :: 0 <= i < |rows| && rows[i].isActive && d == ToDto(rows[i], chains) {
      var k :| 0 <= k < |r| && r[k] == d;
      assert active[k] in rows;
      var i :| 0 <= i < |rows| && rows[i] == active[k];
      assert rows[i].isActive && d == ToDto(rows[i], chains);
    }
  }

  /** The bodies of a chain's active rows are active, of that chain, include every such row and come only from such rows. */
  lemma ChainListing(rows: seq<Brand>, chains: seq<Chain>, chainId: int)
    requires ChainsExist(rows, chains)
    ensures ChainsExist(FindByChainIdAndIsActiveTrue(rows, chainId), chains)
    ensures var r := ToDtos(FindByChainIdAndIsActiveTrue(rows, chainId), chains);
      && (forall d :: d in r ==> d.isActive && d.chainId == chainId)
      && (forall i :: 0 <= i < |rows| && rows[i].isActive && rows[i].chainId == chainId ==> ToDto(rows[i], chains) in r)
      && (forall d :: d in r ==> exists i :: 0 <= i < |rows| && rows[i].isActive && rows[i].chainId == chainId
                                               && d == ToDto(rows[i], chains))
  {
    var hits := FindByChainIdAndIsActiveTrue(rows, chainId);
    SubsetKeepsChains(hits, rows, chains);
    var r := ToDtos(hits, chains);
    forall i | 0 <= i < |rows| && rows[i].isActive && rows[i].chainId == chainId
      ensures ToDto(rows[i], chains) in r
    {
      assert rows[i] in hits;
      var k :| 0 <= k < |hits| && hits[k] == rows[i];
      assert r[k] == ToDto(rows[i], chains);
    }
    forall d | d in r
      ensures exists i :: 0 <= i < |rows| && rows[i].isActive && rows[i].chainId == chainId && d == ToDto(rows[i], chains)
    {
      var k :| 0 <= k < |r| && r[k] == d;
      assert hits[k] in rows;
      var i :| 0 <= i < |rows| && rows[i] == hits[k];
      assert rows[i].isActive && rows[i].chainId == chainId && d == ToDto(rows[i], chains);
    }
    forall d | d in r ensures d.isActive && d.chainId == chainId {
      var k :| 0 <= k < |r| && r[k] == d;
      assert hits[k] in hits;
    }
  }

  /** The brand table with the chain table it refers to and the identity generator. */
  class BrandStore {
    var rows: seq<Brand>
    const chains: seq<Chain>
    var nextId: nat

    /** Primary key, foreign key, column length and the (brand_name, chain_id) constraint. */
    ghost predicate Valid()
      reads this`rows, this`nextId
    {
      TableValid(rows, chains, nextId)
    }

    /** An empty brand table over the given chains; generated keys start at 1. */
    constructor (chains: seq<Chain>)
      ensures Valid()
      ensures rows == [] && this.chains == chains && nextId == 1
    {
      rows := [];
      this.chains := chains;
      nextId := 1;
    }

    /** `getAllActiveBrands`: the body of every active brand, in table order, and nothing else. */
    function GetAllActiveBrands(): (r: seq<BrandDto>)
      reads this
      requires Valid()
      ensures |r| == |FindByIsActiveTrue(rows)|
      ensures forall d :: d in r ==> d.isActive
      ensures forall i :: 0 <= i < |rows| && rows[i].isActive ==> ToDto(rows[i], chains) in r
      ensures forall d :: d in r ==> exists i :: 0 <= i < |rows| && rows[i].isActive && d == ToDto(rows[i], chains)
    {
      ActiveListing(rows, chains);
      ToDtos(FindByIsActiveTrue(rows), chains)
    }

    /**
     * `getBrandsByChain`: not-found for an unknown chain (active or not, any existing chain is
     * accepted); otherwise the bodies of the active brands of that chain, in table order.
     */
    function GetBrandsByChain(chainId: int): (r: Result<seq<BrandDto>>)
      reads this
      requires Valid()
      ensures FindChain(chains, chainId).None? <==> r.Err?
      ensures r.Err? ==> r.error == ChainNotFound(chainId)
      ensures r.Ok? ==> |r.value| == |FindByChainIdAndIsActiveTrue(rows, chainId)|
      ensures r.Ok? ==> forall d :: d in r.value ==> d.isActive && d.chainId == chainId
      ensures r.Ok? ==> forall i :: 0 <= i < |rows| && rows[i].isActive && rows[i].chainId == chainId
                          ==> ToDto(rows[i], chains) in r.value
      ensures r.Ok? ==> forall d :: d in r.value ==>
                          exists i :: 0 <= i < |rows| && rows[i].isActive && rows[i].chainId == chainId && d == ToDto(rows[i], chains)
    {
      if FindChain(chains, chainId).None? then Err(ChainNotFound(chainId))
      else
        ChainListing(rows, chains, chainId);
        Ok(ToDtos(FindByChainIdAndIsActiveTrue(rows, chainId), chains))
    }

    /** `getBrandById`: the body of the brand with that key, or not-found when it is missing or inactive. */
    function GetBrandById(brandId: int): (r: Result<BrandDto>)
      reads this
      requires Valid()
      ensures r.Ok? <==> exists i :: 0 <= i < |rows| && rows[i].brandId == brandId && rows[i].isActive
      ensures r.Err? ==> r.error == BrandNotFound(brandId)
      ensures r.Ok? ==> exists i :: 0 <= i < |rows| && rows[i].brandId == brandId && rows[i].isActive
                                   && r.value == ToDto(rows[i], chains)
      ensures r.Ok? ==> r.value.brandId == brandId && r.value.isActive
      ensures r.Ok? ==> IsTrimmed(r.value.brandName) && 1 <= |r.value.brandName| <= MaxNameLength
    {
      match FindByBrandIdAndIsActiveTrue(rows, brandId)
      case None => Err(BrandNotFound(brandId))
      case Some(b) =>
        var i :| 0 <= i < |rows| && rows[i] == b;
        Ok(ToDto(b, chains))
    }

    /** `GET /brands`: with no chain id every active brand, otherwise the chain's active brands. */
    function ListBrands(chainId: Option<int>): (r: Result<seq<BrandDto>>)
      reads this
      requires Valid()
      ensures chainId.None? ==> r == Ok(GetAllActiveBrands())
      ensures chainId.Some? ==> r == GetBrandsByChain(chainId.value)
    {
      if chainId.Some? then GetBrandsByChain(chainId.value) else Ok(GetAllActiveBrands())
    }

    /**
     * `brandRepository.save` of a new row with the next generated key: the flush fails (a
     * `DataIntegrityViolationException`) when a row already has the same name and chain;
     * otherwise the row is appended. Either way the identity key is used up: a failed insert
     * does not hand its key out again.
     */
    method Insert(b: Brand) returns (saved: bool)
      requires Valid() && b.brandId == nextId && FindChain(chains, b.chainId).Some? && RowFits(b) && NameStored(b)
      modifies this`rows, this`nextId
      ensures Valid()
      ensures saved <==> !ClashesWith(old(rows), b.brandName, b.chainId, -1)
      ensures rows == if saved then old(rows) + [b] else old(rows)
      ensures nextId == old(nextId) + 1
    {
      saved := !ClashesWith(rows, b.brandName, b.chainId, -1);
      if saved {
        AppendKeepsTableValid(rows, chains, nextId, b);
        rows := rows + [b];
      }
      nextId := nextId + 1;
    }

    /**
     * `brandRepository.save` of the row at index `i`, keeping its key: the flush fails when
     * another row has the same name and chain; otherwise that row is replaced.
     */
    method Replace(i: nat, b: Brand) returns (saved: bool)
      requires Valid() && i < |rows| && b.brandId == rows[i].brandId
      requires FindChain(chains, b.chainId).Some? && RowFits(b) && NameStored(b)
      modifies this`rows
      ensures Valid()
      ensures saved <==> !ClashesWith(old(rows), b.brandName, b.chainId, i)
      ensures rows == if saved then old(rows)[i := b] else old(rows)
    {
      saved := !ClashesWith(rows, b.brandName, b.chainId, i);
      if saved {
        ReplaceKeepsTableValid(rows, chains, nextId, i, b);
        rows := rows[i := b];
      }
    }

    /**
     * `createBrand`: the chain must exist; then the untrimmed request name must not match an
     * active brand of the chain ignoring case; then the trimmed name is stored as a new active
     * brand with a fresh key and both timestamps set, unless the unique constraint rejects it
     * (which still uses the key up).
     */
    method CreateBrand(request: BrandRequestBody, now: Timestamp) returns (r: Result<BrandDto>)
      requires Valid() && Accepted(request)
      modifies this`rows, this`nextId
      ensures Valid()
      ensures FindChain(chains, request.chainId.value).None? ==> r == Err(ChainNotFound(request.chainId.value))
      ensures FindChain(chains, request.chainId.value).Some?
              && ExistsByBrandNameAndChainIgnoreCase(old(rows), request.brandName.value, request.chainId.value, None)
              ==> r == Err(DuplicateBrand(request.brandName.value, FindChain(chains, request.chainId.value).value.chainName))
      ensures FindChain(chains, request.chainId.value).Some?
              && !ExistsByBrandNameAndChainIgnoreCase(old(rows), request.brandName.value, request.chainId.value, None)
              && ClashesWith(old(rows), Trim(request.brandName.value), request.chainId.value, -1)
              ==> r == Err(DataIntegrityViolation)
      ensures r.Ok? <==> (
              && FindChain(chains, request.chainId.value).Some?
              && !ExistsByBrandNameAndChainIgnoreCase(old(rows), request.brandName.value, request.chainId.value, None)
              && !ClashesWith(old(rows), Trim(request.brandName.value), request.chainId.value, -1))
      ensures r.Err? ==> rows == old(rows)
      ensures nextId == if r.Ok? || r == Err(DataIntegrityViolation) then old(nextId) + 1 else old(nextId)
      ensures r.Ok? ==>
              var stored := OnCreate(Build(Trim(request.brandName.value), request.chainId.value, Some(true)), old(nextId), now);
              && rows == old(rows) + [stored] && nextId == old(nextId) + 1
              && r.value == ToDto(stored, chains)
    {
      var name, chainId := request.brandName.value, request.chainId.value;
      var chain := FindChain(chains, chainId);
      if chain.None? {
        return Err(ChainNotFound(chainId));
      }
      if ExistsByBrandNameAndChainIgnoreCase(rows, name, chainId, None) {
        return Err(DuplicateBrand(name, chain.value.chainName));
      }
      var b := OnCreate(Build(Trim(name), chain.value.chainId, Some(true)), nextId, now);
      assert b.brandName == Trim(name) && b.chainId == chainId;
      assert RowFits(b) && NameStored(b);
      var saved := Insert(b);
      if !saved {
        return Err(DataIntegrityViolation);
      }
      r := Ok(ToDto(b, chains));
    }

    /**
     * The lookups `updateBrand` makes before it saves: the brand must be active, the chain must
     * exist, and no other active brand of that chain may already have the request's name
     * ignoring case. On success, the position of the brand's row and the chain.
     */
    function UpdateTarget(brandId: int, name: string, chainId: int): (r: Result<(nat, Chain)>)
      reads this`rows, this`nextId
      requires Valid()
      ensures FindByBrandIdAndIsActiveTrue(rows, brandId).None? ==> r == Err(BrandNotFound(brandId))
      ensures FindByBrandIdAndIsActiveTrue(rows, brandId).Some? && FindChain(chains, chainId).None?
              ==> r == Err(ChainNotFound(chainId))
      ensures FindByBrandIdAndIsActiveTrue(rows, brandId).Some? && FindChain(chains, chainId).Some?
              && ExistsByBrandNameAndChainIgnoreCase(rows, name, chainId, Some(brandId))
              ==> r == Err(DuplicateBrand(name, FindChain(chains, chainId).value.chainName))
      ensures r.Ok? <==>
              && FindByBrandIdAndIsActiveTrue(rows, brandId).Some? && FindChain(chains, chainId).Some?
              && !ExistsByBrandNameAndChainIgnoreCase(rows, name, chainId, Some(brandId))
      ensures r.Ok? ==> var (i, chain) := r.value;
              && i < |rows| && rows[i].brandId == brandId && rows[i].isActive
              && FindChain(chains, chainId) == Some(chain) && chain.chainId == chainId
    {
      match FindByBrandIdAndIsActiveTrue(rows, brandId)
      case None => Err(BrandNotFound(brandId))
      case Some(_) =>
        match FindChain(chains, chainId)
        case None => Err(ChainNotFound(chainId))
        case Some(chain) =>
          if ExistsByBrandNameAndChainIgnoreCase(rows, name, chainId, Some(brandId)) then
            Err(DuplicateBrand(name, chain.chainName))
          else
            Ok((IndexOfId(rows, brandId).value, chain))
    }

    /**
     * `updateBrand`: after the lookups of `UpdateTarget`, the row gets the trimmed name and the
     * chain, and a new `isActive` only when the request carries one; key, zones and
     * `createdAt` are kept. The response is built from the entity `save` hands back, before
     * the flush runs `onUpdate`, so it carries the old `updatedAt` while the stored row gets the
     * new one. The flush fails, leaving the table as it was, when another row has the same name
     * and chain.
     */
    method UpdateBrand(brandId: int, request: BrandRequestBody, now: Timestamp) returns (r: Result<BrandDto>)
      requires Valid() && Accepted(request)
      modifies this`rows
      ensures Valid() && nextId == old(nextId)
      ensures var target := old(UpdateTarget(brandId, request.brandName.value, request.chainId.value));
        && (target.Err? ==> r == Err(target.error) && rows == old(rows))
        && (target.Ok? ==>
              var (i, chain) := target.value;
              var edited := Edited(old(rows)[i], request.brandName.value, chain.chainId, request.isActive);
              var saved := SaveChanges(old(rows)[i], edited, now);
              && saved.brandName == Trim(request.brandName.value)
              && (ClashesWith(old(rows), saved.brandName, saved.chainId, i) ==> r == Err(DataIntegrityViolation) && rows == old(rows))
              && (!ClashesWith(old(rows), saved.brandName, saved.chainId, i) ==> r == Ok(ToDto(edited, chains)) && rows == old(rows)[i := saved]))
    {
      var target := UpdateTarget(brandId, request.brandName.value, request.chainId.value);
      if target.Err? {
        return Err(target.error);
      }
      var (i, chain) := target.value;
      r := SaveEdit(i, request.brandName.value, chain.chainId, request.isActive, now);
    }

    /** The setters and `save` of `updateBrand` on row `i`, once its lookups have passed. */
    method SaveEdit(i: nat, name: string, chainId: nat, isActive: Option<bool>, now: Timestamp) returns (r: Result<BrandDto>)
      requires Valid() && i < |rows| && 1 <= |Trim(name)| <= MaxNameLength && FindChain(chains, chainId).Some?
      modifies this`rows
      ensures Valid()
      ensures var edited := Edited(old(rows)[i], name, chainId, isActive);
        var saved := SaveChanges(old(rows)[i], edited, now);
        && saved.brandName == Trim(name)
        && (ClashesWith(old(rows), saved.brandName, saved.chainId, i) ==> r == Err(DataIntegrityViolation) && rows == old(rows))
        && (!ClashesWith(old(rows), saved.brandName, saved.chainId, i) ==> r == Ok(ToDto(edited, chains)) && rows == old(rows)[i := saved])
    {
      var edited := Edited(rows[i], name, chainId, isActive);
      var b := SaveChanges(rows[i], edited, now);
      SavedEditFits(rows[i], name, chainId, isActive, now);
      var saved := Replace(i, b);
      if !saved {
        return Err(DataIntegrityViolation);
      }
      r := Ok(ToDto(edited, chains));
    }

    /**
     * `deleteBrand`: not-found for a missing or inactive brand; refused while any linked zone
     * is active; otherwise the row stays in the table with `isActive` false (and `onUpdate`'s
     * new `updatedAt`), and no other row changes.
     */
    method DeleteBrand(brandId: int, now: Timestamp) returns (r: Option<ServiceError>)
      requires Valid()
      modifies this`rows
      ensures Valid() && nextId == old(nextId)
      ensures var found := FindByBrandIdAndIsActiveTrue(old(rows), brandId);
        && (found.None? ==> r == Some(BrandNotFound(brandId)))
        && (found.Some? && true in found.value.zones ==> r == Some(LinkedToZone(found.value.brandName)))
        && (r.Some? ==> rows == old(rows))
        && (r.None? <==> found.Some? && true !in found.value.zones)
        && (r.None? ==> var i := IndexOfId(old(rows), brandId).value;
                        rows == old(rows)[i := SoftDeleted(old(rows)[i], now)])
    {
      var found := FindByBrandIdAndIsActiveTrue(rows, brandId);
      if found.None? {
        return Some(BrandNotFound(brandId));
      }
      if true in found.value.zones {
        return Some(LinkedToZone(found.value.brandName));
      }
      var i := IndexOfId(rows, brandId).value;
      var deleted := SoftDeleted(rows[i], now);
      SoftDeleteKeepsRow(rows, i, now);
      rows := rows[i := deleted];
      r := None;
    }
  }
}

/**
 * The queries of `BrandRepository` as functions over the brand table, a sequence of rows
 * in primary-key order. The derived queries have no `ORDER BY`; the model returns their rows
 * in table order, which is an assumption about the database, not a promise of the queries.
 */
module BrandRepository {
  import opened Wrappers
  import opened Text
  import opened Seqs
  import opened BrandEntity

  /** The primary key: row ids strictly increase along the table, so no id occurs twice. */
  predicate IdsAscending(rows: seq<Brand>) {
    forall i, j :: 0 <= i < j < |rows| ==> rows[i].brandId < rows[j].brandId
  }

  /** Position of the row with primary key `id`, active or not. */
  function IndexOfId(rows: seq<Brand>, id: int): (r: Option<nat>)
    ensures r.Some? ==> r.value < |rows| && rows[r.value].brandId == id
    ensures r.None? ==> forall i :: 0 <= i < |rows| ==> rows[i].brandId != id
  {
    if rows == [] then None
    else if rows[0].brandId == id then Some(0)
    else
      match IndexOfId(rows[1..], id)
      case Some(k) => Some(k + 1)
      case None => None
  }

  /** The `isActive = true` condition of the finders. */
  predicate IsActiveRow(b: Brand) {
    b.isActive
  }

  /** The condition of `findByChain_ChainIdAndIsActiveTrue` for one chain. */
  function ActiveInChain(chainId: int): Brand -> bool {
    (b: Brand) => b.chainId == chainId && b.isActive
  }

  /** The rows other than the one with key `id`. */
  function OtherThan(id: int): Brand -> bool {
    (b: Brand) => b.brandId != id
  }

  /** `findByIsActiveTrue`. */
  function FindByIsActiveTrue(rows: seq<Brand>): (r: seq<Brand>)
    ensures forall b :: b in r <==> b in rows && b.isActive
  {
    Filter(rows, IsActiveRow)
  }

  /** `findByChain_ChainIdAndIsActiveTrue`. */
  function FindByChainIdAndIsActiveTrue(rows: seq<Brand>, chainId: int): (r: seq<Brand>)
    ensures forall b :: b in r <==> b in rows && b.isActive && b.chainId == chainId
  {
    Filter(rows, ActiveInChain(chainId))
  }

  /** The WHERE clause of the duplicate query for one row. */
  predicate DuplicateOf(b: Brand, brandName: string, chainId: int, excludeId: Option<int>): (r: bool)
    ensures r ==> b.isActive && b.chainId == chainId && |b.brandName| == |brandName|
    ensures excludeId == Some(b.brandId) ==> !r
    ensures b.isActive && b.chainId == chainId && excludeId != Some(b.brandId) && b.brandName == brandName ==> r
  {
    && Lower(b.brandName) == Lower(brandName)
    && b.chainId == chainId
    && b.isActive
    && (excludeId.None? || b.brandId != excludeId.value)
  }

  /**
   * `existsByBrandNameAndChainIgnoreCase`: `COUNT(b) > 0` over the rows the WHERE clause keeps.
   * The name argument is compared as given, without trimming.
   */
  function ExistsByBrandNameAndChainIgnoreCase(
    rows: seq<Brand>, brandName: string, chainId: int, excludeId: Option<int>): (r: bool)
    ensures r <==> exists i :: 0 <= i < |rows| && DuplicateOf(rows[i], brandName, chainId, excludeId)
    ensures excludeId.Some? && r ==> exists i :: 0 <= i < |rows| && rows[i].brandId != excludeId.value
                                               && DuplicateOf(rows[i], brandName, chainId, None)
  {
    var hits := Filter(rows, (b: Brand) => DuplicateOf(b, brandName, chainId, excludeId));
    if |hits| > 0 then
      assert hits[0] in hits;
      true
    else
      assert forall i :: 0 <= i < |rows| && DuplicateOf(rows[i], brandName, chainId, excludeId) ==> rows[i] in hits;
      false
  }

  /** `findByBrandIdAndIsActiveTrue`: the row with that key, provided it is active. */
  function FindByBrandIdAndIsActiveTrue(rows: seq<Brand>, id: int): (r: Option<Brand>)
    requires IdsAscending(rows)
    ensures r.Some? <==> exists i :: 0 <= i < |rows| && rows[i].brandId == id && rows[i].isActive
    ensures r.Some? ==> r.value in rows && r.value.brandId == id && r.value.isActive
  {
    match IndexOfId(rows, id)
    case Some(i) => if rows[i].isActive then Some(rows[i]) else None
    case None => None
  }

  /** A key the duplicate query excludes never makes it true: with that row gone the answer is the same, and without an exclusion nothing is left out. */
  lemma {:induction false} ExcludedRowNeverCounts(rows: seq<Brand>, brandName: string, chainId: int, id: int)
    ensures ExistsByBrandNameAndChainIgnoreCase(rows, brandName, chainId, Some(id))
        <==> ExistsByBrandNameAndChainIgnoreCase(
               Filter(rows, OtherThan(id)), brandName, chainId, None)
  {
    var rest := Filter(rows, OtherThan(id));
    if ExistsByBrandNameAndChainIgnoreCase(rows, brandName, chainId, Some(id)) {
      var i :| 0 <= i < |rows| && DuplicateOf(rows[i], brandName, chainId, Some(id));
      assert rows[i] in rest;
      var k :| 0 <= k < |rest| && rest[k] == rows[i];
      assert DuplicateOf(rest[k], brandName, chainId, None);
    }
    if ExistsByBrandNameAndChainIgnoreCase(rest, brandName, chainId, None) {
      var k :| 0 <= k < |rest| && DuplicateOf(rest[k], brandName, chainId, None);
      assert rest[k] in rows;
      var i :| 0 <= i < |rows| && rows[i] == rest[k];
      assert DuplicateOf(rows[i], brandName, chainId, Some(id));
    }
  }

  /**
   * The duplicate check looks at the untrimmed argument: with an active brand named `name`
   * stored in a chain, the query for `name` with one leading space finds nothing in that
   * chain, although both trim to the same name.
   */
  lemma {:induction false} PaddedNameEscapesDuplicateCheck(name: string, chainId: nat)
    requires name != [] && !IsSpace(name[0]) && !IsSpace(name[|name| - 1])
    ensures var rows := [Brand(1, name, chainId, true, 0, 0, [])];
            && Trim([' '] + name) == name
            && !ExistsByBrandNameAndChainIgnoreCase(rows, [' '] + name, chainId, None)
            && ExistsByBrandNameAndChainIgnoreCase(rows, Trim([' '] + name), chainId, None)
  {
    var padded := [' '] + name;
    assert padded[1..] == name;
    assert TrimStart(padded) == name;
    assert TrimEnd(name) == name;
    var rows := [Brand(1, name, chainId, true, 0, 0, [])];
    assert |Lower(padded)| != |Lower(name)|;
    assert !DuplicateOf(rows[0], padded, chainId, None);
    assert DuplicateOf(rows[0], name, chainId, None);
  }
}

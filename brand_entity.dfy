/**
 * The `Brand` entity: a row of the `brand` table with its column rules, the builder default
 * for `isActive`, and the `@PrePersist` / `@PreUpdate` timestamp hooks. The entity's setters
 * appear in the service as record updates (`b.(brandName := ...)`).
 */
module BrandEntity {
  import opened Wrappers
  import opened Records

  /** `brand_name` is declared with `length = 50`. */
  const NameColumnLength := 50

  /**
   * A row of the brand table. `chainId` is the non-null `chain_id` foreign key; `zones`
   * holds the active flag of every zone linked to the brand.
   */
  datatype Brand = Brand(
    brandId: nat,
    brandName: string,
    chainId: nat,
    isActive: bool,
    createdAt: Timestamp,
    updatedAt: Timestamp,
    zones: seq<bool>)

  /** What `Brand.builder()` sets before the entity is saved. */
  datatype Draft = Draft(brandName: string, chainId: nat, isActive: bool)

  /** `Brand.builder()...build()`: `isActive` is true unless the builder is given a value for it. */
  function Build(brandName: string, chainId: nat, isActive: Option<bool>): (d: Draft)
    ensures d.brandName == brandName && d.chainId == chainId
    ensures d.isActive <==> isActive != Some(false)
  {
    Draft(brandName, chainId, isActive.GetOr(true))
  }

  /**
   * Saving a new entity: the table generates `id`, and `onCreate` stamps both
   * timestamps from the clock. Its two clock reads are taken as one reading `now`.
   * A new brand has no zones.
   */
  function OnCreate(d: Draft, id: nat, now: Timestamp): (b: Brand)
    ensures b.brandId == id && b.brandName == d.brandName && b.chainId == d.chainId
    ensures b.isActive == d.isActive && b.zones == []
    ensures b.createdAt == now && b.updatedAt == now
  {
    Brand(id, d.brandName, d.chainId, d.isActive, now, now, [])
  }

  /**
   * Saving a managed entity whose fields were changed from `before` to `after`: the
   * `onUpdate` hook runs only when some field is dirty and then refreshes `updatedAt`;
   * `created_at` is not updatable, so the stored creation time is always `before`'s.
   */
  function SaveChanges(before: Brand, after: Brand, now: Timestamp): (r: Brand)
    ensures r.createdAt == before.createdAt
    ensures r.(createdAt := after.createdAt, updatedAt := after.updatedAt) == after
    ensures r.updatedAt == if after.(createdAt := before.createdAt, updatedAt := before.updatedAt) == before
                           then before.updatedAt else now
  {
    var stamped := after.(createdAt := before.createdAt, updatedAt := before.updatedAt);
    if stamped == before then before else stamped.(updatedAt := now)
  }

  /** The column rules of one row: the non-null name fits `brand_name`'s length. */
  predicate RowFits(b: Brand) {
    |b.brandName| <= NameColumnLength
  }

  /** The `uq_brand_name_chain` constraint: no two rows share a (brand_name, chain_id) pair. */
  predicate UniqueNameChain(rows: seq<Brand>): (u: bool)
    ensures u <==> forall i :: 0 <= i < |rows| ==> !ClashesWith(rows, rows[i].brandName, rows[i].chainId, i)
  {
    forall i, j :: 0 <= i < |rows| && 0 <= j < |rows| && i != j ==>
      !(rows[i].brandName == rows[j].brandName && rows[i].chainId == rows[j].chainId)
  }

  /** Whether storing a row with this name and chain at position `except` (or appending it, when `except` is out of range) breaks the constraint. */
  predicate ClashesWith(rows: seq<Brand>, brandName: string, chainId: nat, except: int) {
    exists j :: 0 <= j < |rows| && j != except && rows[j].brandName == brandName && rows[j].chainId == chainId
  }

  /** Appending a row that clashes with nobody keeps the table unique. */
  lemma AppendKeepsUnique(rows: seq<Brand>, b: Brand)
    requires UniqueNameChain(rows)
    requires !ClashesWith(rows, b.brandName, b.chainId, -1)
    ensures UniqueNameChain(rows + [b])
  {
  }

  /** Replacing row `i` by a row that clashes with no other row keeps the table unique. */
  lemma ReplaceKeepsUnique(rows: seq<Brand>, i: nat, b: Brand)
    requires i < |rows| && UniqueNameChain(rows)
    requires !ClashesWith(rows, b.brandName, b.chainId, i)
    ensures UniqueNameChain(rows[i := b])
  {
  }
}

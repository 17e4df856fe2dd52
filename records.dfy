/**
 * The plain records exchanged between the server and the browser: the brand and chain
 * response bodies (`BrandDTO`, `ChainDTO`), the brand request body (`BrandRequestDTO`)
 * and the `Chain` row the brand service reads.
 */
module Records {
  import opened Wrappers

  /** A clock reading; the model never looks inside one. */
  type Timestamp = nat

  /** A row of the chain (company) table, as far as the brand service reads it. */
  datatype Chain = Chain(chainId: nat, chainName: string, isActive: bool)

  /** The JSON body of a brand (`BrandDTO`). */
  datatype BrandDto = BrandDto(
    brandId: nat,
    brandName: string,
    chainId: nat,
    chainName: string,
    isActive: bool,
    createdAt: Timestamp,
    updatedAt: Timestamp)

  /** The JSON body of a chain (`ChainDTO`). */
  datatype ChainDto = ChainDto(chainId: nat, chainName: string, isActive: bool)

  /**
   * The JSON body of `POST /brands` and `PUT /brands/{id}` (`BrandRequestDTO`);
   * each field may be absent or null.
   */
  datatype BrandRequestBody = BrandRequestBody(brandName: Option<string>, chainId: Option<int>, isActive: Option<bool>)
}

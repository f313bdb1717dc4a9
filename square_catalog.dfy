/**
 * The Square objects the sync script reads and the flat records it builds from
 * them. JSON keys the script reads with a default (`.get(key, '')`) are plain
 * strings here, with "" standing for a missing key.
 */
module SquareCatalog {
  import opened Wrappers

  /**
   * One inventory count's quantity: `Some(q)` when it parses as the number q
   * (a missing quantity reads as 0), `None` when it does not parse.
   */
  type Count = Option<real>

  /** An entry of `item_variation_vendor_infos`; `vendorId` is "" when absent or null. */
  datatype VendorInfo = VendorInfo(isDeleted: bool, vendorId: string)

  /**
   * An item variation. `counts` is what the inventory endpoint answers for the
   * variation's id (the empty list when that request fails).
   */
  datatype Variation = Variation(
    id: string,
    name: string,
    sku: string,
    vendorInfos: seq<VendorInfo>,
    counts: seq<Count>)

  datatype ItemData = ItemData(
    name: string,
    categoryId: string,
    variations: seq<Variation>,
    sku: string)

  /**
   * A catalog object as listed by `catalog/list`. `categoryName` is the
   * `category_data.name` of a category object, when present; `counts` is what
   * the inventory endpoint answers for the object's own id.
   */
  datatype CatalogObject = CatalogObject(
    objType: string,
    id: string,
    isDeleted: bool,
    categoryName: Option<string>,
    itemData: ItemData,
    counts: seq<Count>)

  /** One entry of the list `fetch_square_items` returns: a sellable variation in stock. */
  datatype ItemRecord = ItemRecord(
    id: string,
    name: string,
    parentName: string,
    variationName: string,
    categoryId: string,
    categoryName: string,
    quantity: int,
    sku: string,
    vendorId: Option<string>)

  datatype Contact = Contact(removed: bool, phone: string, email: string, name: string)

  datatype Address = Address(
    line1: string,
    line2: string,
    locality: string,
    district: string,
    postalCode: string)

  /** A vendor as returned by `vendors/search`. */
  datatype VendorObject = VendorObject(id: string, name: string, contacts: seq<Contact>, address: Address)

  /** One entry of the list `fetch_square_vendors` returns. */
  datatype VendorRecord = VendorRecord(
    id: string,
    name: string,
    phone: string,
    email: string,
    contactName: string,
    address: string)
}

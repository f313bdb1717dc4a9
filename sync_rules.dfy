/**
 * The pure decisions of the sync script: category exclusion, the stock test,
 * the display name, the vendor id and primary contact of a variation or
 * vendor, and the vendor address line.
 */
module SyncRules {
  import opened Wrappers
  import opened Text
  import opened SquareCatalog

  /** The entries of the default exclusion list. */
  const DefaultEntries: seq<string> := ["Pet Products", "Accessories", "Crystals", "Apparel", "Party"]

  /** The `EXCLUDED_CATEGORIES` value used when the variable is not set: the entries joined with ','. */
  const DefaultExcluded: string := Join(DefaultEntries, ',')

  /**
   * The exclusion list: the environment value (or the default) split on ','.
   * Entries are neither trimmed nor lower-cased, and empty entries are kept.
   */
  function ExcludedCategories(env: Option<string>): (r: seq<string>)
    ensures |r| >= 1
    ensures forall i | 0 <= i < |r| :: ',' !in r[i]
    ensures Join(r, ',') == (if env.Some? then env.value else DefaultExcluded)
  {
    Split(if env.Some? then env.value else DefaultExcluded, ',')
  }

  /** Without the variable, the list is the five default entries. */
  lemma DefaultExclusionList()
    ensures ExcludedCategories(None) == DefaultEntries
    ensures |ExcludedCategories(None)| == 5
  {
    assert forall i | 0 <= i < |DefaultEntries| :: ',' !in DefaultEntries[i];
    SplitJoin(DefaultEntries, ',');
  }

  /** The loop over the list comparing lower-cased entries with the lower-cased name. */
  function AnyEqualsIgnoringCase(entries: seq<string>, nameLower: string): (r: bool)
    ensures r <==> exists i | 0 <= i < |entries| :: Lower(entries[i]) == nameLower
  {
    if entries == [] then false
    else if Lower(entries[0]) == nameLower then true
    else
      var r := AnyEqualsIgnoringCase(entries[1..], nameLower);
      assert forall i | 1 <= i < |entries| :: entries[i] == entries[1..][i - 1];
      r
  }

  /**
   * `is_excluded_category`: an empty name is never excluded, whatever the id;
   * otherwise the id matches an entry exactly or the name matches one ignoring
   * case. `None` is the id the reconciliation passes.
   */
  function IsExcludedCategory(categoryId: Option<string>, categoryName: string, excluded: seq<string>): (r: bool)
    ensures r <==> categoryName != "" &&
                   ((categoryId.Some? && categoryId.value in excluded) ||
                    exists i | 0 <= i < |excluded| :: Lower(excluded[i]) == Lower(categoryName))
  {
    if categoryName == "" then false
    else if categoryId.Some? && categoryId.value in excluded then true
    else if categoryName in excluded then
      var i :| 0 <= i < |excluded| && excluded[i] == categoryName;
      true
    else AnyEqualsIgnoringCase(excluded, Lower(categoryName))
  }

  /**
   * The matching is OR over the list: a category one list excludes, by id or
   * by name, stays excluded when entries are added on either side.
   */
  lemma ExclusionByAnyEntry(categoryId: Option<string>, categoryName: string, excluded: seq<string>, others: seq<string>)
    requires IsExcludedCategory(categoryId, categoryName, excluded)
    ensures IsExcludedCategory(categoryId, categoryName, others + excluded)
    ensures IsExcludedCategory(categoryId, categoryName, excluded + others)
  {
    if categoryId.Some? && categoryId.value in excluded {
      var i :| 0 <= i < |excluded| && excluded[i] == categoryId.value;
      assert (others + excluded)[|others| + i] == excluded[i];
      assert (excluded + others)[i] == excluded[i];
    } else {
      var i :| 0 <= i < |excluded| && Lower(excluded[i]) == Lower(categoryName);
      assert (others + excluded)[|others| + i] == excluded[i];
      assert (excluded + others)[i] == excluded[i];
    }
  }

  /** The count that makes `has_stock` succeed: it parsed, and it is above zero. */
  predicate Positive(c: Count)
  {
    c.Some? && c.value > 0.0
  }

  /**
   * `has_stock`: false for no counts; otherwise true iff some quantity parses
   * to a value above zero. Unparsable quantities are passed over.
   */
  function HasStock(counts: seq<Count>): (r: bool)
    ensures r <==> exists i | 0 <= i < |counts| :: Positive(counts[i])
  {
    if counts == [] then false
    else if Positive(counts[0]) then true
    else
      var r := HasStock(counts[1..]);
      assert forall i | 1 <= i < |counts| :: counts[i] == counts[1..][i - 1];
      r
  }

  /**
   * The display name of a variation: the item's name when the variation is
   * unnamed or named like the item, and otherwise the item's name, " - " and
   * the variation's name.
   */
  function FullName(itemName: string, variationName: string): (r: string)
    ensures r == itemName <==> variationName == "" || variationName == itemName
    ensures itemName <= r
    ensures r != itemName ==> r == itemName + " - " + variationName
  {
    if variationName != "" && variationName != itemName then itemName + " - " + variationName
    else itemName
  }

  /** A vendor info entry the loop accepts: not deleted and naming a vendor. */
  predicate Usable(info: VendorInfo)
  {
    !info.isDeleted && info.vendorId != ""
  }

  /**
   * The vendor id of a variation: the id of the first vendor info that is not
   * deleted and has a non-empty id; None when there is no such entry. (The
   * loop then leaves the last non-deleted entry's empty id, which every reader
   * treats as no vendor.)
   */
  function FirstVendorId(infos: seq<VendorInfo>): (r: Option<string>)
    ensures r.None? <==> forall i | 0 <= i < |infos| :: !Usable(infos[i])
    ensures r.Some? ==> exists i | 0 <= i < |infos| ::
                          Usable(infos[i]) && infos[i].vendorId == r.value &&
                          forall j | 0 <= j < i :: !Usable(infos[j])
  {
    if infos == [] then None
    else if Usable(infos[0]) then Some(infos[0].vendorId)
    else
      var r := FirstVendorId(infos[1..]);
      assert forall i | 1 <= i < |infos| :: infos[i] == infos[1..][i - 1];
      r
  }

  /** The primary contact of a vendor: its first contact not marked removed. */
  function PrimaryContact(contacts: seq<Contact>): (r: Option<Contact>)
    ensures r.None? <==> forall i | 0 <= i < |contacts| :: contacts[i].removed
    ensures r.Some? ==> exists i | 0 <= i < |contacts| ::
                          contacts[i] == r.value && !contacts[i].removed &&
                          forall j | 0 <= j < i :: contacts[j].removed
  {
    if contacts == [] then None
    else if !contacts[0].removed then Some(contacts[0])
    else
      var r := PrimaryContact(contacts[1..]);
      assert forall i | 1 <= i < |contacts| :: contacts[i] == contacts[1..][i - 1];
      r
  }

  /** `part` behind `sep`, or nothing when `part` is empty. */
  function Segment(sep: string, part: string): string
  {
    if part != "" then sep + part else ""
  }

  /** The address line before trimming: line 1, then ", " and each non-empty later line, then " " and the postal code. */
  function RawAddress(a: Address): string
  {
    a.line1 + Segment(", ", a.line2) + Segment(", ", a.locality) + Segment(", ", a.district) + Segment(" ", a.postalCode)
  }

  /**
   * The joined line starts with line 1, equals it when every later part is
   * empty, and ends with " " and the postal code when there is one.
   */
  lemma RawAddressParts(a: Address)
    ensures a.line1 <= RawAddress(a)
    ensures RawAddress(a) == a.line1 <==> a.line2 == a.locality == a.district == a.postalCode == ""
    ensures a.postalCode != "" ==>
              var r := RawAddress(a);
              |r| > |a.postalCode| && r[|r| - |a.postalCode| - 1..] == " " + a.postalCode
  {
  }

  /** The address a vendor record carries: the joined line, trimmed. */
  function VendorAddress(a: Address): string
  {
    Strip(RawAddress(a))
  }

  /** A vendor with no address parts has the empty address. */
  lemma EmptyAddress(a: Address)
    requires a.line1 == a.line2 == a.locality == a.district == a.postalCode == ""
    ensures VendorAddress(a) == ""
  {
    StripSpec(RawAddress(a));
  }

  /**
   * Whenever the joined line has no outer whitespace, with or without a postal
   * code, trimming changes nothing: the stored address is the joined line.
   */
  lemma UnpaddedAddress(a: Address)
    requires RawAddress(a) != "" && !IsSpace(RawAddress(a)[0]) && !IsSpace(RawAddress(a)[|RawAddress(a)| - 1])
    ensures VendorAddress(a) == RawAddress(a)
  {
    StripSpec(RawAddress(a));
  }

  /**
   * With an unpadded line 1 and an unpadded postal code, the address is
   * exactly the parts in order with their separators, the postal code last.
   */
  lemma PostalAddress(a: Address)
    requires a.line1 != "" && !IsSpace(a.line1[0])
    requires a.postalCode != "" && !IsSpace(a.postalCode[|a.postalCode| - 1])
    ensures VendorAddress(a) == a.line1 + Segment(", ", a.line2) + Segment(", ", a.locality)
                                + Segment(", ", a.district) + " " + a.postalCode
  {
    var raw := RawAddress(a);
    assert raw[0] == a.line1[0];
    assert raw[|raw| - 1] == a.postalCode[|a.postalCode| - 1];
    UnpaddedAddress(a);
  }

  /**
   * The vendor record built from a Square vendor: its id and name, the phone,
   * email and name of its primary contact ("" each when it has none), and its
   * address line.
   */
  function VendorRecordOf(v: VendorObject): VendorRecord
  {
    var contact := PrimaryContact(v.contacts);
    VendorRecord(
      id := v.id,
      name := v.name,
      phone := if contact.Some? then contact.value.phone else "",
      email := if contact.Some? then contact.value.email else "",
      contactName := if contact.Some? then contact.value.name else "",
      address := VendorAddress(v.address))
  }
}

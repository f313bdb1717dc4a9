/**
 * The COA dashboard backend of the WordPress plugin: the product listing with
 * its COA status, and the upload, status-update and exclude handlers, all
 * reading and writing post meta. WordPress is reduced to its posts and their
 * meta maps; the current time and the current user are inputs.
 */
module CoaDashboard {

  /** A post: its type, its status and its title. */
  datatype Post = Post(postType: string, status: string, title: string)

  /** One entry of `_coa_activity_log`. */
  datatype Activity = Activity(timestamp: string, userId: int, action: string, details: string)

  /** A stored meta value: a string, or an array of log entries. */
  datatype MetaValue = Text(text: string) | Entries(entries: seq<Activity>)

  /** The part of WordPress the dashboard touches. */
  datatype Store = Store(posts: map<int, Post>, meta: map<int, map<string, MetaValue>>)

  datatype CoaStatus = NeedsCoa | Published | Pending

  /** One row of the listing. */
  datatype Row = Row(id: int, sku: string, name: string, status: CoaStatus, creationDate: string, view: string)

  /** The outcome of `wp_handle_upload`: the moved file's URL, or the error it reports. */
  datatype Upload = Moved(url: string) | UploadError(error: string)

  /** The JSON reply a handler sends; `Rejected` is the bare `-1` of a failed nonce check. */
  datatype Reply = Success(message: string) | Error(message: string) | Rejected

  /** The listing reply. */
  datatype ListingReply = Products(rows: seq<Row>) | ListingError(message: string) | ListingRejected

  /* ---------- reading meta ---------- */

  /** PHP truthiness of a string: "" and "0" are false. */
  predicate Truthy(s: string)
  {
    s != "" && s != "0"
  }

  /** The meta map of post `id`, empty when it has none. */
  function MetaOf(s: Store, id: int): map<string, MetaValue>
  {
    if id in s.meta then s.meta[id] else map[]
  }

  /** `get_post_meta($id, $key, true)` for a string value: "" when the key is absent. */
  function GetText(s: Store, id: int, key: string): string
  {
    var m := MetaOf(s, id);
    if key in m && m[key].Text? then m[key].text else ""
  }

  /** The stored activity log of `id`, read as empty when it is missing or not an array. */
  function LogOf(s: Store, id: int): seq<Activity>
  {
    var m := MetaOf(s, id);
    if "_coa_activity_log" in m && m["_coa_activity_log"].Entries? then m["_coa_activity_log"].entries else []
  }

  /** `update_post_meta`: set one key of one post's meta. */
  function SetMeta(s: Store, id: int, key: string, v: MetaValue): Store
  {
    s.(meta := s.meta[id := MetaOf(s, id)[key := v]])
  }

  /* ---------- the listing ---------- */

  /** The COA status of a product from its document and its `show_coa` flag. */
  function Classify(document: string, showCoa: string): CoaStatus
  {
    if Truthy(document) && showCoa == "yes" then Published
    else if Truthy(document) && showCoa != "yes" then Pending
    else NeedsCoa
  }

  /** The classification: needs a COA without a document; published with one and `show_coa` exactly "yes"; pending otherwise. */
  lemma ClassifySpec(document: string, showCoa: string)
    ensures Classify(document, showCoa) == NeedsCoa <==> !Truthy(document)
    ensures Classify(document, showCoa) == Published <==> Truthy(document) && showCoa == "yes"
    ensures Classify(document, showCoa) == Pending <==> Truthy(document) && showCoa != "yes"
  {
  }

  /** The query of `get_products_data`: published products with a `sku` meta key and no `_excluded_from_coa` key. */
  predicate Listed(s: Store, id: int)
  {
    id in s.posts && s.posts[id].postType == "product" && s.posts[id].status == "publish" &&
    "sku" in MetaOf(s, id) && "_excluded_from_coa" !in MetaOf(s, id)
  }

  /** The listing row of product `id`, with "N/A" and "#" for missing values. */
  function RowOf(s: Store, id: int): Row
    requires id in s.posts
  {
    var sku := GetText(s, id, "sku");
    var document := GetText(s, id, "coa_document");
    var created := GetText(s, id, "coa_creation_date");
    Row(
      id := id,
      sku := if Truthy(sku) then sku else "N/A",
      name := s.posts[id].title,
      status := Classify(document, GetText(s, id, "show_coa")),
      creationDate := if Truthy(created) then created else "N/A",
      view := if Truthy(document) then document else "#")
  }

  /**
   * A row never shows an empty or "0" SKU or date: it shows the stored value
   * when that is truthy and "N/A" otherwise; the view link is the document
   * exactly when the status is not `NeedsCoa`, and "#" otherwise.
   */
  lemma RowFallbacks(s: Store, id: int)
    requires id in s.posts
    ensures var r := RowOf(s, id);
            Truthy(r.sku) && Truthy(r.creationDate) && Truthy(r.view) &&
            (r.sku == "N/A" <==> !Truthy(GetText(s, id, "sku")) || GetText(s, id, "sku") == "N/A") &&
            (Truthy(GetText(s, id, "sku")) ==> r.sku == GetText(s, id, "sku")) &&
            (r.creationDate == "N/A" <==>
               !Truthy(GetText(s, id, "coa_creation_date")) || GetText(s, id, "coa_creation_date") == "N/A") &&
            (Truthy(GetText(s, id, "coa_creation_date")) ==> r.creationDate == GetText(s, id, "coa_creation_date")) &&
            (r.status == NeedsCoa ==> r.view == "#") &&
            (r.status != NeedsCoa ==> r.view == GetText(s, id, "coa_document"))
  {
  }

  /** `rows` is a listing of `s`: one row per listed product, each the product's own row. */
  ghost predicate IsListing(s: Store, rows: seq<Row>)
  {
    (forall i | 0 <= i < |rows| :: rows[i].id in s.posts && Listed(s, rows[i].id) && rows[i] == RowOf(s, rows[i].id)) &&
    (forall id | id in s.posts && Listed(s, id) :: exists i | 0 <= i < |rows| :: rows[i].id == id) &&
    (forall i, j | 0 <= i < j < |rows| :: rows[i].id != rows[j].id)
  }

  /** Rows built one per distinct listed id, covering every listed id, form a listing. */
  lemma ListingFromIds(s: Store, rows: seq<Row>, ids: seq<int>)
    requires |ids| == |rows|
    requires forall i | 0 <= i < |ids| :: ids[i] in s.posts && Listed(s, ids[i]) && rows[i] == RowOf(s, ids[i])
    requires forall x | x in s.posts && Listed(s, x) :: x in ids
    requires forall i, j | 0 <= i < j < |ids| :: ids[i] != ids[j]
    ensures IsListing(s, rows)
  {
    assert forall i | 0 <= i < |rows| :: rows[i].id == ids[i];
  }

  /** The `foreach ($products as $product)` loop: one row per listed product, in an order the model leaves open. */
  method ListingRows(s: Store) returns (rows: seq<Row>)
    ensures IsListing(s, rows)
  {
    var remaining := set id | id in s.posts && Listed(s, id);
    ghost var listed := remaining;
    rows := [];
    ghost var ids: seq<int> := [];
    while remaining != {}
      invariant remaining <= listed
      invariant |ids| == |rows|
      invariant forall i | 0 <= i < |ids| :: ids[i] in listed && ids[i] !in remaining && rows[i] == RowOf(s, ids[i])
      invariant forall x | x in listed && x !in remaining :: x in ids
      invariant forall i, j | 0 <= i < j < |ids| :: ids[i] != ids[j]
      decreases |remaining|
    {
      var id :| id in remaining;
      rows := rows + [RowOf(s, id)];
      ids := ids + [id];
      remaining := remaining - {id};
    }
    ListingFromIds(s, rows, ids);
  }

  /* ---------- the handlers' effect on the store ---------- */

  /** `log_coa_activity`: one entry appended to the product's log. */
  function Logged(s: Store, id: int, a: Activity): Store
  {
    SetMeta(s, id, "_coa_activity_log", Entries(LogOf(s, id) + [a]))
  }

  /** A successful upload: file, expiration and pending status stored, and an `upload` entry logged. */
  function Uploaded(s: Store, id: int, url: string, expiration: string, userId: int, now: string): Store
  {
    var s1 := SetMeta(s, id, "_coa_file", Text(url));
    var s2 := SetMeta(s1, id, "_coa_expiration", Text(expiration));
    var s3 := SetMeta(s2, id, "_coa_status", Text("pending"));
    Logged(s3, id, Activity(now, userId, "upload", ""))
  }

  /** A status update: the status stored and a `status_change` entry logged with it. */
  function StatusUpdated(s: Store, id: int, status: string, userId: int, now: string): Store
  {
    Logged(SetMeta(s, id, "_coa_status", Text(status)), id, Activity(now, userId, "status_change", status))
  }

  /** An exclusion: the flag stored, an existing post made private, and an `exclude` entry logged. */
  function Excluded(s: Store, id: int, userId: int, now: string): Store
  {
    var s1 := SetMeta(s, id, "_excluded_from_coa", Text("1"));
    var s2 := if id in s1.posts then s1.(posts := s1.posts[id := s1.posts[id].(status := "private")]) else s1;
    Logged(s2, id, Activity(now, userId, "exclude", ""))
  }

  /* ---------- properties of the handlers ---------- */

  /** Logging appends exactly one entry at the end of the product's log, and touches no other key or post. */
  lemma LogAppends(s: Store, id: int, a: Activity)
    ensures LogOf(Logged(s, id, a), id) == LogOf(s, id) + [a]
    ensures Logged(s, id, a).posts == s.posts
    ensures forall other | other != id :: MetaOf(Logged(s, id, a), other) == MetaOf(s, other)
    ensures forall key | key != "_coa_activity_log" :: key in MetaOf(Logged(s, id, a), id) <==> key in MetaOf(s, id)
    ensures forall key | key != "_coa_activity_log" && key in MetaOf(s, id) ::
              MetaOf(Logged(s, id, a), id)[key] == MetaOf(s, id)[key]
  {
  }

  /** A stored log that is missing or not an array counts as empty, so the first entry starts a fresh log. */
  lemma LogStartsFresh(s: Store, id: int, a: Activity)
    requires "_coa_activity_log" !in MetaOf(s, id) || MetaOf(s, id)["_coa_activity_log"].Text?
    ensures LogOf(Logged(s, id, a), id) == [a]
  {
  }

  /** A sequence of log calls on one product appends their entries in order. */
  lemma {:induction false} LogAppendsAll(s: Store, id: int, acts: seq<Activity>)
    ensures LogOf(LogAll(s, id, acts), id) == LogOf(s, id) + acts
  {
    if acts != [] {
      LogAppendsAll(s, id, acts[..|acts| - 1]);
      LogAppends(LogAll(s, id, acts[..|acts| - 1]), id, acts[|acts| - 1]);
    }
  }

  /** The store after logging each of `acts` on `id`, in order. */
  function LogAll(s: Store, id: int, acts: seq<Activity>): Store
  {
    if acts == [] then s else Logged(LogAll(s, id, acts[..|acts| - 1]), id, acts[|acts| - 1])
  }

  /** After an exclusion the product is not listed, and every other product is listed exactly as before. */
  lemma ExcludeHides(s: Store, id: int, userId: int, now: string)
    ensures !Listed(Excluded(s, id, userId, now), id)
    ensures forall other | other != id :: Listed(Excluded(s, id, userId, now), other) <==> Listed(s, other)
  {
  }

  /** The exclusion stays in force: no later upload, status update or log call lists the product again. */
  lemma ExclusionSticks(s: Store, id: int, url: string, expiration: string, status: string, userId: int, now: string, a: Activity)
    requires "_excluded_from_coa" in MetaOf(s, id)
    ensures !Listed(Uploaded(s, id, url, expiration, userId, now), id)
    ensures !Listed(StatusUpdated(s, id, status, userId, now), id)
    ensures !Listed(Logged(s, id, a), id)
  {
  }

  /** The meta keys the listing reads. */
  predicate ListingKey(key: string)
  {
    key == "sku" || key == "_excluded_from_coa" || key == "coa_document" || key == "coa_creation_date" || key == "show_coa"
  }

  /** Writing a key the listing does not read changes no listing decision and no row. */
  lemma SetOtherMeta(s: Store, id: int, key: string, v: MetaValue, other: int)
    requires !ListingKey(key)
    ensures SetMeta(s, id, key, v).posts == s.posts
    ensures Listed(SetMeta(s, id, key, v), other) <==> Listed(s, other)
    ensures other in s.posts ==> RowOf(SetMeta(s, id, key, v), other) == RowOf(s, other)
  {
    var t := SetMeta(s, id, key, v);
    assert forall k | ListingKey(k) :: (k in MetaOf(t, other) <==> k in MetaOf(s, other)) &&
                                      GetText(t, other, k) == GetText(s, other, k);
  }

  /**
   * An upload stores the file under `_coa_file` and the status under
   * `_coa_status`, while the listing reads `coa_document` and `show_coa`: the
   * listed products and every row are the same before and after the upload.
   */
  lemma UploadInvisibleToListing(s: Store, id: int, url: string, expiration: string, userId: int, now: string, other: int)
    ensures var t := Uploaded(s, id, url, expiration, userId, now);
            t.posts == s.posts &&
            (Listed(t, other) <==> Listed(s, other)) &&
            (other in s.posts ==> RowOf(t, other) == RowOf(s, other))
  {
    var s1 := SetMeta(s, id, "_coa_file", Text(url));
    var s2 := SetMeta(s1, id, "_coa_expiration", Text(expiration));
    var s3 := SetMeta(s2, id, "_coa_status", Text("pending"));
    SetOtherMeta(s, id, "_coa_file", Text(url), other);
    SetOtherMeta(s1, id, "_coa_expiration", Text(expiration), other);
    SetOtherMeta(s2, id, "_coa_status", Text("pending"), other);
    SetOtherMeta(s3, id, "_coa_activity_log", Entries(LogOf(s3, id) + [Activity(now, userId, "upload", "")]), other);
  }

  /** An upload stores its three values and logs one `upload` entry. */
  lemma UploadStores(s: Store, id: int, url: string, expiration: string, userId: int, now: string)
    ensures GetText(Uploaded(s, id, url, expiration, userId, now), id, "_coa_file") == url
    ensures GetText(Uploaded(s, id, url, expiration, userId, now), id, "_coa_status") == "pending"
    ensures GetText(Uploaded(s, id, url, expiration, userId, now), id, "_coa_expiration") == expiration
    ensures LogOf(Uploaded(s, id, url, expiration, userId, now), id) == LogOf(s, id) + [Activity(now, userId, "upload", "")]
  {
  }

  /** A status update stores the status and logs one `status_change` entry carrying it. */
  lemma StatusUpdateStores(s: Store, id: int, status: string, userId: int, now: string)
    ensures GetText(StatusUpdated(s, id, status, userId, now), id, "_coa_status") == status
    ensures LogOf(StatusUpdated(s, id, status, userId, now), id) == LogOf(s, id) + [Activity(now, userId, "status_change", status)]
  {
  }

  /** The status a status update stores is not the one the listing shows: the listing is unchanged. */
  lemma StatusUpdateInvisibleToListing(s: Store, id: int, status: string, userId: int, now: string, other: int)
    ensures Listed(StatusUpdated(s, id, status, userId, now), other) <==> Listed(s, other)
    ensures other in s.posts ==> RowOf(StatusUpdated(s, id, status, userId, now), other) == RowOf(s, other)
  {
    var s1 := SetMeta(s, id, "_coa_status", Text(status));
    SetOtherMeta(s, id, "_coa_status", Text(status), other);
    SetOtherMeta(s1, id, "_coa_activity_log", Entries(LogOf(s1, id) + [Activity(now, userId, "status_change", status)]), other);
  }

  /* ---------- the dashboard object ---------- */

  class Dashboard {
    var posts: map<int, Post>
    var meta: map<int, map<string, MetaValue>>

    function State(): Store
      reads this
    {
      Store(posts, meta)
    }

    constructor (s: Store)
      ensures State() == s
    {
      posts := s.posts;
      meta := s.meta;
    }

    /**
     * `get_products_data`: after the nonce and permission checks, one row per
     * listed product (the query's order is not modelled). Nothing changes.
     */
    method GetProductsData(nonceValid: bool, canManage: bool) returns (reply: ListingReply)
      ensures !nonceValid ==> reply == ListingRejected
      ensures nonceValid && !canManage ==> reply == ListingError("Permission denied")
      ensures nonceValid && canManage ==> reply.Products? && IsListing(State(), reply.rows)
    {
      if !nonceValid {
        return ListingRejected;
      }
      if !canManage {
        return ListingError("Permission denied");
      }
      var rows := ListingRows(State());
      return Products(rows);
    }

    /** `log_coa_activity`: read the log (an empty one when it is not an array), append, write it back. */
    method LogCoaActivity(id: int, action: string, userId: int, details: string, now: string)
      modifies this
      ensures State() == Logged(old(State()), id, Activity(now, userId, action, details))
    {
      var s := State();
      var log := LogOf(s, id);
      log := log + [Activity(now, userId, action, details)];
      meta := meta[id := MetaOf(s, id)["_coa_activity_log" := Entries(log)]];
    }

    /** `handle_coa_upload`: on a successful upload store the file, expiration and pending status, then log. */
    method HandleCoaUpload(
      nonceValid: bool, canManage: bool, id: int, expiration: string, upload: Upload, userId: int, now: string)
      returns (reply: Reply)
      modifies this
      ensures !nonceValid ==> reply == Rejected && State() == old(State())
      ensures nonceValid && !canManage ==> reply == Error("Permission denied") && State() == old(State())
      ensures nonceValid && canManage && upload.UploadError? ==>
                reply == Error(upload.error) && State() == old(State())
      ensures nonceValid && canManage && upload.Moved? ==>
                reply == Success("COA uploaded successfully") &&
                State() == Uploaded(old(State()), id, upload.url, expiration, userId, now)
    {
      if !nonceValid {
        return Rejected;
      }
      if !canManage {
        return Error("Permission denied");
      }
      match upload
      case Moved(url) =>
        meta := SetMeta(State(), id, "_coa_file", Text(url)).meta;
        meta := SetMeta(State(), id, "_coa_expiration", Text(expiration)).meta;
        meta := SetMeta(State(), id, "_coa_status", Text("pending")).meta;
        LogCoaActivity(id, "upload", userId, "", now);
        reply := Success("COA uploaded successfully");
      case UploadError(error) =>
        reply := Error(error);
    }

    /** `handle_status_update`: store the status and log the change with it. */
    method HandleStatusUpdate(nonceValid: bool, canManage: bool, id: int, status: string, userId: int, now: string)
      returns (reply: Reply)
      modifies this
      ensures !nonceValid ==> reply == Rejected && State() == old(State())
      ensures nonceValid && !canManage ==> reply == Error("Permission denied") && State() == old(State())
      ensures nonceValid && canManage ==>
                reply == Success("Status updated successfully") &&
                State() == StatusUpdated(old(State()), id, status, userId, now)
    {
      if !nonceValid {
        return Rejected;
      }
      if !canManage {
        return Error("Permission denied");
      }
      meta := SetMeta(State(), id, "_coa_status", Text(status)).meta;
      LogCoaActivity(id, "status_change", userId, status, now);
      reply := Success("Status updated successfully");
    }

    /** `handle_exclude_product`: flag the product, make its post private, and log the exclusion. */
    method HandleExcludeProduct(nonceValid: bool, canManage: bool, id: int, userId: int, now: string)
      returns (reply: Reply)
      modifies this
      ensures !nonceValid ==> reply == Rejected && State() == old(State())
      ensures nonceValid && !canManage ==> reply == Error("Permission denied") && State() == old(State())
      ensures nonceValid && canManage ==>
                reply == Success("Product excluded successfully") &&
                State() == Excluded(old(State()), id, userId, now)
    {
      if !nonceValid {
        return Rejected;
      }
      if !canManage {
        return Error("Permission denied");
      }
      meta := SetMeta(State(), id, "_excluded_from_coa", Text("1")).meta;
      if id in posts {
        posts := posts[id := posts[id].(status := "private")];
      }
      LogCoaActivity(id, "exclude", userId, "", now);
      reply := Success("Product excluded successfully");
    }
  }
}

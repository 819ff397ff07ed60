/**
 * The API gateway's handlers: which path each forwards, and what it writes
 * back for a downstream response or a forwarding error.
 */
module Gateway {
  import opened Wrappers
  import opened Http
  import Strings

  /** A downstream response as the gateway reads it: status, Content-Type header ("" when unset), body. */
  datatype Upstream = Upstream(status: int, contentType: string, body: string)

  /** The outcome of forwarding a request: the downstream response, or the client's error. */
  datatype Forwarded = Reached(response: Upstream) | Unavailable

  /** What the gateway writes: status, the Content-Type it set (None when it set none), body. */
  datatype Reply = Reply(status: int, contentType: Option<string>, body: string)

  /** One proxied request: the path sent downstream and the reply written back. */
  datatype Exchange = Exchange(forwardedPath: string, reply: Reply)

  /** The downstream service, as a map from the forwarded path to the outcome of forwarding to it. */
  type Downstream = string -> Forwarded

  /** The JSON encoder's output for the error object, with its trailing newline. */
  const UnavailableBody := "{\"error\":\"service unavailable\"}\n"

  /** The inventory path: the first "/inventory/" becomes "/stock/". */
  function InventoryPath(path: string): (r: string)
    ensures !Strings.Contains(path, "/inventory/") ==> r == path
    ensures |path| >= 11 && path[..11] == "/inventory/" ==> r == "/stock/" + path[11..]
  {
    assert |path| >= 11 && path[..11] == "/inventory/" ==> Strings.OccursAt(path, "/inventory/", 0);
    Strings.ReplaceFirst(path, "/inventory/", "/stock/")
  }

  /**
   * The reply for a forwarding outcome: a forwarding error is a JSON 502;
   * otherwise the downstream status and body pass through, and its
   * Content-Type is copied only when it is non-empty.
   */
  function ProxyReply(f: Forwarded): (r: Reply)
    ensures f.Unavailable? ==> r == Reply(StatusBadGateway, Some("application/json"), UnavailableBody)
    ensures f.Reached? ==> r.status == f.response.status && r.body == f.response.body
    ensures f.Reached? ==> (r.contentType.None? <==> f.response.contentType == "")
    ensures f.Reached? && r.contentType.Some? ==> r.contentType.value == f.response.contentType
  {
    match f
    case Unavailable => Reply(StatusBadGateway, Some("application/json"), UnavailableBody)
    case Reached(u) => Reply(u.status, if u.contentType != "" then Some(u.contentType) else None, u.body)
  }

  /** The orders routes: the request path goes downstream as it is. */
  function HandleOrders(downstream: Downstream, path: string): (x: Exchange)
    ensures x.forwardedPath == path
    ensures x.reply == ProxyReply(downstream(path))
  {
    Exchange(path, ProxyReply(downstream(path)))
  }

  /** The inventory routes: the path goes downstream rewritten. */
  function HandleInventory(downstream: Downstream, path: string): (x: Exchange)
    ensures x.forwardedPath == InventoryPath(path)
    ensures x.reply == ProxyReply(downstream(InventoryPath(path)))
  {
    Exchange(InventoryPath(path), ProxyReply(downstream(InventoryPath(path))))
  }

  /** A path without "/inventory/" goes downstream unchanged. */
  lemma InventoryPathWithoutMarker(path: string)
    requires !Strings.Contains(path, "/inventory/")
    ensures InventoryPath(path) == path
  {
  }

  /** A path that starts with "/inventory/" has exactly that prefix replaced by "/stock/". */
  lemma InventoryPrefixRewritten(rest: string)
    ensures InventoryPath("/inventory/" + rest) == "/stock/" + rest
  {
    var path := "/inventory/" + rest;
    assert path[0..11] == "/inventory/";
    assert Strings.OccursAt(path, "/inventory/", 0);
    assert path[11..] == rest;
  }

  /**
   * Only the first "/inventory/" is replaced: a later one stays. For
   * `"/inventory/" + rest`, everything after the prefix is untouched.
   */
  lemma OnlyFirstMarkerReplaced(rest: string)
    requires Strings.Contains(rest, "/inventory/")
    ensures Strings.Contains(InventoryPath("/inventory/" + rest), "/inventory/")
  {
    InventoryPrefixRewritten(rest);
    Strings.ContainsInSuffix("/stock/", rest, "/inventory/");
  }

  /**
   * The gateway's item routes `/inventory/stock/{itemId}` reach the inventory
   * service as `/stock/stock/{itemId}`: the rewrite keeps the `stock` segment.
   */
  lemma ItemRoutesKeepStockSegment(itemId: string)
    ensures InventoryPath("/inventory/stock/" + itemId) == "/stock/stock/" + itemId
  {
    assert "/inventory/stock/" + itemId == "/inventory/" + ("stock/" + itemId);
    InventoryPrefixRewritten("stock/" + itemId);
  }

  /**
   * The listing route `/inventory/stock` also starts with "/inventory/", so it
   * reaches the inventory service as `/stock/stock`, the item path of an item
   * named `stock`.
   */
  lemma ListingRouteBecomesItemPath()
    ensures InventoryPath("/inventory/stock") == "/stock/stock"
  {
    assert "/inventory/stock" == "/inventory/" + "stock";
    InventoryPrefixRewritten("stock");
  }

  /** Whatever the downstream answers, a 502 reply means forwarding failed or the downstream itself said 502. */
  lemma BadGatewayOnlyFromFailure(downstream: Downstream, path: string)
    ensures var x := HandleOrders(downstream, path);
            x.reply.status == StatusBadGateway <==>
              downstream(path).Unavailable? || downstream(path).response.status == StatusBadGateway
  {
  }

  /** A downstream 404 reaches the client as 404, with its body and Content-Type. */
  lemma NotFoundPassesThrough(downstream: Downstream, path: string, body: string)
    requires downstream(InventoryPath(path)) == Reached(Upstream(StatusNotFound, "application/json", body))
    ensures HandleInventory(downstream, path).reply == Reply(StatusNotFound, Some("application/json"), body)
  {
  }

  /** The path the gateway's tests expect each inventory route to reach: its leading `/inventory` segment dropped. */
  function IntendedInventoryPath(path: string): (r: string)
    ensures |path| >= 11 && path[..11] == "/inventory/" ==> r == path[10..]
    ensures !(|path| >= 11 && path[..11] == "/inventory/") ==> r == path
  {
    if |path| >= 11 && path[..11] == "/inventory/" then path[10..] else path
  }

  /** Every gateway inventory route reaches the inventory service's route of the same shape. */
  lemma IntendedRoutesReachStock(rest: string)
    ensures IntendedInventoryPath("/inventory/stock") == "/stock"
    ensures IntendedInventoryPath("/inventory/stock/" + rest) == "/stock/" + rest
  {
    var item := "/inventory/stock/" + rest;
    assert item[..11] == "/inventory/";
    assert item[10..] == "/stock/" + rest;
    assert "/inventory/stock"[..11] == "/inventory/";
    assert "/inventory/stock"[10..] == "/stock";
  }

  /** The rewrite as written sends the test's item route somewhere other than where the test expects. */
  lemma ItemRouteMissesExpectedPath()
    ensures InventoryPath("/inventory/stock/item-123") != "/stock/item-123"
    ensures IntendedInventoryPath("/inventory/stock/item-123") == "/stock/item-123"
  {
    ItemRoutesKeepStockSegment("item-123");
    IntendedRoutesReachStock("item-123");
    assert |"/stock/stock/item-123"| != |"/stock/item-123"|;
  }
}

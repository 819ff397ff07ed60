/**
 * The inventory service's request handlers: which status code each
 * repository outcome becomes. Request decoding is an oracle: a quantity
 * that decoded, or None for an undecodable body.
 */
module InventoryHttp {
  import opened Wrappers
  import opened Domain
  import opened Http
  import opened InventoryRepo

  /** Which of a request's database calls fail: the first read, the update, the read after it. */
  datatype DbFaults = DbFaults(read: bool, update: bool, reread: bool)

  const Healthy := DbFaults(false, false, false)

  /** The ledger after a request, and the response written for it. */
  datatype Outcome = Outcome(ledger: Ledger, response: Response<Option<StockLevel>>)

  /** The reserve request passes validation and the pre-read, and reaches the guarded update. */
  predicate ReachesReserve(m: Ledger, itemId: string, quantity: Option<int>, f: DbFaults) {
    itemId != "" && quantity.Some? && !f.read && itemId in m
  }

  /** POST /stock/{itemId}/reserve. */
  function ReserveOutcome(m: Ledger, itemId: string, quantity: Option<int>, f: DbFaults): (o: Outcome)
    ensures o.response.status in {StatusOK, StatusBadRequest, StatusNotFound, StatusConflict, StatusInternalServerError}
    ensures o.response.status == StatusBadRequest <==> itemId == "" || quantity.None?
    ensures o.response.status == StatusNotFound <==> itemId != "" && quantity.Some? && !f.read && itemId !in m
    ensures o.response.status == StatusConflict <==>
              ReachesReserve(m, itemId, quantity, f) && !f.update && m[itemId].available < quantity.value
    ensures o.response.status == StatusOK <==>
              ReachesReserve(m, itemId, quantity, f) && !f.update && !f.reread && m[itemId].available >= quantity.value
    ensures o.response.status == StatusOK ==>
              MovedOnly(m, o.ledger, itemId, quantity.value) && o.response.body == JsonBody(Some(o.ledger[itemId]))
    ensures o.ledger == m || (quantity.Some? && MovedOnly(m, o.ledger, itemId, quantity.value))
    ensures o.response.status !in {StatusOK, StatusInternalServerError} ==> o.ledger == m
  {
    if itemId == "" then Outcome(m, Response(StatusBadRequest, ErrorBody("missing item id")))
    else if quantity.None? then Outcome(m, Response(StatusBadRequest, ErrorBody("invalid request body")))
    else if f.read then Outcome(m, Response(StatusInternalServerError, ErrorBody("internal server error")))
    else if itemId !in m then Outcome(m, Response(StatusNotFound, ErrorBody("item not found")))
    else
      var u := ReserveUpdate(m, itemId, quantity.value, f.update);
      if u.err == Some(InsufficientStock) then Outcome(m, Response(StatusConflict, ErrorBody("insufficient stock")))
      else if u.err.Some? then Outcome(m, Response(StatusInternalServerError, ErrorBody("internal server error")))
      else if f.reread then Outcome(u.ledger, Response(StatusInternalServerError, ErrorBody("internal server error")))
      else Outcome(u.ledger, Response(StatusOK, JsonBody(Some(u.ledger[itemId]))))
  }

  /** POST /stock/{itemId}/release: every repository error is a 500; there is no 404. */
  function ReleaseOutcome(m: Ledger, itemId: string, quantity: Option<int>, f: DbFaults): (o: Outcome)
    ensures o.response.status in {StatusOK, StatusBadRequest, StatusInternalServerError}
    ensures o.response.status == StatusBadRequest <==> itemId == "" || quantity.None?
    ensures o.response.status == StatusOK <==>
              itemId != "" && quantity.Some? && !f.update && !f.reread && itemId in m && m[itemId].reserved >= quantity.value
    ensures o.response.status == StatusOK ==>
              MovedOnly(m, o.ledger, itemId, -quantity.value) && o.response.body == JsonBody(Some(o.ledger[itemId]))
    ensures o.ledger == m || (quantity.Some? && MovedOnly(m, o.ledger, itemId, -quantity.value))
    ensures o.response.status == StatusBadRequest ==> o.ledger == m
  {
    if itemId == "" then Outcome(m, Response(StatusBadRequest, ErrorBody("missing item id")))
    else if quantity.None? then Outcome(m, Response(StatusBadRequest, ErrorBody("invalid request body")))
    else
      var u := ReleaseUpdate(m, itemId, quantity.value, f.update);
      if u.err.Some? then Outcome(m, Response(StatusInternalServerError, ErrorBody("internal server error")))
      else if f.reread then Outcome(u.ledger, Response(StatusInternalServerError, ErrorBody("internal server error")))
      else Outcome(u.ledger, Response(StatusOK, JsonBody(Some(u.ledger[itemId]))))
  }

  /** GET /stock/{itemId}. */
  function GetStockResponse(m: Ledger, itemId: string, readFails: bool): (r: Response<StockLevel>)
    ensures r.status in {StatusOK, StatusBadRequest, StatusNotFound, StatusInternalServerError}
    ensures r.status == StatusBadRequest <==> itemId == ""
    ensures r.status == StatusNotFound <==> itemId != "" && !readFails && itemId !in m
    ensures r.status == StatusOK <==> itemId != "" && !readFails && itemId in m
    ensures r.status == StatusOK ==> r.body == JsonBody(m[itemId])
  {
    if itemId == "" then Response(StatusBadRequest, ErrorBody("missing item id"))
    else if readFails then Response(StatusInternalServerError, ErrorBody("internal server error"))
    else if itemId !in m then Response(StatusNotFound, ErrorBody("item not found"))
    else Response(StatusOK, JsonBody(m[itemId]))
  }

  method HandleGetStock(repo: InventoryRepository, itemId: string, readFails: bool) returns (resp: Response<StockLevel>)
    requires repo.Valid()
    ensures resp == GetStockResponse(repo.items, itemId, readFails)
  {
    if itemId == "" {
      return Response(StatusBadRequest, ErrorBody("missing item id"));
    }
    var stock := repo.GetStock(itemId, readFails);
    if stock.Failure? {
      return Response(StatusInternalServerError, ErrorBody("internal server error"));
    }
    if stock.value.None? {
      return Response(StatusNotFound, ErrorBody("item not found"));
    }
    return Response(StatusOK, JsonBody(stock.value.value));
  }

  /**
   * GET /stock: 500 when the listing fails, otherwise 200 with every row in
   * item_id order; an empty table is encoded as a nil list, which JSON writes as `null`.
   */
  method HandleListStock(repo: InventoryRepository, dbFails: bool) returns (resp: Response<Slice<StockLevel>>)
    requires repo.Valid()
    ensures resp.status == (if dbFails then StatusInternalServerError else StatusOK)
    ensures resp.status == StatusOK ==>
              resp.body.JsonBody? && RowsOf(repo.items, resp.body.value.Elems()) && SortedById(resp.body.value.Elems())
              && forall id :: id in repo.items ==> id in ItemIds(resp.body.value.Elems())
    ensures resp.status == StatusOK ==> (resp.body.value.Nil? <==> repo.items == map[])
  {
    var rows := repo.ListAll(dbFails);
    if rows.Failure? {
      return Response(StatusInternalServerError, ErrorBody("internal server error"));
    }
    return Response(StatusOK, JsonBody(rows.value));
  }

  method HandleReserve(repo: InventoryRepository, itemId: string, quantity: Option<int>, f: DbFaults)
    returns (resp: Response<Option<StockLevel>>)
    requires repo.Valid()
    modifies repo
    ensures repo.Valid()
    ensures Outcome(repo.items, resp) == ReserveOutcome(old(repo.items), itemId, quantity, f)
  {
    if itemId == "" {
      return Response(StatusBadRequest, ErrorBody("missing item id"));
    }
    if quantity.None? {
      return Response(StatusBadRequest, ErrorBody("invalid request body"));
    }
    var stock := repo.GetStock(itemId, f.read);
    if stock.Failure? {
      return Response(StatusInternalServerError, ErrorBody("internal server error"));
    }
    if stock.value.None? {
      return Response(StatusNotFound, ErrorBody("item not found"));
    }
    var err := repo.Reserve(itemId, quantity.value, f.update);
    if err.Some? {
      if err.value == InsufficientStock {
        return Response(StatusConflict, ErrorBody("insufficient stock"));
      }
      return Response(StatusInternalServerError, ErrorBody("internal server error"));
    }
    var updated := repo.GetStock(itemId, f.reread);
    if updated.Failure? {
      return Response(StatusInternalServerError, ErrorBody("internal server error"));
    }
    return Response(StatusOK, JsonBody(updated.value));
  }

  method HandleRelease(repo: InventoryRepository, itemId: string, quantity: Option<int>, f: DbFaults)
    returns (resp: Response<Option<StockLevel>>)
    requires repo.Valid()
    modifies repo
    ensures repo.Valid()
    ensures Outcome(repo.items, resp) == ReleaseOutcome(old(repo.items), itemId, quantity, f)
  {
    if itemId == "" {
      return Response(StatusBadRequest, ErrorBody("missing item id"));
    }
    if quantity.None? {
      return Response(StatusBadRequest, ErrorBody("invalid request body"));
    }
    var err := repo.Release(itemId, quantity.value, f.update);
    if err.Some? {
      return Response(StatusInternalServerError, ErrorBody("internal server error"));
    }
    var updated := repo.GetStock(itemId, f.reread);
    if updated.Failure? {
      return Response(StatusInternalServerError, ErrorBody("internal server error"));
    }
    return Response(StatusOK, JsonBody(updated.value));
  }

  /** Asking to release more than is reserved is a server error, not a conflict. */
  lemma OverReleaseIsServerError(m: Ledger, itemId: string, q: int)
    requires itemId in m && itemId != "" && m[itemId].reserved < q
    ensures ReleaseOutcome(m, itemId, Some(q), Healthy) == Outcome(m, Response(StatusInternalServerError, ErrorBody("internal server error")))
  {
  }
}

/**
 * The orders service's wiring: which handler a method and path reach, and
 * whether an event producer is configured.
 */
module OrdersMain {
  import opened Wrappers
  import opened Domain
  import opened Http
  import opened Strings
  import opened OrdersRepo
  import opened OrdersHttp

  /** Where the mux sends a request; `Redirect` is its 301 to the cleaned path. */
  datatype Route = ListOrders | CreateOrder | GetOrder | UpdateOrderStatus | MethodNotAllowed | NoPattern | Redirect

  /** The answer of a bare HTTP error for a method a route does not serve. */
  const NotAllowed: Response<Order> := Response(StatusMethodNotAllowed, TextBody("method not allowed"))

  /** The `/orders` pattern: listing and creation. */
  function RootRoute(verb: string): (r: Route)
    ensures r == ListOrders <==> verb == "GET"
    ensures r == CreateOrder <==> verb == "POST"
    ensures r == MethodNotAllowed <==> verb != "GET" && verb != "POST"
  {
    if verb == "GET" then ListOrders
    else if verb == "POST" then CreateOrder
    else MethodNotAllowed
  }

  /** The path, trimmed of slashes, has exactly three segments and the third is `status`. */
  function HasStatusSuffix(path: string): (r: bool)
    ensures r ==> '/' in path
  {
    var trimmed := Trim(path, '/');
    var parts := Split(trimmed, '/');
    if |parts| == 3 && parts[2] == "status" then
      Strings.TrimKeeps(path, '/', '/');
      true
    else false
  }

  /** The `/orders/` pattern: GET without the status suffix reads, PATCH with it updates. */
  function SubtreeRoute(verb: string, path: string): (r: Route)
    ensures r == GetOrder <==> verb == "GET" && !HasStatusSuffix(path)
    ensures r == UpdateOrderStatus <==> verb == "PATCH" && HasStatusSuffix(path)
    ensures r in {GetOrder, UpdateOrderStatus, MethodNotAllowed}
  {
    var suffix := HasStatusSuffix(path);
    if verb == "GET" && !suffix then GetOrder
    else if verb == "PATCH" && suffix then UpdateOrderStatus
    else MethodNotAllowed
  }

  /**
   * Segments that `path.Clean` leaves alone: none is `.` or `..`, and only
   * the last may be empty (the trailing slash the mux keeps).
   */
  predicate CleanSegments(segs: seq<string>) {
    forall i :: 0 <= i < |segs| ==> segs[i] != "." && segs[i] != ".." && (segs[i] == "" ==> i == |segs| - 1)
  }

  /** A rooted path that the mux's cleaning leaves unchanged. */
  predicate Canonical(path: string) {
    |path| >= 1 && path[0] == '/' && CleanSegments(Split(path[1..], '/'))
  }

  /**
   * The mux: a path that cleaning would change is redirected with 301 (except
   * for CONNECT, whose path is not cleaned); otherwise the exact path
   * `/orders`, then anything under `/orders/`; other paths match no pattern.
   */
  function Dispatch(verb: string, path: string): (r: Route)
    ensures r == Redirect <==> verb != "CONNECT" && !Canonical(path)
    ensures r != Redirect && path == "/orders" ==> r == RootRoute(verb)
    ensures r != Redirect && path != "/orders" && |path| >= 8 && path[..8] == "/orders/" ==> r == SubtreeRoute(verb, path)
    ensures r == NoPattern <==>
              (verb == "CONNECT" || Canonical(path)) && path != "/orders" && !(|path| >= 8 && path[..8] == "/orders/")
  {
    if verb != "CONNECT" && !Canonical(path) then Redirect
    else if path == "/orders" then RootRoute(verb)
    else if |path| >= 8 && path[..8] == "/orders/" then SubtreeRoute(verb, path)
    else NoPattern
  }

  /** A slash in front of a string that neither starts nor ends with one is trimmed away. */
  lemma TrimLeadingSlash(inner: string)
    requires inner != [] && inner[0] != '/' && inner[|inner| - 1] != '/'
    ensures Trim("/" + inner, '/') == inner
  {
    assert ("/" + inner)[1..] == inner;
  }

  /** Slashes around a string that neither starts nor ends with one are trimmed away. */
  lemma TrimEnclosingSlashes(inner: string)
    requires inner != [] && inner[0] != '/' && inner[|inner| - 1] != '/'
    ensures Trim("/" + inner + "/", '/') == inner
  {
    assert ("/" + inner + "/")[1..] == inner + "/";
    assert (inner + "/")[..|inner|] == inner;
  }

  /** Two segments without slashes, joined by a slash, split back into those segments. */
  lemma SplitTwoSegments(a: string, b: string)
    requires '/' !in a && '/' !in b
    ensures Split(a + "/" + b, '/') == [a, b]
  {
    var two := [a, b];
    assert two[1..] == [b];
    assert Join(two, '/') == a + "/" + b;
    SplitJoin(two, '/');
  }

  /** Three segments without slashes, joined by slashes, split back into those segments. */
  lemma SplitThreeSegments(a: string, b: string, c: string)
    requires '/' !in a && '/' !in b && '/' !in c
    ensures Split(a + "/" + b + "/" + c, '/') == [a, b, c]
  {
    var three := [a, b, c];
    var rest := [b, c];
    assert three[1..] == rest && rest[1..] == [c];
    assert Join(rest, '/') == b + "/" + c;
    assert Join(three, '/') == a + "/" + (b + "/" + c);
    Regroup(a + "/", b + "/", c);
    Regroup(a + "/", b, "/");
    SplitJoin(three, '/');
  }

  lemma Regroup(x: string, y: string, z: string)
    ensures x + (y + z) == x + y + z
  {
  }

  /** `/{a}/{id}/{c}` has three segments and `/{a}/{id}` two, for segments without slashes. */
  lemma SegmentsOfPath(a: string, id: string, c: string)
    requires a != [] && c != [] && '/' !in a && '/' !in id && '/' !in c
    ensures Split(Trim("/" + a + "/" + id + "/" + c, '/'), '/') == [a, id, c]
    ensures id != [] ==> Split(Trim("/" + a + "/" + id, '/'), '/') == [a, id]
    ensures id == [] ==> Split(Trim("/" + a + "/" + id, '/'), '/') == [a]
  {
    var inner2 := a + "/" + id;
    Regroup("/", a + "/", id);
    Regroup("/", a, "/");
    assert "/" + a + "/" + id == "/" + inner2;
    var inner3 := inner2 + "/" + c;
    Regroup("/", inner2 + "/", c);
    Regroup("/", inner2, "/");
    assert "/" + a + "/" + id + "/" + c == "/" + inner3;
    assert inner3[0] == a[0] && inner3[|inner3| - 1] == c[|c| - 1];
    TrimLeadingSlash(inner3);
    SplitThreeSegments(a, id, c);
    if id != [] {
      assert inner2[0] == a[0] && inner2[|inner2| - 1] == id[|id| - 1];
      TrimLeadingSlash(inner2);
      SplitTwoSegments(a, id);
    } else {
      assert inner2 == a + "/";
      TrimEnclosingSlashes(a);
    }
  }

  lemma PrefixOf(p: string, rest: string)
    ensures (p + rest)[..|p|] == p
  {
  }

  /** The path pieces, spelled out. */
  lemma PathLiterals()
    ensures "/" + "orders" + "/" == "/orders/" && "/" + "status" == "/status"
    ensures '/' !in "orders" && '/' !in "status"
  {
  }

  /** `/orders/{id}/status` has the status suffix for every id without a slash, the empty id included. */
  lemma StatusPathHasSuffix(id: string)
    requires '/' !in id
    ensures HasStatusSuffix("/orders/" + id + "/status")
  {
    PathLiterals();
    SegmentsOfPath("orders", id, "status");
    Regroup("/orders/" + id, "/", "status");
  }

  /** `/orders/{id}` never has the status suffix when the id holds no slash. */
  lemma OrderPathHasNoSuffix(id: string)
    requires '/' !in id
    ensures !HasStatusSuffix("/orders/" + id)
  {
    PathLiterals();
    SegmentsOfPath("orders", id, "status");
  }

  /**
   * The `/orders/` pattern names no `{id}` wildcard, so the id a handler
   * reads from the path is always empty.
   */
  const MainPathId: string := ""

  /**
   * A request under `/orders/` as this wiring serves it: routed by method and
   * suffix, then handled with the empty path id.
   */
  function ServeSubtree(orders: map<string, OrderRow>, itemRows: seq<ItemRow>, verb: string, path: string,
                        status: Option<OrderStatus>, f: UpdateFaults): (o: UpdateOutcome)
    ensures o.response.status in {StatusBadRequest, StatusMethodNotAllowed}
    ensures o.orders == orders
  {
    match SubtreeRoute(verb, path)
    case GetOrder => UpdateOutcome(orders, GetResponse(orders, itemRows, MainPathId, f.row, f.items))
    case UpdateOrderStatus => UpdateStatusOutcome(orders, itemRows, MainPathId, status, f)
    case _ => UpdateOutcome(orders, NotAllowed)
  }

  /** Under this wiring reading an existing order answers 400, never 200. */
  lemma GetOrderIsBadRequest(orders: map<string, OrderRow>, itemRows: seq<ItemRow>, id: string, f: UpdateFaults)
    requires '/' !in id && id in orders
    ensures Dispatch("GET", "/orders/" + id) == (if id == "." || id == ".." then Redirect else GetOrder)
    ensures ServeSubtree(orders, itemRows, "GET", "/orders/" + id, None, f).response.status == StatusBadRequest
  {
    var path := "/orders/" + id;
    OrderPathHasNoSuffix(id);
    OrderPathSegments(id);
    CanonicalBySegments(path, ["orders", id]);
    CleanTwo("orders", id);
    assert path[..8] == "/orders/" && path != "/orders";
    assert SubtreeRoute("GET", path) == GetOrder;
  }

  /** A rooted path is canonical exactly when its segments are clean. */
  lemma CanonicalBySegments(path: string, segs: seq<string>)
    requires |path| >= 1 && path[0] == '/' && Split(path[1..], '/') == segs
    ensures Canonical(path) <==> CleanSegments(segs)
  {
  }

  /** A segment that is neither empty nor a dot segment. */
  predicate PlainSegment(seg: string) {
    seg != "" && seg != "." && seg != ".."
  }

  /** After a plain first segment, two segments are clean exactly when the second is no dot segment. */
  lemma CleanTwo(a: string, b: string)
    requires PlainSegment(a)
    ensures CleanSegments([a, b]) <==> b != "." && b != ".."
  {
    var segs := [a, b];
    if b != "." && b != ".." {
      forall i | 0 <= i < |segs|
        ensures segs[i] != "." && segs[i] != ".." && (segs[i] == "" ==> i == |segs| - 1)
      {
        if i == 0 { assert segs[i] == a; } else { assert segs[i] == b; }
      }
    } else {
      assert segs[1] == b;
    }
  }

  /** Between two plain segments, a middle segment keeps three segments clean exactly when it is plain. */
  lemma CleanThree(a: string, b: string, c: string)
    requires PlainSegment(a) && PlainSegment(c)
    ensures CleanSegments([a, b, c]) <==> PlainSegment(b)
  {
    var segs := [a, b, c];
    if PlainSegment(b) {
      forall i | 0 <= i < |segs|
        ensures segs[i] != "." && segs[i] != ".." && (segs[i] == "" ==> i == |segs| - 1)
      {
        if i == 0 { assert segs[i] == a; } else if i == 1 { assert segs[i] == b; } else { assert segs[i] == c; }
      }
    } else {
      assert segs[1] == b;
    }
  }

  lemma DropSlash(tail: string)
    ensures ("/" + tail)[0] == '/' && ("/" + tail)[1..] == tail
  {
  }

  /** `/orders/{id}` without the leading slash splits into `orders` and the id. */
  lemma OrderPathSegments(id: string)
    requires '/' !in id
    ensures var path := "/orders/" + id; |path| >= 1 && path[0] == '/' && Split(path[1..], '/') == ["orders", id]
  {
    var tail := "orders" + "/" + id;
    SplitTwoSegments("orders", id);
    DropSlash(tail);
    Regroup("/", "orders" + "/", id);
    assert "/" + ("orders" + "/") == "/orders/";
  }

  /** `/orders/{id}/status` without the leading slash splits into `orders`, the id and `status`. */
  lemma StatusPathSegments(id: string)
    requires '/' !in id
    ensures var path := "/orders/" + id + "/status";
      |path| >= 1 && path[0] == '/' && Split(path[1..], '/') == ["orders", id, "status"]
  {
    PathLiterals();
    ThreeSegmentPath("orders", id, "status");
    Regroup("/orders/" + id, "/", "status");
  }

  /** `/{a}/{b}/{c}` without the leading slash splits into its three segments. */
  lemma ThreeSegmentPath(a: string, b: string, c: string)
    requires '/' !in a && '/' !in b && '/' !in c
    ensures var path := "/" + a + "/" + b + "/" + c;
      |path| >= 1 && path[0] == '/' && Split(path[1..], '/') == [a, b, c]
  {
    var inner := a + "/" + b + "/" + c;
    Regroup("/", a + "/" + b + "/", c);
    Regroup("/", a + "/" + b, "/");
    Regroup("/", a + "/", b);
    Regroup("/", a, "/");
    DropSlash(inner);
    SplitThreeSegments(a, b, c);
  }

  /** An empty segment under `/orders/`, as in `/orders//abc`, is redirected. */
  lemma EmptySegmentRedirects(verb: string, id: string)
    requires verb != "CONNECT" && '/' !in id
    ensures Dispatch(verb, "/orders//" + id) == Redirect
  {
    ThreeSegmentPath("orders", "", id);
    PathLiterals();
    assert "/orders/" + "" == "/orders/" && "/orders/" + "/" == "/orders//";
    CanonicalBySegments("/orders//" + id, ["orders", "", id]);
    EmptyMiddleUnclean("orders", id);
  }

  /** An empty segment between two others is never clean. */
  lemma EmptyMiddleUnclean(a: string, c: string)
    ensures !CleanSegments([a, "", c])
  {
    assert [a, "", c][1] == "";
  }

  /** A string that starts with a slash splits into an empty segment and at least one more. */
  lemma LeadingSlashSegment(s: string)
    requires |s| >= 1 && s[0] == '/'
    ensures var segs := Split(s, '/'); |segs| >= 2 && segs[0] == ""
  {
    assert IndexOfChar(s, '/') == 0;
  }

  /** A `.` or `..` segment under `/orders/`, as in `/orders/.`, is redirected. */
  lemma DotSegmentRedirects(verb: string, id: string)
    requires verb != "CONNECT" && (id == "." || id == "..")
    ensures Dispatch(verb, "/orders/" + id) == Redirect
  {
    OrderPathSegments(id);
    CanonicalBySegments("/orders/" + id, ["orders", id]);
    CleanTwo("orders", id);
  }

  /** A path that starts with two slashes is always redirected. */
  lemma DoubledSlashRedirects(verb: string, path: string)
    requires verb != "CONNECT" && |path| >= 2 && path[0] == '/' && path[1] == '/'
    ensures Dispatch(verb, path) == Redirect
  {
    LeadingSlashSegment(path[1..]);
  }

  /**
   * `PATCH /orders/{id}/status` reaches the status update for every id
   * without a slash, except an empty, `.` or `..` id, which the mux redirects.
   */
  lemma PatchStatusRoute(id: string)
    requires '/' !in id
    ensures Dispatch("PATCH", "/orders/" + id + "/status") ==
              (if id == "" || id == "." || id == ".." then Redirect else UpdateOrderStatus)
    ensures SubtreeRoute("PATCH", "/orders/" + id + "/status") == UpdateOrderStatus
  {
    var path := "/orders/" + id + "/status";
    StatusPathHasSuffix(id);
    StatusPathSegments(id);
    CanonicalBySegments(path, ["orders", id, "status"]);
    CleanThree("orders", id, "status");
    Regroup("/orders/", id, "/status");
    PrefixOf("/orders/", id + "/status");
    assert |path| > 7;
  }

  /** Under this wiring a status update of an existing order answers 400 and leaves it as it was. */
  lemma UpdateStatusIsBadRequest(orders: map<string, OrderRow>, itemRows: seq<ItemRow>, id: string,
                                 status: OrderStatus, f: UpdateFaults)
    requires '/' !in id && id in orders
    ensures var o := ServeSubtree(orders, itemRows, "PATCH", "/orders/" + id + "/status", Some(status), f);
      o.response.status == StatusBadRequest && o.orders == orders
  {
    PatchStatusRoute(id);
  }

  /** A PATCH without the suffix, or a GET with it, is not allowed. */
  lemma MismatchedMethodNotAllowed(id: string)
    requires '/' !in id
    ensures SubtreeRoute("PATCH", "/orders/" + id) == MethodNotAllowed
    ensures SubtreeRoute("GET", "/orders/" + id + "/status") == MethodNotAllowed
  {
    OrderPathHasNoSuffix(id);
    StatusPathHasSuffix(id);
  }

  /**
   * The brokers of the event producer: none when `KAFKA_BROKERS` is empty,
   * otherwise its comma-separated parts.
   */
  function ProducerBrokers(kafkaBrokers: string): (r: Option<seq<string>>)
    ensures r.Some? <==> kafkaBrokers != ""
    ensures r.Some? ==> |r.value| >= 1 && Join(r.value, ',') == kafkaBrokers
    ensures r.Some? ==> forall b :: b in r.value ==> ',' !in b
  {
    if kafkaBrokers == "" then None
    else
      JoinSplit(kafkaBrokers, ',');
      Some(Split(kafkaBrokers, ','))
  }
}

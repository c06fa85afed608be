/**
  The REST API's write handlers and their pending-approval workflow
  (`rentals/api_views.py`). A superuser writes straight to the live tables; anyone
  else leaves a pending record that a staff member later approves or rejects.
  The ORM tables become maps from primary key to record inside one store object.
  The database hands out primary keys; here a fresh key is a parameter of every
  handler that inserts a row.
*/
module Approval {
  import opened Options
  import opened Calendar
  import opened Text

  type Key = int
  type UserKey = int

  /** The authenticated user making the request. */
  datatype User = User(id: UserKey, isSuperuser: bool, isStaff: bool)

  /** A live `ProductAsset` row; money in cents, nullable columns as options. */
  datatype Asset = Asset(
    assetId: string, typeOfAsset: Option<int>, brand: string, modelNo: string,
    serialNo: Option<string>, purchasePrice: Option<int>, currentValue: Option<int>,
    purchaseDate: Option<Date>, conditionStatus: string, editedBy: Option<UserKey>, revenue: int)

  /** A product form the serializer has validated; `asset_id` may be absent. */
  datatype ProductInput = ProductInput(
    assetId: Option<string>, typeOfAsset: int, brand: string, modelNo: string,
    serialNo: Option<string>, purchasePrice: int, currentValue: int,
    purchaseDate: Date, conditionStatus: string)

  datatype PendingKind = Add | Edit

  /** A `PendingProduct` row: a submitted add or edit waiting for a staff decision. */
  datatype PendingProduct = PendingProduct(
    submittedBy: UserKey, kind: PendingKind, original: Option<Key>,
    typeOfAsset: Option<int>, brand: string, modelNo: string, serialNo: Option<string>,
    purchasePrice: Option<int>, currentValue: Option<int>, purchaseDate: Option<Date>,
    conditionStatus: string, assetId: string)

  /** A rental form the serializer has validated; `status` and `payment_amount` may be absent. */
  datatype RentalInput = RentalInput(
    customer: Key, asset: Key, start: Date, end: Option<Date>,
    status: Option<string>, paymentAmount: Option<int>)

  /** A live `Rental` row; an absent status or payment is left to the table's default. */
  datatype Rental = Rental(
    customer: Key, asset: Key, start: Date, end: Option<Date>,
    status: Option<string>, paymentAmount: Option<int>, editedBy: Option<UserKey>)

  /** A `PendingRental` row. */
  datatype PendingRental = PendingRental(
    submittedBy: UserKey, customer: Key, asset: Key, start: Date, status: string, paymentAmount: int)

  /** A customer form, field name to value, as the serializer validated it. */
  type CustomerData = map<string, string>

  /** The handlers' responses. */
  datatype Reply =
    | Created(key: Key)
    | Accepted(message: string)
    | Updated(key: Key)
    | BadRequest
    | Forbidden
    | NotFound
    | Decided(status: string)

  /** The HTTP status of each response. */
  function StatusCode(r: Reply): (code: int)
    ensures 200 <= code < 500
    ensures code == 404 <==> r.NotFound?
    ensures code == 202 <==> r.Accepted?
  {
    match r
    case Created(_) => 201
    case Accepted(_) => 202
    case Updated(_) => 200
    case BadRequest => 400
    case Forbidden => 403
    case NotFound => 404
    case Decided(_) => 200
  }

  /** `data.get('asset_id', '')`. */
  function AssetIdOrBlank(input: ProductInput): string {
    if input.assetId.Some? then input.assetId.value else ""
  }

  /** The row a superuser's create saves, stamped `edited_by`; revenue starts at zero. */
  function NewAsset(input: ProductInput, user: User): Asset {
    Asset(AssetIdOrBlank(input), Some(input.typeOfAsset), input.brand, input.modelNo, input.serialNo,
          Some(input.purchasePrice), Some(input.currentValue), Some(input.purchaseDate),
          input.conditionStatus, Some(user.id), 0)
  }

  /** A superuser's full update: every writable column from the form; `edited_by` and `revenue` are read-only. */
  function UpdatedAsset(a: Asset, input: ProductInput): (r: Asset)
    ensures r.editedBy == a.editedBy && r.revenue == a.revenue
  {
    a.(assetId := if input.assetId.Some? then input.assetId.value else a.assetId,
       typeOfAsset := Some(input.typeOfAsset), brand := input.brand, modelNo := input.modelNo,
       serialNo := input.serialNo, purchasePrice := Some(input.purchasePrice),
       currentValue := Some(input.currentValue), purchaseDate := Some(input.purchaseDate),
       conditionStatus := input.conditionStatus)
  }

  /** The pending `'add'` record of a non-superuser's create: the form's fields, no original. */
  function PendingAdd(input: ProductInput, user: User): PendingProduct {
    PendingProduct(user.id, Add, None, Some(input.typeOfAsset), input.brand, input.modelNo, input.serialNo,
                   Some(input.purchasePrice), Some(input.currentValue), Some(input.purchaseDate),
                   input.conditionStatus, AssetIdOrBlank(input))
  }

  /** The pending `'edit'` record of a non-superuser's update: only submitter, kind and original are set. */
  function PendingEdit(user: User, original: Key): PendingProduct {
    PendingProduct(user.id, Edit, Some(original), None, "", "", None, None, None, None, "", "")
  }

  /** The row a superuser's rental create saves. */
  function NewRental(input: RentalInput, user: User): Rental {
    Rental(input.customer, input.asset, input.start, input.end, input.status, input.paymentAmount, Some(user.id))
  }

  /** The pending rental of a non-superuser: status defaults to `'ongoing'`, payment to 0, no end date. */
  function PendingRentalOf(input: RentalInput, user: User): PendingRental {
    PendingRental(user.id, input.customer, input.asset, input.start,
                  if input.status.Some? then input.status.value else "ongoing",
                  if input.paymentAmount.Some? then input.paymentAmount.value else 0)
  }

  /** Approving an edit copies only `brand` and `model_no` onto the original. */
  function Patched(a: Asset, p: PendingProduct): (r: Asset)
    ensures r.brand == p.brand && r.modelNo == p.modelNo
    ensures r.(brand := a.brand, modelNo := a.modelNo) == a
  {
    a.(brand := p.brand, modelNo := p.modelNo)
  }

  /** Approving an add creates a row from the pending fields, `edited_by` the submitter. */
  function AssetFromPending(p: PendingProduct): (r: Asset)
    ensures r.assetId == p.assetId && r.editedBy == Some(p.submittedBy)
    ensures r.brand == p.brand && r.modelNo == p.modelNo && r.typeOfAsset == p.typeOfAsset
    ensures r.conditionStatus == p.conditionStatus && r.revenue == 0
  {
    Asset(p.assetId, p.typeOfAsset, p.brand, p.modelNo, None, None, None, None, p.conditionStatus, Some(p.submittedBy), 0)
  }

  /** Whether approving `p` patches its original rather than creating a row. */
  predicate PatchesOriginal(p: PendingProduct) {
    p.kind == Edit && p.original.Some?
  }

  /**
    The live assets after approving `p`: either the original is patched in place, or
    exactly one row is added at `newKey`; no other row changes.
  */
  function ApprovedAssets(assets: map<Key, Asset>, p: PendingProduct, newKey: Key): (r: map<Key, Asset>)
    requires PatchesOriginal(p) ==> p.original.value in assets
    requires newKey !in assets
    ensures PatchesOriginal(p) ==> r.Keys == assets.Keys && r[p.original.value] == Patched(assets[p.original.value], p)
    ensures !PatchesOriginal(p) ==> r.Keys == assets.Keys + {newKey} && r[newKey] == AssetFromPending(p)
    ensures forall k :: k in assets && !(PatchesOriginal(p) && k == p.original.value) ==> r[k] == assets[k]
  {
    if PatchesOriginal(p) then
      assets[p.original.value := Patched(assets[p.original.value], p)]
    else
      assets[newKey := AssetFromPending(p)]
  }

  /** The API's store: the live tables and the pending tables. */
  class ApiStore {
    var assets: map<Key, Asset>
    var pendingProducts: map<Key, PendingProduct>
    var rentals: map<Key, Rental>
    var pendingRentals: map<Key, PendingRental>
    var customers: map<Key, CustomerData>

    /** Foreign keys resolve: pending edits name live assets, rentals name live assets and customers. */
    ghost predicate Valid()
      reads this
    {
      (forall k :: k in pendingProducts && pendingProducts[k].original.Some? ==> pendingProducts[k].original.value in assets)
      && (forall k :: k in rentals ==> rentals[k].asset in assets && rentals[k].customer in customers)
      && (forall k :: k in pendingRentals ==> pendingRentals[k].asset in assets && pendingRentals[k].customer in customers)
    }

    constructor ()
      ensures Valid()
      ensures assets == map[] && pendingProducts == map[] && rentals == map[]
      ensures pendingRentals == map[] && customers == map[]
    {
      assets := map[];
      pendingProducts := map[];
      rentals := map[];
      pendingRentals := map[];
      customers := map[];
    }

    /** `ProductAssetViewSet.create`. */
    method ProductCreate(user: User, input: ProductInput, newKey: Key) returns (reply: Reply)
      requires Valid()
      requires user.isSuperuser ==> newKey !in assets
      requires !user.isSuperuser ==> newKey !in pendingProducts
      modifies this
      ensures Valid()
      ensures user.isSuperuser ==>
                reply == Created(newKey) && assets == old(assets)[newKey := NewAsset(input, user)]
                && pendingProducts == old(pendingProducts)
      ensures !user.isSuperuser ==>
                reply == Accepted("Submitted for approval") && assets == old(assets)
                && pendingProducts == old(pendingProducts)[newKey := PendingAdd(input, user)]
      ensures rentals == old(rentals) && pendingRentals == old(pendingRentals) && customers == old(customers)
    {
      if user.isSuperuser {
        assets := assets[newKey := NewAsset(input, user)];
        reply := Created(newKey);
      } else {
        pendingProducts := pendingProducts[newKey := PendingAdd(input, user)];
        reply := Accepted("Submitted for approval");
      }
    }

    /** `ProductAssetViewSet.update`: 404 for a missing row, else a direct or a pending edit. */
    method ProductUpdate(user: User, key: Key, input: ProductInput, newKey: Key) returns (reply: Reply)
      requires Valid()
      requires !user.isSuperuser ==> newKey !in pendingProducts
      modifies this
      ensures Valid()
      ensures key !in old(assets) ==>
                reply == NotFound && assets == old(assets) && pendingProducts == old(pendingProducts)
      ensures key in old(assets) && user.isSuperuser ==>
                reply == Updated(key) && assets == old(assets)[key := UpdatedAsset(old(assets)[key], input)]
                && pendingProducts == old(pendingProducts)
      ensures key in old(assets) && !user.isSuperuser ==>
                reply == Accepted("Edit submitted for approval") && assets == old(assets)
                && pendingProducts == old(pendingProducts)[newKey := PendingEdit(user, key)]
      ensures rentals == old(rentals) && pendingRentals == old(pendingRentals) && customers == old(customers)
    {
      if key !in assets {
        return NotFound;
      }
      if user.isSuperuser {
        assets := assets[key := UpdatedAsset(assets[key], input)];
        reply := Updated(key);
      } else {
        pendingProducts := pendingProducts[newKey := PendingEdit(user, key)];
        reply := Accepted("Edit submitted for approval");
      }
    }

    /** `RentalViewSet.create`; the serializer refuses a customer or asset that does not exist. */
    method RentalCreate(user: User, input: RentalInput, newKey: Key) returns (reply: Reply)
      requires Valid()
      requires user.isSuperuser ==> newKey !in rentals
      requires !user.isSuperuser ==> newKey !in pendingRentals
      modifies this
      ensures Valid()
      ensures !(input.customer in old(customers) && input.asset in old(assets)) ==>
                reply == BadRequest && rentals == old(rentals) && pendingRentals == old(pendingRentals)
      ensures input.customer in old(customers) && input.asset in old(assets) && user.isSuperuser ==>
                reply == Created(newKey) && rentals == old(rentals)[newKey := NewRental(input, user)]
                && pendingRentals == old(pendingRentals)
      ensures input.customer in old(customers) && input.asset in old(assets) && !user.isSuperuser ==>
                reply == Accepted("Rental submitted for approval") && rentals == old(rentals)
                && pendingRentals == old(pendingRentals)[newKey := PendingRentalOf(input, user)]
      ensures assets == old(assets) && pendingProducts == old(pendingProducts) && customers == old(customers)
    {
      if !(input.customer in customers && input.asset in assets) {
        return BadRequest;
      }
      if user.isSuperuser {
        rentals := rentals[newKey := NewRental(input, user)];
        reply := Created(newKey);
      } else {
        pendingRentals := pendingRentals[newKey := PendingRentalOf(input, user)];
        reply := Accepted("Rental submitted for approval");
      }
    }

    /** `CustomerViewSet.create`: a non-superuser is told "accepted" but nothing is stored. */
    method CustomerCreate(user: User, data: CustomerData, newKey: Key) returns (reply: Reply)
      requires Valid()
      requires user.isSuperuser ==> newKey !in customers
      modifies this
      ensures Valid()
      ensures user.isSuperuser ==> reply == Created(newKey) && customers == old(customers)[newKey := data]
      ensures !user.isSuperuser ==> reply == Accepted("Customer submitted for approval") && customers == old(customers)
      ensures assets == old(assets) && pendingProducts == old(pendingProducts)
      ensures rentals == old(rentals) && pendingRentals == old(pendingRentals)
    {
      if !user.isSuperuser {
        return Accepted("Customer submitted for approval");
      }
      customers := customers[newKey := data];
      reply := Created(newKey);
    }

    /** `ApprovalDashboardViewSet.approve_product` (staff only). */
    method ApproveProduct(user: User, pk: Key, newKey: Key) returns (reply: Reply)
      requires Valid()
      requires newKey !in assets
      modifies this
      ensures Valid()
      ensures !user.isStaff ==> reply == Forbidden && assets == old(assets) && pendingProducts == old(pendingProducts)
      ensures user.isStaff && pk !in old(pendingProducts) ==>
                reply == NotFound && assets == old(assets) && pendingProducts == old(pendingProducts)
      ensures user.isStaff && pk in old(pendingProducts) ==>
                reply == Decided("Approved")
                && assets == ApprovedAssets(old(assets), old(pendingProducts)[pk], newKey)
                && pendingProducts == old(pendingProducts) - {pk}
      ensures rentals == old(rentals) && pendingRentals == old(pendingRentals) && customers == old(customers)
    {
      if !user.isStaff {
        return Forbidden;
      }
      if pk !in pendingProducts {
        return NotFound;
      }
      var pending := pendingProducts[pk];
      if pending.kind == Edit && pending.original.Some? {
        var prod := assets[pending.original.value];
        assets := assets[pending.original.value := prod.(brand := pending.brand, modelNo := pending.modelNo)];
      } else {
        assets := assets[newKey := AssetFromPending(pending)];
      }
      pendingProducts := pendingProducts - {pk};
      reply := Decided("Approved");
    }

    /** `ApprovalDashboardViewSet.reject_product` (staff only): the pending row is deleted, nothing else. */
    method RejectProduct(user: User, pk: Key) returns (reply: Reply)
      requires Valid()
      modifies this
      ensures Valid()
      ensures !user.isStaff ==> reply == Forbidden && pendingProducts == old(pendingProducts)
      ensures user.isStaff && pk !in old(pendingProducts) ==> reply == NotFound && pendingProducts == old(pendingProducts)
      ensures user.isStaff && pk in old(pendingProducts) ==>
                reply == Decided("Rejected") && pendingProducts == old(pendingProducts) - {pk}
      ensures assets == old(assets) && rentals == old(rentals)
      ensures pendingRentals == old(pendingRentals) && customers == old(customers)
    {
      if !user.isStaff {
        return Forbidden;
      }
      if pk !in pendingProducts {
        return NotFound;
      }
      pendingProducts := pendingProducts - {pk};
      reply := Decided("Rejected");
    }
  }

  /** An approved edit keeps the row's identity and every column but `brand` and `model_no`. */
  lemma ApprovedEditKeepsIdentity(assets: map<Key, Asset>, p: PendingProduct, newKey: Key)
    requires PatchesOriginal(p) && p.original.value in assets && newKey !in assets
    ensures var before := assets[p.original.value];
            var after := ApprovedAssets(assets, p, newKey)[p.original.value];
            after.assetId == before.assetId && after.serialNo == before.serialNo
            && after.typeOfAsset == before.typeOfAsset && after.purchasePrice == before.purchasePrice
            && after.currentValue == before.currentValue && after.purchaseDate == before.purchaseDate
            && after.conditionStatus == before.conditionStatus && after.editedBy == before.editedBy
            && after.revenue == before.revenue
  {
    var before := assets[p.original.value];
    assert Patched(before, p).(brand := before.brand, modelNo := before.modelNo) == before;
  }

  /**
    An edit submitted through the API carries no field values, so approving it blanks
    the original's `brand` and `model_no`.
  */
  lemma ApiEditApprovalBlanksBrand(assets: map<Key, Asset>, user: User, original: Key, newKey: Key)
    requires original in assets && newKey !in assets
    ensures var after := ApprovedAssets(assets, PendingEdit(user, original), newKey);
            after.Keys == assets.Keys && after[original].brand == "" && after[original].modelNo == ""
  {
  }

  /** Approving an add grows the table by exactly one row, whatever the fresh key. */
  lemma ApprovedAddAddsOneRow(assets: map<Key, Asset>, p: PendingProduct, newKey: Key)
    requires !PatchesOriginal(p) && newKey !in assets
    ensures |ApprovedAssets(assets, p, newKey).Keys| == |assets.Keys| + 1
  {
    assert ApprovedAssets(assets, p, newKey).Keys == assets.Keys + {newKey};
  }

  /** The `get_queryset` query string parameters that are present and non-empty. */
  datatype QueryParams = QueryParams(q: string, startDate: Option<Date>, endDate: Option<Date>, assetType: Option<int>)

  /** `asset_id`, `brand`, `model_no` or `serial_no` contains the query, ignoring case. */
  predicate MatchesQuery(a: Asset, q: string) {
    IContains(a.assetId, q) || IContains(a.brand, q) || IContains(a.modelNo, q)
    || (a.serialNo.Some? && IContains(a.serialNo.value, q))
  }

  /** `purchase_date__gte`; a row with no purchase date never matches. */
  predicate PurchasedOnOrAfter(a: Asset, d: Date) {
    a.purchaseDate.Some? && LessEq(d, a.purchaseDate.value)
  }

  /** `purchase_date__lte`. */
  predicate PurchasedOnOrBefore(a: Asset, d: Date) {
    a.purchaseDate.Some? && LessEq(a.purchaseDate.value, d)
  }

  /** One row passes every filter whose parameter is present. */
  predicate Matches(a: Asset, params: QueryParams) {
    (params.q != "" ==> MatchesQuery(a, params.q))
    && (params.startDate.Some? ==> PurchasedOnOrAfter(a, params.startDate.value))
    && (params.endDate.Some? ==> PurchasedOnOrBefore(a, params.endDate.value))
    && (params.assetType.Some? ==> a.typeOfAsset == Some(params.assetType.value))
  }

  /**
    `qs.filter(...)`: the rows that pass, in their order. A passing row appears as
    often as in `qs`, any other row not at all.
  */
  function Filter(qs: seq<Asset>, keep: Asset -> bool): (r: seq<Asset>)
    ensures |r| <= |qs|
    ensures forall a :: a in r <==> a in qs && keep(a)
    ensures forall a :: multiset(r)[a] == if keep(a) then multiset(qs)[a] else 0
  {
    if qs == [] then []
    else
      assert qs == [qs[0]] + qs[1..];
      if keep(qs[0]) then [qs[0]] + Filter(qs[1..], keep)
      else Filter(qs[1..], keep)
  }

  /**
    `get_queryset`: the chain of filters, one per present parameter. A row is kept
    as often as it occurs exactly when it passes them all.
  */
  function GetQueryset(qs: seq<Asset>, params: QueryParams): (r: seq<Asset>)
    ensures |r| <= |qs|
    ensures forall a :: a in r <==> a in qs && Matches(a, params)
    ensures forall a :: multiset(r)[a] == if Matches(a, params) then multiset(qs)[a] else 0
  {
    var byQuery := if params.q != "" then Filter(qs, (a: Asset) => MatchesQuery(a, params.q)) else qs;
    var byStart := if params.startDate.Some? then Filter(byQuery, (a: Asset) => PurchasedOnOrAfter(a, params.startDate.value)) else byQuery;
    var byEnd := if params.endDate.Some? then Filter(byStart, (a: Asset) => PurchasedOnOrBefore(a, params.endDate.value)) else byStart;
    if params.assetType.Some? then Filter(byEnd, (a: Asset) => a.typeOfAsset == Some(params.assetType.value)) else byEnd
  }

  /** Filtering twice by the same test filters once. */
  lemma {:induction false} FilterIdempotent(qs: seq<Asset>, keep: Asset -> bool)
    ensures Filter(Filter(qs, keep), keep) == Filter(qs, keep)
  {
    if qs != [] {
      FilterIdempotent(qs[1..], keep);
      if keep(qs[0]) {
        assert ([qs[0]] + Filter(qs[1..], keep))[1..] == Filter(qs[1..], keep);
      }
    }
  }

  /** Filtering keeps the order of the rows: a concatenation is filtered part by part. */
  lemma {:induction false} FilterAppend(xs: seq<Asset>, ys: seq<Asset>, keep: Asset -> bool)
    ensures Filter(xs + ys, keep) == Filter(xs, keep) + Filter(ys, keep)
  {
    if xs == [] {
      assert xs + ys == ys;
    } else {
      assert (xs + ys)[0] == xs[0] && (xs + ys)[1..] == xs[1..] + ys;
      FilterAppend(xs[1..], ys, keep);
    }
  }

  /** Filtering by two tests that agree on every row gives the same rows. */
  lemma {:induction false} FilterSameTest(qs: seq<Asset>, f: Asset -> bool, g: Asset -> bool)
    requires forall a :: f(a) == g(a)
    ensures Filter(qs, f) == Filter(qs, g)
  {
    if qs != [] {
      FilterSameTest(qs[1..], f, g);
    }
  }

  /** A test that every row passes keeps the whole queryset. */
  lemma {:induction false} FilterKeepsAll(qs: seq<Asset>, keep: Asset -> bool)
    requires forall a :: keep(a)
    ensures Filter(qs, keep) == qs
  {
    if qs != [] {
      FilterKeepsAll(qs[1..], keep);
      assert [qs[0]] + qs[1..] == qs;
    }
  }

  /** Chaining two filters is one filter by both tests. */
  lemma {:induction false} FilterThenFilter(qs: seq<Asset>, f: Asset -> bool, g: Asset -> bool, both: Asset -> bool)
    requires forall a :: both(a) == (f(a) && g(a))
    ensures Filter(Filter(qs, f), g) == Filter(qs, both)
  {
    if qs != [] {
      FilterThenFilter(qs[1..], f, g, both);
      if f(qs[0]) {
        assert ([qs[0]] + Filter(qs[1..], f))[0] == qs[0];
        assert ([qs[0]] + Filter(qs[1..], f))[1..] == Filter(qs[1..], f);
      }
    }
  }

  /** A filter applied only when its parameter is present is a filter by "absent, or passes". */
  lemma OptionalFilter(qs: seq<Asset>, present: bool, f: Asset -> bool, test: Asset -> bool)
    requires forall a :: test(a) == (present ==> f(a))
    ensures (if present then Filter(qs, f) else qs) == Filter(qs, test)
  {
    if present {
      FilterSameTest(qs, f, test);
    } else {
      FilterKeepsAll(qs, test);
    }
  }

  /** The chain of `get_queryset` is one order-keeping filter by `Matches`. */
  lemma GetQuerysetIsOneFilter(qs: seq<Asset>, params: QueryParams)
    ensures GetQueryset(qs, params) == Filter(qs, (a: Asset) => Matches(a, params))
  {
    var fq := (a: Asset) => MatchesQuery(a, params.q);
    var fs := (a: Asset) => params.startDate.Some? && PurchasedOnOrAfter(a, params.startDate.value);
    var fe := (a: Asset) => params.endDate.Some? && PurchasedOnOrBefore(a, params.endDate.value);
    var ft := (a: Asset) => params.assetType.Some? && a.typeOfAsset == Some(params.assetType.value);
    var t1 := (a: Asset) => params.q != "" ==> fq(a);
    var t2 := (a: Asset) => params.startDate.Some? ==> fs(a);
    var t3 := (a: Asset) => params.endDate.Some? ==> fe(a);
    var t4 := (a: Asset) => params.assetType.Some? ==> ft(a);
    var t12 := (a: Asset) => t1(a) && t2(a);
    var t123 := (a: Asset) => t12(a) && t3(a);
    var t1234 := (a: Asset) => t123(a) && t4(a);
    var byQuery := if params.q != "" then Filter(qs, (a: Asset) => MatchesQuery(a, params.q)) else qs;
    var byStart := if params.startDate.Some? then Filter(byQuery, (a: Asset) => PurchasedOnOrAfter(a, params.startDate.value)) else byQuery;
    var byEnd := if params.endDate.Some? then Filter(byStart, (a: Asset) => PurchasedOnOrBefore(a, params.endDate.value)) else byStart;
    var last := if params.assetType.Some? then Filter(byEnd, (a: Asset) => a.typeOfAsset == Some(params.assetType.value)) else byEnd;
    OptionalFilter(qs, params.q != "", (a: Asset) => MatchesQuery(a, params.q), t1);
    OptionalFilter(byQuery, params.startDate.Some?, fs, t2);
    if params.startDate.Some? {
      FilterSameTest(byQuery, (a: Asset) => PurchasedOnOrAfter(a, params.startDate.value), fs);
    }
    FilterThenFilter(qs, t1, t2, t12);
    OptionalFilter(byStart, params.endDate.Some?, fe, t3);
    if params.endDate.Some? {
      FilterSameTest(byStart, (a: Asset) => PurchasedOnOrBefore(a, params.endDate.value), fe);
    }
    FilterThenFilter(qs, t12, t3, t123);
    OptionalFilter(byEnd, params.assetType.Some?, ft, t4);
    if params.assetType.Some? {
      FilterSameTest(byEnd, (a: Asset) => a.typeOfAsset == Some(params.assetType.value), ft);
    }
    FilterThenFilter(qs, t123, t4, t1234);
    assert last == Filter(qs, t1234);
    FilterSameTest(qs, t1234, (a: Asset) => Matches(a, params));
  }

  /** With no parameters the queryset is every row. */
  lemma NoParamsNoFilter(qs: seq<Asset>)
    ensures GetQueryset(qs, QueryParams("", None, None, None)) == qs
  {
  }
}

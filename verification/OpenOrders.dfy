/** The open-orders check of reconciliation/checks.py: two lists of orders are turned into books
    keyed by stripped order id and compared field by field on canonical text. */
module OpenOrders {
  import opened Decimals
  import opened Sorting
  import Text

  /** `Decimal(raw)` restricted to finite results; `None` where it raises. */
  type Reader = string -> Option<Decimal>

  datatype Severity = Ok | Warning | Unknown | Mismatch
  datatype Party = Expected | Observed

  /** One entry of `open_orders` after payload validation; optional keys may be absent. */
  datatype Order = Order(orderId: string, symbol: string, side: string, kind: string, qty: string,
                         price: Option<string>, timeInForce: Option<string>, status: Option<string>)

  datatype Field = Symbol | SideField | KindField | Qty | Price | TimeInForce | Status

  const REQUIRED: seq<Field> := [Symbol, SideField, KindField, Qty, Price]
  const OPTIONAL: seq<Field> := [TimeInForce, Status]

  /** The canonical form of an order. */
  datatype CanonicalOrder = CanonicalOrder(symbol: string, side: string, kind: string, qty: string,
                                           price: Option<string>, timeInForce: Option<string>, status: Option<string>)
  {
    function Get(f: Field): Option<string> {
      match f
      case Symbol => Some(symbol)
      case SideField => Some(side)
      case KindField => Some(kind)
      case Qty => Some(qty)
      case Price => price
      case TimeInForce => timeInForce
      case Status => status
    }
  }

  type Book = map<string, CanonicalOrder>

  /** Why a check cannot decide. */
  datatype Issue = DuplicateOrder(party: Party, orderId: string) | UnreadableQty(party: Party, orderId: string)
    | UnreadablePrice(party: Party, orderId: string)

  datatype BookResult = Built(book: Book) | Refused(issue: Issue)

  /** One entry of `deltas`. */
  datatype Delta =
    | MissingInObserved(ids: seq<string>)
    | ExtraInObserved(ids: seq<string>)
    | Differs(orderId: string, field: Field, expected: Option<string>, observed: Option<string>)

  datatype OrdersCheck = OrdersUnknown(issue: Issue) | OrdersMismatch(deltas: seq<Delta>) | OrdersMatched {
    function Severity(): Severity {
      match this
      case OrdersUnknown(_) => Unknown
      case OrdersMismatch(_) => Mismatch
      case OrdersMatched => Ok
    }
  }

  // ---------------------------------------------------------------- books, declaratively

  function Id(o: Order): string {
    Text.Strip(o.orderId)
  }

  predicate Readable(read: Reader, o: Order) {
    read(o.qty).Some? && (o.price.Some? ==> read(o.price.value).Some?)
  }

  /** Ids pairwise distinct after stripping, every number readable. */
  predicate WellFormed(read: Reader, orders: seq<Order>) {
    && (forall i :: 0 <= i < |orders| ==> Readable(read, orders[i]))
    && (forall i, j :: 0 <= i < j < |orders| ==> Id(orders[i]) != Id(orders[j]))
  }

  function Canonical(read: Reader, o: Order): CanonicalOrder
    requires Readable(read, o)
  {
    CanonicalOrder(
      Text.Strip(o.symbol), o.side, o.kind, RenderDecimal(read(o.qty).value),
      if o.price.Some? then Some(RenderDecimal(read(o.price.value).value)) else None,
      o.timeInForce, o.status)
  }

  /** The book of a well-formed list: every order under its id, and nothing else. */
  ghost predicate IsBook(read: Reader, orders: seq<Order>, book: Book) {
    && (forall i :: 0 <= i < |orders| ==>
          Readable(read, orders[i]) && Id(orders[i]) in book && book[Id(orders[i])] == Canonical(read, orders[i]))
    && (forall id <- book :: exists i :: 0 <= i < |orders| && Id(orders[i]) == id)
  }

  predicate Known(orders: seq<Order>, id: string) {
    exists i :: 0 <= i < |orders| && Id(orders[i]) == id
  }

  /** `issue` is what order `o` is refused for when `before` was accepted. */
  predicate RefusedFor(read: Reader, before: seq<Order>, o: Order, party: Party, issue: Issue) {
    if Known(before, Id(o)) then issue == DuplicateOrder(party, Id(o))
    else if read(o.qty).None? then issue == UnreadableQty(party, Id(o))
    else o.price.Some? && read(o.price.value).None? && issue == UnreadablePrice(party, Id(o))
  }

  /** The error raised for a list that is not well-formed: that of the first order at fault. */
  ghost predicate IsFirstIssue(read: Reader, orders: seq<Order>, party: Party, issue: Issue) {
    exists i :: 0 <= i < |orders| && WellFormed(read, orders[..i])
             && RefusedFor(read, orders[..i], orders[i], party, issue)
  }

  lemma KnownInBook(read: Reader, orders: seq<Order>, book: Book, id: string)
    requires IsBook(read, orders, book)
    ensures id in book <==> Known(orders, id)
  {
    hide Id, Canonical;
  }

  lemma KnownSnoc(before: seq<Order>, o: Order, id: string)
    ensures Known(before + [o], id) <==> Known(before, id) || Id(o) == id
  {
    hide Id;
    var all := before + [o];
    assert all[|before|] == o;
    assert forall i :: 0 <= i < |before| ==> before[i] == all[i];
  }

  lemma WellFormedSnoc(read: Reader, before: seq<Order>, o: Order)
    requires WellFormed(read, before)
    ensures WellFormed(read, before + [o]) <==> !Known(before, Id(o)) && Readable(read, o)
  {
    hide Id, Readable;
    var all := before + [o];
    assert all[|before|] == o;
    assert forall i :: 0 <= i < |before| ==> before[i] == all[i];
  }

  lemma BookStep(read: Reader, before: seq<Order>, o: Order, book: Book)
    requires WellFormed(read, before) && IsBook(read, before, book)
    ensures Id(o) in book <==> Known(before, Id(o))
    ensures WellFormed(read, before + [o]) <==> Id(o) !in book && Readable(read, o)
    ensures Id(o) !in book && Readable(read, o) ==>
      IsBook(read, before + [o], book[Id(o) := Canonical(read, o)])
  {
    hide Id, Canonical, WellFormed;
    WellFormedSnoc(read, before, o);
    KnownInBook(read, before, book, Id(o));
    var all := before + [o];
    assert all[|before|] == o && forall i :: 0 <= i < |before| ==> all[i] == before[i];
    forall id | id in book || id == Id(o) ensures exists i :: 0 <= i < |all| && Id(all[i]) == id {
      KnownInBook(read, before, book, id);
      KnownSnoc(before, o, id);
      assert Known(all, id);
    }
  }

  lemma PrefixWellFormed(read: Reader, orders: seq<Order>, n: nat)
    requires n <= |orders| && WellFormed(read, orders)
    ensures WellFormed(read, orders[..n])
  {
  }

  method CanonicalizeOpenOrders(read: Reader, orders: seq<Order>, party: Party) returns (r: BookResult)
    ensures r.Built? <==> WellFormed(read, orders)
    ensures r.Built? ==> IsBook(read, orders, r.book)
    ensures r.Refused? ==> IsFirstIssue(read, orders, party, r.issue)
  {
    hide WellFormed, IsBook;
    var byId: Book := map[];
    assert WellFormed(read, []) && IsBook(read, [], byId) by {
      EmptyBook(read);
    }
    for n := 0 to |orders|
      invariant WellFormed(read, orders[..n]) && IsBook(read, orders[..n], byId)
    {
      var order := orders[n];
      var orderId := Text.Strip(order.orderId);
      BookStep(read, orders[..n], order, byId);
      assert orders[..n + 1] == orders[..n] + [order];
      if !WellFormed(read, orders[..n + 1]) && WellFormed(read, orders) {
        PrefixWellFormed(read, orders, n + 1);
      }
      if orderId in byId {
        return Refused(DuplicateOrder(party, orderId));
      }
      var qty := read(order.qty);
      if qty.None? {
        return Refused(UnreadableQty(party, orderId));
      }
      var price := None;
      if order.price.Some? {
        var parsed := read(order.price.value);
        if parsed.None? {
          return Refused(UnreadablePrice(party, orderId));
        }
        price := Some(RenderDecimal(parsed.value));
      }
      byId := byId[orderId := CanonicalOrder(Text.Strip(order.symbol), order.side, order.kind,
                                             RenderDecimal(qty.value), price, order.timeInForce, order.status)];
    }
    assert orders[..|orders|] == orders;
    r := Built(byId);
  }

  lemma EmptyBook(read: Reader)
    ensures WellFormed(read, []) && IsBook(read, [], map[])
  {
  }

  // ---------------------------------------------------------------- the difference of two books

  /** Required fields must be equal; optional ones only when both sides have them. */
  predicate FieldDiffers(f: Field, e: CanonicalOrder, o: CanonicalOrder) {
    if f in OPTIONAL then e.Get(f).Some? && o.Get(f).Some? && e.Get(f) != o.Get(f) else e.Get(f) != o.Get(f)
  }

  function FieldDeltas(id: string, e: CanonicalOrder, o: CanonicalOrder, fields: seq<Field>): seq<Delta> {
    if fields == [] then []
    else
      var f := fields[|fields| - 1];
      FieldDeltas(id, e, o, fields[..|fields| - 1])
      + (if FieldDiffers(f, e, o) then [Differs(id, f, e.Get(f), o.Get(f))] else [])
  }

  function SharedDeltas(ids: seq<string>, e: Book, o: Book): seq<Delta>
    requires forall id <- ids :: id in e && id in o
  {
    if ids == [] then []
    else
      var id := ids[|ids| - 1];
      SharedDeltas(ids[..|ids| - 1], e, o)
      + FieldDeltas(id, e[id], o[id], REQUIRED)
      + FieldDeltas(id, e[id], o[id], OPTIONAL)
  }

  ghost function Deltas(e: Book, o: Book): seq<Delta> {
    SortedStringsShape(e.Keys * o.Keys);
    (if e.Keys <= o.Keys then [] else [MissingInObserved(SortedStrings(e.Keys - o.Keys))])
    + (if o.Keys <= e.Keys then [] else [ExtraInObserved(SortedStrings(o.Keys - e.Keys))])
    + SharedDeltas(SortedStrings(e.Keys * o.Keys), e, o)
  }

  method CompareField(deltas: seq<Delta>, id: string, e: CanonicalOrder, o: CanonicalOrder)
    returns (r: seq<Delta>)
    ensures r == deltas + FieldDeltas(id, e, o, REQUIRED) + FieldDeltas(id, e, o, OPTIONAL)
  {
    r := deltas;
    for n := 0 to |REQUIRED|
      invariant r == deltas + FieldDeltas(id, e, o, REQUIRED[..n])
    {
      var f := REQUIRED[n];
      assert REQUIRED[..n + 1][..n] == REQUIRED[..n];
      if e.Get(f) != o.Get(f) {
        r := r + [Differs(id, f, e.Get(f), o.Get(f))];
      }
    }
    assert REQUIRED[..|REQUIRED|] == REQUIRED;
    ghost var required := r;
    for n := 0 to |OPTIONAL|
      invariant r == required + FieldDeltas(id, e, o, OPTIONAL[..n])
    {
      var f := OPTIONAL[n];
      assert OPTIONAL[..n + 1][..n] == OPTIONAL[..n];
      if e.Get(f).Some? && o.Get(f).Some? {
        if e.Get(f) != o.Get(f) {
          r := r + [Differs(id, f, e.Get(f), o.Get(f))];
        }
      }
    }
    assert OPTIONAL[..|OPTIONAL|] == OPTIONAL;
  }

  method DiffShared(shared: seq<string>, expected: Book, observed: Book) returns (deltas: seq<Delta>)
    requires forall id <- shared :: id in expected && id in observed
    ensures deltas == SharedDeltas(shared, expected, observed)
  {
    hide FieldDeltas;
    deltas := [];
    for n := 0 to |shared|
      invariant deltas == SharedDeltas(shared[..n], expected, observed)
    {
      var id := shared[n];
      assert shared[..n + 1][..n] == shared[..n];
      deltas := CompareField(deltas, id, expected[id], observed[id]);
    }
    assert shared[..|shared|] == shared;
  }

  lemma NoneSorted(s: set<string>)
    ensures SortedStrings(s) == [] <==> s == {}
  {
    SortedStringsShape(s);
    var r := SortedStrings(s);
    if s != {} {
      var x :| x in s;
      assert x in r;
    }
    if r != [] {
      assert r[0] in r;
    }
  }

  lemma NoneMissing(a: set<string>, b: set<string>)
    ensures a - b == {} <==> a <= b
  {
    assert forall x <- a :: x !in b ==> x in a - b;
  }

  lemma {:induction false} FieldDeltaMember(id: string, e: CanonicalOrder, o: CanonicalOrder, fields: seq<Field>,
                                            d: Delta)
    ensures d in FieldDeltas(id, e, o, fields) <==>
      d.Differs? && d.field in fields && FieldDiffers(d.field, e, o)
      && d == Differs(id, d.field, e.Get(d.field), o.Get(d.field))
  {
    hide FieldDiffers;
    if fields != [] {
      var n := |fields| - 1;
      FieldDeltaMember(id, e, o, fields[..n], d);
      assert fields == fields[..n] + [fields[n]];
    }
  }

  /** A difference of one shared order. */
  predicate IsDifference(d: Delta, e: Book, o: Book) {
    d.Differs? && d.orderId in e && d.orderId in o && FieldDiffers(d.field, e[d.orderId], o[d.orderId])
    && d.expected == e[d.orderId].Get(d.field) && d.observed == o[d.orderId].Get(d.field)
  }

  lemma {:induction false} SharedDeltaMember(ids: seq<string>, e: Book, o: Book, d: Delta)
    requires forall id <- ids :: id in e && id in o
    ensures d in SharedDeltas(ids, e, o) <==> IsDifference(d, e, o) && d.orderId in ids
  {
    hide FieldDiffers, FieldDeltas;
    if ids != [] {
      var n := |ids| - 1;
      var id := ids[n];
      SharedDeltaMember(ids[..n], e, o, d);
      FieldDeltaMember(id, e[id], o[id], REQUIRED, d);
      FieldDeltaMember(id, e[id], o[id], OPTIONAL, d);
      AllFields();
      assert ids == ids[..n] + [id];
    }
  }

  /** The deltas are exactly: the missing ids and the extra ids, sorted and only if there are any, and every
      field of a shared order that differs, with both its values. */
  lemma DeltaMember(e: Book, o: Book, d: Delta)
    ensures d in Deltas(e, o) <==>
      match d
      case MissingInObserved(ids) => ids == SortedStrings(e.Keys - o.Keys) != []
      case ExtraInObserved(ids) => ids == SortedStrings(o.Keys - e.Keys) != []
      case Differs(_, _, _, _) => IsDifference(d, e, o)
  {
    hide SortedStrings, FieldDiffers, SharedDeltas;
    var shared := SortedStrings(e.Keys * o.Keys);
    SortedStringsShape(e.Keys * o.Keys);
    NoneSorted(e.Keys - o.Keys);
    NoneSorted(o.Keys - e.Keys);
    NoneMissing(e.Keys, o.Keys);
    NoneMissing(o.Keys, e.Keys);
    SharedDeltaMember(shared, e, o, d);
  }

  method DiffBooks(expected: Book, observed: Book) returns (deltas: seq<Delta>)
    ensures deltas == Deltas(expected, observed)
  {
    hide SharedDeltas, SortedStrings;
    var missing := SortStrings(expected.Keys - observed.Keys);
    var extra := SortStrings(observed.Keys - expected.Keys);
    NoneSorted(expected.Keys - observed.Keys);
    NoneSorted(observed.Keys - expected.Keys);
    deltas := [];
    if missing != [] {
      deltas := deltas + [MissingInObserved(missing)];
    }
    if extra != [] {
      deltas := deltas + [ExtraInObserved(extra)];
    }
    var shared := SortStrings(expected.Keys * observed.Keys);
    SortedStringsShape(expected.Keys * observed.Keys);
    var rest := DiffShared(shared, expected, observed);
    NoneMissing(expected.Keys, observed.Keys);
    NoneMissing(observed.Keys, expected.Keys);
    deltas := deltas + rest;
  }

  /** `_compare_open_orders`. */
  method CompareOpenOrders(read: Reader, expected: seq<Order>, observed: seq<Order>) returns (check: OrdersCheck)
    ensures IsVerdict(read, expected, observed, check)
    ensures check.Severity() == Verdict(read, expected, observed)
  {
    hide WellFormed, IsBook, IsFirstIssue, Deltas;
    var e := CanonicalizeOpenOrders(read, expected, Expected);
    if e.Refused? {
      return OrdersUnknown(e.issue);
    }
    var o := CanonicalizeOpenOrders(read, observed, Observed);
    if o.Refused? {
      return OrdersUnknown(o.issue);
    }
    var deltas := DiffBooks(e.book, o.book);
    DiffSoundComplete(read, expected, observed, e.book, o.book);
    check := if deltas != [] then OrdersMismatch(deltas) else OrdersMatched;
  }

  /** The result in full: the first refused list's first issue, or the difference of the two books. */
  ghost predicate IsVerdict(read: Reader, expected: seq<Order>, observed: seq<Order>, check: OrdersCheck) {
    if !WellFormed(read, expected) then
      check.OrdersUnknown? && IsFirstIssue(read, expected, Expected, check.issue)
    else if !WellFormed(read, observed) then
      check.OrdersUnknown? && IsFirstIssue(read, observed, Observed, check.issue)
    else
      forall e: Book, o: Book | IsBook(read, expected, e) && IsBook(read, observed, o) ::
        check == if Deltas(e, o) == [] then OrdersMatched else OrdersMismatch(Deltas(e, o))
  }

  /** Every well-formed list has a book. */
  lemma {:induction false} BookExists(read: Reader, orders: seq<Order>) returns (book: Book)
    requires WellFormed(read, orders)
    ensures IsBook(read, orders, book)
  {
    hide WellFormed, IsBook;
    if orders == [] {
      book := map[];
      EmptyBook(read);
    } else {
      var n := |orders| - 1;
      PrefixWellFormed(read, orders, n);
      book := BookExists(read, orders[..n]);
      BookStep(read, orders[..n], orders[n], book);
      assert orders[..n] + [orders[n]] == orders;
      book := book[Id(orders[n]) := Canonical(read, orders[n])];
    }
  }

  lemma RefusalIllFormed(read: Reader, orders: seq<Order>, i: nat, n: nat, party: Party, issue: Issue)
    requires i < n <= |orders| && RefusedFor(read, orders[..i], orders[i], party, issue)
    ensures !WellFormed(read, orders[..n])
  {
    hide Id;
    var all := orders[..n];
    assert all[i] == orders[i] && forall k :: 0 <= k < i ==> all[k] == orders[..i][k];
  }

  /** There is one first issue at most. */
  lemma IssueUnique(read: Reader, orders: seq<Order>, party: Party, a: Issue, b: Issue)
    requires IsFirstIssue(read, orders, party, a) && IsFirstIssue(read, orders, party, b)
    ensures a == b && a.party == party
  {
    hide Id, WellFormed, Known;
    var i :| 0 <= i < |orders| && WellFormed(read, orders[..i]) && RefusedFor(read, orders[..i], orders[i], party, a);
    var j :| 0 <= j < |orders| && WellFormed(read, orders[..j]) && RefusedFor(read, orders[..j], orders[j], party, b);
    if i < j { RefusalIllFormed(read, orders, i, j, party, a); }
    if j < i { RefusalIllFormed(read, orders, j, i, party, b); }
  }

  /** The lists determine the check, whatever they are. */
  lemma VerdictUnique(read: Reader, expected: seq<Order>, observed: seq<Order>, a: OrdersCheck, b: OrdersCheck)
    requires IsVerdict(read, expected, observed, a) && IsVerdict(read, expected, observed, b)
    ensures a == b
  {
    hide WellFormed, IsBook, IsFirstIssue, Deltas;
    if !WellFormed(read, expected) {
      IssueUnique(read, expected, Expected, a.issue, b.issue);
    } else if !WellFormed(read, observed) {
      IssueUnique(read, observed, Observed, a.issue, b.issue);
    } else {
      var e := BookExists(read, expected);
      var o := BookExists(read, observed);
    }
  }

  // ---------------------------------------------------------------- what the verdict means

  predicate TextAgrees(e: Option<string>, o: Option<string>) {
    e.None? || o.None? || e == o
  }

  /** Two orders under one id say the same: text for text, number for number. */
  predicate OrdersAgree(read: Reader, e: Order, o: Order)
    requires Readable(read, e) && Readable(read, o)
  {
    && Text.Strip(e.symbol) == Text.Strip(o.symbol) && e.side == o.side && e.kind == o.kind
    && NumEq(read(e.qty).value, read(o.qty).value)
    && e.price.Some? == o.price.Some?
    && (e.price.Some? ==> NumEq(read(e.price.value).value, read(o.price.value).value))
    && TextAgrees(e.timeInForce, o.timeInForce) && TextAgrees(e.status, o.status)
  }

  /** The two lists name the same orders and agree on each of them. */
  predicate ListsAgree(read: Reader, expected: seq<Order>, observed: seq<Order>)
    requires WellFormed(read, expected) && WellFormed(read, observed)
  {
    && (forall i :: 0 <= i < |expected| ==> Known(observed, Id(expected[i])))
    && (forall j :: 0 <= j < |observed| ==> Known(expected, Id(observed[j])))
    && SharedAgree(read, expected, observed)
  }

  predicate SharedAgree(read: Reader, expected: seq<Order>, observed: seq<Order>)
    requires WellFormed(read, expected) && WellFormed(read, observed)
  {
    forall i, j :: 0 <= i < |expected| && 0 <= j < |observed| && Id(expected[i]) == Id(observed[j]) ==>
      OrdersAgree(read, expected[i], observed[j])
  }

  /** The severity, said without books, rendering or loops. */
  predicate Undecidable(read: Reader, expected: seq<Order>, observed: seq<Order>) {
    !WellFormed(read, expected) || !WellFormed(read, observed)
  }

  function Verdict(read: Reader, expected: seq<Order>, observed: seq<Order>): Severity {
    if Undecidable(read, expected, observed) then Unknown
    else if ListsAgree(read, expected, observed) then Ok
    else Mismatch
  }

  lemma {:induction false} NoFieldDeltas(id: string, e: CanonicalOrder, o: CanonicalOrder, fields: seq<Field>)
    ensures FieldDeltas(id, e, o, fields) == [] <==> forall f <- fields :: !FieldDiffers(f, e, o)
  {
    if fields != [] {
      var last := fields[|fields| - 1];
      NoFieldDeltas(id, e, o, fields[..|fields| - 1]);
      assert forall f <- fields :: f == last || f in fields[..|fields| - 1];
    }
  }

  /** Canonical text agrees exactly where the orders do. */
  lemma CanonicalAgree(read: Reader, e: Order, o: Order)
    requires Readable(read, e) && Readable(read, o)
    ensures (forall f: Field :: !FieldDiffers(f, Canonical(read, e), Canonical(read, o))) <==> OrdersAgree(read, e, o)
  {
    hide RenderDecimal, NumEq, Text.Strip;
    CanonicalForm(read(e.qty).value, read(o.qty).value);
    if e.price.Some? && o.price.Some? {
      CanonicalForm(read(e.price.value).value, read(o.price.value).value);
    }
    var c, d := Canonical(read, e), Canonical(read, o);
    assert OPTIONAL[0] == TimeInForce && OPTIONAL[1] == Status;
    if forall f: Field :: !FieldDiffers(f, c, d) {
      assert !FieldDiffers(Symbol, c, d) && !FieldDiffers(SideField, c, d) && !FieldDiffers(KindField, c, d);
      assert !FieldDiffers(Qty, c, d) && !FieldDiffers(Price, c, d);
      assert !FieldDiffers(TimeInForce, c, d) && !FieldDiffers(Status, c, d);
    }
  }

  lemma {:induction false} NoSharedDeltas(ids: seq<string>, e: Book, o: Book)
    requires forall id <- ids :: id in e && id in o
    ensures SharedDeltas(ids, e, o) == [] <==> forall id <- ids, f: Field :: !FieldDiffers(f, e[id], o[id])
  {
    hide FieldDeltas, FieldDiffers;
    if ids != [] {
      var last, init := ids[|ids| - 1], ids[..|ids| - 1];
      NoSharedDeltas(init, e, o);
      NoFieldDeltas(last, e[last], o[last], REQUIRED);
      NoFieldDeltas(last, e[last], o[last], OPTIONAL);
      AllFields();
      assert forall id <- ids :: id == last || id in init;
      assert last in ids;
    }
  }

  lemma AllFields()
    ensures forall f: Field :: f in REQUIRED || f in OPTIONAL
  {
    forall f: Field ensures f in REQUIRED || f in OPTIONAL {
      match f
      case Symbol => assert f == REQUIRED[0];
      case SideField => assert f == REQUIRED[1];
      case KindField => assert f == REQUIRED[2];
      case Qty => assert f == REQUIRED[3];
      case Price => assert f == REQUIRED[4];
      case TimeInForce => assert f == OPTIONAL[0];
      case Status => assert f == OPTIONAL[1];
    }
  }

  lemma BookKeys(read: Reader, orders: seq<Order>, book: Book, id: string)
    requires IsBook(read, orders, book)
    ensures id in book <==> Known(orders, id)
  {
  }

  lemma BookUnique(read: Reader, orders: seq<Order>, a: Book, b: Book)
    requires IsBook(read, orders, a) && IsBook(read, orders, b)
    ensures a == b
  {
    hide Id, Canonical, Readable;
    forall id ensures id in a <==> id in b {
      BookKeys(read, orders, a, id);
      BookKeys(read, orders, b, id);
    }
    forall id | id in a ensures a[id] == b[id] {
      var i :| 0 <= i < |orders| && Id(orders[i]) == id;
      assert a[id] == Canonical(read, orders[i]) == b[id];
    }
  }

  lemma SameKeys(read: Reader, expected: seq<Order>, observed: seq<Order>, e: Book, o: Book)
    requires IsBook(read, expected, e) && IsBook(read, observed, o)
    ensures e.Keys <= o.Keys <==> forall i :: 0 <= i < |expected| ==> Known(observed, Id(expected[i]))
  {
    hide Id, Canonical;
    forall id ensures id in o <==> Known(observed, id) { BookKeys(read, observed, o, id); }
    forall id ensures id in e <==> Known(expected, id) { BookKeys(read, expected, e, id); }
  }

  ghost predicate BooksAgree(e: Book, o: Book) {
    forall id, f: Field :: id in e && id in o ==> !FieldDiffers(f, e[id], o[id])
  }

  lemma AgreeOnShared(read: Reader, expected: seq<Order>, observed: seq<Order>, e: Book, o: Book)
    requires WellFormed(read, expected) && WellFormed(read, observed)
    requires IsBook(read, expected, e) && IsBook(read, observed, o)
    ensures BooksAgree(e, o) <==> SharedAgree(read, expected, observed)
  {
    hide Id, Canonical, FieldDiffers, OrdersAgree;
    if BooksAgree(e, o) {
      forall i, j | 0 <= i < |expected| && 0 <= j < |observed| && Id(expected[i]) == Id(observed[j])
        ensures OrdersAgree(read, expected[i], observed[j])
      {
        CanonicalAgree(read, expected[i], observed[j]);
      }
    }
    if SharedAgree(read, expected, observed) {
      forall id, f: Field | id in e && id in o ensures !FieldDiffers(f, e[id], o[id]) {
        var i :| 0 <= i < |expected| && Id(expected[i]) == id;
        var j :| 0 <= j < |observed| && Id(observed[j]) == id;
        CanonicalAgree(read, expected[i], observed[j]);
      }
    }
  }

  /** No delta is listed exactly when the two lists agree, and a list has only one book. */
  lemma DiffSoundComplete(read: Reader, expected: seq<Order>, observed: seq<Order>, e: Book, o: Book)
    requires WellFormed(read, expected) && WellFormed(read, observed)
    requires IsBook(read, expected, e) && IsBook(read, observed, o)
    ensures Deltas(e, o) == [] <==> ListsAgree(read, expected, observed)
    ensures forall e', o' :: IsBook(read, expected, e') && IsBook(read, observed, o') ==> e' == e && o' == o
  {
    hide Id, Canonical, FieldDiffers, OrdersAgree, SharedDeltas, SortedStrings, WellFormed, IsBook;
    forall e', o' | IsBook(read, expected, e') && IsBook(read, observed, o') ensures e' == e && o' == o {
      BookUnique(read, expected, e, e');
      BookUnique(read, observed, o, o');
    }
    SameKeys(read, expected, observed, e, o);
    SameKeys(read, observed, expected, o, e);
    AgreeOnShared(read, expected, observed, e, o);
    var shared := SortedStrings(e.Keys * o.Keys);
    SortedStringsShape(e.Keys * o.Keys);
    NoSharedDeltas(shared, e, o);
    assert forall id :: id in shared <==> id in e && id in o;
    assert SharedDeltas(shared, e, o) == [] <==> BooksAgree(e, o);
  }

  // ---------------------------------------------------------------- what the verdict does not depend on

  lemma CountTwice<T>(s: seq<T>, i: nat, j: nat)
    requires i < j < |s| && s[i] == s[j]
    ensures multiset(s)[s[i]] >= 2
  {
    assert s == s[..i] + [s[i]] + s[i + 1..j] + [s[j]] + s[j + 1..];
  }

  lemma {:induction false} TwiceCounted<T>(s: seq<T>, x: T)
    requires multiset(s)[x] >= 1
    ensures x in s
    ensures multiset(s)[x] >= 2 ==> exists i, j :: 0 <= i < j < |s| && s[i] == x && s[j] == x
  {
    if multiset(s)[x] >= 2 {
      var init, last := s[..|s| - 1], s[|s| - 1];
      assert s == init + [last];
      TwiceCounted(init, x);
      if last == x {
        var i :| 0 <= i < |init| && init[i] == x;
        assert s[i] == x && s[|s| - 1] == x;
      } else {
        var i, j :| 0 <= i < j < |init| && init[i] == x && init[j] == x;
        assert s[i] == x && s[j] == x;
      }
    }
  }

  lemma SameElements(a: seq<Order>, b: seq<Order>)
    requires multiset(a) == multiset(b)
    ensures forall x :: x in a <==> x in b
  {
    forall x ensures x in a <==> x in b {
      assert x in a <==> x in multiset(a);
    }
  }

  lemma KnownElement(orders: seq<Order>, id: string)
    ensures Known(orders, id) <==> exists x <- orders :: Id(x) == id
  {
  }

  lemma DistinctPermuted(read: Reader, a: seq<Order>, b: seq<Order>)
    requires multiset(a) == multiset(b) && WellFormed(read, a)
    ensures WellFormed(read, b)
  {
    hide Id;
    SameElements(a, b);
    forall i | 0 <= i < |b| ensures Readable(read, b[i]) {
      assert b[i] in a;
    }
    forall i, j | 0 <= i < j < |b| ensures Id(b[i]) != Id(b[j]) {
      assert b[i] in a && b[j] in a;
      if Id(b[i]) == Id(b[j]) {
        assert b[i] == b[j];
        CountTwice(b, i, j);
        TwiceCounted(a, b[i]);
        assert false;
      }
    }
  }

  lemma BookPermuted(read: Reader, a: seq<Order>, b: seq<Order>, book: Book)
    requires multiset(a) == multiset(b) && IsBook(read, a, book)
    ensures IsBook(read, b, book)
  {
    hide Id, Canonical;
    SameElements(a, b);
    forall i | 0 <= i < |b|
      ensures Readable(read, b[i]) && Id(b[i]) in book && book[Id(b[i])] == Canonical(read, b[i])
    {
      assert b[i] in a;
    }
    forall id | id in book ensures exists i :: 0 <= i < |b| && Id(b[i]) == id {
      var i :| 0 <= i < |a| && Id(a[i]) == id;
      assert a[i] in b;
    }
  }

  lemma AgreePermuted(read: Reader, e: seq<Order>, e': seq<Order>, o: seq<Order>, o': seq<Order>)
    requires multiset(e) == multiset(e') && multiset(o) == multiset(o')
    requires WellFormed(read, e) && WellFormed(read, o) && WellFormed(read, e') && WellFormed(read, o')
    requires ListsAgree(read, e, o)
    ensures ListsAgree(read, e', o')
  {
    hide Id, OrdersAgree;
    SameElements(e, e');
    SameElements(o, o');
    forall id ensures (Known(e, id) <==> Known(e', id)) && (Known(o, id) <==> Known(o', id)) {
      KnownElement(e, id); KnownElement(e', id); KnownElement(o, id); KnownElement(o', id);
    }
    forall i | 0 <= i < |e'| ensures Known(o', Id(e'[i])) { assert e'[i] in e; }
    forall j | 0 <= j < |o'| ensures Known(e', Id(o'[j])) { assert o'[j] in o; }
    forall i, j | 0 <= i < |e'| && 0 <= j < |o'| && Id(e'[i]) == Id(o'[j])
      ensures OrdersAgree(read, e'[i], o'[j])
    {
      assert e'[i] in e && o'[j] in o;
    }
  }

  lemma VerdictPermuted(read: Reader, e: seq<Order>, e': seq<Order>, o: seq<Order>, o': seq<Order>, check: OrdersCheck)
    requires multiset(e) == multiset(e') && multiset(o) == multiset(o')
    requires WellFormed(read, e) && WellFormed(read, o) && WellFormed(read, e') && WellFormed(read, o')
    requires IsVerdict(read, e, o, check)
    ensures IsVerdict(read, e', o', check)
  {
    hide WellFormed, IsBook, Deltas;
    forall b | IsBook(read, e', b) ensures IsBook(read, e, b) { BookPermuted(read, e', e, b); }
    forall b | IsBook(read, o', b) ensures IsBook(read, o, b) { BookPermuted(read, o', o, b); }
  }

  lemma FormPermuted(read: Reader, a: seq<Order>, b: seq<Order>)
    requires multiset(a) == multiset(b)
    ensures WellFormed(read, a) <==> WellFormed(read, b)
  {
    hide WellFormed;
    if WellFormed(read, a) { DistinctPermuted(read, a, b); }
    if WellFormed(read, b) { DistinctPermuted(read, b, a); }
  }

  /** Reordering either list does not change the severity; when both are well-formed it changes nothing in the
      check, and otherwise the same list is refused. */
  lemma PermutationInvariant(read: Reader, e: seq<Order>, e': seq<Order>, o: seq<Order>, o': seq<Order>,
                             check: OrdersCheck, check': OrdersCheck)
    requires multiset(e) == multiset(e') && multiset(o) == multiset(o')
    requires IsVerdict(read, e, o, check) && IsVerdict(read, e', o', check')
    ensures Verdict(read, e, o) == Verdict(read, e', o')
    ensures if Verdict(read, e, o) != Unknown then check == check'
            else check.OrdersUnknown? && check'.OrdersUnknown? && check.issue.party == check'.issue.party
  {
    hide WellFormed, IsBook, ListsAgree, Deltas, IsFirstIssue;
    FormPermuted(read, e, e');
    FormPermuted(read, o, o');
    if Undecidable(read, e, o) {
      if !WellFormed(read, e) {
        IssueUnique(read, e, Expected, check.issue, check.issue);
        IssueUnique(read, e', Expected, check'.issue, check'.issue);
      } else {
        IssueUnique(read, o, Observed, check.issue, check.issue);
        IssueUnique(read, o', Observed, check'.issue, check'.issue);
      }
    } else {
      if ListsAgree(read, e, o) { AgreePermuted(read, e, e', o, o'); }
      if ListsAgree(read, e', o') { AgreePermuted(read, e', e, o', o); }
      VerdictPermuted(read, e, e', o, o', check);
      VerdictUnique(read, e', o', check, check');
    }
  }

  lemma AgreeSymmetric(read: Reader, e: Order, o: Order)
    requires Readable(read, e) && Readable(read, o)
    ensures OrdersAgree(read, e, o) <==> OrdersAgree(read, o, e)
  {
    hide NumEq;
    NumEqSymmetric(read(e.qty).value, read(o.qty).value);
    if e.price.Some? && o.price.Some? {
      NumEqSymmetric(read(e.price.value).value, read(o.price.value).value);
    }
  }

  lemma NumEqSymmetric(a: Decimal, b: Decimal)
    ensures NumEq(a, b) <==> NumEq(b, a)
  {
    CanonicalForm(a, b);
    CanonicalForm(b, a);
  }

  lemma SharedSymmetric(read: Reader, e: seq<Order>, o: seq<Order>)
    requires WellFormed(read, e) && WellFormed(read, o) && SharedAgree(read, e, o)
    ensures SharedAgree(read, o, e)
  {
    hide Id, OrdersAgree;
    forall j, i | 0 <= j < |o| && 0 <= i < |e| && Id(o[j]) == Id(e[i]) ensures OrdersAgree(read, o[j], e[i]) {
      AgreeSymmetric(read, e[i], o[j]);
    }
  }

  /** Swapping expected and observed never changes the severity. */
  lemma SwapInvariant(read: Reader, e: seq<Order>, o: seq<Order>)
    ensures Verdict(read, e, o) == Verdict(read, o, e)
  {
    hide WellFormed, SharedAgree;
    if !Undecidable(read, e, o) {
      if SharedAgree(read, e, o) { SharedSymmetric(read, e, o); }
      if SharedAgree(read, o, e) { SharedSymmetric(read, o, e); }
    }
  }

  /** Two spellings of a number: the same text, or two texts read as equal numbers. */
  predicate SameNumber(read: Reader, a: string, b: string) {
    a == b || (read(a).Some? && read(b).Some? && NumEq(read(a).value, read(b).value))
  }

  predicate Respelled(read: Reader, a: Order, b: Order) {
    && a.orderId == b.orderId && a.symbol == b.symbol && a.side == b.side && a.kind == b.kind
    && a.timeInForce == b.timeInForce && a.status == b.status
    && SameNumber(read, a.qty, b.qty)
    && a.price.Some? == b.price.Some? && (a.price.Some? ==> SameNumber(read, a.price.value, b.price.value))
  }

  predicate AllRespelled(read: Reader, a: seq<Order>, b: seq<Order>) {
    |a| == |b| && forall i :: 0 <= i < |a| ==> Respelled(read, a[i], b[i])
  }

  lemma RespelledOrder(read: Reader, a: Order, b: Order)
    requires Respelled(read, a, b)
    ensures Id(a) == Id(b) && (Readable(read, a) <==> Readable(read, b))
    ensures read(a.qty).None? <==> read(b.qty).None?
    ensures Readable(read, a) ==> Canonical(read, a) == Canonical(read, b)
  {
    hide NumEq, RenderDecimal, Text.Strip;
    if read(a.qty).Some? && read(b.qty).Some? {
      CanonicalForm(read(a.qty).value, read(b.qty).value);
    }
    if a.price.Some? && read(a.price.value).Some? && read(b.price.value).Some? {
      CanonicalForm(read(a.price.value).value, read(b.price.value).value);
    }
  }

  lemma RespelledLists(read: Reader, a: seq<Order>, b: seq<Order>)
    requires AllRespelled(read, a, b)
    ensures WellFormed(read, a) <==> WellFormed(read, b)
    ensures forall book :: IsBook(read, a, book) <==> IsBook(read, b, book)
    ensures forall id :: Known(a, id) <==> Known(b, id)
  {
    hide Id, Canonical, Readable, Respelled;
    forall i | 0 <= i < |a|
      ensures Id(a[i]) == Id(b[i]) && (Readable(read, a[i]) <==> Readable(read, b[i]))
      ensures Readable(read, a[i]) ==> Canonical(read, a[i]) == Canonical(read, b[i])
    {
      RespelledOrder(read, a[i], b[i]);
    }
  }

  lemma RespelledIssue(read: Reader, a: seq<Order>, b: seq<Order>, party: Party, issue: Issue)
    requires AllRespelled(read, a, b) && IsFirstIssue(read, a, party, issue)
    ensures IsFirstIssue(read, b, party, issue)
  {
    hide Id, Respelled, WellFormed;
    var i :| 0 <= i < |a| && WellFormed(read, a[..i]) && RefusedFor(read, a[..i], a[i], party, issue);
    RespelledLists(read, a[..i], b[..i]);
    RespelledOrder(read, a[i], b[i]);
    assert RefusedFor(read, b[..i], b[i], party, issue);
  }

  lemma VerdictRespelled(read: Reader, e: seq<Order>, e': seq<Order>, o: seq<Order>, o': seq<Order>,
                         check: OrdersCheck)
    requires AllRespelled(read, e, e') && AllRespelled(read, o, o')
    requires IsVerdict(read, e, o, check)
    ensures IsVerdict(read, e', o', check)
  {
    hide WellFormed, IsBook, Deltas, AllRespelled;
    RespelledLists(read, e, e');
    RespelledLists(read, o, o');
    if check.OrdersUnknown? && IsFirstIssue(read, e, Expected, check.issue) {
      RespelledIssue(read, e, e', Expected, check.issue);
    }
    if check.OrdersUnknown? && IsFirstIssue(read, o, Observed, check.issue) {
      RespelledIssue(read, o, o', Observed, check.issue);
    }
  }

  /** Writing a number differently, with an equal value, changes nothing at all in the check's result. */
  lemma RespellingInvariant(read: Reader, e: seq<Order>, e': seq<Order>, o: seq<Order>, o': seq<Order>,
                            check: OrdersCheck, check': OrdersCheck)
    requires AllRespelled(read, e, e') && AllRespelled(read, o, o')
    requires IsVerdict(read, e, o, check) && IsVerdict(read, e', o', check')
    ensures check == check'
  {
    hide IsVerdict;
    VerdictRespelled(read, e, e', o, o', check);
    VerdictUnique(read, e', o', check, check');
  }

  // ---------------------------------------------------------------- the deltas, said from the orders

  /** What is shown of an order. */
  predicate FieldShown(read: Reader, o: Order, f: Field, shown: Option<string>)
    requires Readable(read, o)
  {
    match f
    case Symbol => shown == Some(Text.Strip(o.symbol))
    case SideField => shown == Some(o.side)
    case KindField => shown == Some(o.kind)
    case Qty => shown == Some(RenderDecimal(read(o.qty).value))
    case Price => if o.price.Some? then shown == Some(RenderDecimal(read(o.price.value).value)) else shown == None
    case TimeInForce => shown == o.timeInForce
    case Status => shown == o.status
  }

  /** When two orders differ in a field: texts as texts, numbers as numbers, and the last two only if both are there. */
  predicate FieldApart(read: Reader, e: Order, o: Order, f: Field)
    requires Readable(read, e) && Readable(read, o)
  {
    match f
    case Symbol => Text.Strip(e.symbol) != Text.Strip(o.symbol)
    case SideField => e.side != o.side
    case KindField => e.kind != o.kind
    case Qty => !NumEq(read(e.qty).value, read(o.qty).value)
    case Price =>
      || (e.price.Some? && o.price.None?) || (e.price.None? && o.price.Some?)
      || (e.price.Some? && o.price.Some? && !NumEq(read(e.price.value).value, read(o.price.value).value))
    case TimeInForce => e.timeInForce.Some? && o.timeInForce.Some? && e.timeInForce != o.timeInForce
    case Status => e.status.Some? && o.status.Some? && e.status != o.status
  }

  lemma FieldSaid(read: Reader, e: Order, o: Order, f: Field)
    requires Readable(read, e) && Readable(read, o)
    ensures FieldShown(read, e, f, Canonical(read, e).Get(f))
    ensures FieldDiffers(f, Canonical(read, e), Canonical(read, o)) <==> FieldApart(read, e, o, f)
  {
    hide RenderDecimal, NumEq, Text.Strip;
    CanonicalForm(read(e.qty).value, read(o.qty).value);
    if e.price.Some? && o.price.Some? {
      CanonicalForm(read(e.price.value).value, read(o.price.value).value);
    }
    assert OPTIONAL[0] == TimeInForce && OPTIONAL[1] == Status;
  }

  lemma ShownOnce(read: Reader, o: Order, f: Field, a: Option<string>, b: Option<string>)
    requires Readable(read, o) && FieldShown(read, o, f, a) && FieldShown(read, o, f, b)
    ensures a == b
  {
    hide RenderDecimal, Text.Strip;
  }

  /** The ids, in order, of the orders of one list that the other list does not know; not reported if there are none. */
  ghost predicate LeftOver(ids: seq<string>, here: seq<Order>, there: seq<Order>) {
    && ids != [] && (forall i, j :: 0 <= i < j < |ids| ==> ids[i] != ids[j] && StringLe(ids[i], ids[j]))
    && (forall id :: id in ids <==> Known(here, id) && !Known(there, id))
  }

  /** A difference between two orders under one id. */
  ghost predicate OrdersDiffer(read: Reader, expected: seq<Order>, observed: seq<Order>, d: Delta)
    requires WellFormed(read, expected) && WellFormed(read, observed)
  {
    && d.Differs?
    && exists i, j ::
         && 0 <= i < |expected| && 0 <= j < |observed| && Id(expected[i]) == d.orderId && Id(observed[j]) == d.orderId
         && FieldApart(read, expected[i], observed[j], d.field)
         && FieldShown(read, expected[i], d.field, d.expected) && FieldShown(read, observed[j], d.field, d.observed)
  }

  ghost predicate Reported(read: Reader, expected: seq<Order>, observed: seq<Order>, d: Delta)
    requires WellFormed(read, expected) && WellFormed(read, observed)
  {
    match d
    case MissingInObserved(ids) => LeftOver(ids, expected, observed)
    case ExtraInObserved(ids) => LeftOver(ids, observed, expected)
    case Differs(_, _, _, _) => OrdersDiffer(read, expected, observed, d)
  }

  lemma SortedLeftOver(ids: seq<string>, s: set<string>, here: seq<Order>, there: seq<Order>)
    requires forall id :: id in s <==> Known(here, id) && !Known(there, id)
    ensures LeftOver(ids, here, there) <==> ids == SortedStrings(s) != []
  {
    hide SortedStrings, Known;
    SortedStringsShape(s);
    if LeftOver(ids, here, there) {
      OneSorted(ids, SortedStrings(s));
    }
  }

  /** There is one ascending list of some texts. */
  lemma {:induction false} OneSorted(a: seq<string>, b: seq<string>)
    requires forall i, j :: 0 <= i < j < |a| ==> a[i] != a[j] && StringLe(a[i], a[j])
    requires forall i, j :: 0 <= i < j < |b| ==> b[i] != b[j] && StringLe(b[i], b[j])
    requires forall x :: x in a <==> x in b
    ensures a == b
  {
    hide StringLe;
    if a == [] {
      if b != [] { var x := Head(b); }
    } else {
      assert a[0] in b && b[0] in a;
      assert b != [];
      FirstOfSorted(a, b);
      forall x ensures x in a[1..] <==> x in b[1..] {
        RestOf(a, x);
        RestOf(b, x);
      }
      OneSorted(a[1..], b[1..]);
      assert a == [a[0]] + a[1..] && b == [b[0]] + b[1..];
    }
  }

  lemma Head(a: seq<string>) returns (x: string)
    requires a != []
    ensures x in a
  {
    x := a[0];
  }

  lemma RestOf(a: seq<string>, x: string)
    requires a != [] && forall i, j :: 0 <= i < j < |a| ==> a[i] != a[j]
    ensures x in a[1..] <==> x in a && x != a[0]
  {
    assert a == [a[0]] + a[1..];
    assert forall i :: 0 <= i < |a[1..]| ==> a[1..][i] == a[i + 1];
  }

  lemma FirstOfSorted(a: seq<string>, b: seq<string>)
    requires forall i, j :: 0 <= i < j < |a| ==> StringLe(a[i], a[j])
    requires forall i, j :: 0 <= i < j < |b| ==> StringLe(b[i], b[j])
    requires a != [] && b != [] && a[0] in b && b[0] in a
    ensures a[0] == b[0]
  {
    hide StringLe;
    var i :| 0 <= i < |b| && b[i] == a[0];
    var j :| 0 <= j < |a| && a[j] == b[0];
    assert i == 0 || StringLe(b[0], a[0]);
    assert j == 0 || StringLe(a[0], b[0]);
    StringLeTotal(a[0], b[0]);
  }

  lemma DifferenceSaid(read: Reader, expected: seq<Order>, observed: seq<Order>, e: Book, o: Book, d: Delta)
    requires WellFormed(read, expected) && WellFormed(read, observed)
    requires IsBook(read, expected, e) && IsBook(read, observed, o)
    ensures IsDifference(d, e, o) <==> OrdersDiffer(read, expected, observed, d)
  {
    hide FieldDiffers, FieldApart, FieldShown, Canonical, Id;
    if IsDifference(d, e, o) {
      var i :| 0 <= i < |expected| && Id(expected[i]) == d.orderId;
      var j :| 0 <= j < |observed| && Id(observed[j]) == d.orderId;
      FieldSaid(read, expected[i], observed[j], d.field);
      FieldSaid(read, observed[j], expected[i], d.field);
    }
    if OrdersDiffer(read, expected, observed, d) {
      var i, j :| 0 <= i < |expected| && 0 <= j < |observed|
        && Id(expected[i]) == d.orderId && Id(observed[j]) == d.orderId
        && FieldApart(read, expected[i], observed[j], d.field)
        && FieldShown(read, expected[i], d.field, d.expected) && FieldShown(read, observed[j], d.field, d.observed);
      FieldSaid(read, expected[i], observed[j], d.field);
      FieldSaid(read, observed[j], expected[i], d.field);
      ShownOnce(read, expected[i], d.field, d.expected, Canonical(read, expected[i]).Get(d.field));
      ShownOnce(read, observed[j], d.field, d.observed, Canonical(read, observed[j]).Get(d.field));
    }
  }

  // The order of the deltas, and that none comes twice.

  function FieldRank(f: Field): nat {
    match f
    case Symbol => 0
    case SideField => 1
    case KindField => 2
    case Qty => 3
    case Price => 4
    case TimeInForce => 5
    case Status => 6
  }

  /** Missing ids, extra ids, then by id and field. */
  predicate Before(a: Delta, b: Delta) {
    match a
    case MissingInObserved(_) => !b.MissingInObserved?
    case ExtraInObserved(_) => b.Differs?
    case Differs(id, f, _, _) =>
      b.Differs? && (if id == b.orderId then FieldRank(f) < FieldRank(b.field) else StringLe(id, b.orderId))
  }

  predicate Ascending(ds: seq<Delta>) {
    forall i, j :: 0 <= i < j < |ds| ==> Before(ds[i], ds[j])
  }

  lemma AscendingConcat(a: seq<Delta>, b: seq<Delta>)
    requires Ascending(a) && Ascending(b) && forall x <- a, y <- b :: Before(x, y)
    ensures Ascending(a + b)
  {
    hide Before;
  }

  lemma {:induction false} FieldsAscend(id: string, e: CanonicalOrder, o: CanonicalOrder, fields: seq<Field>)
    requires forall i, j :: 0 <= i < j < |fields| ==> FieldRank(fields[i]) < FieldRank(fields[j])
    ensures Ascending(FieldDeltas(id, e, o, fields))
  {
    hide FieldDiffers, FieldRank;
    if fields != [] {
      var n := |fields| - 1;
      FieldsAscend(id, e, o, fields[..n]);
      var f := fields[n];
      var last := if FieldDiffers(f, e, o) then [Differs(id, f, e.Get(f), o.Get(f))] else [];
      forall x <- FieldDeltas(id, e, o, fields[..n]), y <- last ensures Before(x, y) {
        FieldDeltaMember(id, e, o, fields[..n], x);
        var i :| 0 <= i < n && fields[i] == x.field;
      }
      AscendingConcat(FieldDeltas(id, e, o, fields[..n]), last);
    }
  }

  lemma OrderDeltasAscend(id: string, e: CanonicalOrder, o: CanonicalOrder)
    ensures Ascending(FieldDeltas(id, e, o, REQUIRED) + FieldDeltas(id, e, o, OPTIONAL))
  {
    hide FieldDeltas, FieldDiffers;
    var a, b := FieldDeltas(id, e, o, REQUIRED), FieldDeltas(id, e, o, OPTIONAL);
    assert forall i :: 0 <= i < |REQUIRED| ==> FieldRank(REQUIRED[i]) == i;
    assert forall i :: 0 <= i < |OPTIONAL| ==> FieldRank(OPTIONAL[i]) == i + 5;
    FieldsAscend(id, e, o, REQUIRED);
    FieldsAscend(id, e, o, OPTIONAL);
    forall x <- a, y <- b ensures Before(x, y) {
      FieldDeltaMember(id, e, o, REQUIRED, x);
      FieldDeltaMember(id, e, o, OPTIONAL, y);
      assert FieldRank(x.field) < 5 <= FieldRank(y.field);
    }
    AscendingConcat(a, b);
  }

  lemma EarlierId(ids: seq<string>, e: Book, o: Book, id: string, x: Delta, y: Delta)
    requires forall k <- ids :: k in e && k in o && k != id && StringLe(k, id)
    requires x in SharedDeltas(ids, e, o) && y.Differs? && y.orderId == id
    ensures Before(x, y)
  {
    hide SharedDeltas, FieldDiffers, StringLe;
    SharedDeltaMember(ids, e, o, x);
  }

  lemma OfOrder(id: string, e: CanonicalOrder, o: CanonicalOrder)
    ensures forall y <- FieldDeltas(id, e, o, REQUIRED) + FieldDeltas(id, e, o, OPTIONAL) ::
      y.Differs? && y.orderId == id
  {
    hide FieldDeltas, FieldDiffers;
    forall y <- FieldDeltas(id, e, o, REQUIRED) + FieldDeltas(id, e, o, OPTIONAL)
      ensures y.Differs? && y.orderId == id
    {
      FieldDeltaMember(id, e, o, REQUIRED, y);
      FieldDeltaMember(id, e, o, OPTIONAL, y);
    }
  }

  lemma {:induction false} SharedAscend(ids: seq<string>, e: Book, o: Book)
    requires forall id <- ids :: id in e && id in o
    requires forall i, j :: 0 <= i < j < |ids| ==> ids[i] != ids[j] && StringLe(ids[i], ids[j])
    ensures Ascending(SharedDeltas(ids, e, o))
  {
    hide FieldDeltas, FieldDiffers, StringLe, Ascending, Before;
    if ids == [] {
      NoneAscend();
    } else {
      var n := |ids| - 1;
      var id := ids[n];
      SharedAscend(ids[..n], e, o);
      OrderDeltasAscend(id, e[id], o[id]);
      OfOrder(id, e[id], o[id]);
      var front := SharedDeltas(ids[..n], e, o);
      var more := FieldDeltas(id, e[id], o[id], REQUIRED) + FieldDeltas(id, e[id], o[id], OPTIONAL);
      forall x <- front, y <- more ensures Before(x, y) { EarlierId(ids[..n], e, o, id, x, y); }
      AscendingConcat(front, more);
      assert front + more == SharedDeltas(ids, e, o);
    }
  }

  lemma NoneAscend()
    ensures Ascending([])
  {
  }

  lemma DeltasAscend(e: Book, o: Book)
    ensures Ascending(Deltas(e, o))
  {
    hide SharedDeltas, FieldDiffers, SortedStrings, StringLe;
    var shared := SortedStrings(e.Keys * o.Keys);
    SortedStringsShape(e.Keys * o.Keys);
    SharedAscend(shared, e, o);
    var a := if e.Keys <= o.Keys then [] else [MissingInObserved(SortedStrings(e.Keys - o.Keys))];
    var b := if o.Keys <= e.Keys then [] else [ExtraInObserved(SortedStrings(o.Keys - e.Keys))];
    var c := SharedDeltas(shared, e, o);
    forall x <- c ensures x.Differs? { SharedDeltaMember(shared, e, o, x); }
    AscendingConcat(a, b);
    AscendingConcat(a + b, c);
  }

  /** Main result on the details: a mismatch reports exactly what the two lists differ in, with both values, once
      and in order. */
  lemma DetailsExactly(read: Reader, expected: seq<Order>, observed: seq<Order>, check: OrdersCheck)
    requires IsVerdict(read, expected, observed, check) && check.OrdersMismatch?
    ensures WellFormed(read, expected) && WellFormed(read, observed)
    ensures forall d :: d in check.deltas <==> Reported(read, expected, observed, d)
    ensures Ascending(check.deltas)
  {
    hide WellFormed, IsBook, Deltas, Reported, Ascending;
    var e := BookExists(read, expected);
    var o := BookExists(read, observed);
    DeltasAscend(e, o);
    forall d ensures d in check.deltas <==> Reported(read, expected, observed, d) {
      DeltaMember(e, o, d);
      ReportedSaid(read, expected, observed, e, o, d);
    }
  }

  lemma ReportedSaid(read: Reader, expected: seq<Order>, observed: seq<Order>, e: Book, o: Book, d: Delta)
    requires WellFormed(read, expected) && WellFormed(read, observed)
    requires IsBook(read, expected, e) && IsBook(read, observed, o)
    ensures Reported(read, expected, observed, d) <==>
      match d
      case MissingInObserved(ids) => ids == SortedStrings(e.Keys - o.Keys) != []
      case ExtraInObserved(ids) => ids == SortedStrings(o.Keys - e.Keys) != []
      case Differs(_, _, _, _) => IsDifference(d, e, o)
  {
    hide WellFormed, IsBook, SortedStrings, LeftOver, OrdersDiffer, IsDifference, Known;
    forall id ensures (id in e <==> Known(expected, id)) && (id in o <==> Known(observed, id)) {
      KnownInBook(read, expected, e, id);
      KnownInBook(read, observed, o, id);
    }
    match d {
      case MissingInObserved(ids) => SortedLeftOver(ids, e.Keys - o.Keys, expected, observed);
      case ExtraInObserved(ids) => SortedLeftOver(ids, o.Keys - e.Keys, observed, expected);
      case Differs(_, _, _, _) => DifferenceSaid(read, expected, observed, e, o, d);
    }
  }
}

/**
Grouping Allegro orders into payments, and the shortened offer titles
(src/services/allegro/get_order_result.py).
*/
module OrderGrouping {
  import opened Filters
  import opened Sorting
  import opened Text

  datatype Offer = Offer(title: string, unitPrice: real, quantity: int)

  /** `deliveryCost` is 0 when there is no delivery or it has no cost. */
  datatype Order = Order(orderId: string, paymentId: string, offers: seq<Offer>, deliveryCost: real)

  datatype Payment = Payment(paymentId: string, orders: seq<Order>)

  // ----- totals -----

  function ItemsTotal(offers: seq<Offer>): real {
    if offers == [] then 0.0
    else
      var last := offers[|offers| - 1];
      ItemsTotal(offers[..|offers| - 1]) + last.unitPrice * last.quantity as real
  }

  function KnownTotal(o: Order): real {
    ItemsTotal(o.offers) + o.deliveryCost
  }

  function PaymentItemsTotal(orders: seq<Order>): real {
    if orders == [] then 0.0
    else PaymentItemsTotal(orders[..|orders| - 1]) + ItemsTotal(orders[|orders| - 1].offers)
  }

  function PaymentDeliveryTotal(orders: seq<Order>): real {
    if orders == [] then 0.0
    else PaymentDeliveryTotal(orders[..|orders| - 1]) + orders[|orders| - 1].deliveryCost
  }

  /** A payment sums items and deliveries separately. */
  function PaymentKnownTotal(p: Payment): real {
    PaymentItemsTotal(p.orders) + PaymentDeliveryTotal(p.orders)
  }

  function SumOfOrders(orders: seq<Order>): real {
    if orders == [] then 0.0
    else SumOfOrders(orders[..|orders| - 1]) + KnownTotal(orders[|orders| - 1])
  }

  function SumOfPayments(payments: seq<Payment>): real {
    if payments == [] then 0.0
    else SumOfPayments(payments[..|payments| - 1]) + PaymentKnownTotal(payments[|payments| - 1])
  }

  // ----- the specification -----

  function PaidBy(paymentId: string): Order -> bool {
    (o: Order) => o.paymentId == paymentId
  }

  function OrdersOf(orders: seq<Order>, paymentId: string): seq<Order> {
    Filter(PaidBy(paymentId), orders)
  }

  /** The payment ids, each once, in order of first appearance. */
  function PaymentIds(orders: seq<Order>): (ids: seq<string>)
    ensures forall id :: id in ids <==> exists o | o in orders :: o.paymentId == id
  {
    if orders == [] then []
    else
      var init, last := orders[..|orders| - 1], orders[|orders| - 1];
      assert orders == init + [last];
      assert forall o | o in init :: o in orders;
      var before := PaymentIds(init);
      if last.paymentId in before then before else before + [last.paymentId]
  }

  function PaymentsFor(orders: seq<Order>, ids: seq<string>): (r: seq<Payment>)
    ensures |r| == |ids| && forall i | 0 <= i < |r| :: r[i] == Payment(ids[i], OrdersOf(orders, ids[i]))
  {
    seq(|ids|, i requires 0 <= i < |ids| => Payment(ids[i], OrdersOf(orders, ids[i])))
  }

  function FromOrders(orders: seq<Order>): seq<Payment> {
    PaymentsFor(orders, PaymentIds(orders))
  }

  // ----- the code -----

  /** The dictionary holds exactly the groups of the orders seen so far. */
  ghost predicate Grouped(grouped: map<string, seq<Order>>, seen: seq<Order>) {
    forall id :: GroupedAt(grouped, seen, id)
  }

  ghost predicate GroupedAt(grouped: map<string, seq<Order>>, seen: seq<Order>, id: string) {
    && (id in grouped <==> OrdersOf(seen, id) != [])
    && (id in grouped ==> grouped[id] == OrdersOf(seen, id))
  }

  function WithOrder(grouped: map<string, seq<Order>>, o: Order): map<string, seq<Order>> {
    grouped[o.paymentId := (if o.paymentId in grouped then grouped[o.paymentId] else []) + [o]]
  }

  lemma OwnGroupOneMore(grouped: map<string, seq<Order>>, seen: seq<Order>, o: Order)
    requires Grouped(grouped, seen)
    ensures GroupedAt(WithOrder(grouped, o), seen + [o], o.paymentId)
  {
    assert GroupedAt(grouped, seen, o.paymentId);
    FilterOneMore(PaidBy(o.paymentId), seen, o);
  }

  lemma OtherGroupStays(grouped: map<string, seq<Order>>, seen: seq<Order>, o: Order, id: string)
    requires Grouped(grouped, seen) && id != o.paymentId
    ensures GroupedAt(WithOrder(grouped, o), seen + [o], id)
  {
    assert GroupedAt(grouped, seen, id);
    FilterOneMore(PaidBy(id), seen, o);
    assert OrdersOf(seen, id) + [] == OrdersOf(seen, id);
  }

  lemma GroupedOneMore(grouped: map<string, seq<Order>>, seen: seq<Order>, o: Order)
    requires Grouped(grouped, seen)
    ensures Grouped(WithOrder(grouped, o), seen + [o])
  {
    var more, longer := WithOrder(grouped, o), seen + [o];
    forall id ensures GroupedAt(more, longer, id) {
      if id == o.paymentId {
        OwnGroupOneMore(grouped, seen, o);
      } else {
        OtherGroupStays(grouped, seen, o, id);
      }
    }
  }

  lemma IdsOneMore(seen: seq<Order>, o: Order)
    ensures PaymentIds(seen + [o]) ==
            if o.paymentId in PaymentIds(seen) then PaymentIds(seen) else PaymentIds(seen) + [o.paymentId]
  {
    assert (seen + [o])[..|seen|] == seen;
  }

  lemma IdsAreGrouped(grouped: map<string, seq<Order>>, seen: seq<Order>, id: string)
    requires Grouped(grouped, seen)
    ensures id in PaymentIds(seen) <==> id in grouped
  {
    assert GroupedAt(grouped, seen, id);
    if id in PaymentIds(seen) {
      var o :| o in seen && o.paymentId == id;
      assert o in OrdersOf(seen, id);
    } else {
      NothingPaid(seen, id);
    }
  }

  lemma {:induction false} NothingPaid(seen: seq<Order>, id: string)
    requires forall o | o in seen :: o.paymentId != id
    ensures OrdersOf(seen, id) == []
  {
    if seen == [] {
    } else {
      NothingPaid(seen[1..], id);
    }
  }

  /** The loop body of `from_orders`; the dictionary creates an empty group on first use. */
  method AddOrder(grouped: map<string, seq<Order>>, order: seq<string>, o: Order)
    returns (more: map<string, seq<Order>>, moreOrder: seq<string>)
    ensures more == WithOrder(grouped, o)
    ensures moreOrder == if o.paymentId in grouped then order else order + [o.paymentId]
  {
    more, moreOrder := grouped, order;
    if o.paymentId !in more {
      more := more[o.paymentId := []];
      moreOrder := moreOrder + [o.paymentId];
    }
    more := more[o.paymentId := more[o.paymentId] + [o]];
  }

  /** The dictionary and its insertion order after the orders seen so far. */
  ghost predicate Tracks(grouped: map<string, seq<Order>>, order: seq<string>, seen: seq<Order>) {
    Grouped(grouped, seen) && order == PaymentIds(seen)
  }

  lemma TracksOneMore(grouped: map<string, seq<Order>>, order: seq<string>, orders: seq<Order>, i: nat)
    requires i < |orders| && Tracks(grouped, order, orders[..i])
    ensures Tracks(WithOrder(grouped, orders[i]),
                   if orders[i].paymentId in grouped then order else order + [orders[i].paymentId], orders[..i + 1])
  {
    GroupedOneMore(grouped, orders[..i], orders[i]);
    IdsOneMore(orders[..i], orders[i]);
    IdsAreGrouped(grouped, orders[..i], orders[i].paymentId);
    assert orders[..i + 1] == orders[..i] + [orders[i]];
  }

  /** `Payment.from_orders`. */
  method GroupOrders(orders: seq<Order>) returns (payments: seq<Payment>)
    ensures payments == FromOrders(orders)
  {
    var grouped: map<string, seq<Order>> := map[];
    var order: seq<string> := [];
    for i := 0 to |orders|
      invariant Tracks(grouped, order, orders[..i])
    {
      TracksOneMore(grouped, order, orders, i);
      grouped, order := AddOrder(grouped, order, orders[i]);
    }
    assert orders[..|orders|] == orders;
    payments := Listed(grouped, order, orders);
  }

  function Listed(grouped: map<string, seq<Order>>, order: seq<string>, ghost seen: seq<Order>): (r: seq<Payment>)
    requires Grouped(grouped, seen) && order == PaymentIds(seen)
    ensures r == FromOrders(seen)
  {
    assert forall i | 0 <= i < |order| :: order[i] in grouped && grouped[order[i]] == OrdersOf(seen, order[i]) by {
      forall i | 0 <= i < |order| ensures order[i] in grouped && grouped[order[i]] == OrdersOf(seen, order[i]) {
        IdsAreGrouped(grouped, seen, order[i]);
        assert GroupedAt(grouped, seen, order[i]);
      }
    }
    seq(|order|, i requires 0 <= i < |order| && order[i] in grouped => Payment(order[i], grouped[order[i]]))
  }

  // ----- what grouping keeps -----

  predicate FirstAt(orders: seq<Order>, id: string, k: nat) {
    k < |orders| && orders[k].paymentId == id && forall i | 0 <= i < k :: orders[i].paymentId != id
  }

  /** The id that a last order adds appears there first. */
  lemma NewIdAppearsLast(orders: seq<Order>)
    requires orders != [] && orders[|orders| - 1].paymentId !in PaymentIds(orders[..|orders| - 1])
    ensures FirstAt(orders, orders[|orders| - 1].paymentId, |orders| - 1)
  {
    var init := orders[..|orders| - 1];
    forall i | 0 <= i < |orders| - 1 ensures orders[i].paymentId != orders[|orders| - 1].paymentId {
      assert init[i] in init;
    }
  }

  /** Payments have distinct ids, in the order in which the ids first appear. */
  lemma {:induction false} IdsInOrderOfAppearance(orders: seq<Order>, a: nat, b: nat) returns (first: nat, second: nat)
    requires a < b < |PaymentIds(orders)|
    ensures first < second
    ensures FirstAt(orders, PaymentIds(orders)[a], first) && FirstAt(orders, PaymentIds(orders)[b], second)
    ensures PaymentIds(orders)[a] != PaymentIds(orders)[b]
  {
    var init, last := orders[..|orders| - 1], orders[|orders| - 1];
    var before := PaymentIds(init);
    assert orders == init + [last];
    IdsOneMore(init, last);
    if b < |before| {
      first, second := IdsInOrderOfAppearance(init, a, b);
    } else {
      second := |orders| - 1;
      NewIdAppearsLast(orders);
      assert before[a] in before;
      first := FirstAppearance(init, before[a]);
    }
  }

  lemma FirstAppearance(orders: seq<Order>, id: string) returns (k: nat)
    requires id in PaymentIds(orders)
    ensures FirstAt(orders, id, k)
  {
    k := 0;
    var o :| o in orders && o.paymentId == id;
    var j :| 0 <= j < |orders| && orders[j] == o;
    while orders[k].paymentId != id
      invariant k <= j
      invariant forall i | 0 <= i < k :: orders[i].paymentId != id
      decreases j - k
    {
      k := k + 1;
    }
  }

  function Flatten(payments: seq<Payment>): seq<Order> {
    if payments == [] then [] else Flatten(payments[..|payments| - 1]) + payments[|payments| - 1].orders
  }

  lemma {:induction false} OrdersSplit(orders: seq<Order>, id: string)
    ensures multiset(orders) == multiset(OrdersOf(orders, id)) + multiset(Filter(Not(PaidBy(id)), orders))
  {
    if orders == [] {
    } else {
      OrdersSplit(orders[1..], id);
      assert orders == [orders[0]] + orders[1..];
    }
  }

  lemma {:induction false} OtherPaymentsDoNotCare(orders: seq<Order>, id: string, other: string)
    requires other != id
    ensures OrdersOf(Filter(Not(PaidBy(other)), orders), id) == OrdersOf(orders, id)
  {
    if orders == [] {
    } else {
      OtherPaymentsDoNotCare(orders[1..], id, other);
    }
  }

  lemma OtherGroupsDoNotCare(orders: seq<Order>, ids: seq<string>, other: string)
    requires other !in ids
    ensures PaymentsFor(Filter(Not(PaidBy(other)), orders), ids) == PaymentsFor(orders, ids)
  {
    forall i | 0 <= i < |ids| ensures OrdersOf(Filter(Not(PaidBy(other)), orders), ids[i]) == OrdersOf(orders, ids[i]) {
      OtherPaymentsDoNotCare(orders, ids[i], other);
    }
  }

  lemma FlattenOneMore(orders: seq<Order>, ids: seq<string>, last: string)
    ensures Flatten(PaymentsFor(orders, ids + [last])) == Flatten(PaymentsFor(orders, ids)) + OrdersOf(orders, last)
  {
    assert PaymentsFor(orders, ids + [last])[..|ids|] == PaymentsFor(orders, ids);
  }

  /** Grouping by any distinct ids that cover the orders rearranges the orders. */
  lemma {:induction false} GroupsCover(orders: seq<Order>, ids: seq<string>)
    requires Distinct(ids) && forall o | o in orders :: o.paymentId in ids
    ensures multiset(Flatten(PaymentsFor(orders, ids))) == multiset(orders)
    decreases |ids|
  {
    if orders == [] {
    } else {
      assert orders[0] in orders;
    }
    if ids == [] {
    } else {
      var init, last := ids[..|ids| - 1], ids[|ids| - 1];
      assert ids == init + [last];
      var rest := Filter(Not(PaidBy(last)), orders);
      GroupsCover(rest, init);
      OtherGroupsDoNotCare(orders, init, last);
      FlattenOneMore(orders, init, last);
      OrdersSplit(orders, last);
    }
  }

  lemma IdsAreDistinct(orders: seq<Order>)
    ensures Distinct(PaymentIds(orders))
  {
    forall i, j | 0 <= i < j < |PaymentIds(orders)| ensures PaymentIds(orders)[i] != PaymentIds(orders)[j] {
      var first, second := IdsInOrderOfAppearance(orders, i, j);
    }
  }

  /** No order is lost, duplicated or moved to another payment, and no payment is empty. */
  lemma EachOrderInOnePayment(orders: seq<Order>)
    ensures multiset(Flatten(FromOrders(orders))) == multiset(orders)
    ensures forall p | p in FromOrders(orders) :: p.orders != [] && p.orders == OrdersOf(orders, p.paymentId)
    ensures forall i, j | 0 <= i < j < |FromOrders(orders)| ::
              FromOrders(orders)[i].paymentId != FromOrders(orders)[j].paymentId
  {
    IdsAreDistinct(orders);
    GroupsCover(orders, PaymentIds(orders));
    forall p | p in FromOrders(orders) ensures p.orders != [] {
      assert p.paymentId in PaymentIds(orders);
      var o :| o in orders && o.paymentId == p.paymentId;
      assert o in OrdersOf(orders, p.paymentId);
    }
  }

  /** Each payment holds, in order, exactly the orders paid with its id. */
  lemma PaymentsHoldTheirOrders(orders: seq<Order>, p: Payment) returns (at: seq<nat>)
    requires p in FromOrders(orders)
    ensures KeptAt(at, p.orders, (o: Order) => o.paymentId == p.paymentId, orders)
  {
    EachOrderInOnePayment(orders);
    FiltersAgree(PaidBy(p.paymentId), (o: Order) => o.paymentId == p.paymentId, orders);
    at := FilterKeepsPositions((o: Order) => o.paymentId == p.paymentId, orders);
  }

  // ----- money -----

  lemma {:induction false} SumConcat(a: seq<Order>, b: seq<Order>)
    ensures SumOfOrders(a + b) == SumOfOrders(a) + SumOfOrders(b)
    decreases |b|
  {
    if b == [] {
      assert a + b == a;
    } else {
      assert (a + b)[..|a + b| - 1] == a + b[..|b| - 1];
      SumConcat(a, b[..|b| - 1]);
    }
  }

  lemma SumMovesToFront(before: seq<Order>, o: Order, after: seq<Order>)
    ensures SumOfOrders(before + ([o] + after)) == SumOfOrders([o]) + SumOfOrders(before + after)
  {
    SumConcat(before, [o] + after);
    SumConcat([o], after);
    SumConcat(before, after);
  }

  lemma SumOfTail(orders: seq<Order>)
    requires orders != []
    ensures SumOfOrders(orders) == SumOfOrders([orders[0]]) + SumOfOrders(orders[1..])
  {
    assert orders == [orders[0]] + orders[1..];
    SumConcat([orders[0]], orders[1..]);
  }

  lemma {:induction false} SumForgetsOrder(a: seq<Order>, b: seq<Order>)
    requires multiset(a) == multiset(b)
    ensures SumOfOrders(a) == SumOfOrders(b)
    decreases |a|
  {
    EmptyTogether(a, b);
    if a == [] {
    } else {
      var before, after := SplitAt(b, a[0]);
      MultisetOfTail(a);
      SumForgetsOrder(a[1..], before + after);
      SumOfTail(a);
      SumMovesToFront(before, a[0], after);
    }
  }

  lemma {:induction false} PaymentSumsItsOrders(orders: seq<Order>)
    ensures PaymentItemsTotal(orders) + PaymentDeliveryTotal(orders) == SumOfOrders(orders)
  {
    if orders == [] {
    } else {
      PaymentSumsItsOrders(orders[..|orders| - 1]);
    }
  }

  lemma {:induction false} PaymentsSumTheirOrders(payments: seq<Payment>)
    ensures SumOfPayments(payments) == SumOfOrders(Flatten(payments))
  {
    if payments == [] {
    } else {
      var init, last := payments[..|payments| - 1], payments[|payments| - 1];
      PaymentsSumTheirOrders(init);
      PaymentSumsItsOrders(last.orders);
      SumConcat(Flatten(init), last.orders);
    }
  }

  /** Grouping conserves money: the payments' known totals add up to the orders' known totals. */
  lemma MoneyIsConserved(orders: seq<Order>)
    ensures SumOfPayments(FromOrders(orders)) == SumOfOrders(orders)
  {
    PaymentsSumTheirOrders(FromOrders(orders));
    EachOrderInOnePayment(orders);
    SumForgetsOrder(Flatten(FromOrders(orders)), orders);
  }

  // ----- titles -----

  const MAX_WORDS := 3
  const MAX_TITLE := 32

  /** Python's character classes and case functions, as far as titles need them. */
  datatype Letters = Letters(isWord: char -> bool, capitalize: string -> string, lower: string -> string)

  /** What the regular expression leaves of a title: word characters, white space and hyphens. */
  function Clean(l: Letters, title: string): string {
    Filter((c: char) => l.isWord(c) || IsSpace(c) || c == '-', title)
  }

  /** Hyphenated parts of more than two characters are capitalized, the others lowered. */
  function FormatPart(l: Letters, part: string): string {
    if |part| > 2 then l.capitalize(part) else l.lower(part)
  }

  function FormatWord(l: Letters, word: string): string {
    var parts := SplitOn('-', word);
    JoinWith("-", seq(|parts|, i requires 0 <= i < |parts| => FormatPart(l, parts[i])))
  }

  function Formatted(l: Letters, words: seq<string>): (r: seq<string>)
    ensures |r| == |words|
  {
    seq(|words|, i requires 0 <= i < |words| => FormatWord(l, words[i]))
  }

  /** What cleaning leaves of a title: in order, its word characters, white space and hyphens. */
  lemma CleaningKeepsWords(l: Letters, title: string) returns (at: seq<nat>)
    ensures KeptAt(at, Clean(l, title), (c: char) => l.isWord(c) || IsSpace(c) || c == '-', title)
  {
    at := FilterKeepsPositions((c: char) => l.isWord(c) || IsSpace(c) || c == '-', title);
  }

  /** Of a hyphenated word every part longer than two characters is capitalized, every other one lowered. */
  lemma HyphenatedPartsAreFormatted(l: Letters, parts: seq<string>, formatted: seq<string>)
    requires parts != [] && |formatted| == |parts|
    requires forall i | 0 <= i < |parts| ::
               '-' !in parts[i] && formatted[i] == if |parts[i]| >= 3 then l.capitalize(parts[i]) else l.lower(parts[i])
    ensures FormatWord(l, JoinWith("-", parts)) == JoinWith("-", formatted)
  {
    SplitUndoesJoin('-', parts);
    assert seq(|parts|, i requires 0 <= i < |parts| => FormatPart(l, parts[i])) == formatted;
  }

  lemma JoinOneMore(parts: seq<string>, part: string)
    ensures |JoinWith(" ", parts + [part])| == |JoinWith(" ", parts)| + |part| + (if parts == [] then 0 else 1)
  {
    assert (parts + [part])[..|parts|] == parts;
  }

  /** The loop of `get_simplified_title` over the words of the title. */
  method TakeWords(format: string -> string, words: seq<string>, ghost all: seq<string>)
    returns (title: string, ghost taken: nat)
    requires |all| == |words| && forall i | 0 <= i < |words| :: all[i] == format(words[i])
    ensures taken <= |all| && taken <= MAX_WORDS && |title| <= MAX_TITLE
    ensures title == JoinWith(" ", all[..taken])
    ensures taken == |all| || taken == MAX_WORDS || |JoinWith(" ", all[..taken + 1])| > MAX_TITLE
  {
    var result: seq<string>, totalLength := [], 0;
    taken := 0;
    var i := 0;
    while i < |words|
      invariant i <= |words| && taken == i == |result| <= MAX_WORDS
      invariant result == all[..i]
      invariant totalLength == |JoinWith(" ", result)| <= MAX_TITLE
    {
      var formatted := format(words[i]);
      var extra := |formatted| + if result != [] then 1 else 0;
      JoinOneMore(result, formatted);
      assert all[..i + 1] == all[..i] + [formatted];
      if |result| < MAX_WORDS && totalLength + extra <= MAX_TITLE {
        result := result + [formatted];
        totalLength := totalLength + extra;
      } else {
        break;
      }
      i := i + 1;
      taken := i;
    }
    title := JoinWith(" ", result);
  }

  /** `get_simplified_title`: at most three words and 32 characters, and the longest beginning for which that is so. */
  method SimplifiedTitle(l: Letters, fullTitle: string) returns (title: string, ghost taken: nat)
    ensures var formatted := Formatted(l, Words(Clean(l, fullTitle)));
            && taken <= |formatted| && taken <= 3 && |title| <= 32
            && title == JoinWith(" ", formatted[..taken])
            && (taken == |formatted| || taken == 3 || |JoinWith(" ", formatted[..taken + 1])| > 32)
  {
    var words := Words(Clean(l, fullTitle));
    title, taken := TakeWords((word: string) => FormatWord(l, word), words, Formatted(l, words));
  }

  // ----- of what the totals are made -----

  /** All offers of some orders, and what their deliveries cost. */
  function AllOffers(orders: seq<Order>): seq<Offer> {
    if orders == [] then [] else AllOffers(orders[..|orders| - 1]) + orders[|orders| - 1].offers
  }

  function DeliveryCosts(orders: seq<Order>): seq<real> {
    seq(|orders|, i requires 0 <= i < |orders| => orders[i].deliveryCost)
  }

  function Sum(xs: seq<real>): real {
    if xs == [] then 0.0 else xs[0] + Sum(xs[1..])
  }

  function Price(o: Offer): real {
    o.unitPrice * o.quantity as real
  }

  function Prices(offers: seq<Offer>): seq<real> {
    seq(|offers|, i requires 0 <= i < |offers| => Price(offers[i]))
  }

  lemma PricesSplit(a: seq<Offer>, b: seq<Offer>)
    ensures Prices(a + b) == Prices(a) + Prices(b)
  {
  }

  lemma {:induction false} SumSplits(a: seq<real>, b: seq<real>)
    ensures Sum(a + b) == Sum(a) + Sum(b)
  {
    if a == [] {
      assert a + b == b;
    } else {
      assert (a + b)[1..] == a[1..] + b;
      SumSplits(a[1..], b);
    }
  }

  lemma SumOfOneMore(xs: seq<real>, x: real)
    ensures Sum(xs + [x]) == Sum(xs) + x
  {
    SumSplits(xs, [x]);
    assert [x][1..] == [];
  }

  lemma {:induction false} ItemsTotalIsTheSum(offers: seq<Offer>)
    ensures ItemsTotal(offers) == Sum(Prices(offers))
  {
    if offers == [] {
    } else {
      var init, last := offers[..|offers| - 1], offers[|offers| - 1];
      ItemsTotalIsTheSum(init);
      SumOfOneMore(Prices(init), Price(last));
      assert offers == init + [last];
      PricesSplit(init, [last]);
      assert Prices([last]) == [Price(last)];
    }
  }

  /** The payments together cost what all the offers of the orders and their deliveries cost. */
  lemma {:induction false} OrdersCostTheirOffers(orders: seq<Order>)
    ensures SumOfOrders(orders) == Sum(Prices(AllOffers(orders))) + Sum(DeliveryCosts(orders))
  {
    if orders == [] {
    } else {
      var init, last := orders[..|orders| - 1], orders[|orders| - 1];
      OrdersCostTheirOffers(init);
      ItemsTotalIsTheSum(last.offers);
      SumSplits(Prices(AllOffers(init)), Prices(last.offers));
      PricesSplit(AllOffers(init), last.offers);
      SumOfOneMore(DeliveryCosts(init), last.deliveryCost);
      assert DeliveryCosts(orders) == DeliveryCosts(init) + [last.deliveryCost];
    }
  }
}

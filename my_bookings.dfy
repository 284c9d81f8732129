/**
 * The "My Bookings" page: the filter-then-sort chain that produces the
 * displayed list, the optimistic cancel update, the status tallies and the
 * status badge colour.
 */
module MyBookings {
  import opened Wrappers
  import opened Fetch
  import opened Text

  /** A booking as the page receives it. Dates are integer timestamps;
      `bookingDate` always has a value because the schema defaults it. */
  datatype Booking = Booking(
    id: string, status: Option<string>, createdAt: Option<int>,
    bookingDate: int, totalCost: Option<int>)

  /** `b.createdAt || b.bookingDate` */
  function Timestamp(b: Booking): int {
    b.createdAt.GetOr(b.bookingDate)
  }

  /** `b.totalCost || 0` */
  function CostOrZero(b: Booking): int {
    b.totalCost.GetOr(0)
  }

  // ---------------------------------------------------------------- filter

  /** The filter callback: "all" keeps everything, any other filter keeps the
      bookings whose lower-cased status equals it (a missing status never
      matches). */
  predicate Kept(b: Booking, filter: string): (k: bool)
    ensures filter == "all" ==> k
    ensures k && filter != "all" ==> b.status.Some? && |b.status.value| == |filter|
    ensures k && filter != "all" ==> ToLower(filter) == filter
  {
    if b.status.Some? then
      ToLowerIdempotent(b.status.value);
      filter == "all" || ToLower(b.status.value) == filter
    else filter == "all"
  }

  /** `bookings.filter(...)`: each booking is kept, with its multiplicity,
      exactly when the filter accepts it. */
  function FilterBookings(bookings: seq<Booking>, filter: string): (r: seq<Booking>)
    ensures forall b :: multiset(r)[b] == if Kept(b, filter) then multiset(bookings)[b] else 0
    ensures forall i :: 0 <= i < |r| ==> Kept(r[i], filter)
    ensures |r| <= |bookings|
  {
    if bookings == [] then []
    else
      var rest := FilterBookings(bookings[1..], filter);
      assert bookings == [bookings[0]] + bookings[1..];
      if Kept(bookings[0], filter) then [bookings[0]] + rest else rest
  }

  /** `filter` works element by element and keeps the order: filtering a
      concatenation is concatenating the filtered parts ... */
  lemma {:induction false} FilterAppend(a: seq<Booking>, b: seq<Booking>, filter: string)
    ensures FilterBookings(a + b, filter) == FilterBookings(a, filter) + FilterBookings(b, filter)
  {
    if a == [] {
      assert a + b == b;
    } else {
      var head := if Kept(a[0], filter) then [a[0]] else [];
      assert (a + b)[1..] == a[1..] + b;
      assert FilterBookings(a + b, filter) == head + FilterBookings(a[1..] + b, filter);
      assert FilterBookings(a, filter) == head + FilterBookings(a[1..], filter);
      FilterAppend(a[1..], b, filter);
      SeqAssoc(head, FilterBookings(a[1..], filter), FilterBookings(b, filter));
    }
  }

  lemma SeqAssoc(x: seq<Booking>, y: seq<Booking>, z: seq<Booking>)
    ensures x + (y + z) == (x + y) + z
  {
  }

  /** ... and a single booking is kept or dropped on its own. */
  lemma FilterSingle(x: Booking, filter: string)
    ensures FilterBookings([x], filter) == if Kept(x, filter) then [x] else []
  {
    assert [x][1..] == [];
  }

  /** With the "all" filter nothing is dropped or reordered. */
  lemma {:induction false} FilterAllKeepsEverything(bookings: seq<Booking>)
    ensures FilterBookings(bookings, "all") == bookings
  {
    if bookings != [] {
      FilterAllKeepsEverything(bookings[1..]);
      assert Kept(bookings[0], "all");
      assert bookings == [bookings[0]] + bookings[1..];
    }
  }

  // ------------------------------------------------------------------ sort

  /** The cases of the comparator's `switch (sortBy)`. */
  datatype SortOrder = Newest | Oldest | PriceHigh | PriceLow | Unordered

  function OrderOf(sortBy: string): SortOrder {
    if sortBy == "newest" then Newest
    else if sortBy == "oldest" then Oldest
    else if sortBy == "priceHigh" then PriceHigh
    else if sortBy == "priceLow" then PriceLow
    else Unordered
  }

  /** The comparator as an ascending key (see `Compare`). Newest and
      PriceHigh negate the key; the `default` case compares everything
      equal. */
  function SortKey(order: SortOrder, b: Booking): int {
    match order
    case Newest => -Timestamp(b)
    case Oldest => Timestamp(b)
    case PriceHigh => -CostOrZero(b)
    case PriceLow => CostOrZero(b)
    case Unordered => 0
  }

  /** The comparator passed to `sort`, case by case as the page writes it.
      It is the difference of the two bookings' keys, so sorting by it is
      sorting by `SortKey`. */
  function Compare(order: SortOrder, a: Booking, b: Booking): (c: int)
    ensures c == SortKey(order, a) - SortKey(order, b)
  {
    match order
    case Newest => Timestamp(b) - Timestamp(a)
    case Oldest => Timestamp(a) - Timestamp(b)
    case PriceHigh => CostOrZero(b) - CostOrZero(a)
    case PriceLow => CostOrZero(a) - CostOrZero(b)
    case Unordered => 0
  }

  predicate SortedBy(s: seq<Booking>, order: SortOrder) {
    forall i, j :: 0 <= i < j < |s| ==> SortKey(order, s[i]) <= SortKey(order, s[j])
  }

  /** Places `x` before the first element whose key is not smaller, so that
      among equal keys `x` stays first. */
  function Insert(x: Booking, s: seq<Booking>, order: SortOrder): (r: seq<Booking>)
    ensures multiset(r) == multiset(s) + multiset{x}
    ensures |r| == |s| + 1
  {
    if s == [] then [x]
    else if SortKey(order, x) <= SortKey(order, s[0]) then [x] + s
    else
      assert s == [s[0]] + s[1..];
      [s[0]] + Insert(x, s[1..], order)
  }

  /** Inserting keeps a lower bound that `x` and every element of `s` respect. */
  lemma {:induction false} InsertAbove(x: Booking, s: seq<Booking>, order: SortOrder, lo: int)
    requires SortKey(order, x) >= lo
    requires forall k :: 0 <= k < |s| ==> SortKey(order, s[k]) >= lo
    ensures forall k :: 0 <= k < |Insert(x, s, order)| ==> SortKey(order, Insert(x, s, order)[k]) >= lo
  {
    if s != [] && SortKey(order, x) > SortKey(order, s[0]) {
      InsertAbove(x, s[1..], order, lo);
    }
  }

  /** A sorted list is a least element followed by a sorted list. */
  lemma SortedSplit(s: seq<Booking>, order: SortOrder)
    requires s != [] && SortedBy(s, order)
    ensures SortedBy(s[1..], order)
    ensures forall k :: 0 <= k < |s[1..]| ==> SortKey(order, s[1..][k]) >= SortKey(order, s[0])
  {
    var tail := s[1..];
    forall i, j | 0 <= i < j < |tail| ensures SortKey(order, tail[i]) <= SortKey(order, tail[j]) {
      assert tail[i] == s[i + 1] && tail[j] == s[j + 1];
    }
  }

  lemma SortedCons(y: Booking, rest: seq<Booking>, order: SortOrder)
    requires SortedBy(rest, order)
    requires forall k :: 0 <= k < |rest| ==> SortKey(order, rest[k]) >= SortKey(order, y)
    ensures SortedBy([y] + rest, order)
  {
    var r := [y] + rest;
    forall i, j | 0 <= i < j < |r| ensures SortKey(order, r[i]) <= SortKey(order, r[j]) {
      assert r[j] == rest[j - 1];
      if i > 0 {
        assert r[i] == rest[i - 1];
      }
    }
  }

  lemma {:induction false} InsertSorted(x: Booking, s: seq<Booking>, order: SortOrder)
    requires SortedBy(s, order)
    ensures SortedBy(Insert(x, s, order), order)
  {
    if s == [] {
      assert Insert(x, s, order) == [x];
    } else if SortKey(order, x) <= SortKey(order, s[0]) {
      forall k | 0 <= k < |s| ensures SortKey(order, s[k]) >= SortKey(order, x) {
        if k > 0 { assert SortKey(order, s[0]) <= SortKey(order, s[k]); }
      }
      SortedCons(x, s, order);
    } else {
      SortedSplit(s, order);
      InsertSorted(x, s[1..], order);
      InsertAbove(x, s[1..], order, SortKey(order, s[0]));
      SortedCons(s[0], Insert(x, s[1..], order), order);
    }
  }

  /** `Array.prototype.sort` with the page's comparator. JavaScript's sort is
      stable, which this insertion sort reproduces (`SortIsStable`). */
  function SortBookings(s: seq<Booking>, order: SortOrder): (r: seq<Booking>)
    ensures multiset(r) == multiset(s) && |r| == |s|
    ensures SortedBy(r, order)
  {
    if s == [] then []
    else
      assert s == [s[0]] + s[1..];
      var rest := SortBookings(s[1..], order);
      InsertSorted(s[0], rest, order);
      Insert(s[0], rest, order)
  }

  /** The bookings of `s` whose key is `k`, in their order in `s`. */
  function WithKey(s: seq<Booking>, order: SortOrder, k: int): seq<Booking> {
    if s == [] then []
    else (if SortKey(order, s[0]) == k then [s[0]] else []) + WithKey(s[1..], order, k)
  }

  lemma WithKeyCons(y: Booking, s: seq<Booking>, order: SortOrder, k: int)
    ensures WithKey([y] + s, order, k) == (if SortKey(order, y) == k then [y] else []) + WithKey(s, order, k)
  {
    assert ([y] + s)[1..] == s;
  }

  /** Moving an empty head past another head changes nothing. */
  lemma SwapHeads(h0: seq<Booking>, hx: seq<Booking>, w: seq<Booking>)
    requires h0 == [] || hx == []
    ensures h0 + (hx + w) == hx + (h0 + w)
  {
    if h0 == [] {
      assert h0 + (hx + w) == hx + w == hx + (h0 + w);
    } else {
      assert h0 + (hx + w) == h0 + w == hx + (h0 + w);
    }
  }

  /** `Insert` puts `x` after every element with a smaller key and before
      every element with an equal one, so among the elements of `x`'s key it
      comes first, and the other keys are untouched. */
  lemma {:induction false} InsertWithKey(x: Booking, s: seq<Booking>, order: SortOrder, k: int)
    decreases |s|, 1
    ensures WithKey(Insert(x, s, order), order, k) ==
      (if SortKey(order, x) == k then [x] else []) + WithKey(s, order, k)
  {
    if s == [] {
      assert Insert(x, s, order) == [x] + [];
      WithKeyCons(x, [], order, k);
    } else if SortKey(order, x) <= SortKey(order, s[0]) {
      WithKeyCons(x, s, order, k);
    } else {
      InsertPastHead(x, s, order, k);
    }
  }

  /** The case where `x` goes past the head of `s`, whose key is smaller. */
  lemma {:induction false} InsertPastHead(x: Booking, s: seq<Booking>, order: SortOrder, k: int)
    requires s != [] && SortKey(order, x) > SortKey(order, s[0])
    ensures WithKey(Insert(x, s, order), order, k) ==
      (if SortKey(order, x) == k then [x] else []) + WithKey(s, order, k)
    decreases |s|, 0
  {
    var hx := if SortKey(order, x) == k then [x] else [];
    var h0 := if SortKey(order, s[0]) == k then [s[0]] else [];
    var r1 := Insert(x, s[1..], order);
    var w := WithKey(s[1..], order, k);
    calc {
      WithKey(Insert(x, s, order), order, k);
      WithKey([s[0]] + r1, order, k);
      { WithKeyCons(s[0], r1, order, k); }
      h0 + WithKey(r1, order, k);
      { InsertWithKey(x, s[1..], order, k); }
      h0 + (hx + w);
      { SwapHeads(h0, hx, w); }
      hx + (h0 + w);
      { assert s == [s[0]] + s[1..]; WithKeyCons(s[0], s[1..], order, k); }
      hx + WithKey(s, order, k);
    }
  }

  /** The sort is stable: the bookings that compare equal come out in the
      order they went in. Together with `SortBookings`'s contract this fixes
      the sorted list completely. */
  lemma {:induction false} SortIsStable(s: seq<Booking>, order: SortOrder, k: int)
    ensures WithKey(SortBookings(s, order), order, k) == WithKey(s, order, k)
  {
    if s != [] {
      SortIsStable(s[1..], order, k);
      InsertWithKey(s[0], SortBookings(s[1..], order), order, k);
    }
  }

  /** The list the page renders: the filtered bookings, permuted into the
      comparator's order. */
  function Displayed(bookings: seq<Booking>, filter: string, sortBy: string): (r: seq<Booking>)
    ensures multiset(r) == multiset(FilterBookings(bookings, filter))
    ensures SortedBy(r, OrderOf(sortBy))
    ensures forall i :: 0 <= i < |r| ==> Kept(r[i], filter)
  {
    var f := FilterBookings(bookings, filter);
    var r := SortBookings(f, OrderOf(sortBy));
    assert forall i :: 0 <= i < |r| ==> r[i] in multiset(f);
    r
  }

  /** Sorting neither adds nor drops bookings: the displayed list is a
      permutation of the filtered one, so it holds each booking the filter
      keeps, as often as the full list does. */
  lemma DisplayedIsFilteredPermutation(bookings: seq<Booking>, filter: string, sortBy: string)
    ensures multiset(Displayed(bookings, filter, sortBy)) == multiset(FilterBookings(bookings, filter))
    ensures forall b :: b in Displayed(bookings, filter, sortBy) <==> b in bookings && Kept(b, filter)
  {
    var f := FilterBookings(bookings, filter);
    forall b ensures b in Displayed(bookings, filter, sortBy) <==> b in bookings && Kept(b, filter) {
      assert b in Displayed(bookings, filter, sortBy) <==> b in multiset(f);
      assert b in bookings <==> b in multiset(bookings);
    }
  }

  /** "priceHigh" lists non-increasing costs, "priceLow" non-decreasing ones,
      a missing cost counting as 0. */
  lemma PriceOrders(bookings: seq<Booking>, filter: string)
    ensures var d := Displayed(bookings, filter, "priceHigh");
      forall i, j :: 0 <= i < j < |d| ==> CostOrZero(d[i]) >= CostOrZero(d[j])
    ensures var d := Displayed(bookings, filter, "priceLow");
      forall i, j :: 0 <= i < j < |d| ==> CostOrZero(d[i]) <= CostOrZero(d[j])
  {
    var h := Displayed(bookings, filter, "priceHigh");
    forall i, j | 0 <= i < j < |h| ensures CostOrZero(h[i]) >= CostOrZero(h[j]) {
      assert SortKey(PriceHigh, h[i]) <= SortKey(PriceHigh, h[j]);
    }
  }

  /** "newest" lists timestamps in descending order, "oldest" ascending, the
      timestamp being `createdAt` or else `bookingDate`. */
  lemma DateOrders(bookings: seq<Booking>, filter: string)
    ensures var d := Displayed(bookings, filter, "newest");
      forall i, j :: 0 <= i < j < |d| ==> Timestamp(d[i]) >= Timestamp(d[j])
    ensures var d := Displayed(bookings, filter, "oldest");
      forall i, j :: 0 <= i < j < |d| ==> Timestamp(d[i]) <= Timestamp(d[j])
  {
    var n := Displayed(bookings, filter, "newest");
    forall i, j | 0 <= i < j < |n| ensures Timestamp(n[i]) >= Timestamp(n[j]) {
      assert SortKey(Newest, n[i]) <= SortKey(Newest, n[j]);
    }
  }

  /** An unknown order (the comparator's `default: return 0`) leaves the
      filtered list as it is: the sort is stable. */
  lemma {:induction false} UnorderedKeepsList(s: seq<Booking>)
    ensures SortBookings(s, Unordered) == s
  {
    if s != [] {
      UnorderedKeepsList(s[1..]);
      assert s == [s[0]] + s[1..];
    }
  }

  lemma UnknownOrderKeepsList(bookings: seq<Booking>, filter: string, sortBy: string)
    requires sortBy !in {"newest", "oldest", "priceHigh", "priceLow"}
    ensures Displayed(bookings, filter, sortBy) == FilterBookings(bookings, filter)
  {
    UnorderedKeepsList(FilterBookings(bookings, filter));
  }

  // ---------------------------------------------------------------- cancel

  const CancelFailedAlert := "Failed to cancel booking"
  const CancelErrorAlert := "Error cancelling booking"

  /** `prev.map(b => b._id === id ? { ...b, status: "Cancelled" } : b)` */
  function MarkCancelled(bookings: seq<Booking>, id: string): (r: seq<Booking>)
    ensures |r| == |bookings|
    ensures forall i :: 0 <= i < |r| ==>
      r[i] == if bookings[i].id == id then bookings[i].(status := Some("Cancelled")) else bookings[i]
  {
    if bookings == [] then []
    else
      var b := bookings[0];
      [if b.id == id then b.(status := Some("Cancelled")) else b] + MarkCancelled(bookings[1..], id)
  }

  /** What `cancelBooking` leaves behind: the list, the alert shown (if any)
      and whether a DELETE request was sent. */
  datatype CancelOutcome = CancelOutcome(bookings: seq<Booking>, alert: Option<string>, requested: bool)

  /** `cancelBooking(id)`, with the user's answer to the confirmation dialog
      and the server's response as inputs. Only a successful response changes
      the list. */
  function Cancel(bookings: seq<Booking>, id: string, confirmed: bool, response: Response<()>): (r: CancelOutcome)
    ensures r.requested == confirmed
    ensures !(confirmed && response.Ok?) ==> r.bookings == bookings
    ensures confirmed && response.Ok? ==> r.bookings == MarkCancelled(bookings, id) && r.alert == None
    ensures r.alert.Some? <==> confirmed && !response.Ok?
    ensures confirmed && response.Failed? ==> r.alert == Some(CancelFailedAlert)
    ensures confirmed && response.NetworkError? ==> r.alert == Some(CancelErrorAlert)
  {
    if !confirmed then CancelOutcome(bookings, None, false)
    else match response
      case Ok(_) => CancelOutcome(MarkCancelled(bookings, id), None, true)
      case Failed(_) => CancelOutcome(bookings, Some(CancelFailedAlert), true)
      case NetworkError => CancelOutcome(bookings, Some(CancelErrorAlert), true)
  }

  // ---------------------------------------------------------------- tallies

  /** A booking whose status (compared exactly, case and all) is in `statuses`. */
  predicate HasStatusIn(b: Booking, statuses: set<string>) {
    b.status.Some? && b.status.value in statuses
  }

  /** How many bookings have a status in `statuses`: never more than there
      are bookings, and none exactly when no booking has such a status. */
  function CountWithStatus(bookings: seq<Booking>, statuses: set<string>): (n: nat)
    ensures n <= |bookings|
    ensures n == 0 <==> forall i :: 0 <= i < |bookings| ==> !HasStatusIn(bookings[i], statuses)
  {
    if bookings == [] then 0
    else
      var rest := CountWithStatus(bookings[1..], statuses);
      assert forall i :: 1 <= i < |bookings| ==> bookings[i] == bookings[1..][i - 1];
      (if HasStatusIn(bookings[0], statuses) then 1 else 0) + rest
  }

  /** The count works booking by booking: counting a concatenation adds the
      counts of its parts ... */
  lemma {:induction false} CountAppend(a: seq<Booking>, b: seq<Booking>, statuses: set<string>)
    ensures CountWithStatus(a + b, statuses) == CountWithStatus(a, statuses) + CountWithStatus(b, statuses)
  {
    if a == [] {
      assert a + b == b;
    } else {
      assert (a + b)[1..] == a[1..] + b;
      assert (a + b)[0] == a[0];
      CountAppend(a[1..], b, statuses);
    }
  }

  /** ... and a single booking counts 1 exactly when its status is one of them. */
  lemma CountSingle(x: Booking, statuses: set<string>)
    ensures CountWithStatus([x], statuses) == if HasStatusIn(x, statuses) then 1 else 0
  {
    assert [x][1..] == [];
  }

  /** The header's "Pending" tally: zero exactly when no booking is pending. */
  function PendingTally(bookings: seq<Booking>): (n: nat)
    ensures n <= |bookings|
    ensures n == 0 <==> forall i :: 0 <= i < |bookings| ==> bookings[i].status != Some("Pending")
  {
    CountWithStatus(bookings, {"Pending"})
  }

  /** The "Confirmed" tally counts confirmed and completed bookings alike. */
  function ConfirmedTally(bookings: seq<Booking>): (n: nat)
    ensures n == CountWithStatus(bookings, {"Confirmed"}) + CountWithStatus(bookings, {"Completed"})
  {
    assert {"Confirmed"} + {"Completed"} == {"Confirmed", "Completed"};
    CountDisjointUnion(bookings, {"Confirmed"}, {"Completed"});
    CountWithStatus(bookings, {"Confirmed", "Completed"})
  }

  /** The "Cancelled" tally: zero exactly when no booking is cancelled. */
  function CancelledTally(bookings: seq<Booking>): (n: nat)
    ensures n <= |bookings|
    ensures n == 0 <==> forall i :: 0 <= i < |bookings| ==> bookings[i].status != Some("Cancelled")
  {
    CountWithStatus(bookings, {"Cancelled"})
  }

  /** Counting two disjoint sets of statuses separately is counting their union. */
  lemma {:induction false} CountDisjointUnion(bookings: seq<Booking>, a: set<string>, b: set<string>)
    requires a !! b
    ensures CountWithStatus(bookings, a) + CountWithStatus(bookings, b) == CountWithStatus(bookings, a + b)
  {
    if bookings != [] {
      CountDisjointUnion(bookings[1..], a, b);
    }
  }

  /** The three status tallies never add up to more than the total shown. */
  lemma TalliesBounded(bookings: seq<Booking>)
    ensures PendingTally(bookings) + ConfirmedTally(bookings) + CancelledTally(bookings) <= |bookings|
  {
    assert {"Pending"} + {"Confirmed", "Completed"} == {"Pending", "Confirmed", "Completed"};
    assert {"Pending", "Confirmed", "Completed"} + {"Cancelled"} == {"Pending", "Confirmed", "Completed", "Cancelled"};
    CountDisjointUnion(bookings, {"Pending"}, {"Confirmed", "Completed"});
    CountDisjointUnion(bookings, {"Pending", "Confirmed", "Completed"}, {"Cancelled"});
  }

  /** A successful cancel keeps the total and never lowers the cancelled tally;
      when some booking carries the id, at least one booking is cancelled. */
  lemma {:induction false} CancelTallies(bookings: seq<Booking>, id: string)
    ensures |MarkCancelled(bookings, id)| == |bookings|
    ensures CancelledTally(MarkCancelled(bookings, id)) >= CancelledTally(bookings)
    ensures (exists i :: 0 <= i < |bookings| && bookings[i].id == id) ==>
      CancelledTally(MarkCancelled(bookings, id)) >= 1
  {
    var r := MarkCancelled(bookings, id);
    if bookings != [] {
      CancelTallies(bookings[1..], id);
      assert r[1..] == MarkCancelled(bookings[1..], id);
      assert CancelledTally(r) ==
        (if HasStatusIn(r[0], {"Cancelled"}) then 1 else 0) + CancelledTally(r[1..]);
      assert CancelledTally(bookings) ==
        (if HasStatusIn(bookings[0], {"Cancelled"}) then 1 else 0) + CancelledTally(bookings[1..]);
    }
    if exists i :: 0 <= i < |bookings| && bookings[i].id == id {
      var i :| 0 <= i < |bookings| && bookings[i].id == id;
      assert r[i].status == Some("Cancelled");
    }
  }

  /** After a successful cancel, the cancelled booking shows under the
      "cancelled" filter. */
  lemma CancelledShowsUnderFilter(bookings: seq<Booking>, id: string, i: nat)
    requires i < |bookings| && bookings[i].id == id
    ensures var r := MarkCancelled(bookings, id);
      r[i].status == Some("Cancelled") && r[i] in FilterBookings(r, "cancelled")
  {
    var r := MarkCancelled(bookings, id);
    StatusesLowered();
    assert Kept(r[i], "cancelled");
    assert multiset(FilterBookings(r, "cancelled"))[r[i]] == multiset(r)[r[i]];
  }

  // ----------------------------------------------------------- badge colour

  const PendingColor := "bg-yellow-100 text-yellow-800 border-yellow-200"
  const ConfirmedColor := "bg-blue-100 text-blue-800 border-blue-200"
  const CompletedColor := "bg-green-100 text-green-800 border-green-200"
  const CancelledColor := "bg-red-100 text-red-800 border-red-200"
  const DefaultColor := "bg-gray-100 text-gray-800 border-gray-200"

  /** The four status names of the schema, lower-cased. */
  lemma StatusesLowered()
    ensures ToLower("Pending") == "pending" && ToLower("Confirmed") == "confirmed"
    ensures ToLower("Completed") == "completed" && ToLower("Cancelled") == "cancelled"
  {
    LowerLiteral("Pending", "pending");
    LowerLiteral("Confirmed", "confirmed");
    LowerLiteral("Completed", "completed");
    LowerLiteral("Cancelled", "cancelled");
  }

  lemma LowerLiteral(s: string, l: string)
    requires |s| == |l| && forall i :: 0 <= i < |s| ==> LowerChar(s[i]) == l[i]
    ensures ToLower(s) == l
  {
  }

  /** `getStatusColor(status)`: switches on `status?.toLowerCase()`; any
      missing or unknown status gets the grey default. */
  function StatusColor(status: Option<string>): (r: string)
    ensures r == DefaultColor <==>
      status.None? || ToLower(status.value) !in {"pending", "confirmed", "completed", "cancelled"}
    ensures status == Some("Pending") ==> r == PendingColor
    ensures status == Some("Confirmed") ==> r == ConfirmedColor
    ensures status == Some("Completed") ==> r == CompletedColor
    ensures status == Some("Cancelled") ==> r == CancelledColor
  {
    StatusesLowered();
    if status.None? then DefaultColor
    else
      var s := ToLower(status.value);
      if s == "pending" then PendingColor
      else if s == "confirmed" then ConfirmedColor
      else if s == "completed" then CompletedColor
      else if s == "cancelled" then CancelledColor
      else DefaultColor
  }

  /** The badge colour ignores letter case. */
  lemma StatusColorIgnoresCase(s: string)
    ensures StatusColor(Some(s)) == StatusColor(Some(ToLower(s)))
  {
    ToLowerIdempotent(s);
  }
}

/**
 * The home page: the cuisine filter and the three sort orders of the
 * restaurant list, the list of cuisine buttons, the carousel's slide index,
 * and the link each restaurant card carries to the restaurant page.
 */
module Home {
  import opened Wrappers
  import opened Seqs
  import opened Sorting
  import opened Text
  import RestaurantDetail

  /**
   * A restaurant as the page reads it.  `rating` is in tenths of a star;
   * `deliveryTime` and `minOrder` are the display strings of the data file
   * (such as "25-35 min" and "Rs. 150").
   */
  datatype Restaurant = Restaurant(name: string, cuisine: string, rating: int, deliveryTime: string, minOrder: string)

  /** The cuisine choice that shows every restaurant. */
  const ALL: string := "all"

  const RATING: string := "rating"
  const DELIVERY_TIME: string := "deliveryTime"
  const MIN_ORDER: string := "minOrder"

  // ---------------------------------------------------------------------
  // The cuisine filter

  /** Case-insensitive substring test of the choice against the cuisine. */
  function MatchesCuisine(choice: string): Restaurant -> bool {
    (r: Restaurant) => Includes(ToLower(r.cuisine), ToLower(choice))
  }

  function FilterCuisine(rs: seq<Restaurant>, choice: string): seq<Restaurant> {
    if choice == ALL then rs else Filter(rs, MatchesCuisine(choice))
  }

  /**
   * `all` keeps the whole list; any other choice keeps exactly the
   * restaurants whose lowercased cuisine contains the lowercased choice, in
   * their order, and never adds or duplicates one.
   */
  lemma FilterCuisineExact(rs: seq<Restaurant>, choice: string)
    ensures choice == ALL ==> FilterCuisine(rs, choice) == rs
    ensures choice != ALL ==> forall r :: r in FilterCuisine(rs, choice) <==>
      r in rs && Includes(ToLower(r.cuisine), ToLower(choice))
    ensures multiset(FilterCuisine(rs, choice)) <= multiset(rs)
    ensures choice != ALL ==> SelectsInOrder(FilterCuisine(rs, choice), rs, MatchesCuisine(choice))
  {
    var p := MatchesCuisine(choice);
    if choice != ALL {
      FilterSelectsInOrder(rs, p);
      forall r ensures r in Filter(rs, p) <==> r in rs && p(r) {
        FilterMembership(rs, p, r);
      }
      FilterSubMultiset(rs, p);
    }
  }

  // ---------------------------------------------------------------------
  // The three comparators, as "`a` may come before `b`"

  /** `b.rating - a.rating`: higher ratings first. */
  predicate RatingFirst(a: Restaurant, b: Restaurant) {
    b.rating - a.rating <= 0
  }

  /** `parseInt(deliveryTime)`: the leading number of minutes, if any. */
  function DeliveryMinutes(r: Restaurant): Option<int> {
    ParseInt(r.deliveryTime)
  }

  /** `parseInt(minOrder.replace(/[^0-9]/g, ''))`: the number its digits spell, if any. */
  function MinOrderAmount(r: Restaurant): Option<int> {
    ParseInt(DigitsOnly(r.minOrder))
  }

  /**
   * `timeA - timeB`: a difference involving `NaN` is `NaN`, which the sort
   * treats like zero, leaving the later element where it is.
   */
  predicate FasterFirst(a: Restaurant, b: Restaurant) {
    match (DeliveryMinutes(a), DeliveryMinutes(b))
    case (Some(x), Some(y)) => x - y <= 0
    case _ => true
  }

  /** `orderA - orderB`, with the same treatment of `NaN`. */
  predicate LowerMinFirst(a: Restaurant, b: Restaurant) {
    match (MinOrderAmount(a), MinOrderAmount(b))
    case (Some(x), Some(y)) => x - y <= 0
    case _ => true
  }

  /** The `switch (sort)`: a known key sorts, any other leaves the order alone. */
  function SortRestaurants(rs: seq<Restaurant>, sort: string): seq<Restaurant> {
    if sort == RATING then InsertionSort(rs, RatingFirst)
    else if sort == DELIVERY_TIME then InsertionSort(rs, FasterFirst)
    else if sort == MIN_ORDER then InsertionSort(rs, LowerMinFirst)
    else rs
  }

  /**
   * `filterRestaurants`: filter a copy of the list, then sort the copy in
   * place with the chosen comparator.
   */
  method FilterRestaurants(restaurants: seq<Restaurant>, cuisine: string, sort: string)
    returns (filtered: seq<Restaurant>)
    ensures filtered == SortRestaurants(FilterCuisine(restaurants, cuisine), sort)
    ensures multiset(filtered) <= multiset(restaurants)
    ensures forall r :: r in filtered ==> r in restaurants && (cuisine == ALL || MatchesCuisine(cuisine)(r))
  {
    var chosen := restaurants;
    if cuisine != ALL {
      chosen := Filter(chosen, MatchesCuisine(cuisine));
    }
    var a := new Restaurant[|chosen|](i requires 0 <= i < |chosen| => chosen[i]);
    assert a[..] == chosen;
    if sort == RATING {
      SortInPlace(a, RatingFirst);
    } else if sort == DELIVERY_TIME {
      SortInPlace(a, FasterFirst);
    } else if sort == MIN_ORDER {
      SortInPlace(a, LowerMinFirst);
    }
    filtered := a[..];
    FilterCuisineExact(restaurants, cuisine);
    SortIsPermutation(chosen, sort);
    forall r | r in filtered ensures r in restaurants && (cuisine == ALL || MatchesCuisine(cuisine)(r)) {
      assert r in multiset(chosen);
    }
  }

  // ---------------------------------------------------------------------
  // What the sorts promise

  /** Every sort, and the default branch, only reorders the list. */
  lemma SortIsPermutation(rs: seq<Restaurant>, sort: string)
    ensures multiset(SortRestaurants(rs, sort)) == multiset(rs)
  {
    if sort == RATING {
      SortPermutes(rs, RatingFirst);
    } else if sort == DELIVERY_TIME {
      SortPermutes(rs, FasterFirst);
    } else if sort == MIN_ORDER {
      SortPermutes(rs, LowerMinFirst);
    }
  }

  /** An unknown sort key leaves the filtered order exactly as it was. */
  lemma UnknownSortKeepsOrder(rs: seq<Restaurant>, sort: string)
    requires sort != RATING && sort != DELIVERY_TIME && sort != MIN_ORDER
    ensures SortRestaurants(rs, sort) == rs
  {
  }

  function SameRating(k: int): Restaurant -> bool {
    (r: Restaurant) => r.rating == k
  }

  /**
   * The rating sort puts ratings in non-increasing order and keeps
   * restaurants with the same rating in their original order.
   */
  lemma RatingSortOrdered(rs: seq<Restaurant>, k: Restaurant)
    ensures var r := SortRestaurants(rs, RATING);
      && (forall i, j :: 0 <= i < j < |r| ==> r[i].rating >= r[j].rating)
      && Filter(r, SameRating(k.rating)) == Filter(rs, SameRating(k.rating))
  {
    assert TotalPreorder(RatingFirst);
    SortSorted(rs, RatingFirst);
    SortStable(rs, k, RatingFirst);
    FilterSame(InsertionSort(rs, RatingFirst), EquivTo(RatingFirst, k), SameRating(k.rating));
    FilterSame(rs, EquivTo(RatingFirst, k), SameRating(k.rating));
  }

  /** Filtering by two tests that agree everywhere gives the same list. */
  lemma {:induction false} FilterSame(s: seq<Restaurant>, p: Restaurant -> bool, q: Restaurant -> bool)
    requires forall x :: p(x) == q(x)
    ensures Filter(s, p) == Filter(s, q)
    decreases |s|
  {
    if s != [] {
      FilterSame(s[..|s| - 1], p, q);
    }
  }

  /**
   * A comparator that, on the elements of `rs`, compares an integer key
   * sorts `rs` into ascending key order, keeping only elements of `rs`.
   */
  lemma SortedByKey(rs: seq<Restaurant>, le: (Restaurant, Restaurant) -> bool, k: Restaurant -> int)
    requires forall a, b :: a in rs && b in rs ==> le(a, b) == (k(a) <= k(b))
    ensures forall i :: 0 <= i < |InsertionSort(rs, le)| ==> InsertionSort(rs, le)[i] in rs
    ensures forall i, j :: 0 <= i < j < |InsertionSort(rs, le)| ==>
      k(InsertionSort(rs, le)[i]) <= k(InsertionSort(rs, le)[j])
  {
    var key := ByKey(k);
    SortAgrees(rs, le, key);
    ByKeyTotalPreorder(k);
    SortSorted(rs, key);
    var r := InsertionSort(rs, key);
    SortPermutes(rs, key);
    forall i | 0 <= i < |r| ensures r[i] in rs {
      assert r[i] in multiset(rs);
    }
  }

  function DeliveryKey(r: Restaurant): int { DeliveryMinutes(r).GetOr(0) }

  /**
   * When every delivery time starts with a number, the delivery-time sort
   * puts those numbers in ascending order.
   */
  lemma DeliveryTimeSortOrdered(rs: seq<Restaurant>)
    requires forall r :: r in rs ==> DeliveryMinutes(r).Some?
    ensures var r := SortRestaurants(rs, DELIVERY_TIME);
      forall i, j :: 0 <= i < j < |r| ==>
        DeliveryMinutes(r[i]).Some? && DeliveryMinutes(r[j]).Some? &&
        DeliveryMinutes(r[i]).value <= DeliveryMinutes(r[j]).value
  {
    forall a, b | a in rs && b in rs ensures FasterFirst(a, b) == (DeliveryKey(a) <= DeliveryKey(b)) {
    }
    SortedByKey(rs, FasterFirst, DeliveryKey);
    var r := InsertionSort(rs, FasterFirst);
    forall i, j | 0 <= i < j < |r|
      ensures DeliveryMinutes(r[i]).Some? && DeliveryMinutes(r[j]).Some? &&
        DeliveryMinutes(r[i]).value <= DeliveryMinutes(r[j]).value
    {
      assert r[i] in rs && r[j] in rs;
      assert DeliveryKey(r[i]) <= DeliveryKey(r[j]);
    }
  }

  function MinOrderKey(r: Restaurant): int { MinOrderAmount(r).GetOr(0) }

  /**
   * When every minimum order contains a digit, the minimum-order sort puts
   * the numbers those digits spell in ascending order.
   */
  lemma MinOrderSortOrdered(rs: seq<Restaurant>)
    requires forall r :: r in rs ==> DigitsOnly(r.minOrder) != []
    ensures var r := SortRestaurants(rs, MIN_ORDER);
      forall i, j :: 0 <= i < j < |r| ==>
        DecimalValue(DigitsOnly(r[i].minOrder)) <= DecimalValue(DigitsOnly(r[j].minOrder))
  {
    forall r | r in rs ensures MinOrderAmount(r) == Some(DecimalValue(DigitsOnly(r.minOrder))) {
      ParseIntOfDigits(DigitsOnly(r.minOrder));
    }
    forall a, b | a in rs && b in rs ensures LowerMinFirst(a, b) == (MinOrderKey(a) <= MinOrderKey(b)) {
    }
    SortedByKey(rs, LowerMinFirst, MinOrderKey);
    var r := InsertionSort(rs, LowerMinFirst);
    forall i, j | 0 <= i < j < |r|
      ensures DecimalValue(DigitsOnly(r[i].minOrder)) <= DecimalValue(DigitsOnly(r[j].minOrder))
    {
      assert r[i] in rs && r[j] in rs;
      assert MinOrderKey(r[i]) <= MinOrderKey(r[j]);
    }
  }

  /**
   * A minimum order written as a digit-free tag followed by a number
   * (such as "Rs. 150") sorts by that number.
   */
  lemma {:induction false} MinOrderOfLabelledAmount(tag: string, n: nat, r: Restaurant)
    requires forall i :: 0 <= i < |tag| ==> !IsDigit(tag[i])
    requires r.minOrder == tag + NatToString(n)
    ensures MinOrderAmount(r) == Some(n)
  {
    var d := NatToString(n);
    FilterConcat(tag, d, IsDigitChar);
    if Filter(tag, IsDigitChar) != [] {
      var c := Filter(tag, IsDigitChar)[0];
      FilterMembership(tag, IsDigitChar, c);
      assert false;
    }
    FilterKeepsAll(d, IsDigitChar);
    assert DigitsOnly(r.minOrder) == d;
    ParseIntOfNatToString(n);
  }

  // ---------------------------------------------------------------------
  // The cuisine buttons

  /** `cuisine.split(',')[0].trim()`. */
  function Segment(r: Restaurant): string {
    Trim(FirstSegment(r.cuisine))
  }

  function Segments(rs: seq<Restaurant>): (r: seq<string>)
    ensures |r| == |rs|
    ensures forall i :: 0 <= i < |rs| ==> r[i] == Segment(rs[i])
  {
    if rs == [] then [] else Segments(rs[..|rs| - 1]) + [Segment(rs[|rs| - 1])]
  }

  /** `new Set(s)`, read back in insertion order: each value at its first occurrence. */
  function Dedup(s: seq<string>): seq<string> {
    if s == [] then []
    else
      var d := Dedup(s[..|s| - 1]);
      if s[|s| - 1] in d then d else d + [s[|s| - 1]]
  }

  /** `['all', ...new Set(segments)].sort()`. */
  function Cuisines(rs: seq<Restaurant>): seq<string> {
    InsertionSort([ALL] + Dedup(Segments(rs)), StringLe)
  }

  /** The set keeps every value once and adds none. */
  lemma {:induction false} DedupSpec(s: seq<string>)
    ensures forall x :: x in Dedup(s) <==> x in s
    ensures forall x :: multiset(Dedup(s))[x] <= 1
    decreases |s|
  {
    if s != [] {
      var s', y := s[..|s| - 1], s[|s| - 1];
      DedupSpec(s');
      assert s == s' + [y];
    }
  }

  /** A list in which nothing occurs twice has pairwise different entries. */
  lemma AtMostOnceDistinct(s: seq<string>)
    requires forall x :: multiset(s)[x] <= 1
    ensures forall i, j :: 0 <= i < j < |s| ==> s[i] != s[j]
  {
    forall i, j | 0 <= i < j < |s| ensures s[i] != s[j] {
      assert s == s[..j] + [s[j]] + s[j + 1..];
      assert multiset(s)[s[j]] == multiset(s[..j])[s[j]] + 1 + multiset(s[j + 1..])[s[j]];
      assert s[j] !in s[..j];
      assert s[i] in s[..j];
    }
  }

  /**
   * The buttons show `all` and exactly the trimmed first segments of the
   * cuisines, in the default string order (so `all` comes after any
   * segment that sorts before it, such as one starting with a capital).
   */
  lemma CuisinesSpec(rs: seq<Restaurant>)
    ensures ALL in Cuisines(rs)
    ensures forall c :: c in Cuisines(rs) <==> c == ALL || c in Segments(rs)
    ensures SortedBy(Cuisines(rs), StringLe)
    ensures forall c :: c in Cuisines(rs) && c != ALL ==> exists i :: 0 <= i < |rs| && Segment(rs[i]) == c
  {
    forall c | c in Segments(rs) ensures exists i :: 0 <= i < |rs| && Segment(rs[i]) == c {
      SegmentsFrom(rs, c);
    }
    var s := [ALL] + Dedup(Segments(rs));
    SortPermutes(s, StringLe);
    DedupSpec(Segments(rs));
    assert forall c :: c in Cuisines(rs) <==> c in multiset(s);
    StringLeTotalPreorder();
    SortSorted(s, StringLe);
  }

  /** Every segment is the first segment of some restaurant's cuisine. */
  lemma SegmentsFrom(rs: seq<Restaurant>, c: string)
    ensures c in Segments(rs) <==> exists i :: 0 <= i < |rs| && Segment(rs[i]) == c
  {
    if c in Segments(rs) {
      var i :| 0 <= i < |rs| && Segments(rs)[i] == c;
    }
  }

  /**
   * No button appears twice, provided no restaurant's first segment is
   * itself `all` (that one would appear both from the literal and from the set).
   */
  lemma CuisinesDistinct(rs: seq<Restaurant>)
    requires ALL !in Segments(rs)
    ensures var c := Cuisines(rs); forall i, j :: 0 <= i < j < |c| ==> c[i] != c[j]
  {
    var d := Dedup(Segments(rs));
    DedupSpec(Segments(rs));
    var s := [ALL] + d;
    assert multiset(s) == multiset{ALL} + multiset(d);
    SortPermutes(s, StringLe);
    AtMostOnceDistinct(Cuisines(rs));
  }

  /** A cuisine whose first segment begins with a capital letter sorts before `all`. */
  lemma CapitalSortsBeforeAll(r: Restaurant)
    requires r.cuisine == "BBQ"
    ensures Cuisines([r]) == ["BBQ", ALL]
  {
    assert FirstSegment("BBQ") == "BBQ";
    assert !IsWhitespace('B') && !IsWhitespace('Q');
    assert TrimStart("BBQ") == "BBQ";
    assert TrimEnd("BBQ") == "BBQ";
    assert Segments([r]) == ["BBQ"];
    assert Dedup(["BBQ"]) == ["BBQ"];
    assert !StringLe(ALL, "BBQ");
    var s := [ALL] + Dedup(Segments([r]));
    assert s == [ALL, "BBQ"];
    assert s[..1] == [ALL];
    assert InsertionSort([ALL], StringLe) == [ALL];
    assert Insert([ALL], "BBQ", StringLe) == ["BBQ", ALL];
  }

  // ---------------------------------------------------------------------
  // The carousel

  const SLIDE_COUNT: nat := 3

  /** The auto-advance: `(prev + 1) % carouselItems.length`. */
  function NextSlide(prev: nat): nat {
    (prev + 1) % SLIDE_COUNT
  }

  /** The slide shown after `n` auto-advances from the first one. */
  function SlideAfter(n: nat): nat {
    if n == 0 then 0 else NextSlide(SlideAfter(n - 1))
  }

  /** The index always names one of the three slides, and the carousel cycles. */
  lemma {:induction false} SlideCycles(n: nat)
    ensures SlideAfter(n) < SLIDE_COUNT
    ensures SlideAfter(n) == n % SLIDE_COUNT
    ensures SlideAfter(n + SLIDE_COUNT) == SlideAfter(n)
  {
    if n > 0 {
      SlideCycles(n - 1);
    }
  }

  /** A dot click sets a slide in range, and advancing keeps it there. */
  lemma NextSlideInRange(prev: nat)
    requires prev < SLIDE_COUNT
    ensures NextSlide(prev) < SLIDE_COUNT
    ensures NextSlide(prev) == if prev == SLIDE_COUNT - 1 then 0 else prev + 1
  {
  }

  // ---------------------------------------------------------------------
  // The card link

  /** As written: the card at `index` of the shown list links to `/restaurant/${index}`. */
  function CardLink(index: nat): string {
    NatToString(index)
  }

  /**
   * What the restaurant page opens for that link, when the shown list is the
   * data list itself (as on first load): the card at index `i >= 1` opens the
   * restaurant before it, and the first card opens the first restaurant, so
   * the second card opens the first restaurant too.
   */
  lemma CardOpensPrevious<R>(data: seq<R>, i: nat)
    requires i < |data|
    ensures i >= 1 ==> RestaurantDetail.SelectRestaurant(data, CardLink(i)) == Some(data[i - 1])
    ensures i == 0 ==> RestaurantDetail.SelectRestaurant(data, CardLink(i)) == Some(data[0])
  {
    ParseIntOfNatToString(i);
  }

  /** With two different restaurants, the second card does not open its own restaurant. */
  lemma SecondCardOpensWrongRestaurant<R>(data: seq<R>)
    requires |data| >= 2 && data[0] != data[1]
    ensures RestaurantDetail.SelectRestaurant(data, CardLink(1)) != Some(data[1])
  {
    CardOpensPrevious(data, 1);
  }

  /** The position of `r` in the data list. */
  function IndexOf<R(==)>(data: seq<R>, r: R): (k: nat)
    requires r in data
    ensures k < |data| && data[k] == r
  {
    if data[0] == r then 0 else 1 + IndexOf(data[1..], r)
  }

  /**
   * Corrected: the card links to the restaurant's one-based position in the
   * data list the restaurant page reads, whatever the filter and sort did
   * to the shown list.
   */
  function CorrectedCardLink<R(==)>(data: seq<R>, r: R): string
    requires r in data
  {
    NatToString(IndexOf(data, r) + 1)
  }

  /** Every card of the filtered, sorted list opens its own restaurant. */
  lemma CorrectedCardOpensItsRestaurant(data: seq<Restaurant>, cuisine: string, sort: string, i: nat)
    requires i < |SortRestaurants(FilterCuisine(data, cuisine), sort)|
    ensures var shown := SortRestaurants(FilterCuisine(data, cuisine), sort);
      shown[i] in data &&
      RestaurantDetail.SelectRestaurant(data, CorrectedCardLink(data, shown[i])) == Some(shown[i])
  {
    var chosen := FilterCuisine(data, cuisine);
    var shown := SortRestaurants(chosen, sort);
    SortIsPermutation(chosen, sort);
    FilterCuisineExact(data, cuisine);
    assert shown[i] in multiset(chosen);
    assert shown[i] in data;
    RestaurantDetail.SelectByNumber(data, IndexOf(data, shown[i]) + 1);
  }
}

/** The property search of the gateway (`getAllProperties`). The statement is
    assembled step by step: each optional filter pushes its value(s) onto the
    parameter list and then appends a clause whose placeholders are read off
    the list's new length. A clause is modelled by the placeholder indices it
    cites; its SQL text is given in its doc comment. */
module PropertySearch {
  import opened Values
  import opened Statements

  /** The search options. A filter is applied when its option is truthy. */
  datatype SearchOptions = SearchOptions(
    city: Option<string>,
    ownerId: Option<int>,
    minimumPricePerNight: Option<int>,
    maximumPricePerNight: Option<int>,
    minimumRating: Option<int>)
  {
    /** The owner filter applies only to a given owner id, and not to id 0. */
    predicate HasOwner()
      ensures HasOwner() ==> ownerId.Some?
      ensures ownerId == Some(0) ==> !HasOwner()
    {
      TruthyNum(ownerId)
    }

    /** The city filter applies only to a given city, and not to `""`. */
    predicate HasCity()
      ensures HasCity() ==> city.Some?
      ensures city == Some("") ==> !HasCity()
    {
      TruthyText(city)
    }

    /** Both bounds must be truthy; one alone applies no price filter. */
    predicate HasPriceRange()
      ensures HasPriceRange() ==> minimumPricePerNight.Some? && maximumPricePerNight.Some?
      ensures minimumPricePerNight.None? || maximumPricePerNight.None? ==> !HasPriceRange()
      ensures minimumPricePerNight == Some(0) || maximumPricePerNight == Some(0) ==> !HasPriceRange()
    {
      TruthyNum(minimumPricePerNight) && TruthyNum(maximumPricePerNight)
    }

    /** The rating filter applies only to a given rating, and not to 0. */
    predicate HasMinimumRating()
      ensures HasMinimumRating() ==> minimumRating.Some?
      ensures minimumRating == Some(0) ==> !HasMinimumRating()
    {
      TruthyNum(minimumRating)
    }
  }

  datatype Clause =
      /** `SELECT * FROM properties WHERE owner_id = $owner LIMIT $limit` */
    | OwnerSelect(owner: nat, limit: nat)
      /** `SELECT properties.*, avg(property_reviews.rating) as average_rating
          FROM properties JOIN property_reviews ON properties.id = property_id` */
    | JoinReviews
      /** `WHERE city LIKE $city` */
    | WhereCity(city: nat)
      /** `AND (cost_per_night >= $low AND cost_per_night <= $high)` */
    | AndPriceRange(low: nat, high: nat)
      /** `GROUP BY properties.id` */
    | GroupById
      /** `HAVING avg(property_reviews.rating) >= $rating` */
    | HavingRating(rating: nat)
      /** `ORDER BY cost_per_night LIMIT $limit` */
    | OrderLimit(limit: nat)

  /** The placeholder indices a clause's text cites, left to right. */
  function Placeholders(c: Clause): seq<int> {
    match c
    case OwnerSelect(owner, limit) => [owner, limit]
    case JoinReviews => []
    case WhereCity(city) => [city]
    case AndPriceRange(low, high) => [low, high]
    case GroupById => []
    case HavingRating(rating) => [rating]
    case OrderLimit(limit) => [limit]
  }

  /** The placeholder indices the whole query text cites, left to right. */
  function Cited(cs: seq<Clause>): seq<int> {
    if cs == [] then [] else Placeholders(cs[0]) + Cited(cs[1..])
  }

  /** The text cites `$1`, `$2`, ..., `$n` in that order, where `n` is the
      number of parameters: every placeholder names a bound value and every
      bound value is named exactly once. */
  predicate Aligned(cs: seq<Clause>, params: seq<Param>) {
    Cited(cs) == Positions(|params|)
  }

  /** Every placeholder of clause `c` is bound to the value it is meant to
      compare against. */
  predicate BindsIntended(c: Clause, params: seq<Param>, options: SearchOptions, limit: int) {
    match c
    case OwnerSelect(owner, lim) =>
      Cites(params, owner, PNum(options.ownerId.GetOr(0))) && Cites(params, lim, PNum(limit))
    case JoinReviews => true
    case WhereCity(city) =>
      Cites(params, city, PText("%" + options.city.GetOr("") + "%"))
    case AndPriceRange(low, high) =>
      && Cites(params, low, PNum(options.minimumPricePerNight.GetOr(0) * 100))
      && Cites(params, high, PNum(options.maximumPricePerNight.GetOr(0) * 100))
    case GroupById => true
    case HavingRating(rating) =>
      Cites(params, rating, PNum(options.minimumRating.GetOr(0)))
    case OrderLimit(lim) => Cites(params, lim, PNum(limit))
  }

  /** The position of each kind of clause in the query text. */
  function Rank(c: Clause): nat {
    match c
    case OwnerSelect(_, _) => 0
    case JoinReviews => 1
    case WhereCity(_) => 2
    case AndPriceRange(_, _) => 3
    case GroupById => 4
    case HavingRating(_) => 5
    case OrderLimit(_) => 6
  }

  /** Clauses appear in the fixed order join, WHERE city, AND price, GROUP BY,
      HAVING, ORDER BY / LIMIT, each kind at most once. */
  predicate InQueryOrder(cs: seq<Clause>) {
    forall i, j :: 0 <= i < j < |cs| ==> Rank(cs[i]) < Rank(cs[j])
  }

  /** The placeholder a clause binds the row cap to, if it carries one. */
  function LimitOf(c: Clause): Option<nat> {
    match c
    case OwnerSelect(_, limit) => Some(limit)
    case OrderLimit(limit) => Some(limit)
    case _ => None
  }

  function Indicator(b: bool): nat {
    if b then 1 else 0
  }

  lemma {:induction false} CitedAppend(a: seq<Clause>, b: seq<Clause>)
    ensures Cited(a + b) == Cited(a) + Cited(b)
  {
    if a == [] {
      assert a + b == b;
    } else {
      assert (a + b)[1..] == a[1..] + b;
      CitedAppend(a[1..], b);
    }
  }

  lemma CitedSnoc(cs: seq<Clause>, c: Clause)
    ensures Cited(cs + [c]) == Cited(cs) + Placeholders(c)
  {
    CitedAppend(cs, [c]);
    assert Cited([c]) == Placeholders(c) + Cited([]);
  }

  /** Following `$1 .. $n` by `$n+1 .. $n+k` gives `$1 .. $n+k`. */
  lemma PositionsExtend(n: nat, next: seq<int>)
    requires forall i :: 0 <= i < |next| ==> next[i] == n + 1 + i
    ensures Positions(n) + next == Positions(n + |next|)
  {
    var m := n + |next|;
    forall i | 0 <= i < m
      ensures (Positions(n) + next)[i] == Positions(m)[i]
    {
      if i >= n {
        assert (Positions(n) + next)[i] == next[i - n];
      }
    }
  }

  /** Appending a clause that cites `$k` for each of the values pushed just
      before it, in order, keeps the text and the parameter list aligned. */
  lemma AlignedStep(cs: seq<Clause>, params: seq<Param>, c: Clause, pushed: seq<Param>)
    requires Aligned(cs, params)
    requires |Placeholders(c)| == |pushed|
    requires forall i :: 0 <= i < |pushed| ==> Placeholders(c)[i] == |params| + 1 + i
    ensures Aligned(cs + [c], params + pushed)
  {
    CitedSnoc(cs, c);
    PositionsExtend(|params|, Placeholders(c));
  }

  // The query as a declarative whole: each optional part contributes its values
  // to the parameter list, and each clause cites the positions its values
  // end up at.

  function CityParams(o: SearchOptions): seq<Param> {
    if o.HasCity() then [PText("%" + o.city.value + "%")] else []
  }

  function PriceParams(o: SearchOptions): seq<Param> {
    if o.HasPriceRange()
    then [PNum(o.minimumPricePerNight.value * 100), PNum(o.maximumPricePerNight.value * 100)]
    else []
  }

  function RatingParams(o: SearchOptions): seq<Param> {
    if o.HasMinimumRating() then [PNum(o.minimumRating.value)] else []
  }

  /** The values of the WHERE city and AND price filters, in push order. */
  function HeadParams(o: SearchOptions): seq<Param> {
    CityParams(o) + PriceParams(o)
  }

  /** All filter values, in push order. */
  function FilterParams(o: SearchOptions): seq<Param> {
    HeadParams(o) + RatingParams(o)
  }

  /** The join followed by the WHERE city and AND price clauses that apply. */
  function HeadClauses(o: SearchOptions): seq<Clause> {
    var c := |CityParams(o)|;
    [JoinReviews]
    + (if o.HasCity() then [WhereCity(c)] else [])
    + (if o.HasPriceRange() then [AndPriceRange(c + 1, c + 2)] else [])
  }

  /** The head, the grouping and the HAVING clause if it applies. */
  function FilterClauses(o: SearchOptions): seq<Clause> {
    HeadClauses(o) + [GroupById]
    + (if o.HasMinimumRating() then [HavingRating(|HeadParams(o)| + 1)] else [])
  }

  /** The parameter list of the search with options `o` and row cap `limit`:
      never empty, the row cap last. */
  function SearchParams(o: SearchOptions, limit: int): (r: seq<Param>)
    ensures r != [] && r[|r| - 1] == PNum(limit)
  {
    if o.HasOwner() then [PNum(o.ownerId.value), PNum(limit)]
    else FilterParams(o) + [PNum(limit)]
  }

  /** The clauses of the search with options `o`: the owner query alone, or
      a query opening with the join; either way the last clause binds the row
      cap. */
  function SearchClauses(o: SearchOptions): (r: seq<Clause>)
    ensures r != [] && LimitOf(r[|r| - 1]).Some?
    ensures r[0].OwnerSelect? <==> o.HasOwner()
    ensures !o.HasOwner() ==> r[0] == JoinReviews
  {
    if o.HasOwner() then [OwnerSelect(1, 2)]
    else FilterClauses(o) + [OrderLimit(|FilterParams(o)| + 1)]
  }

  /** An optional part: when `present`, clause `c` is appended after its
      values are pushed; otherwise nothing changes. */
  lemma AlignedMaybe(cs: seq<Clause>, params: seq<Param>, present: bool, c: Clause, pushed: seq<Param>)
    requires Aligned(cs, params)
    requires present ==> |Placeholders(c)| == |pushed|
    requires present ==> forall i :: 0 <= i < |pushed| ==> Placeholders(c)[i] == |params| + 1 + i
    requires !present ==> pushed == []
    ensures Aligned(cs + (if present then [c] else []), params + pushed)
  {
    if present {
      AlignedStep(cs, params, c, pushed);
    } else {
      assert cs + [] == cs && params + [] == params;
    }
  }

  lemma HeadAligned(o: SearchOptions)
    ensures Aligned(HeadClauses(o), HeadParams(o))
  {
    var c := |CityParams(o)|;
    var cs0: seq<Clause>, ps0: seq<Param> := [JoinReviews], [];
    assert Cited(cs0) == [] + Cited([]);
    AlignedMaybe(cs0, ps0, o.HasCity(), WhereCity(c), CityParams(o));
    var cs1 := cs0 + (if o.HasCity() then [WhereCity(c)] else []);
    assert ps0 + CityParams(o) == CityParams(o);
    AlignedMaybe(cs1, CityParams(o), o.HasPriceRange(), AndPriceRange(c + 1, c + 2), PriceParams(o));
  }

  lemma FilterAligned(o: SearchOptions)
    ensures Aligned(FilterClauses(o), FilterParams(o))
  {
    HeadAligned(o);
    AlignedStep(HeadClauses(o), HeadParams(o), GroupById, []);
    assert HeadParams(o) + [] == HeadParams(o);
    AlignedMaybe(HeadClauses(o) + [GroupById], HeadParams(o), o.HasMinimumRating(),
                 HavingRating(|HeadParams(o)| + 1), RatingParams(o));
  }

  /** The search text cites `$1 .. $n` in order, `n` being the number of
      parameters: the bookkeeping by `params.length` never skips, repeats or
      reorders a placeholder, whichever filters are applied. */
  lemma SearchAligned(o: SearchOptions, limit: int)
    ensures Aligned(SearchClauses(o), SearchParams(o, limit))
  {
    if o.HasOwner() {
      assert Cited([OwnerSelect(1, 2)]) == [1, 2] + Cited([]);
    } else {
      FilterAligned(o);
      AlignedStep(FilterClauses(o), FilterParams(o), OrderLimit(|FilterParams(o)| + 1), [PNum(limit)]);
    }
  }

  /** `getAllProperties(options, limit)` up to issuing the query: pushes each
      value and then appends the clause citing it, reading the placeholder
      index off the parameter list's length. Returns the clauses of the query
      text in order and the parameter list bound to it. */
  method BuildQuery(options: SearchOptions, limit: Option<int>) returns (clauses: seq<Clause>, params: seq<Param>)
    ensures Aligned(clauses, params)
    ensures clauses == SearchClauses(options)
    ensures params == SearchParams(options, EffectiveLimit(limit))
  {
    var lim := EffectiveLimit(limit);
    params := [];

    if options.HasOwner() {
      params := params + [PNum(options.ownerId.value), PNum(lim)];
      clauses := [OwnerSelect(1, 2)];
      SearchAligned(options, lim);
      return;
    }

    clauses := [JoinReviews];

    if options.HasCity() {
      var pushed := [PText("%" + options.city.value + "%")];
      params := params + pushed;
      clauses := clauses + [WhereCity(|params|)];
    }
    assert params == CityParams(options);
    assert clauses == [JoinReviews] + (if options.HasCity() then [WhereCity(|CityParams(options)|)] else []);

    if options.HasPriceRange() {
      var pushed := [PNum(options.minimumPricePerNight.value * 100), PNum(options.maximumPricePerNight.value * 100)];
      params := params + pushed;
      clauses := clauses + [AndPriceRange(|params| - 1, |params|)];
    }
    assert params == HeadParams(options) && clauses == HeadClauses(options);
    clauses := clauses + [GroupById];
    ghost var head := params;

    if options.HasMinimumRating() {
      var pushed := [PNum(options.minimumRating.value)];
      params := params + pushed;
      clauses := clauses + [HavingRating(|params|)];
    }
    assert clauses == HeadClauses(options) + [GroupById]
      + (if options.HasMinimumRating() then [HavingRating(|head| + 1)] else []);
    assert params == FilterParams(options) && clauses == FilterClauses(options);
    ghost var filters := clauses;
    params := params + [PNum(lim)];
    clauses := clauses + [OrderLimit(|params|)];
    assert clauses == filters + [OrderLimit(|FilterParams(options)| + 1)];
    assert params == SearchParams(options, lim) && clauses == SearchClauses(options);
    SearchAligned(options, lim);
  }

  // What the search promises, as properties of its clauses and parameters.

  /** With a truthy owner the query has the fixed owner shape and its
      parameters are exactly `[owner_id, limit]`: city, price and rating
      options have no effect. */
  lemma OwnerShortCircuit(o: SearchOptions, o': SearchOptions, limit: int)
    requires o.HasOwner() && o'.ownerId == o.ownerId
    ensures SearchClauses(o) == [OwnerSelect(1, 2)]
    ensures SearchParams(o, limit) == [PNum(o.ownerId.value), PNum(limit)]
    ensures SearchClauses(o') == SearchClauses(o) && SearchParams(o', limit) == SearchParams(o, limit)
  {
  }

  /** One parameter for the city, two for a price range, one for the rating,
      and one for the row cap. */
  lemma SearchParamCount(o: SearchOptions, limit: int)
    requires !o.HasOwner()
    ensures |SearchParams(o, limit)| ==
      1 + Indicator(o.HasCity()) + 2 * Indicator(o.HasPriceRange()) + Indicator(o.HasMinimumRating())
  {
  }

  /** The row cap is always the last parameter, and the last clause cites it
      with the placeholder equal to the length of the parameter list. */
  lemma LimitIsLast(o: SearchOptions, limit: int)
    ensures |SearchParams(o, limit)| >= 1 && |SearchClauses(o)| >= 1
    ensures SearchParams(o, limit)[|SearchParams(o, limit)| - 1] == PNum(limit)
    ensures LimitOf(SearchClauses(o)[|SearchClauses(o)| - 1]) == Some(|SearchParams(o, limit)|)
  {
  }

  /** Every placeholder is bound to the value it is meant to compare against:
      `"%" + city + "%"` for the city, `min * 100` then `max * 100` for the
      price range, the minimum rating for HAVING, the owner and the row cap. */
  lemma PlaceholdersBindIntended(o: SearchOptions, limit: int)
    ensures forall c <- SearchClauses(o) :: BindsIntended(c, SearchParams(o, limit), o, limit)
  {
    if !o.HasOwner() {
      var ps := SearchParams(o, limit);
      var c, p, r := |CityParams(o)|, |PriceParams(o)|, |RatingParams(o)|;
      assert ps == CityParams(o) + PriceParams(o) + RatingParams(o) + [PNum(limit)];
      assert o.HasCity() ==> ps[0] == CityParams(o)[0];
      assert o.HasPriceRange() ==> ps[c] == PriceParams(o)[0] && ps[c + 1] == PriceParams(o)[1];
      assert o.HasMinimumRating() ==> ps[c + p] == RatingParams(o)[0];
      assert ps[c + p + r] == PNum(limit);
      HeadMembers(o);
      SearchMembers(o);
    }
  }

  /** The clauses of the join-and-filter head, by kind. */
  lemma HeadMembers(o: SearchOptions)
    ensures forall x :: x in HeadClauses(o) <==>
      || x == JoinReviews
      || (o.HasCity() && x == WhereCity(|CityParams(o)|))
      || (o.HasPriceRange() && x == AndPriceRange(|CityParams(o)| + 1, |CityParams(o)| + 2))
  {
  }

  /** The clauses of a search without owner, by kind. */
  lemma SearchMembers(o: SearchOptions)
    requires !o.HasOwner()
    ensures forall x :: x in SearchClauses(o) <==>
      || x in HeadClauses(o)
      || x == GroupById
      || (o.HasMinimumRating() && x == HavingRating(|HeadParams(o)| + 1))
      || x == OrderLimit(|FilterParams(o)| + 1)
  {
    var h := if o.HasMinimumRating() then [HavingRating(|HeadParams(o)| + 1)] else [];
    assert SearchClauses(o) == HeadClauses(o) + [GroupById] + h + [OrderLimit(|FilterParams(o)| + 1)];
  }

  /** Each optional clause is present exactly when its option is truthy, and the
      owner query has none of them. */
  lemma OptionalClausesPresence(o: SearchOptions)
    ensures (exists c <- SearchClauses(o) :: c.WhereCity?) <==> !o.HasOwner() && o.HasCity()
    ensures (exists c <- SearchClauses(o) :: c.AndPriceRange?) <==> !o.HasOwner() && o.HasPriceRange()
    ensures (exists c <- SearchClauses(o) :: c.HavingRating?) <==> !o.HasOwner() && o.HasMinimumRating()
    ensures !o.HasOwner() ==> SearchClauses(o)[0] == JoinReviews && GroupById in SearchClauses(o)
  {
    if !o.HasOwner() {
      HeadMembers(o);
      SearchMembers(o);
      var c := |CityParams(o)|;
      if o.HasCity() { assert WhereCity(c) in SearchClauses(o); }
      if o.HasPriceRange() { assert AndPriceRange(c + 1, c + 2) in SearchClauses(o); }
      if o.HasMinimumRating() { assert HavingRating(|HeadParams(o)| + 1) in SearchClauses(o); }
    }
  }

  /** A single price bound is ignored: the query and its parameters are those
      of the same search with no price bound at all. */
  lemma SingleBoundIgnored(o: SearchOptions, limit: int)
    requires !o.HasPriceRange()
    ensures SearchClauses(o) == SearchClauses(o.(minimumPricePerNight := None, maximumPricePerNight := None))
    ensures SearchParams(o, limit) == SearchParams(o.(minimumPricePerNight := None, maximumPricePerNight := None), limit)
  {
    var o' := o.(minimumPricePerNight := None, maximumPricePerNight := None);
    assert !o'.HasPriceRange() && o'.HasOwner() == o.HasOwner();
    assert CityParams(o') == CityParams(o) && RatingParams(o') == RatingParams(o);
    assert PriceParams(o') == PriceParams(o) == [];
    assert HeadParams(o') == HeadParams(o) && FilterParams(o') == FilterParams(o);
    assert HeadClauses(o') == HeadClauses(o);
  }

  /** Every clause of `cs` comes before the kind ranked `k`. */
  predicate RanksBelow(cs: seq<Clause>, k: nat) {
    forall i :: 0 <= i < |cs| ==> Rank(cs[i]) < k
  }

  /** Appending, or not, a clause of a later kind keeps the order. */
  lemma OrderedMaybe(cs: seq<Clause>, present: bool, c: Clause)
    requires InQueryOrder(cs) && RanksBelow(cs, Rank(c))
    ensures InQueryOrder(cs + (if present then [c] else []))
    ensures RanksBelow(cs + (if present then [c] else []), Rank(c) + 1)
  {
    if !present {
      assert cs + [] == cs;
    }
  }

  lemma HeadInQueryOrder(o: SearchOptions)
    ensures InQueryOrder(HeadClauses(o)) && RanksBelow(HeadClauses(o), Rank(GroupById))
  {
    var c := |CityParams(o)|;
    var cs0 := [JoinReviews];
    assert InQueryOrder(cs0) && RanksBelow(cs0, Rank(WhereCity(c)));
    OrderedMaybe(cs0, o.HasCity(), WhereCity(c));
    var cs1 := cs0 + (if o.HasCity() then [WhereCity(c)] else []);
    OrderedMaybe(cs1, o.HasPriceRange(), AndPriceRange(c + 1, c + 2));
    assert HeadClauses(o) == cs1 + (if o.HasPriceRange() then [AndPriceRange(c + 1, c + 2)] else []);
  }

  /** The clauses appear in the fixed query order, each kind at most once. */
  lemma ClausesInQueryOrder(o: SearchOptions)
    ensures InQueryOrder(SearchClauses(o))
  {
    if !o.HasOwner() {
      HeadInQueryOrder(o);
      OrderedMaybe(HeadClauses(o), true, GroupById);
      var cs := HeadClauses(o) + [GroupById];
      OrderedMaybe(cs, o.HasMinimumRating(), HavingRating(|HeadParams(o)| + 1));
      OrderedMaybe(FilterClauses(o), true, OrderLimit(|FilterParams(o)| + 1));
    }
  }

  /** Without a city the price clause directly follows the join and still
      starts with AND (it then extends the join's ON condition). */
  lemma PriceClauseFollowsJoin(o: SearchOptions)
    requires !o.HasOwner() && !o.HasCity() && o.HasPriceRange()
    ensures SearchClauses(o)[1] == AndPriceRange(1, 2)
  {
  }
}

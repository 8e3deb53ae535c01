/**
 * DAOs/TourDAO.cs over an in-memory `[tours]` table: the status queries, `findById`
 * with the column defaults of `mapResultSetToTour`, the SQL text and parameter list
 * that `getFilteredTours` builds, the shuffle of `getRandomTours`, and the guard and
 * selection of `getRelatedTours`.  `decimal.Parse`, `int.Parse` and `DateTime.Parse`
 * are parameters; the random index of the shuffle is an arbitrary choice.
 */
module TourDao {
  import opened Wrappers
  import opened Text
  import opened Tables
  import opened TourModel

  const Active: string := "ACTIVE"

  datatype TourRow = TourRow(
    id: int,
    name: Option<string>,
    description: Option<string>,
    destination: Option<string>,
    departureDate: Option<int>,
    duration: Option<int>,
    price: Option<int>,
    maxParticipants: Option<int>,
    currentParticipants: Option<int>,
    imageUrl: Option<string>,
    status: Option<string>)

  function TourId(r: TourRow): int { r.id }

  /** `WHERE status = ?` */
  function WithStatus(status: string): TourRow -> bool {
    (r: TourRow) => r.status == Some(status)
  }

  /** `WHERE destination LIKE '%d%' AND id <> ? AND status = 'ACTIVE'` */
  function RelatedTo(destination: string, currentTourId: int): TourRow -> bool {
    (r: TourRow) => r.destination.Some? && Contains(r.destination.value, destination)
      && r.id != currentTourId && r.status == Some(Active)
  }

  /** The `Tour` that `mapResultSetToTour` builds from a row, field by field. */
  predicate MapsRow(t: Tour, r: TourRow)
    reads t
  {
    && t.tourId == r.id
    && t.name == TrimOrNull(Some(r.name.GetOr("")))
    && t.description == TrimOrNull(Some(r.description.GetOr("")))
    && t.destination == TrimOrNull(Some(r.destination.GetOr("")))
    && t.departureDate == r.departureDate
    && t.duration == r.duration.GetOr(0)
    && t.price == r.price.GetOr(0)
    && t.maxParticipants == r.maxParticipants.GetOr(0)
    && t.currentParticipants == r.currentParticipants.GetOr(0)
    && t.imageUrl == TrimOrNull(Some(r.imageUrl.GetOr("")))
    && t.status == Trim(r.status.GetOr(Active))
  }

  /** `mapResultSetToTour`: null columns become "" or 0, a null status "ACTIVE". */
  method MapTour(r: TourRow) returns (t: Tour)
    ensures fresh(t) && MapsRow(t, r)
  {
    t := new Tour();
    t.tourId := r.id;
    MapText(t, r);
    if r.departureDate.Some? {
      t.departureDate := r.departureDate;
    }
    t.duration, t.price := r.duration.GetOr(0), r.price.GetOr(0);
    t.maxParticipants, t.currentParticipants := r.maxParticipants.GetOr(0), r.currentParticipants.GetOr(0);
  }

  /** The text columns of `mapResultSetToTour`, each through its trimming setter. */
  method MapText(t: Tour, r: TourRow)
    modifies t`name, t`description, t`destination, t`imageUrl, t`status
    ensures t.name == TrimOrNull(Some(r.name.GetOr("")))
    ensures t.description == TrimOrNull(Some(r.description.GetOr("")))
    ensures t.destination == TrimOrNull(Some(r.destination.GetOr("")))
    ensures t.imageUrl == TrimOrNull(Some(r.imageUrl.GetOr("")))
    ensures t.status == Trim(r.status.GetOr(Active))
  {
    t.SetName(Some(r.name.GetOr("")));
    t.SetDescription(Some(r.description.GetOr("")));
    t.SetDestination(Some(r.destination.GetOr("")));
    t.SetImageUrl(Some(r.imageUrl.GetOr("")));
    t.SetStatus(Some(r.status.GetOr(Active)));
  }

  /** A mapped tour whose status column was null or exactly "ACTIVE" is active. */
  lemma MappedActive(t: Tour, r: TourRow)
    requires MapsRow(t, r) && (r.status.None? || r.status == Some(Active))
    ensures t.IsActive()
  {
    ActiveTrimmed();
    assert t.status == Active;
  }

  /** "ACTIVE" is its own trimmed form. */
  lemma ActiveTrimmed()
    ensures Trim(Active) == Active
  {
    assert IsUpperWord(Active);
    TrimUpperWord(Active);
  }

  /** The `[tours]` table. */
  class TourStore {
    var rows: seq<TourRow>
    var nextId: int

    ghost predicate Valid()
      reads this
    {
      WellKeyed(rows, TourId, nextId)
    }

    constructor ()
      ensures Valid() && rows == []
    {
      rows := [];
      nextId := 1;
    }

    /** `findById`: the mapped tour, or null. */
    method FindById(id: int) returns (t: Tour?)
      ensures t == null <==> !HasKey(rows, TourId, id)
      ensures t != null ==> fresh(t) && MapsRow(t, FindKey(rows, TourId, id).value)
    {
      var found := FindKey(rows, TourId, id);
      if found.None? {
        return null;
      }
      t := MapTour(found.value);
    }

    /** `getToursByStatus`: exact status, newest first. */
    method GetToursByStatus(status: string) returns (result: seq<TourRow>)
      ensures result == SelectDesc(rows, WithStatus(status))
    {
      result := ReadDesc(rows, WithStatus(status));
    }

    /** `getActiveTours`. */
    method GetActiveTours() returns (result: seq<TourRow>)
      ensures result == SelectDesc(rows, WithStatus(Active))
    {
      result := GetToursByStatus(Active);
    }

    /**
     * `getRandomTours`: the active tours in a random order, cut to `limit`
     * (`Take`, so nothing for a limit of 0 or less).
     */
    method GetRandomTours(limit: int) returns (result: seq<TourRow>)
      requires Valid()
      ensures var active := SelectDesc(rows, WithStatus(Active));
        |result| == (if limit <= 0 then 0 else if limit < |active| then limit else |active|)
      ensures forall i :: 0 <= i < |result| ==> result[i] in rows && result[i].status == Some(Active)
      ensures Distinct(result)
    {
      var all := GetActiveTours();
      SelectDescDecreasing(rows, WithStatus(Active), TourId);
      DecreasingDistinct(all, TourId);
      var shuffled := Shuffle(all);
      result := Take(shuffled, limit);
      forall i | 0 <= i < |result| ensures result[i] in rows && result[i].status == Some(Active) {
        assert result[i] in multiset(shuffled);
        assert result[i] in all;
      }
    }

    /**
     * `getRelatedTours`: nothing for a blank destination; otherwise the first `limit`
     * other active tours whose destination contains the trimmed one, newest first.
     */
    method GetRelatedTours(destination: Option<string>, currentTourId: int, limit: int)
      returns (result: seq<TourRow>)
      ensures IsBlank(destination) ==> result == []
      ensures !IsBlank(destination) ==>
        result == Take(SelectDesc(rows, RelatedTo(Trim(destination.value), currentTourId)), limit)
    {
      if IsBlank(destination) {
        return [];
      }
      var all := ReadDesc(rows, RelatedTo(Trim(destination.value), currentTourId));
      result := Take(all, limit);
    }
  }

  /** The in-place Fisher–Yates loop of `getRandomTours`: a permutation of its input. */
  method Shuffle(tours: seq<TourRow>) returns (s: seq<TourRow>)
    ensures |s| == |tours| && multiset(s) == multiset(tours)
    ensures Distinct(tours) ==> Distinct(s)
  {
    s := tours;
    var i := |s| - 1;
    while i > 0
      invariant -1 <= i < |s| && |s| == |tours|
      invariant multiset(s) == multiset(tours)
      invariant Distinct(tours) ==> Distinct(s)
    {
      var j :| 0 <= j <= i;
      var t := s[i];
      s := s[i := s[j]][j := t];
      i := i - 1;
    }
  }

  /** A related tour is never the current one and always active. */
  lemma RelatedExcludesCurrent(rows: seq<TourRow>, destination: string, currentTourId: int, limit: int)
    ensures var r := Take(SelectDesc(rows, RelatedTo(destination, currentTourId)), limit);
      forall i :: 0 <= i < |r| ==> r[i].id != currentTourId && r[i].status == Some(Active) && r[i] in rows
  {
  }

  // ---------------------------------------------------------------------------------
  // getFilteredTours: the WHERE conditions, their parameters and the ORDER BY column.
  // ---------------------------------------------------------------------------------

  /** A value bound to a `?` placeholder. */
  datatype Param = Pattern(text: string) | Money(amount: int) | Whole(n: int) | Day(instant: int)

  /** The search form's fields, each possibly null. */
  datatype Criteria = Criteria(
    keyword: Option<string>,
    destination: Option<string>,
    minPrice: Option<string>,
    maxPrice: Option<string>,
    duration: Option<string>,
    departureDate: Option<string>,
    sortBy: Option<string>)

  /**
   * `decimal.Parse`, `int.Parse` and `DateTime.Parse(…).Date`: `None` where the
   * source catches a `FormatException`.
   */
  datatype Parsers = Parsers(
    decimal: string -> Option<int>,
    integer: string -> Option<int>,
    date: string -> Option<int>)

  /** One condition and the parameters of its placeholders. */
  datatype Clause = Clause(sql: string, params: seq<Param>)

  const Placeholder: string := "?"
  const KeywordSql: string :=
    "(name LIKE " + Placeholder + " OR description LIKE " + Placeholder + " OR destination LIKE " + Placeholder + ")"
  const DestinationSql: string := "destination LIKE " + Placeholder
  const MinPriceSql: string := "price >= " + Placeholder
  const MaxPriceSql: string := "price <= " + Placeholder
  const LongDurationSql: string := "duration > 5"
  const DurationSql: string := "duration = " + Placeholder
  const DepartureSql: string := "departure_date >= " + Placeholder

  const SelectSql: string := "SELECT * FROM [tours]"
  const ActiveFilter: string := " status = 'ACTIVE'"
  const WhereKeyword: string := " WHERE "
  const OrderByKeyword: string := " ORDER BY "
  const WhereActive: string := " WHERE status = 'ACTIVE'"
  const AndActive: string := " AND status = 'ACTIVE'"

  function KeywordClause(keyword: Option<string>): seq<Clause> {
    if IsBlank(keyword) then []
    else
      var pattern := "%" + Trim(keyword.value) + "%";
      [Clause(KeywordSql, [Pattern(pattern), Pattern(pattern), Pattern(pattern)])]
  }

  /** Only the exact text "all" (untrimmed, in lower case) means no destination. */
  function DestinationClause(destination: Option<string>): seq<Clause> {
    if IsBlank(destination) || destination.value == "all" then []
    else [Clause(DestinationSql, [Pattern("%" + Trim(destination.value) + "%")])]
  }

  function PriceClause(bound: Option<string>, sql: string, parse: string -> Option<int>): seq<Clause> {
    if IsBlank(bound) || parse(Trim(bound.value)).None? then []
    else [Clause(sql, [Money(parse(Trim(bound.value)).value)])]
  }

  /** Duration 7 is the "more than 5 days" choice and binds no parameter. */
  function DurationClause(duration: Option<string>, parse: string -> Option<int>): seq<Clause> {
    if IsBlank(duration) || duration.value == "all" || parse(Trim(duration.value)).None? then []
    else if parse(Trim(duration.value)).value == 7 then [Clause(LongDurationSql, [])]
    else [Clause(DurationSql, [Whole(parse(Trim(duration.value)).value)])]
  }

  function DepartureClause(departureDate: Option<string>, parse: string -> Option<int>): seq<Clause> {
    if IsBlank(departureDate) || parse(Trim(departureDate.value)).None? then []
    else [Clause(DepartureSql, [Day(parse(Trim(departureDate.value)).value)])]
  }

  /** The conditions in the order the source adds them. */
  function Clauses(c: Criteria, p: Parsers): seq<Clause> {
    KeywordClause(c.keyword) + DestinationClause(c.destination)
      + PriceClause(c.minPrice, MinPriceSql, p.decimal) + PriceClause(c.maxPrice, MaxPriceSql, p.decimal)
      + DurationClause(c.duration, p.integer) + DepartureClause(c.departureDate, p.date)
  }

  function Conditions(cs: seq<Clause>): (r: seq<string>)
    ensures |r| == |cs| && forall i :: 0 <= i < |cs| ==> r[i] == cs[i].sql
  {
    seq(|cs|, i requires 0 <= i < |cs| => cs[i].sql)
  }

  function Params(cs: seq<Clause>): seq<Param> {
    if cs == [] then [] else cs[0].params + Params(cs[1..])
  }

  /** The WHERE part: the conditions joined with AND, always followed by the ACTIVE filter. */
  function WhereSql(conditions: seq<string>): string {
    if |conditions| > 0 then WhereKeyword + Join(" AND ", conditions) + AndActive
    else WhereActive
  }

  const SortKeys: set<string> := {"price_asc", "price_desc", "date_asc", "date_desc", "duration_asc", "duration_desc"}

  /** The ORDER BY column and direction: one per known key, "id DESC" otherwise. */
  function OrderBy(sortBy: Option<string>): (r: string)
  {
    if IsNullOrEmpty(sortBy) then "id DESC"
    else if sortBy.value == "price_asc" then "price ASC"
    else if sortBy.value == "price_desc" then "price DESC"
    else if sortBy.value == "date_asc" then "departure_date ASC"
    else if sortBy.value == "date_desc" then "departure_date DESC"
    else if sortBy.value == "duration_asc" then "duration ASC"
    else if sortBy.value == "duration_desc" then "duration DESC"
    else "id DESC"
  }

  /** A null, empty or unknown key falls back to the newest first, and only those do. */
  lemma OrderByDefault(sortBy: Option<string>)
    ensures OrderBy(sortBy) == "id DESC" <==> sortBy.None? || sortBy.value !in SortKeys
  {
  }

  /** The six known keys give six different orders. */
  lemma OrderByDistinct(a: string, b: string)
    requires a in SortKeys && b in SortKeys && a != b
    ensures OrderBy(Some(a)) != OrderBy(Some(b))
  {
  }

  /** The whole statement `getFilteredTours` runs. */
  function FilteredSql(conditions: seq<string>, sortBy: Option<string>): string {
    SelectSql + WhereSql(conditions) + OrderByKeyword + OrderBy(sortBy)
  }

  /**
   * `getFilteredTours` up to running the statement: the conditions and parameters
   * it collects, the statement it assembles, and one `?` per parameter.
   */
  method FilteredQuery(c: Criteria, p: Parsers) returns (sql: string, parameters: seq<Param>)
    ensures sql == FilteredSql(Conditions(Clauses(c, p)), c.sortBy)
    ensures parameters == Params(Clauses(c, p))
    ensures CountChar(sql, '?') == |parameters|
  {
    var conditions;
    conditions, parameters := CollectConditions(c, p);
    sql := AssembleSql(conditions, c.sortBy);
    PlaceholdersMatch(c, p);
  }

  /**
   * The field-by-field part of `getFilteredTours`: each usable field appends its
   * condition and parameters, in the order of the form.
   */
  method CollectConditions(c: Criteria, p: Parsers) returns (conditions: seq<string>, parameters: seq<Param>)
    ensures conditions == Conditions(Clauses(c, p))
    ensures parameters == Params(Clauses(c, p))
  {
    conditions, parameters := KeywordCondition(c.keyword);
    var more, bound := DestinationCondition(c.destination);
    conditions, parameters := conditions + more, parameters + bound;
    more, bound := PriceCondition(c.minPrice, MinPriceSql, p.decimal);
    conditions, parameters := conditions + more, parameters + bound;
    more, bound := PriceCondition(c.maxPrice, MaxPriceSql, p.decimal);
    conditions, parameters := conditions + more, parameters + bound;
    more, bound := DurationCondition(c.duration, p.integer);
    conditions, parameters := conditions + more, parameters + bound;
    more, bound := DepartureCondition(c.departureDate, p.date);
    conditions, parameters := conditions + more, parameters + bound;
    ClausesInOrder(c, p);
  }

  /** The conditions and parameters of all the fields are those of each field in turn. */
  lemma ClausesInOrder(c: Criteria, p: Parsers)
    ensures Conditions(Clauses(c, p)) == Conditions(KeywordClause(c.keyword))
      + Conditions(DestinationClause(c.destination))
      + Conditions(PriceClause(c.minPrice, MinPriceSql, p.decimal))
      + Conditions(PriceClause(c.maxPrice, MaxPriceSql, p.decimal))
      + Conditions(DurationClause(c.duration, p.integer))
      + Conditions(DepartureClause(c.departureDate, p.date))
    ensures Params(Clauses(c, p)) == Params(KeywordClause(c.keyword))
      + Params(DestinationClause(c.destination))
      + Params(PriceClause(c.minPrice, MinPriceSql, p.decimal))
      + Params(PriceClause(c.maxPrice, MaxPriceSql, p.decimal))
      + Params(DurationClause(c.duration, p.integer))
      + Params(DepartureClause(c.departureDate, p.date))
  {
    Extend6(KeywordClause(c.keyword), DestinationClause(c.destination),
      PriceClause(c.minPrice, MinPriceSql, p.decimal), PriceClause(c.maxPrice, MaxPriceSql, p.decimal),
      DurationClause(c.duration, p.integer), DepartureClause(c.departureDate, p.date));
  }

  lemma Extend6(a: seq<Clause>, b: seq<Clause>, c: seq<Clause>, d: seq<Clause>, e: seq<Clause>, f: seq<Clause>)
    ensures Conditions(a + b + c + d + e + f)
      == Conditions(a) + Conditions(b) + Conditions(c) + Conditions(d) + Conditions(e) + Conditions(f)
    ensures Params(a + b + c + d + e + f)
      == Params(a) + Params(b) + Params(c) + Params(d) + Params(e) + Params(f)
  {
    var ab := a + b;
    Extend(a, b);
    var abc := ab + c;
    Extend(ab, c);
    var abcd := abc + d;
    Extend(abc, d);
    var abcde := abcd + e;
    Extend(abcd, e);
    Extend(abcde, f);
  }

  /** One clause contributes its condition and its parameters. */
  lemma Single(cl: Clause)
    ensures Conditions([cl]) == [cl.sql] && Params([cl]) == cl.params
  {
    assert [cl][1..] == [];
  }

  method KeywordCondition(keyword: Option<string>) returns (more: seq<string>, bound: seq<Param>)
    ensures more == Conditions(KeywordClause(keyword)) && bound == Params(KeywordClause(keyword))
  {
    more, bound := [], [];
    if !IsBlank(keyword) {
      var pattern := "%" + Trim(keyword.value) + "%";
      more := more + [KeywordSql];
      bound := bound + [Pattern(pattern), Pattern(pattern), Pattern(pattern)];
      Single(Clause(KeywordSql, [Pattern(pattern), Pattern(pattern), Pattern(pattern)]));
    }
  }

  method DestinationCondition(destination: Option<string>) returns (more: seq<string>, bound: seq<Param>)
    ensures more == Conditions(DestinationClause(destination)) && bound == Params(DestinationClause(destination))
  {
    more, bound := [], [];
    if !IsBlank(destination) && destination.value != "all" {
      more := more + [DestinationSql];
      bound := bound + [Pattern("%" + Trim(destination.value) + "%")];
      Single(Clause(DestinationSql, [Pattern("%" + Trim(destination.value) + "%")]));
    }
  }

  /** A parse failure is caught and the bound is ignored. */
  method PriceCondition(priceBound: Option<string>, sql: string, parse: string -> Option<int>)
    returns (more: seq<string>, bound: seq<Param>)
    ensures more == Conditions(PriceClause(priceBound, sql, parse))
    ensures bound == Params(PriceClause(priceBound, sql, parse))
  {
    more, bound := [], [];
    if !IsBlank(priceBound) {
      var v := parse(Trim(priceBound.value));
      if v.Some? {
        more := more + [sql];
        bound := bound + [Money(v.value)];
        Single(Clause(sql, [Money(v.value)]));
      }
    }
  }

  method DurationCondition(duration: Option<string>, parse: string -> Option<int>)
    returns (more: seq<string>, bound: seq<Param>)
    ensures more == Conditions(DurationClause(duration, parse))
    ensures bound == Params(DurationClause(duration, parse))
  {
    more, bound := [], [];
    if !IsBlank(duration) && duration.value != "all" {
      var v := parse(Trim(duration.value));
      if v.Some? {
        if v.value == 7 {
          more := more + [LongDurationSql];
          Single(Clause(LongDurationSql, []));
        } else {
          more := more + [DurationSql];
          bound := bound + [Whole(v.value)];
          Single(Clause(DurationSql, [Whole(v.value)]));
        }
      }
    }
  }

  method DepartureCondition(departureDate: Option<string>, parse: string -> Option<int>)
    returns (more: seq<string>, bound: seq<Param>)
    ensures more == Conditions(DepartureClause(departureDate, parse))
    ensures bound == Params(DepartureClause(departureDate, parse))
  {
    more, bound := [], [];
    if !IsBlank(departureDate) {
      var v := parse(Trim(departureDate.value));
      if v.Some? {
        more := more + [DepartureSql];
        bound := bound + [Day(v.value)];
        Single(Clause(DepartureSql, [Day(v.value)]));
      }
    }
  }

  /** The statement-building tail of `getFilteredTours`. */
  method AssembleSql(conditions: seq<string>, sortBy: Option<string>) returns (sql: string)
    ensures sql == FilteredSql(conditions, sortBy)
  {
    sql := SelectSql;
    if |conditions| > 0 {
      sql := sql + WhereKeyword + Join(" AND ", conditions);
      sql := sql + AndActive;
    } else {
      sql := sql + WhereActive;
    }
    var orderBy := OrderByOf(sortBy);
    sql := sql + OrderByKeyword + orderBy;
  }

  /** The `switch (sortBy)` of `getFilteredTours`. */
  method OrderByOf(sortBy: Option<string>) returns (orderBy: string)
    ensures orderBy == OrderBy(sortBy)
  {
    orderBy := "id DESC";
    if !IsNullOrEmpty(sortBy) {
      var key := sortBy.value;
      if key == "price_asc" {
        orderBy := "price ASC";
      } else if key == "price_desc" {
        orderBy := "price DESC";
      } else if key == "date_asc" {
        orderBy := "departure_date ASC";
      } else if key == "date_desc" {
        orderBy := "departure_date DESC";
      } else if key == "duration_asc" {
        orderBy := "duration ASC";
      } else if key == "duration_desc" {
        orderBy := "duration DESC";
      }
    }
  }

  /** Appending clauses appends their conditions and their parameters. */
  lemma {:induction false} Extend(a: seq<Clause>, b: seq<Clause>)
    ensures Conditions(a + b) == Conditions(a) + Conditions(b)
    ensures Params(a + b) == Params(a) + Params(b)
  {
    if a == [] {
      assert a + b == b;
    } else {
      assert (a + b)[1..] == a[1..] + b;
      Extend(a[1..], b);
    }
  }

  /** A condition with exactly one `?` per parameter it binds. */
  predicate Balanced(cl: Clause) {
    CountChar(cl.sql, '?') == |cl.params|
  }

  predicate AllBalanced(cs: seq<Clause>) {
    forall i :: 0 <= i < |cs| ==> Balanced(cs[i])
  }

  /** `prefix` followed by one placeholder has one `?` when `prefix` has none. */
  lemma OnePlaceholder(prefix: string)
    requires '?' !in prefix
    ensures CountChar(prefix + Placeholder, '?') == 1
  {
    CountCharAbsent(prefix, '?');
    CountCharAppend(prefix, Placeholder, '?');
  }

  lemma KeywordPlaceholders()
    ensures CountChar(KeywordSql, '?') == 3
  {
    var x1 := "(name LIKE " + Placeholder;
    var x2 := x1 + " OR description LIKE ";
    var x3 := x2 + Placeholder;
    var x4 := x3 + " OR destination LIKE ";
    var x5 := x4 + Placeholder;
    OnePlaceholder("(name LIKE ");
    PlainStep(x1, " OR description LIKE ");
    PlaceholderStep(x2);
    PlainStep(x3, " OR destination LIKE ");
    PlaceholderStep(x4);
    PlainStep(x5, ")");
  }

  /** Appending text without a question mark keeps the placeholder count. */
  lemma PlainStep(s: string, t: string)
    requires '?' !in t
    ensures CountChar(s + t, '?') == CountChar(s, '?')
  {
    CountCharAbsent(t, '?');
    CountCharAppend(s, t, '?');
  }

  /** Appending a placeholder adds one to the count. */
  lemma PlaceholderStep(s: string)
    ensures CountChar(s + Placeholder, '?') == CountChar(s, '?') + 1
  {
    CountCharAppend(s, Placeholder, '?');
  }


  lemma DestinationPlaceholders() ensures CountChar(DestinationSql, '?') == 1 { OnePlaceholder("destination LIKE "); }
  lemma MinPricePlaceholders() ensures CountChar(MinPriceSql, '?') == 1 { OnePlaceholder("price >= "); }
  lemma MaxPricePlaceholders() ensures CountChar(MaxPriceSql, '?') == 1 { OnePlaceholder("price <= "); }
  lemma DurationPlaceholders() ensures CountChar(DurationSql, '?') == 1 { OnePlaceholder("duration = "); }
  lemma LongDurationPlaceholders() ensures CountChar(LongDurationSql, '?') == 0 { CountCharAbsent(LongDurationSql, '?'); }
  lemma DeparturePlaceholders() ensures CountChar(DepartureSql, '?') == 1 { OnePlaceholder("departure_date >= "); }

  /** Every condition the source can add is balanced. */
  lemma ClausesBalanced(c: Criteria, p: Parsers)
    ensures AllBalanced(Clauses(c, p))
  {
    var k, d := KeywordClause(c.keyword), DestinationClause(c.destination);
    var lo, hi := PriceClause(c.minPrice, MinPriceSql, p.decimal), PriceClause(c.maxPrice, MaxPriceSql, p.decimal);
    var du, de := DurationClause(c.duration, p.integer), DepartureClause(c.departureDate, p.date);
    FieldsBalanced(c, p);
    AllBalancedAppend(k, d);
    AllBalancedAppend(k + d, lo);
    AllBalancedAppend(k + d + lo, hi);
    AllBalancedAppend(k + d + lo + hi, du);
    AllBalancedAppend(k + d + lo + hi + du, de);
  }

  lemma FieldsBalanced(c: Criteria, p: Parsers)
    ensures AllBalanced(KeywordClause(c.keyword)) && AllBalanced(DestinationClause(c.destination))
    ensures AllBalanced(PriceClause(c.minPrice, MinPriceSql, p.decimal))
    ensures AllBalanced(PriceClause(c.maxPrice, MaxPriceSql, p.decimal))
    ensures AllBalanced(DurationClause(c.duration, p.integer))
    ensures AllBalanced(DepartureClause(c.departureDate, p.date))
  {
    KeywordPlaceholders();
    DestinationPlaceholders();
    MinPricePlaceholders();
    MaxPricePlaceholders();
    DurationBalanced(c.duration, p.integer);
    DeparturePlaceholders();
  }

  lemma DurationBalanced(duration: Option<string>, parse: string -> Option<int>)
    ensures AllBalanced(DurationClause(duration, parse))
  {
    var r := DurationClause(duration, parse);
    if r != [] {
      var v := parse(Trim(duration.value)).value;
      if v == 7 {
        LongDurationPlaceholders();
        assert r == [Clause(LongDurationSql, [])];
      } else {
        DurationPlaceholders();
        assert r == [Clause(DurationSql, [Whole(v)])];
      }
    }
  }

  lemma AllBalancedAppend(a: seq<Clause>, b: seq<Clause>)
    requires AllBalanced(a) && AllBalanced(b)
    ensures AllBalanced(a + b)
  {
    forall i | 0 <= i < |a + b| ensures Balanced((a + b)[i]) {
      if i >= |a| {
        assert (a + b)[i] == b[i - |a|];
      }
    }
  }

  /** Over balanced clauses, the conditions hold as many `?` as there are parameters. */
  lemma {:induction false} BalancedPlaceholders(cs: seq<Clause>)
    requires AllBalanced(cs)
    ensures CountCharAll(Conditions(cs), '?') == |Params(cs)|
  {
    if cs != [] {
      assert Balanced(cs[0]);
      assert AllBalanced(cs[1..]) by {
        forall i | 0 <= i < |cs[1..]| ensures Balanced(cs[1..][i]) {
          assert cs[1..][i] == cs[i + 1];
        }
      }
      BalancedPlaceholders(cs[1..]);
      assert Conditions(cs)[1..] == Conditions(cs[1..]);
    }
  }

  /** No ORDER BY choice holds a `?`. */
  lemma OrderByPlain(sortBy: Option<string>)
    ensures CountChar(OrderBy(sortBy), '?') == 0
  {
    CountCharAbsent(OrderBy(sortBy), '?');
  }

  lemma SelectPlain() ensures CountChar(SelectSql, '?') == 0 { CountCharAbsent(SelectSql, '?'); }
  lemma OrderByKeywordPlain() ensures CountChar(OrderByKeyword, '?') == 0 { CountCharAbsent(OrderByKeyword, '?'); }
  lemma WherePlain() ensures CountChar(WhereKeyword, '?') == 0 { CountCharAbsent(WhereKeyword, '?'); }
  lemma AndActivePlain() ensures CountChar(AndActive, '?') == 0 { CountCharAbsent(AndActive, '?'); }
  lemma WhereActivePlain() ensures CountChar(WhereActive, '?') == 0 { CountCharAbsent(WhereActive, '?'); }

  /** The WHERE part holds exactly the `?` of the conditions. */
  lemma WherePlaceholders(conditions: seq<string>)
    ensures CountChar(WhereSql(conditions), '?') == CountChar(Join(" AND ", conditions), '?')
  {
    var j := Join(" AND ", conditions);
    if |conditions| > 0 {
      WherePlain();
      AndActivePlain();
      CountCharAppend(WhereKeyword, j, '?');
      CountCharAppend(WhereKeyword + j, AndActive, '?');
    } else {
      WhereActivePlain();
    }
  }

  /** The fixed text around the conditions holds no `?`. */
  lemma FixedTextPlaceholders(conditions: seq<string>, sortBy: Option<string>)
    ensures CountChar(FilteredSql(conditions, sortBy), '?') == CountChar(Join(" AND ", conditions), '?')
  {
    var w, o := WhereSql(conditions), OrderBy(sortBy);
    WherePlaceholders(conditions);
    OrderByPlain(sortBy);
    SelectPlain();
    OrderByKeywordPlain();
    CountCharAppend(SelectSql, w, '?');
    CountCharAppend(SelectSql + w, OrderByKeyword, '?');
    CountCharAppend(SelectSql + w + OrderByKeyword, o, '?');
  }

  /** The statement has exactly one `?` per parameter, whatever the criteria. */
  lemma PlaceholdersMatch(c: Criteria, p: Parsers)
    ensures CountChar(FilteredSql(Conditions(Clauses(c, p)), c.sortBy), '?') == |Params(Clauses(c, p))|
  {
    var cs := Clauses(c, p);
    ClausesBalanced(c, p);
    BalancedPlaceholders(cs);
    CountCharJoin(" AND ", Conditions(cs), '?');
    FixedTextPlaceholders(Conditions(cs), c.sortBy);
  }

  /** Whatever the criteria, the statement keeps only ACTIVE tours. */
  lemma AlwaysActive(conditions: seq<string>)
    ensures var w := WhereSql(conditions);
      |w| >= |ActiveFilter| && w[|w| - |ActiveFilter|..] == ActiveFilter
  {
    var w := WhereSql(conditions);
    if |conditions| > 0 {
      assert AndActive == " AND" + ActiveFilter;
      assert w == (" WHERE " + Join(" AND ", conditions) + " AND") + ActiveFilter;
    } else {
      assert WhereActive == " WHERE" + ActiveFilter;
    }
  }

  /** Blank or unparseable criteria add nothing: the statement is the bare ACTIVE query. */
  lemma NoCriteria(c: Criteria, p: Parsers)
    requires IsBlank(c.keyword) && IsBlank(c.destination)
    requires IsBlank(c.minPrice) || p.decimal(Trim(c.minPrice.value)).None?
    requires IsBlank(c.maxPrice) || p.decimal(Trim(c.maxPrice.value)).None?
    requires c.duration == Some("all") || IsBlank(c.duration)
    requires !IsBlank(c.departureDate) ==> p.date(Trim(c.departureDate.value)).None?
    ensures FilteredSql(Conditions(Clauses(c, p)), c.sortBy)
      == SelectSql + " WHERE status = 'ACTIVE' ORDER BY " + OrderBy(c.sortBy)
    ensures Params(Clauses(c, p)) == []
  {
    assert KeywordClause(c.keyword) == [];
    assert DestinationClause(c.destination) == [];
    assert PriceClause(c.minPrice, MinPriceSql, p.decimal) == [];
    assert PriceClause(c.maxPrice, MaxPriceSql, p.decimal) == [];
    assert DurationClause(c.duration, p.integer) == [];
    assert DepartureClause(c.departureDate, p.date) == [];
    assert Clauses(c, p) == [];
    BareQueryText();
  }

  /** The ACTIVE filter followed by the ORDER BY keyword, spelled out. */
  lemma BareQueryText()
    ensures WhereActive + OrderByKeyword == " WHERE status = 'ACTIVE' ORDER BY "
  {
  }

  /** Duration 7 means "more than 5 days" with no parameter; another number is an equality with one. */
  lemma DurationChoice(duration: string, parse: string -> Option<int>)
    requires Trim(duration) != "" && duration != "all" && parse(Trim(duration)).Some?
    ensures parse(Trim(duration)).value == 7 ==>
      DurationClause(Some(duration), parse) == [Clause(LongDurationSql, [])]
    ensures parse(Trim(duration)).value != 7 ==>
      DurationClause(Some(duration), parse) == [Clause(DurationSql, [Whole(parse(Trim(duration)).value)])]
  {
  }
}

/**
 * `get_transactions`: the stored transactions in a date window (by default
 * the last thirty days), newest first, one page at a time, with the number
 * of matching transactions whatever the page.
 */
module Query {
  import opened Wrappers
  import opened Records

  // ----- string order -----

  /** The store compares dates as strings: character by character, a proper
      prefix first. */
  predicate StrLe(a: string, b: string)
    decreases |a|
  {
    |a| == 0 || (|b| > 0 && (a[0] < b[0] || (a[0] == b[0] && StrLe(a[1..], b[1..]))))
  }

  lemma {:induction false} StrLeReflexive(a: string)
    ensures StrLe(a, a)
    decreases |a|
  {
    if |a| > 0 {
      StrLeReflexive(a[1..]);
    }
  }

  lemma {:induction false} StrLeTotal(a: string, b: string)
    ensures StrLe(a, b) || StrLe(b, a)
    decreases |a|
  {
    if |a| > 0 && |b| > 0 && a[0] == b[0] {
      StrLeTotal(a[1..], b[1..]);
    }
  }

  lemma {:induction false} StrLeTransitive(a: string, b: string, c: string)
    requires StrLe(a, b) && StrLe(b, c)
    ensures StrLe(a, c)
    decreases |a|
  {
    if |a| > 0 && a[0] == b[0] && b[0] == c[0] {
      StrLeTransitive(a[1..], b[1..], c[1..]);
    }
  }

  lemma {:induction false} StrLeAntisymmetric(a: string, b: string)
    requires StrLe(a, b) && StrLe(b, a)
    ensures a == b
    decreases |a|
  {
    if |a| > 0 {
      StrLeAntisymmetric(a[1..], b[1..]);
      assert a == [a[0]] + a[1..] && b == [b[0]] + b[1..];
    }
  }

  // ----- the date filter -----

  /** A query parameter counts as given when it is present and not empty. */
  predicate Given(param: Option<string>) {
    param.Some? && param.value != ""
  }

  /** `{"date": {"$gte": …, "$lte": …}}`, either bound optional. */
  datatype DateFilter = DateFilter(gte: Option<string>, lte: Option<string>)

  predicate Matches(filter: DateFilter, t: Transaction) {
    (filter.gte.Some? ==> StrLe(filter.gte.value, t.date))
    && (filter.lte.Some? ==> StrLe(t.date, filter.lte.value))
  }

  /** The filter built from `from_date` and `to_date`. `thirtyDaysAgo` is
      the UTC date thirty days before the request, as `YYYY-MM-DD`. */
  function BuildFilter(from: Option<string>, to: Option<string>, thirtyDaysAgo: string): (f: DateFilter)
    ensures !Given(from) && !Given(to) ==> f == DateFilter(Some(thirtyDaysAgo), None)
    ensures Given(from) ==> f.gte == from
    ensures Given(to) ==> f.lte == to
    ensures !Given(to) ==> f.lte.None?
    ensures !Given(from) && Given(to) ==> f.gte.None?
  {
    if !Given(from) && !Given(to) then DateFilter(Some(thirtyDaysAgo), None)
    else
      DateFilter(if Given(from) then from else None, if Given(to) then to else None)
  }

  /** What the filter accepts: with neither bound, the dates from thirty
      days ago on; otherwise the dates between the given bounds, both
      inclusive. */
  lemma WindowMeaning(from: Option<string>, to: Option<string>, thirtyDaysAgo: string, t: Transaction)
    ensures Matches(BuildFilter(from, to, thirtyDaysAgo), t) <==>
      if !Given(from) && !Given(to) then StrLe(thirtyDaysAgo, t.date)
      else (Given(from) ==> StrLe(from.value, t.date)) && (Given(to) ==> StrLe(t.date, to.value))
  {
  }

  /** A window whose lower bound lies after its upper bound holds nothing. */
  lemma EmptyWindow(from: string, to: string, t: Transaction)
    requires !StrLe(from, to)
    ensures !Matches(DateFilter(Some(from), Some(to)), t)
  {
    if StrLe(from, t.date) && StrLe(t.date, to) {
      StrLeTransitive(from, t.date, to);
    }
  }

  /** Both bounds are inclusive: a transaction dated on a bound is in the
      window. */
  lemma BoundsInclusive(from: string, to: string, t: Transaction)
    requires from != "" && to != ""
    requires t.date == from || t.date == to
    requires StrLe(from, to)
    ensures Matches(BuildFilter(Some(from), Some(to), ""), t)
  {
    StrLeReflexive(t.date);
  }

  /** `find(query)` and `count_documents(query)`: the matching records, in
      store order. */
  function Filter(filter: DateFilter, store: seq<Transaction>): (r: seq<Transaction>)
    ensures |r| <= |store|
    ensures forall t :: t in r <==> t in store && Matches(filter, t)
    decreases |store|
  {
    if |store| == 0 then []
    else
      var k := |store| - 1;
      var rest := Filter(filter, store[..k]);
      assert store == store[..k] + [store[k]];
      if Matches(filter, store[k]) then rest + [store[k]] else rest
  }

  /** A matching record is kept as often as it is stored, so the count is
      the number of matching documents, duplicates included. */
  lemma {:induction false} FilterCounts(filter: DateFilter, store: seq<Transaction>, t: Transaction)
    requires Matches(filter, t)
    ensures multiset(Filter(filter, store))[t] == multiset(store)[t]
    decreases |store|
  {
    if |store| > 0 {
      var k := |store| - 1;
      FilterCounts(filter, store[..k], t);
      assert store == store[..k] + [store[k]];
    }
  }

  // ----- sorting by date, newest first -----

  predicate SortedDesc(s: seq<Transaction>) {
    forall i, j | 0 <= i < j < |s| :: StrLe(s[j].date, s[i].date)
  }

  /** A record dated on or after every record of a sorted sequence can
      go in front of it. */
  lemma SortedCons(x: Transaction, s: seq<Transaction>)
    requires SortedDesc(s)
    requires forall y | y in s :: StrLe(y.date, x.date)
    ensures SortedDesc([x] + s)
  {
    var r := [x] + s;
    forall i, j | 0 <= i < j < |r|
      ensures StrLe(r[j].date, r[i].date)
    {
      assert r[j] == s[j - 1];
      if i > 0 {
        assert r[i] == s[i - 1];
      } else {
        assert s[j - 1] in s;
      }
    }
  }

  /** Inserts `t` after every record dated on or after it. */
  function InsertDesc(t: Transaction, s: seq<Transaction>): seq<Transaction>
    decreases |s|
  {
    if |s| == 0 then [t]
    else if StrLe(t.date, s[0].date) then [s[0]] + InsertDesc(t, s[1..])
    else [t] + s
  }

  /** Inserting adds `t` and loses nothing. */
  lemma {:induction false} InsertDescMultiset(t: Transaction, s: seq<Transaction>)
    ensures multiset(InsertDesc(t, s)) == multiset(s) + multiset{t}
    decreases |s|
  {
    if |s| > 0 && StrLe(t.date, s[0].date) {
      InsertDescMultiset(t, s[1..]);
      assert s == [s[0]] + s[1..];
    }
  }

  /** Inserting into a newest-first sequence keeps it newest first. */
  lemma {:induction false} InsertDescSorted(t: Transaction, s: seq<Transaction>)
    requires SortedDesc(s)
    ensures SortedDesc(InsertDesc(t, s))
    decreases |s|
  {
    if |s| == 0 {
    } else if StrLe(t.date, s[0].date) {
      var tail := s[1..];
      assert SortedDesc(tail) by {
        forall i, j | 0 <= i < j < |tail|
          ensures StrLe(tail[j].date, tail[i].date)
        {
          assert tail[j] == s[j + 1] && tail[i] == s[i + 1];
        }
      }
      InsertDescSorted(t, tail);
      InsertDescMultiset(t, tail);
      var rest := InsertDesc(t, tail);
      forall y | y in rest
        ensures StrLe(y.date, s[0].date)
      {
        assert y in multiset(rest);
        if y != t {
          assert y in multiset(tail);
          var j :| 0 <= j < |tail| && tail[j] == y;
          assert s[j + 1] == y;
        }
      }
      SortedCons(s[0], rest);
    } else {
      StrLeTotal(t.date, s[0].date);
      forall y | y in s
        ensures StrLe(y.date, t.date)
      {
        var j :| 0 <= j < |s| && s[j] == y;
        if j > 0 {
          StrLeTransitive(s[j].date, s[0].date, t.date);
        }
      }
      SortedCons(t, s);
    }
  }

  /** `sort("date", -1)`: sorted newest first and a permutation of the
      input; records with the same date keep their store order. */
  function SortDesc(s: seq<Transaction>): (r: seq<Transaction>)
    ensures SortedDesc(r)
    ensures multiset(r) == multiset(s)
    ensures |r| == |s|
    decreases |s|
  {
    if |s| == 0 then []
    else
      var k := |s| - 1;
      var sorted := SortDesc(s[..k]);
      InsertDescSorted(s[k], sorted);
      InsertDescMultiset(s[k], sorted);
      assert s == s[..k] + [s[k]];
      var r := InsertDesc(s[k], sorted);
      assert |r| == |multiset(r)|;
      r
  }

  // ----- paging -----

  /** `skip(skip).limit(limit)`: at most `limit` items, starting at `skip`. */
  function Page(s: seq<Transaction>, skip: nat, limit: nat): (r: seq<Transaction>)
    ensures |r| == if skip >= |s| then 0 else if |s| - skip < limit then |s| - skip else limit
    ensures forall k | 0 <= k < |r| :: skip + k < |s| && r[k] == s[skip + k]
  {
    if skip >= |s| then []
    else if |s| - skip < limit then s[skip..]
    else s[skip..skip + limit]
  }

  function Views(s: seq<Transaction>): (r: seq<TransactionView>)
    ensures |r| == |s|
    ensures forall k | 0 <= k < |s| :: r[k] == View(s[k])
  {
    seq(|s|, k requires 0 <= k < |s| => View(s[k]))
  }

  // ----- the endpoint -----

  /** The response body: one page of views, the page and limit asked for,
      and the number of matching transactions. */
  datatype Listing = Listing(data: seq<TransactionView>, page: int, limit: int, total: nat)

  /** The request is refused (422) unless `page >= 1` and `1 <= limit <= 200`. */
  datatype QueryError = InvalidQuery

  const MaxLimit: int := 200

  /** `skip = (page - 1) * limit`. */
  function Skip(page: int, limit: int): nat
    requires page >= 1 && limit >= 1
  {
    (page - 1) * limit
  }

  /** Position `j` is item `j % limit` past the skip of page `j / limit + 1`. */
  lemma SkipOfPosition(j: nat, limit: int)
    requires limit >= 1
    ensures Skip(j / limit + 1, limit) + j % limit == j && j % limit < limit
  {
  }

  /** The matching records in response order. */
  function Ordered(store: seq<Transaction>, from: Option<string>, to: Option<string>, thirtyDaysAgo: string): seq<Transaction> {
    SortDesc(Filter(BuildFilter(from, to, thirtyDaysAgo), store))
  }

  /** `get_transactions(from_date, to_date, page, limit)` on `store`. */
  function ListTransactions(store: seq<Transaction>, from: Option<string>, to: Option<string>,
                            page: int, limit: int, thirtyDaysAgo: string): (r: Result<Listing, QueryError>)
    ensures r.Err? <==> page < 1 || limit < 1 || limit > MaxLimit
    ensures r.Ok? ==> r.value.page == page && r.value.limit == limit && |r.value.data| <= limit
    ensures r.Ok? ==> r.value.total == |Ordered(store, from, to, thirtyDaysAgo)|
  {
    if page < 1 || limit < 1 || limit > MaxLimit then Err(InvalidQuery)
    else
      var matching := Filter(BuildFilter(from, to, thirtyDaysAgo), store);
      var window := Page(SortDesc(matching), Skip(page, limit), limit);
      Ok(Listing(Views(window), page, limit, |matching|))
  }

  /** The `k`-th item of page `page` is the view of the matching record at
      position `(page - 1) * limit + k` in newest-first order. */
  lemma ListingContents(store: seq<Transaction>, from: Option<string>, to: Option<string>,
                        page: int, limit: int, thirtyDaysAgo: string, k: nat)
    requires 1 <= page && 1 <= limit <= MaxLimit
    requires k < |ListTransactions(store, from, to, page, limit, thirtyDaysAgo).value.data|
    ensures var ordered := Ordered(store, from, to, thirtyDaysAgo);
      Skip(page, limit) + k < |ordered|
      && ListTransactions(store, from, to, page, limit, thirtyDaysAgo).value.data[k]
         == View(ordered[Skip(page, limit) + k])
  {
    var ordered := Ordered(store, from, to, thirtyDaysAgo);
    var window := Page(ordered, Skip(page, limit), limit);
    assert ListTransactions(store, from, to, page, limit, thirtyDaysAgo).value.data == Views(window);
  }

  /** The records in response order are stored records inside the window. */
  lemma OrderedMember(store: seq<Transaction>, from: Option<string>, to: Option<string>,
                      thirtyDaysAgo: string, i: nat)
    requires i < |Ordered(store, from, to, thirtyDaysAgo)|
    ensures var t := Ordered(store, from, to, thirtyDaysAgo)[i];
      t in store && Matches(BuildFilter(from, to, thirtyDaysAgo), t)
  {
    var matching := Filter(BuildFilter(from, to, thirtyDaysAgo), store);
    var ordered := SortDesc(matching);
    assert ordered[i] in multiset(ordered);
    assert ordered[i] in multiset(matching);
  }

  /** Every item returned is a stored transaction inside the window. */
  lemma ListingInWindow(store: seq<Transaction>, from: Option<string>, to: Option<string>,
                        page: int, limit: int, thirtyDaysAgo: string)
    requires 1 <= page && 1 <= limit <= MaxLimit
    ensures var data := ListTransactions(store, from, to, page, limit, thirtyDaysAgo).value.data;
      forall k | 0 <= k < |data| :: exists t | t in store ::
        Matches(BuildFilter(from, to, thirtyDaysAgo), t) && data[k] == View(t)
  {
    var data := ListTransactions(store, from, to, page, limit, thirtyDaysAgo).value.data;
    forall k | 0 <= k < |data|
      ensures exists t | t in store :: Matches(BuildFilter(from, to, thirtyDaysAgo), t) && data[k] == View(t)
    {
      ListingContents(store, from, to, page, limit, thirtyDaysAgo, k);
      OrderedMember(store, from, to, thirtyDaysAgo, Skip(page, limit) + k);
      var t := Ordered(store, from, to, thirtyDaysAgo)[Skip(page, limit) + k];
      assert data[k] == View(t);
    }
  }

  /** The items of a page are newest first. */
  lemma ListingNewestFirst(store: seq<Transaction>, from: Option<string>, to: Option<string>,
                           page: int, limit: int, thirtyDaysAgo: string)
    requires 1 <= page && 1 <= limit <= MaxLimit
    ensures var data := ListTransactions(store, from, to, page, limit, thirtyDaysAgo).value.data;
      forall i, j | 0 <= i < j < |data| :: StrLe(data[j].date, data[i].date)
  {
    var ordered := Ordered(store, from, to, thirtyDaysAgo);
    var data := ListTransactions(store, from, to, page, limit, thirtyDaysAgo).value.data;
    forall i, j | 0 <= i < j < |data|
      ensures StrLe(data[j].date, data[i].date)
    {
      ListingContents(store, from, to, page, limit, thirtyDaysAgo, i);
      ListingContents(store, from, to, page, limit, thirtyDaysAgo, j);
    }
  }

  /** Without bounds, every stored transaction dated thirty days ago or
      later is counted, and only those. */
  lemma DefaultWindow(store: seq<Transaction>, thirtyDaysAgo: string)
    ensures var ordered := Ordered(store, None, None, thirtyDaysAgo);
      forall t :: t in ordered <==> t in store && StrLe(thirtyDaysAgo, t.date)
  {
    var ordered := Ordered(store, None, None, thirtyDaysAgo);
    var matching := Filter(BuildFilter(None, None, thirtyDaysAgo), store);
    forall t
      ensures t in ordered <==> t in matching
    {
      assert t in ordered <==> t in multiset(ordered);
      assert t in matching <==> t in multiset(matching);
    }
  }

  /** The total does not depend on the page or the limit. */
  lemma TotalIgnoresPaging(store: seq<Transaction>, from: Option<string>, to: Option<string>,
                           p1: int, l1: int, p2: int, l2: int, thirtyDaysAgo: string)
    requires ListTransactions(store, from, to, p1, l1, thirtyDaysAgo).Ok?
    requires ListTransactions(store, from, to, p2, l2, thirtyDaysAgo).Ok?
    ensures ListTransactions(store, from, to, p1, l1, thirtyDaysAgo).value.total
         == ListTransactions(store, from, to, p2, l2, thirtyDaysAgo).value.total
  {
  }

  /** The pages cover the matching records without gap or overlap: the
      record at position `j` of the newest-first order is item `j % limit`
      of page `j / limit + 1`. */
  lemma PagesPartition(store: seq<Transaction>, from: Option<string>, to: Option<string>,
                       limit: int, thirtyDaysAgo: string, j: nat)
    requires 1 <= limit <= MaxLimit
    requires j < |Ordered(store, from, to, thirtyDaysAgo)|
    ensures var r := ListTransactions(store, from, to, j / limit + 1, limit, thirtyDaysAgo);
      r.Ok? && j % limit < |r.value.data|
      && r.value.data[j % limit] == View(Ordered(store, from, to, thirtyDaysAgo)[j])
  {
    SkipOfPosition(j, limit);
    ListingContents(store, from, to, j / limit + 1, limit, thirtyDaysAgo, j % limit);
  }

  /** A full page holds exactly `limit` items while records remain past it. */
  lemma FullPage(store: seq<Transaction>, from: Option<string>, to: Option<string>,
                 page: int, limit: int, thirtyDaysAgo: string)
    requires 1 <= page && 1 <= limit <= MaxLimit
    requires page * limit <= |Ordered(store, from, to, thirtyDaysAgo)|
    ensures |ListTransactions(store, from, to, page, limit, thirtyDaysAgo).value.data| == limit
  {
    assert Skip(page, limit) + limit == page * limit;
  }

  /** Eight matching records, five per page: page 1 holds five, page 2 the
      remaining three, page 3 none, and the total is eight each time. */
  lemma EightRecordsExample(store: seq<Transaction>, from: Option<string>, to: Option<string>, thirtyDaysAgo: string)
    requires |Ordered(store, from, to, thirtyDaysAgo)| == 8
    ensures var r := ListTransactions(store, from, to, 1, 5, thirtyDaysAgo);
      r.Ok? && |r.value.data| == 5 && r.value.total == 8
    ensures var r := ListTransactions(store, from, to, 2, 5, thirtyDaysAgo);
      r.Ok? && |r.value.data| == 3 && r.value.total == 8
    ensures var r := ListTransactions(store, from, to, 3, 5, thirtyDaysAgo);
      r.Ok? && |r.value.data| == 0 && r.value.total == 8
  {
  }
}

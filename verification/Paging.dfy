/** The paging arithmetic of every list endpoint, over a matching sequence in a fixed order. */
module Paging {
  datatype Page<T> = Page(
    data: seq<T>, total: nat, page: nat, limit: nat, totalPages: nat, hasNextPage: bool, hasPreviousPage: bool)

  function AtMost(n: nat, bound: nat): nat {
    if n <= bound then n else bound
  }

  /** `.skip(skip).limit(limit)`. */
  function Window<T>(s: seq<T>, skip: nat, limit: nat): seq<T> {
    s[AtMost(skip, |s|)..AtMost(skip + limit, |s|)]
  }

  /** `Math.ceil(total / limit)`. */
  function CeilDiv(total: nat, limit: nat): nat
    requires limit >= 1
  {
    total / limit + if total % limit == 0 then 0 else 1
  }

  /** A page as the endpoints assemble it, from a total and the rows it was cut from. */
  function Assemble<T>(total: nat, rows: seq<T>, page: nat, limit: nat): Page<T>
    requires page >= 1 && limit >= 1
  {
    var totalPages := CeilDiv(total, limit);
    Page(Window(rows, (page - 1) * limit, limit), total, page, limit, totalPages, page < totalPages, page > 1)
  }

  function PageOf<T>(s: seq<T>, page: nat, limit: nat): Page<T>
    requires page >= 1 && limit >= 1
  {
    Assemble(|s|, s, page, limit)
  }

  /** Pages 1 to n, one after the other. */
  function Pages<T>(s: seq<T>, limit: nat, n: nat): seq<T>
    requires limit >= 1
  {
    if n == 0 then [] else Pages(s, limit, n - 1) + PageOf(s, n, limit).data
  }

  lemma CeilDivBounds(total: nat, limit: nat)
    requires limit >= 1
    ensures total <= CeilDiv(total, limit) * limit < total + limit
  {
  }

  lemma {:induction false} PagesArePrefix<T>(s: seq<T>, limit: nat, n: nat)
    requires limit >= 1
    ensures Pages(s, limit, n) == s[..AtMost(n * limit, |s|)]
  {
    if n > 0 {
      PagesArePrefix(s, limit, n - 1);
      assert n * limit == (n - 1) * limit + limit;
    }
  }

  /** The pages partition the result: in order they are the whole sequence, each element once. */
  lemma PagesPartition<T>(s: seq<T>, limit: nat)
    requires limit >= 1
    ensures Pages(s, limit, CeilDiv(|s|, limit)) == s
  {
    PagesArePrefix(s, limit, CeilDiv(|s|, limit));
    CeilDivBounds(|s|, limit);
  }

  lemma TimesMonotone(a: nat, b: nat, limit: nat)
    requires a <= b
    ensures a * limit <= b * limit
  {
  }

  /** A page is non-empty exactly when it starts before the end. */
  lemma NonEmptyExactly<T>(s: seq<T>, page: nat, limit: nat)
    requires page >= 1 && limit >= 1
    ensures PageOf(s, page, limit).data != [] <==> page <= CeilDiv(|s|, limit)
  {
    var n, skip := CeilDiv(|s|, limit), (page - 1) * limit;
    assert PageOf(s, page, limit).data != [] <==> skip < |s| by { WindowNonEmpty(s, skip, limit); }
    CeilDivBounds(|s|, limit);
    if page <= n {
      TimesMonotone(page, n, limit);
      assert page * limit == skip + limit;
    } else {
      TimesMonotone(n, page - 1, limit);
    }
  }

  lemma WindowNonEmpty<T>(s: seq<T>, skip: nat, limit: nat)
    requires limit >= 1
    ensures Window(s, skip, limit) != [] <==> skip < |s|
  {
  }

  /**
   * hasNextPage holds exactly when some later page has something on it, and hasPreviousPage on every
   * page but the first; the total is the length, and a page is never longer than the limit.
   */
  lemma HasNextExactly<T>(s: seq<T>, page: nat, limit: nat)
    requires page >= 1 && limit >= 1
    ensures PageOf(s, page, limit).hasNextPage <==> exists later :: later > page && PageOf(s, later, limit).data != []
    ensures PageOf(s, page, limit).hasPreviousPage <==> page != 1
    ensures var shown := PageOf(s, page, limit);
      shown.total == |s| && shown.page == page && shown.limit == limit && |shown.data| <= limit
  {
    if PageOf(s, page, limit).hasNextPage {
      NonEmptyExactly(s, page + 1, limit);
      assert PageOf(s, page + 1, limit).data != [];
    }
    forall later | later > page && PageOf(s, later, limit).data != [] ensures PageOf(s, page, limit).hasNextPage {
      NonEmptyExactly(s, later, limit);
    }
  }

  /** One order the database may return the documents of a set in. */
  ghost predicate Enumerates<T(!new)>(order: seq<T>, docs: set<T>) {
    && (forall x :: x in order <==> x in docs)
    && (forall i, j :: 0 <= i < j < |order| ==> order[i] != order[j])
  }

  lemma {:induction false} EnumerationSize<T(!new)>(order: seq<T>, docs: set<T>)
    requires Enumerates(order, docs)
    ensures |order| == |docs|
  {
    if order == [] {
      assert docs == {};
    } else {
      var rest, last := order[..|order| - 1], order[|order| - 1];
      assert order == rest + [last] && docs == (docs - {last}) + {last};
      assert Enumerates(rest, docs - {last}) by {
        forall x
          ensures x in rest <==> x in docs - {last}
        {
          assert x in order <==> x in docs; assert x in order <==> x in rest || x == last;
        }
      }
      EnumerationSize(rest, docs - {last});
    }
  }

  lemma {:induction false} DistinctCounts<T(!new)>(s: seq<T>)
    ensures (forall i, j :: 0 <= i < j < |s| ==> s[i] != s[j]) <==> forall x :: multiset(s)[x] <= 1
  {
    if s != [] {
      var init, last := s[..|s| - 1], s[|s| - 1];
      DistinctCounts(init);
      assert s == init + [last] && multiset(s) == multiset(init) + multiset{last};
      if forall x :: multiset(s)[x] <= 1 {
        assert forall x :: multiset(init)[x] <= multiset(s)[x];
        assert last in init ==> multiset(s)[last] >= 2;
      }
      if forall i, j :: 0 <= i < j < |s| ==> s[i] != s[j] {
        assert last !in init;
        assert forall i, j :: 0 <= i < j < |init| ==> init[i] == s[i] && init[j] == s[j];
      }
    }
  }

  /** Sorting, in whatever way, enumerates the same documents. */
  lemma SortedEnumerates<T(!new)>(rows: seq<T>, sorted: seq<T>, docs: set<T>)
    requires Enumerates(rows, docs) && multiset(sorted) == multiset(rows)
    ensures Enumerates(sorted, docs)
  {
    DistinctCounts(rows);
    DistinctCounts(sorted);
    forall x ensures x in sorted <==> x in docs { assert x in sorted <==> x in multiset(rows); }
  }

  /** Where the k-th item of a page stands in the whole sequence. */
  lemma PageItem<T>(s: seq<T>, page: nat, limit: nat, x: T) returns (i: nat)
    requires page >= 1 && limit >= 1 && x in PageOf(s, page, limit).data
    ensures (page - 1) * limit <= i < page * limit && i < |s| && s[i] == x
  {
    var skip := (page - 1) * limit;
    NextSkip(page, limit);
    assert PageOf(s, page, limit).data == Window(s, skip, limit);
    i := WindowItem(s, skip, limit, x);
  }

  lemma NextSkip(page: nat, limit: nat)
    requires page >= 1
    ensures (page - 1) * limit + limit == page * limit
  {
  }

  lemma WindowItem<T>(s: seq<T>, skip: nat, limit: nat, x: T) returns (i: nat)
    requires x in Window(s, skip, limit)
    ensures skip <= i < skip + limit && i < |s| && s[i] == x
  {
    var k :| 0 <= k < |Window(s, skip, limit)| && Window(s, skip, limit)[k] == x;
    i := skip + k;
  }

  lemma ItemsPage<T>(s: seq<T>, limit: nat, i: nat) returns (page: nat)
    requires limit >= 1 && i < |s|
    ensures 1 <= page <= CeilDiv(|s|, limit) && s[i] in PageOf(s, page, limit).data
  {
    page := i / limit + 1;
    var skip := (page - 1) * limit;
    assert i == skip + i % limit;
    assert PageOf(s, page, limit).data == Window(s, skip, limit);
    assert s[i] == Window(s, skip, limit)[i - skip];
    NonEmptyExactly(s, page, limit);
  }

  predicate OnPage<T(==)>(order: seq<T>, page: nat, limit: nat, x: T) {
    page >= 1 && limit >= 1 && x in PageOf(order, page, limit).data
  }

  /** For every order and page size, a matching document is on exactly one page, and no other is on any. */
  lemma OnOnePage<T(!new)>(order: seq<T>, docs: set<T>, limit: nat, x: T)
    requires limit >= 1 && Enumerates(order, docs)
    ensures x in docs <==> exists page :: OnPage(order, page, limit, x)
    ensures forall page: nat :: OnPage(order, page, limit, x) ==> page <= CeilDiv(|docs|, limit)
    ensures forall p, q :: OnPage(order, p, limit, x) && OnPage(order, q, limit, x) ==> p == q
  {
    EnumerationSize(order, docs);
    if x in docs {
      var i :| 0 <= i < |order| && order[i] == x;
      var page := ItemsPage(order, limit, i);
      assert OnPage(order, page, limit, x);
    }
    forall page: nat | OnPage(order, page, limit, x) ensures x in docs && page <= CeilDiv(|docs|, limit) {
      var i := PageItem(order, page, limit, x);
      NonEmptyExactly(order, page, limit);
    }
    forall p, q | OnPage(order, p, limit, x) && OnPage(order, q, limit, x) ensures p == q {
      OnlyPage(order, p, q, limit, x);
    }
  }

  lemma OnlyPage<T>(order: seq<T>, p: nat, q: nat, limit: nat, x: T)
    requires limit >= 1 && forall i, j :: 0 <= i < j < |order| ==> order[i] != order[j]
    requires p >= 1 && q >= 1 && x in PageOf(order, p, limit).data && x in PageOf(order, q, limit).data
    ensures p == q
  {
    var i := PageItem(order, p, limit, x);
    var j := PageItem(order, q, limit, x);
    assert i == j;
    if p < q { TimesMonotone(p, q - 1, limit); }
    if q < p { TimesMonotone(q, p - 1, limit); }
  }
}

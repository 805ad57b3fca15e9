/**
 Cursor paging over one user's rows: newest first, one row more than the page to see whether there
 are others, and the creation time of the last shown row as the cursor.
 */
module Paging {
  import opened Wrappers

  type Pos = n: nat | 1 <= n witness 1

  datatype Row = Row(created: int, id: nat)

  datatype Page = Page(items: seq<Row>, next: Option<int>)

  ghost predicate NewestFirst(rows: seq<Row>) {
    forall i, j :: 0 <= i < j < |rows| ==> rows[i].created >= rows[j].created
  }

  /** The query's filter: rows created strictly before the cursor. */
  function Before(rows: seq<Row>, cursor: Option<int>): seq<Row> {
    if cursor.None? then rows
    else if rows == [] then []
    else (if rows[0].created < cursor.value then [rows[0]] else []) + Before(rows[1..], cursor)
  }

  function Take(rows: seq<Row>, n: nat): seq<Row> { if |rows| <= n then rows else rows[..n] }

  /** One request. */
  function ListPage(rows: seq<Row>, cursor: Option<int>, limit: Pos): Page {
    var found := Take(Before(rows, cursor), limit + 1);
    if |found| > limit then Page(found[..limit], Some(found[limit - 1].created)) else Page(found, None)
  }

  /** A client that follows the cursors to the end. It always gets there, whatever the rows. */
  function Walk(rows: seq<Row>, cursor: Option<int>, limit: Pos): seq<Row>
    decreases |Before(rows, cursor)|
  {
    var page := ListPage(rows, cursor, limit);
    if page.next.None? then page.items
    else
      CursorAdvances(rows, cursor, Before(rows, cursor)[limit - 1]);
      page.items + Walk(rows, page.next, limit)
  }

  lemma {:induction false} BeforeSound(rows: seq<Row>, cursor: Option<int>)
    requires cursor.Some?
    ensures forall r :: r in Before(rows, cursor) <==> r in rows && r.created < cursor.value
  {
    if rows != [] { BeforeSound(rows[1..], cursor); }
  }

  lemma {:induction false} CursorAdvances(rows: seq<Row>, cursor: Option<int>, last: Row)
    requires last in Before(rows, cursor)
    ensures |Before(rows, Some(last.created))| < |Before(rows, cursor)|
    decreases |rows|
  {
    if cursor.None? {
      ShorterThanAll(rows, last);
    } else {
      BeforeSound(rows, cursor);
      if rows[0].created < cursor.value {
        if last in Before(rows[1..], cursor) {
          CursorAdvances(rows[1..], cursor, last);
        } else {
          NeverLonger(rows[1..], last.created, cursor.value);
        }
      } else {
        CursorAdvances(rows[1..], cursor, last);
      }
    }
  }

  lemma {:induction false} NeverLonger(rows: seq<Row>, a: int, b: int)
    requires a <= b
    ensures |Before(rows, Some(a))| <= |Before(rows, Some(b))| <= |rows|
  {
    if rows != [] { NeverLonger(rows[1..], a, b); }
  }

  lemma {:induction false} ShorterThanAll(rows: seq<Row>, last: Row)
    requires last in rows
    ensures |Before(rows, Some(last.created))| < |rows|
  {
    NeverLonger(rows[1..], last.created, last.created);
    if rows[0] != last { ShorterThanAll(rows[1..], last); }
  }

  // ---------------------------------------------------------------------------------------------
  // The same walk over positions
  // ---------------------------------------------------------------------------------------------

  /** The first position whose row is older than the cursor. */
  function Start(rows: seq<Row>, cursor: int): nat {
    if rows == [] || rows[0].created < cursor then 0 else 1 + Start(rows[1..], cursor)
  }

  lemma {:induction false} StartFacts(rows: seq<Row>, cursor: int)
    ensures var k := Start(rows, cursor);
            && k <= |rows|
            && (forall i :: 0 <= i < k ==> cursor <= rows[i].created)
            && (k < |rows| ==> rows[k].created < cursor)
  {
    if rows != [] && rows[0].created >= cursor { StartFacts(rows[1..], cursor); }
  }

  lemma {:induction false} BeforeIsSuffix(rows: seq<Row>, cursor: int)
    requires NewestFirst(rows)
    ensures Start(rows, cursor) <= |rows| && Before(rows, Some(cursor)) == rows[Start(rows, cursor)..]
  {
    if rows != [] {
      BeforeIsSuffix(rows[1..], cursor);
      if rows[0].created < cursor {
        StartFacts(rows[1..], cursor);
        assert Start(rows[1..], cursor) == 0;
        assert Before(rows, Some(cursor)) == [rows[0]] + rows[1..];
      } else {
        assert Before(rows, Some(cursor)) == rows[1..][Start(rows[1..], cursor)..];
      }
    }
  }

  function Range(a: nat, b: nat): seq<nat>
    requires a <= b
    decreases b - a
  {
    if a == b then [] else [a] + Range(a + 1, b)
  }

  lemma {:induction false} RangeAt(a: nat, b: nat)
    requires a <= b
    ensures |Range(a, b)| == b - a && forall i :: 0 <= i < b - a ==> Range(a, b)[i] == a + i
    decreases b - a
  {
    if a < b { RangeAt(a + 1, b); }
  }

  /** Positions shown by a walk that starts at position `at`. */
  function Shown(rows: seq<Row>, at: nat, limit: Pos): seq<nat>
    requires at <= |rows| && NewestFirst(rows)
    decreases |rows| - at
  {
    if |rows| - at <= limit then Range(at, |rows|)
    else
      var next := NextStart(rows, at, limit);
      Range(at, at + limit) + Shown(rows, next, limit)
  }

  /** The last positions of the pages that are not the final one. */
  function PageEnds(rows: seq<Row>, at: nat, limit: Pos): set<nat>
    requires at <= |rows| && NewestFirst(rows)
    decreases |rows| - at
  {
    if |rows| - at <= limit then {}
    else {at + limit - 1} + PageEnds(rows, NextStart(rows, at, limit), limit)
  }

  function NextStart(rows: seq<Row>, at: nat, limit: Pos): (next: nat)
    requires at + limit < |rows| && NewestFirst(rows)
    ensures at + limit <= next <= |rows|
  {
    NextStartFacts(rows, at, limit);
    Start(rows, rows[at + limit - 1].created)
  }

  lemma NextStartFacts(rows: seq<Row>, at: nat, limit: Pos)
    requires at + limit < |rows| && NewestFirst(rows)
    ensures var c := rows[at + limit - 1].created;
            var next := Start(rows, c);
            && at + limit <= next <= |rows|
            && (forall i :: at + limit <= i < next ==> rows[i].created == c)
            && (forall i :: next <= i < |rows| ==> rows[i].created < c)
  {
    StartFacts(rows, rows[at + limit - 1].created);
  }

  function At(rows: seq<Row>, ps: seq<nat>): seq<Row>
    requires forall i :: 0 <= i < |ps| ==> ps[i] < |rows|
  {
    seq(|ps|, i requires 0 <= i < |ps| => rows[ps[i]])
  }

  lemma {:induction false} ShownFacts(rows: seq<Row>, at: nat, limit: Pos)
    requires at <= |rows| && NewestFirst(rows)
    ensures var ps := Shown(rows, at, limit);
            && (forall i :: 0 <= i < |ps| ==> at <= ps[i] < |rows|)
            && (forall i, j :: 0 <= i < j < |ps| ==> ps[i] < ps[j])
    decreases |rows| - at
  {
    if |rows| - at > limit {
      ShownSplit(rows, at, limit);
      ShownFacts(rows, NextStart(rows, at, limit), limit);
    } else {
      RangeAt(at, |rows|);
    }
  }

  lemma ShownSplit(rows: seq<Row>, at: nat, limit: Pos)
    requires NewestFirst(rows) && at + limit < |rows|
    ensures var ps, rest := Shown(rows, at, limit), Shown(rows, NextStart(rows, at, limit), limit);
            && |ps| == limit + |rest|
            && (forall i :: 0 <= i < limit ==> ps[i] == at + i)
            && (forall i :: limit <= i < |ps| ==> ps[i] == rest[i - limit])
  {
    var rest := Shown(rows, NextStart(rows, at, limit), limit);
    ShownUnfolds(rows, at, limit);
    RangeThen(at, limit, rest, Shown(rows, at, limit));
  }

  lemma ShownUnfolds(rows: seq<Row>, at: nat, limit: Pos)
    requires NewestFirst(rows) && at + limit < |rows|
    ensures Shown(rows, at, limit) == Range(at, at + limit) + Shown(rows, NextStart(rows, at, limit), limit)
  {}

  lemma RangeThen(at: nat, n: nat, rest: seq<nat>, ps: seq<nat>)
    requires ps == Range(at, at + n) + rest
    ensures |ps| == n + |rest|
    ensures forall i :: 0 <= i < n ==> ps[i] == at + i
    ensures forall i :: n <= i < |ps| ==> ps[i] == rest[i - n]
  {
    RangeAt(at, at + n);
  }

  /** Paging by cursor shows the rows at these positions. */
  lemma PageAt(rows: seq<Row>, cursor: Option<int>, at: nat, limit: Pos)
    requires at <= |rows| && Before(rows, cursor) == rows[at..]
    ensures ListPage(rows, cursor, limit)
         == if |rows| - at > limit then Page(rows[at..at + limit], Some(rows[at + limit - 1].created))
            else Page(rows[at..], None)
  {}

  lemma {:induction false} WalkShows(rows: seq<Row>, cursor: Option<int>, at: nat, limit: Pos)
    requires NewestFirst(rows) && at <= |rows| && Before(rows, cursor) == rows[at..]
    ensures forall i :: 0 <= i < |Shown(rows, at, limit)| ==> Shown(rows, at, limit)[i] < |rows|
    ensures Walk(rows, cursor, limit) == At(rows, Shown(rows, at, limit))
    decreases |rows| - at
  {
    ShownFacts(rows, at, limit);
    PageAt(rows, cursor, at, limit);
    if |rows| - at > limit {
      var last, next := rows[at + limit - 1].created, NextStart(rows, at, limit);
      RestStartsAt(rows, at, limit);
      WalkShows(rows, Some(last), next, limit);
      JoinPages(rows, at, limit, Walk(rows, Some(last), limit));
    } else {
      LastPage(rows, at);
    }
  }

  lemma RestStartsAt(rows: seq<Row>, at: nat, limit: Pos)
    requires NewestFirst(rows) && at + limit < |rows|
    ensures Before(rows, Some(rows[at + limit - 1].created)) == rows[NextStart(rows, at, limit)..]
  {
    BeforeIsSuffix(rows, rows[at + limit - 1].created);
  }

  lemma LastPage(rows: seq<Row>, at: nat)
    requires at <= |rows|
    ensures forall i :: 0 <= i < |Range(at, |rows|)| ==> Range(at, |rows|)[i] < |rows|
    ensures rows[at..] == At(rows, Range(at, |rows|))
  {
    RangeAt(at, |rows|);
  }

  lemma JoinPages(rows: seq<Row>, at: nat, limit: Pos, rest: seq<Row>)
    requires NewestFirst(rows) && at + limit < |rows|
    requires var ps := Shown(rows, NextStart(rows, at, limit), limit);
             (forall i :: 0 <= i < |ps| ==> ps[i] < |rows|) && rest == At(rows, ps)
    requires forall i :: 0 <= i < |Shown(rows, at, limit)| ==> Shown(rows, at, limit)[i] < |rows|
    ensures rows[at..at + limit] + rest == At(rows, Shown(rows, at, limit))
  {
    ShownSplit(rows, at, limit);
    JoinRows(rows, at, limit, Shown(rows, at, limit), Shown(rows, NextStart(rows, at, limit), limit));
  }

  lemma JoinRows(rows: seq<Row>, at: nat, limit: Pos, ps: seq<nat>, rest: seq<nat>)
    requires at + limit < |rows| && |ps| == limit + |rest|
    requires forall i :: 0 <= i < limit ==> ps[i] == at + i
    requires forall i :: limit <= i < |ps| ==> ps[i] == rest[i - limit]
    requires forall i :: 0 <= i < |rest| ==> rest[i] < |rows|
    requires forall i :: 0 <= i < |ps| ==> ps[i] < |rows|
    ensures rows[at..at + limit] + At(rows, rest) == At(rows, ps)
  {}

  lemma {:induction false} MissedExactly(rows: seq<Row>, at: nat, limit: Pos, p: nat)
    requires at <= p < |rows| && NewestFirst(rows)
    ensures p in Shown(rows, at, limit)
       <==> !(exists e :: e in PageEnds(rows, at, limit) && e < p && rows[e].created == rows[p].created)
    decreases |rows| - at
  {
    var ps := Shown(rows, at, limit);
    if |rows| - at <= limit {
      RangeAt(at, |rows|);
      assert ps[p - at] == p;
    } else {
      var next, e0 := NextStart(rows, at, limit), at + limit - 1;
      ShownSplit(rows, at, limit);
      NextStartFacts(rows, at, limit);
      ShownFacts(rows, next, limit);
      EndsAfter(rows, next, limit);
      if p <= e0 {
        assert ps[p - at] == p;
      } else if p < next {
        assert e0 in PageEnds(rows, at, limit) && rows[e0].created == rows[p].created;
        assert p !in ps;
      } else {
        MissedExactly(rows, next, limit, p);
        assert rows[e0].created != rows[p].created;
        var rest := Shown(rows, next, limit);
        assert p in ps <==> p in rest by {
          if p in rest {
            var i :| 0 <= i < |rest| && rest[i] == p;
            assert ps[limit + i] == p;
          }
        }
      }
    }
  }

  lemma {:induction false} EndsAfter(rows: seq<Row>, at: nat, limit: Pos)
    requires at <= |rows| && NewestFirst(rows)
    ensures forall e :: e in PageEnds(rows, at, limit) ==> at <= e < |rows|
    decreases |rows| - at
  {
    if |rows| - at > limit { EndsAfter(rows, NextStart(rows, at, limit), limit); }
  }

  /** Following the cursors over a fixed snapshot shows rows at strictly increasing positions, so in
      order and without repeats; it misses exactly the rows that share their creation time with the
      last row of an earlier page. */
  lemma WalkMissesOnlyTies(rows: seq<Row>, limit: Pos, p: nat)
    requires NewestFirst(rows) && p < |rows|
    ensures var ps := Shown(rows, 0, limit);
            && (forall i :: 0 <= i < |ps| ==> ps[i] < |rows|)
            && Walk(rows, None, limit) == At(rows, ps)
            && (forall i, j :: 0 <= i < j < |ps| ==> ps[i] < ps[j])
            && (p in ps <==>
                  !(exists e :: e in PageEnds(rows, 0, limit) && e < p && rows[e].created == rows[p].created))
  {
    ShownFacts(rows, 0, limit);
    WalkShows(rows, None, 0, limit);
    MissedExactly(rows, 0, limit, p);
  }

  /** With distinct creation times the pages concatenate to the whole list. */
  lemma DistinctTimesShowAll(rows: seq<Row>, limit: Pos)
    requires forall i, j :: 0 <= i < j < |rows| ==> rows[i].created > rows[j].created
    ensures Walk(rows, None, limit) == rows
  {
    ShowsAllFrom(rows, 0, limit);
    WalkShows(rows, None, 0, limit);
    RangeAt(0, |rows|);
  }

  lemma {:induction false} ShowsAllFrom(rows: seq<Row>, at: nat, limit: Pos)
    requires forall i, j :: 0 <= i < j < |rows| ==> rows[i].created > rows[j].created
    requires at <= |rows|
    ensures Shown(rows, at, limit) == Range(at, |rows|)
    decreases |rows| - at
  {
    if |rows| - at > limit {
      NoTies(rows, at, limit);
      ShowsAllFrom(rows, at + limit, limit);
      RangeJoin(at, at + limit, |rows|);
    }
  }

  lemma NoTies(rows: seq<Row>, at: nat, limit: Pos)
    requires forall i, j :: 0 <= i < j < |rows| ==> rows[i].created > rows[j].created
    requires at + limit < |rows|
    ensures NextStart(rows, at, limit) == at + limit
  {
    NextStartFacts(rows, at, limit);
    assert rows[at + limit].created < rows[at + limit - 1].created;
  }

  lemma {:induction false} RangeJoin(a: nat, b: nat, c: nat)
    requires a <= b <= c
    ensures Range(a, b) + Range(b, c) == Range(a, c)
    decreases b - a
  {
    if a < b {
      RangeJoin(a + 1, b, c);
      assert Range(a, b) + Range(b, c) == [a] + (Range(a + 1, b) + Range(b, c));
    }
  }

  // ---------------------------------------------------------------------------------------------
  // When nothing is missed
  // ---------------------------------------------------------------------------------------------

  /** No two rows of equal creation time stand on either side of a multiple of the page size. */
  ghost predicate NoTieAtPageEnds(rows: seq<Row>, at: nat, limit: Pos) {
    forall p :: at < p < |rows| && p % limit == 0 ==> rows[p - 1].created != rows[p].created
  }

  lemma {:induction false} ShownCount(rows: seq<Row>, at: nat, limit: Pos)
    requires at <= |rows| && NewestFirst(rows)
    ensures |Shown(rows, at, limit)| <= |rows| - at
    decreases |rows| - at
  {
    if |rows| - at > limit {
      ShownSplit(rows, at, limit);
      ShownCount(rows, NextStart(rows, at, limit), limit);
    } else {
      RangeAt(at, |rows|);
    }
  }

  lemma NextMultiple(at: nat, limit: Pos)
    requires at % limit == 0
    ensures (at + limit) % limit == 0
    ensures forall p :: at < p < at + limit ==> p % limit != 0
  {
    var q := at / limit;
    assert at == q * limit;
    assert (at + limit) == (q + 1) * limit;
    RemainderIs(at + limit, limit, q + 1, 0);
    forall p | at < p < at + limit ensures p % limit != 0 { RemainderIs(p, limit, q, p - at); }
  }

  lemma RemainderIs(p: nat, limit: Pos, q: nat, r: nat)
    requires p == q * limit + r && r < limit
    ensures p % limit == r
  {
    var d := p / limit - q;
    assert p == (p / limit) * limit + p % limit;
    assert d * limit == r - p % limit;
    assert d >= 1 ==> d * limit >= limit;
    assert d <= -1 ==> d * limit + limit <= 0;
  }

  lemma {:induction false} ShownAllIff(rows: seq<Row>, at: nat, limit: Pos)
    requires at <= |rows| && NewestFirst(rows) && at % limit == 0
    ensures |Shown(rows, at, limit)| == |rows| - at <==> NoTieAtPageEnds(rows, at, limit)
    decreases |rows| - at
  {
    NextMultiple(at, limit);
    if |rows| - at <= limit {
      RangeAt(at, |rows|);
    } else {
      var next := NextStart(rows, at, limit);
      ShownSplit(rows, at, limit);
      NextStartFacts(rows, at, limit);
      ShownCount(rows, next, limit);
      if next == at + limit {
        ShownAllIff(rows, next, limit);
        assert NoTieAtPageEnds(rows, at, limit) <==> NoTieAtPageEnds(rows, next, limit);
      } else {
        assert rows[at + limit].created == rows[at + limit - 1].created;
        assert !NoTieAtPageEnds(rows, at, limit);
      }
    }
  }

  lemma {:induction false} IncreasingFits(ps: seq<nat>, n: nat)
    requires |ps| == n && (forall i :: 0 <= i < n ==> ps[i] < n) && (forall i, j :: 0 <= i < j < n ==> ps[i] < ps[j])
    ensures forall i :: 0 <= i < n ==> ps[i] == i
  {
    if n > 0 {
      forall i | 0 <= i < n - 1 ensures ps[i] < n - 1 { assert ps[i] < ps[n - 1]; }
      IncreasingFits(ps[..n - 1], n - 1);
      assert forall i :: 0 <= i < n - 1 ==> ps[..n - 1][i] == ps[i];
      if n > 1 { assert ps[n - 2] == n - 2 && ps[n - 2] < ps[n - 1]; }
    }
  }

  /** Following the cursors shows every row exactly when no tie of creation times falls on a page end:
      a condition on the rows and the page size alone. */
  lemma WalkShowsAllIff(rows: seq<Row>, limit: Pos)
    requires NewestFirst(rows)
    ensures Walk(rows, None, limit) == rows
       <==> forall p :: 0 < p < |rows| && p % limit == 0 ==> rows[p - 1].created != rows[p].created
  {
    var ps := Shown(rows, 0, limit);
    ShownFacts(rows, 0, limit);
    WalkShows(rows, None, 0, limit);
    ShownAllIff(rows, 0, limit);
    if |ps| == |rows| {
      IncreasingFits(ps, |rows|);
      assert At(rows, ps) == rows;
    }
  }

  lemma {:induction false} NoneBefore(rows: seq<Row>, t: int)
    requires forall i :: 0 <= i < |rows| ==> t <= rows[i].created
    ensures Before(rows, Some(t)) == []
  {
    if rows != [] { NoneBefore(rows[1..], t); }
  }

  /** Lists that are not shown whole: of rows all created together, only the first page is shown. */
  lemma TiesAreMissed(rows: seq<Row>, t: int, limit: Pos)
    requires (forall i :: 0 <= i < |rows| ==> rows[i].created == t) && limit < |rows|
    ensures Walk(rows, None, limit) == rows[..limit]
  {
    NoneBefore(rows, t);
    PageAt(rows, None, 0, limit);
    assert ListPage(rows, Some(t), limit) == Page([], None);
    assert Walk(rows, Some(t), limit) == [];
    assert rows[0..] == rows && rows[0..limit] == rows[..limit];
  }
}

/** Newest-first listings read page by page, while the collection may grow between reads. */
module Paging {
  /** The elements of `s` that satisfy `p`, newest first. */
  function Newest<T>(s: seq<T>, p: T -> bool): (r: seq<T>)
    ensures |r| <= |s|
    ensures forall i :: 0 <= i < |r| ==> r[i] in s && p(r[i])
    ensures forall i :: 0 <= i < |s| && p(s[i]) ==> s[i] in r
  {
    if |s| == 0 then []
    else
      var n := |s| - 1;
      (if p(s[n]) then [s[n]] else []) + Newest(s[..n], p)
  }

  /** The ids, that is the positions in `s`, of the elements listed by `Newest`, in its order. */
  function NewestIds<T>(s: seq<T>, p: T -> bool): (ids: seq<nat>)
    ensures |ids| <= |s|
    ensures forall k :: 0 <= k < |ids| ==> ids[k] < |s|
  {
    if |s| == 0 then []
    else
      var n := |s| - 1;
      (if p(s[n]) then [n] else []) + NewestIds(s[..n], p)
  }

  /** Item `k` of the listing is the element that item `k` of the ids names. */
  lemma {:induction false} IdsMatch<T>(s: seq<T>, p: T -> bool)
    ensures |NewestIds(s, p)| == |Newest(s, p)|
    ensures forall k :: 0 <= k < |NewestIds(s, p)| ==>
      NewestIds(s, p)[k] < |s| && Newest(s, p)[k] == s[NewestIds(s, p)[k]]
  {
    if |s| > 0 {
      IdsMatch(s[..|s| - 1], p);
    }
  }

  /** Every matching element has a place in the listing, and no id is listed twice. */
  lemma {:induction false} IdsComplete<T>(s: seq<T>, p: T -> bool, x: nat) returns (i: nat)
    requires x < |s| && p(s[x])
    ensures i < |NewestIds(s, p)| && NewestIds(s, p)[i] == x
    ensures forall k :: 0 <= k < |NewestIds(s, p)| && NewestIds(s, p)[k] == x ==> k == i
  {
    var n := |s| - 1;
    if x == n {
      i := 0;
    } else {
      i := IdsComplete(s[..n], p, x);
      if p(s[n]) {
        i := i + 1;
      }
    }
  }

  /** The ids listed are those of the matching elements, each once, the latest first. */
  lemma {:induction false} IdsAreTheMatches<T>(s: seq<T>, p: T -> bool)
    ensures forall k, l :: 0 <= k < l < |NewestIds(s, p)| ==> NewestIds(s, p)[l] < NewestIds(s, p)[k]
    ensures forall x: nat :: x in NewestIds(s, p) <==> x < |s| && p(s[x])
  {
    if |s| > 0 {
      var n := |s| - 1;
      IdsAreTheMatches(s[..n], p);
      var rest := NewestIds(s[..n], p);
      assert NewestIds(s, p) == (if p(s[n]) then [n] else []) + rest;
      hide NewestIds;
      forall x: nat ensures x in NewestIds(s, p) <==> x < |s| && p(s[x]) {
        assert x in NewestIds(s, p) <==> (p(s[n]) && x == n) || x in rest;
      }
    }
  }

  /** The ids of the matching elements. */
  ghost function Matches<T>(s: seq<T>, p: T -> bool): set<nat> {
    set x: nat | x < |s| && p(s[x])
  }

  lemma MatchesNext<T>(s: seq<T>, p: T -> bool)
    requires |s| > 0
    ensures
      var n := |s| - 1;
      |Matches(s, p)| == |Matches(s[..n], p)| + if p(s[n]) then 1 else 0
  {
    var n := |s| - 1;
    if p(s[n]) {
      assert Matches(s, p) == Matches(s[..n], p) + {n};
    } else {
      assert Matches(s, p) == Matches(s[..n], p);
    }
  }

  /** The listing is as long as there are matching elements. */
  lemma {:induction false} ListingSize<T>(s: seq<T>, p: T -> bool)
    ensures |Newest(s, p)| == |Matches(s, p)|
  {
    if |s| == 0 {
      assert Matches(s, p) == {};
    } else {
      ListingSize(s[..|s| - 1], p);
      MatchesNext(s, p);
      hide Matches;
    }
  }

  /** New elements come before all the old ones. */
  lemma {:induction false} NewestOfLonger<T>(s: seq<T>, more: seq<T>, p: T -> bool)
    ensures
      var arrived := |NewestIds(s + more, p)| - |NewestIds(s, p)|;
      0 <= arrived && NewestIds(s + more, p)[arrived..] == NewestIds(s, p)
  {
    if |more| == 0 {
      assert s + more == s;
    } else {
      var n := |more| - 1;
      var all := s + more;
      NewestOfLonger(s, more[..n], p);
      assert all[..|all| - 1] == s + more[..n];
      var head := if p(all[|all| - 1]) then [|all| - 1] else [];
      assert NewestIds(all, p) == head + NewestIds(s + more[..n], p);
    }
  }

  function Least(a: nat, b: nat): nat {
    if a <= b then a else b
  }

  /** Skip `(page - 1) * limit`, then take up to `limit`. Pages count from one. */
  function Page<T>(items: seq<T>, page: nat, limit: nat): (r: seq<T>)
    requires 1 <= page && 1 <= limit
    ensures |r| <= limit
  {
    var rest := items[Least((page - 1) * limit, |items|)..];
    rest[..Least(limit, |rest|)]
  }

  /** Pages `1` to `n`, one after the other. */
  function FirstPages<T>(items: seq<T>, n: nat, limit: nat): seq<T>
    requires 1 <= limit
  {
    if n == 0 then [] else FirstPages(items, n - 1, limit) + Page(items, n, limit)
  }

  lemma PageIsSlice<T>(items: seq<T>, n: nat, limit: nat)
    requires 1 <= n && 1 <= limit
    ensures Least((n - 1) * limit, |items|) <= Least(n * limit, |items|)
    ensures Page(items, n, limit) == items[Least((n - 1) * limit, |items|)..Least(n * limit, |items|)]
  {
  }

  lemma {:induction false} PagesAreAPrefix<T>(items: seq<T>, n: nat, limit: nat)
    requires 1 <= limit
    ensures FirstPages(items, n, limit) == items[..Least(n * limit, |items|)]
  {
    if n > 0 {
      PagesAreAPrefix(items, n - 1, limit);
      PageIsSlice(items, n, limit);
      hide Page;
      var a, b := Least((n - 1) * limit, |items|), Least(n * limit, |items|);
      assert items[..b] == items[..a] + items[a..b];
    }
  }

  function PageCount(total: nat, limit: nat): nat
    requires 1 <= limit
  {
    (total + limit - 1) / limit
  }

  lemma PageCountCovers(total: nat, limit: nat)
    requires 1 <= limit
    ensures total <= PageCount(total, limit) * limit
  {
  }

  /** Reading every page of an unchanged listing reads the listing. */
  lemma PagesCoverTheListing<T>(items: seq<T>, limit: nat)
    requires 1 <= limit
    ensures FirstPages(items, PageCount(|items|, limit), limit) == items
  {
    PagesAreAPrefix(items, PageCount(|items|, limit), limit);
    PageCountCovers(|items|, limit);
  }

  /** `logs[j]` is the collection when page `j + 1` is read: each extends the one before. */
  ghost predicate Growing<T>(logs: seq<seq<T>>) {
    forall j, k :: 0 <= j <= k < |logs| ==> logs[j] <= logs[k]
  }

  /** How many matching elements arrived before page `j + 1` was read. */
  function Arrived<T>(logs: seq<seq<T>>, j: nat, p: T -> bool): int
    requires j < |logs|
  {
    |NewestIds(logs[j], p)| - |NewestIds(logs[0], p)|
  }

  /** An element listed at position `i` at the start is listed `Arrived` positions later now. */
  lemma ShiftedPosition<T>(logs: seq<seq<T>>, j: nat, p: T -> bool, i: nat)
    requires Growing(logs) && j < |logs| && i < |NewestIds(logs[0], p)|
    ensures
      var k := i + Arrived(logs, j, p);
      i <= k < |NewestIds(logs[j], p)| && NewestIds(logs[j], p)[k] == NewestIds(logs[0], p)[i]
  {
    hide NewestIds;
    var more := logs[j][|logs[0]|..];
    assert logs[0] <= logs[j];
    assert logs[j] == logs[0] + more;
    NewestOfLonger(logs[0], more, p);
  }

  lemma ArrivedGrows<T>(logs: seq<seq<T>>, j: nat, p: T -> bool)
    requires Growing(logs) && j + 1 < |logs|
    ensures Arrived(logs, j, p) <= Arrived(logs, j + 1, p)
  {
    hide NewestIds;
    var more := logs[j + 1][|logs[j]|..];
    assert logs[j] <= logs[j + 1];
    assert logs[j + 1] == logs[j] + more;
    NewestOfLonger(logs[j], more, p);
  }

  lemma PagePosition<T>(items: seq<T>, j: nat, limit: nat, k: nat)
    requires 1 <= limit && k < |items| && j * limit <= k < (j + 1) * limit
    ensures
      var page := Page(items, j + 1, limit);
      k - j * limit < |page| && page[k - j * limit] == items[k]
  {
  }

  /** A reader who starts at page one and goes on until the pages read cover the last listing is
      shown every element that was there at the start, however the collection grows between
      pages: it may be shown twice but is never skipped. The element with id `x` is item `q` of
      page `j + 1`. */
  lemma NothingIsSkipped<T>(logs: seq<seq<T>>, limit: nat, p: T -> bool, x: nat) returns (j: nat, q: nat)
    requires 1 <= limit && |logs| > 0 && Growing(logs)
    requires |Newest(logs[|logs| - 1], p)| <= |logs| * limit
    requires x < |logs[0]| && p(logs[0][x])
    ensures j < |logs| && x < |logs[j]| && logs[j][x] == logs[0][x]
    ensures
      var ids := Page(NewestIds(logs[j], p), j + 1, limit);
      q < |ids| && ids[q] == x
    ensures
      var page := Page(Newest(logs[j], p), j + 1, limit);
      q < |page| && page[q] == logs[j][x]
  {
    hide Newest, NewestIds, Page;
    var i := IdsComplete(logs[0], p, x);
    j := 0;
    ShiftedPosition(logs, |logs| - 1, p, i);
    IdsMatch(logs[|logs| - 1], p);
    while (j + 1) * limit <= i + Arrived(logs, j, p)
      invariant j < |logs|
      invariant j * limit <= i + Arrived(logs, j, p)
      decreases |logs| - j
    {
      if j + 1 == |logs| {
        assert false;
      }
      ArrivedGrows(logs, j, p);
      j := j + 1;
    }
    var k := i + Arrived(logs, j, p);
    q := k - j * limit;
    ShiftedPosition(logs, j, p, i);
    IdsMatch(logs[j], p);
    PagePosition(NewestIds(logs[j], p), j, limit, k);
    PagePosition(Newest(logs[j], p), j, limit, k);
    assert logs[0] <= logs[j];
  }
}

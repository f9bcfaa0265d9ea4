/** The client-side list arithmetic shared by the home page and the category page:
    the category filter, the two most-liked poems and four-per-page pagination. */
module Listing {
  import opened Types
  import opened Seqs

  /** The pseudo-category of the home page's filter that selects every poem. */
  const ALL := "Tümü"
  const ITEMS_PER_PAGE := 4

  /** `poems.filter(p => p.category === category)`. */
  function InCategory(poems: seq<Poem>, category: string): (r: seq<Poem>)
    ensures forall p :: p in r <==> p in poems && p.category == category
    ensures forall p :: multiset(r)[p] == if p.category == category then multiset(poems)[p] else 0
  {
    Filter(poems, (p: Poem) => p.category == category)
  }

  /** The home page's filtered list: every poem for 'Tümü', else exactly the poems of the selected category. */
  function FilteredPoems(poems: seq<Poem>, selected: string): (r: seq<Poem>)
    ensures selected == ALL ==> r == poems
    ensures selected != ALL ==> forall i :: 0 <= i < |r| ==> r[i].category == selected
    ensures selected != ALL ==> forall p :: p in poems && p.category == selected ==> p in r
  {
    if selected == ALL then poems else InCategory(poems, selected)
  }

  /** The filter keeps the fetched order: filtering a concatenation filters each part. */
  lemma InCategoryKeepsOrder(s: seq<Poem>, t: seq<Poem>, category: string)
    ensures InCategory(s + t, category) == InCategory(s, category) + InCategory(t, category)
  {
    FilterAppend(s, t, (p: Poem) => p.category == category);
  }

  /** `Math.ceil(n / ITEMS_PER_PAGE)`: the least page count whose pages hold `n` poems. */
  function TotalPages(n: nat): (r: nat)
    ensures r * ITEMS_PER_PAGE >= n
    ensures r == 0 || (r - 1) * ITEMS_PER_PAGE < n
  {
    (n + ITEMS_PER_PAGE - 1) / ITEMS_PER_PAGE
  }

  /** `s.slice(start, end)` of JavaScript: negative bounds count from the end, all bounds are clamped. */
  function JsSlice<T>(s: seq<T>, start: int, end: int): (r: seq<T>)
    ensures |r| <= |s|
    ensures 0 <= start <= end <= |s| ==> r == s[start..end]
    ensures 0 <= start && end >= 0 ==> |r| <= if end >= start then end - start else 0
  {
    var from := if start < 0 then (if |s| + start < 0 then 0 else |s| + start)
                else if start > |s| then |s| else start;
    var to := if end < 0 then (if |s| + end < 0 then 0 else |s| + end)
              else if end > |s| then |s| else end;
    if from >= to then [] else s[from..to]
  }

  /** The poems shown on page `page`: `s.slice((page - 1) * 4, page * 4)`. */
  function Page<T>(s: seq<T>, page: int): (r: seq<T>)
    ensures |r| <= ITEMS_PER_PAGE
    ensures 1 <= page <= TotalPages(|s|) ==> r != []
    ensures page > TotalPages(|s|) ==> r == []
  {
    JsSlice(s, (page - 1) * ITEMS_PER_PAGE, page * ITEMS_PER_PAGE)
  }

  /** Pages 1 to `k`, one after the other. */
  function PagesUpTo<T>(s: seq<T>, k: nat): seq<T>
  {
    if k == 0 then [] else PagesUpTo(s, k - 1) + Page(s, k)
  }

  lemma {:induction false} PagesUpToIsPrefix<T>(s: seq<T>, k: nat)
    ensures PagesUpTo(s, k) == s[..if k * ITEMS_PER_PAGE <= |s| then k * ITEMS_PER_PAGE else |s|]
  {
    if k > 0 {
      PagesUpToIsPrefix(s, k - 1);
      var m := (k - 1) * ITEMS_PER_PAGE;
      if m <= |s| {
        var e := if k * ITEMS_PER_PAGE <= |s| then k * ITEMS_PER_PAGE else |s|;
        assert Page(s, k) == s[m..e];
        assert s[..m] + s[m..e] == s[..e];
      } else {
        assert Page(s, k) == [];
      }
    }
  }

  /** Pages 1 to `TotalPages` partition the list in order: concatenated, they give it back. */
  lemma PagesPartition<T>(s: seq<T>)
    ensures PagesUpTo(s, TotalPages(|s|)) == s
  {
    PagesUpToIsPrefix(s, TotalPages(|s|));
    assert s[..|s|] == s;
  }

  /** Every element of `s` is on exactly one page, the one its index selects. */
  lemma PageOfIndex<T>(s: seq<T>, i: nat)
    requires i < |s|
    ensures var p := i / ITEMS_PER_PAGE + 1;
            1 <= p <= TotalPages(|s|) && Page(s, p)[i % ITEMS_PER_PAGE] == s[i]
  {
  }

  /** The likes order of `[...poems].sort((a, b) => b.likes - a.likes)`: most liked first. */
  ghost predicate DescendingByLikes(s: seq<Poem>) {
    forall i, j :: 0 <= i < j < |s| ==> s[i].likes >= s[j].likes
  }

  /** Inserts `p` before the first poem with no more likes, after every poem with more. */
  function InsertByLikes(p: Poem, sorted: seq<Poem>): (r: seq<Poem>)
    ensures multiset(r) == multiset(sorted) + multiset{p}
  {
    if sorted == [] || sorted[0].likes <= p.likes then [p] + sorted
    else
      assert sorted == [sorted[0]] + sorted[1..];
      [sorted[0]] + InsertByLikes(p, sorted[1..])
  }

  /** Inserting into a list sorted by descending likes keeps it sorted. */
  lemma {:induction false} InsertByLikesSorted(p: Poem, sorted: seq<Poem>)
    requires DescendingByLikes(sorted)
    ensures DescendingByLikes(InsertByLikes(p, sorted))
  {
    if sorted == [] || sorted[0].likes <= p.likes {
      ConsDescending(p, sorted);
    } else {
      var rest := InsertByLikes(p, sorted[1..]);
      InsertByLikesSorted(p, sorted[1..]);
      assert sorted == [sorted[0]] + sorted[1..];
      forall q | q in rest ensures q.likes <= sorted[0].likes {
        assert q in multiset(rest);
        if q != p {
          assert q in multiset(sorted[1..]);
        }
      }
      ConsDescending(sorted[0], rest);
    }
  }

  lemma ConsDescending(x: Poem, s: seq<Poem>)
    requires DescendingByLikes(s)
    requires forall q :: q in s ==> q.likes <= x.likes
    ensures DescendingByLikes([x] + s)
  {
    var t := [x] + s;
    forall i, j | 0 <= i < j < |t| ensures t[i].likes >= t[j].likes {
      if i == 0 { assert t[j] == s[j - 1]; assert t[j] in s; } else { assert t[i] == s[i - 1] && t[j] == s[j - 1]; }
    }
  }

  /** The sort by descending likes; it is stable (see SortByLikesStable). */
  function SortByLikes(s: seq<Poem>): (r: seq<Poem>)
    ensures multiset(r) == multiset(s)
    ensures DescendingByLikes(r)
  {
    if s == [] then []
    else
      assert s == [s[0]] + s[1..];
      var tail := SortByLikes(s[1..]);
      InsertByLikesSorted(s[0], tail);
      InsertByLikes(s[0], tail)
  }

  /** The poems of `s` with exactly `v` likes, in their order in `s`. */
  function WithLikes(s: seq<Poem>, v: int): seq<Poem> {
    if s == [] then [] else (if s[0].likes == v then [s[0]] else []) + WithLikes(s[1..], v)
  }

  /** Inserting `p` puts it ahead of every poem with as many likes. */
  lemma {:induction false} InsertByLikesTies(p: Poem, t: seq<Poem>, v: int)
    ensures WithLikes(InsertByLikes(p, t), v) == (if p.likes == v then [p] else []) + WithLikes(t, v)
  {
    if t == [] || t[0].likes <= p.likes {
      assert ([p] + t)[1..] == t;
    } else {
      var rest := InsertByLikes(p, t[1..]);
      InsertByLikesTies(p, t[1..], v);
      assert ([t[0]] + rest)[1..] == rest;
    }
  }

  /** `Array.prototype.sort` is stable: poems with equal likes keep their relative order. */
  lemma {:induction false} SortByLikesStable(s: seq<Poem>, v: int)
    ensures WithLikes(SortByLikes(s), v) == WithLikes(s, v)
  {
    if s != [] {
      SortByLikesStable(s[1..], v);
      InsertByLikesTies(s[0], SortByLikes(s[1..]), v);
    }
  }

  /** `[...poems].sort((a, b) => b.likes - a.likes).slice(0, 2)`: the copy is sorted, not `poems`. */
  function MostLiked(poems: seq<Poem>): (r: seq<Poem>)
    ensures |r| == if |poems| < 2 then |poems| else 2
  {
    var sorted := SortByLikes(poems);
    assert |sorted| == |multiset(sorted)| == |poems|;
    sorted[..if |sorted| < 2 then |sorted| else 2]
  }

  /** The most-liked poems are taken from all poems, and each has at least as many likes
      as every poem left out. */
  lemma MostLikedAreTop(poems: seq<Poem>)
    ensures multiset(MostLiked(poems)) <= multiset(poems)
    ensures forall p, q :: p in MostLiked(poems) && q in multiset(poems) - multiset(MostLiked(poems))
                           ==> p.likes >= q.likes
  {
    var sorted := SortByLikes(poems);
    assert |sorted| == |multiset(sorted)| == |poems|;
    var n := if |sorted| < 2 then |sorted| else 2;
    var top, rest := sorted[..n], sorted[n..];
    assert sorted == top + rest;
    assert multiset(sorted) == multiset(top) + multiset(rest);
    assert MostLiked(poems) == top;
    forall p, q | p in top && q in multiset(poems) - multiset(top) ensures p.likes >= q.likes {
      assert q in rest;
      var i :| 0 <= i < |top| && top[i] == p;
      var j :| 0 <= j < |rest| && rest[j] == q;
      assert sorted[i] == p && sorted[n + j] == q;
    }
  }
}

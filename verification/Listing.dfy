/** Filtered, sorted and paginated listing of intents (pkg/wallet/intent.go). */
module Listing {
  import opened Bytes
  import opened IntentModel

  datatype Filters = Filters(
    walletId: string, status: Option<Status>, fromTime: nat, toTime: nat, chain: string,
    limit: int, offset: int, sortBy: string, sortOrder: string)

  predicate Matches(f: Filters, i: Intent) {
    && (f.walletId != "" ==> i.walletId == f.walletId)
    && (f.status.Some? ==> i.status == f.status.value)
    && (f.chain != "" ==> i.chain == f.chain)
    && (f.fromTime != 0 ==> i.createdAt >= f.fromTime)
    && (f.toTime != 0 ==> i.createdAt <= f.toTime)
  }

  function Matching(f: Filters, files: seq<Intent>): (r: seq<Intent>) {
    if files == [] then [] else
      var last := files[|files| - 1];
      Matching(f, files[..|files| - 1]) + if Matches(f, last) then [last] else []
  }

  function TimeOf(f: Filters, i: Intent): (r: nat) {
    if f.sortBy == "updated_at" then i.updatedAt else i.createdAt
  }

  /** Ascending order of this key is the requested order; anything but "asc" is descending. */
  function SortKey(f: Filters, i: Intent): (r: int) {
    if f.sortOrder == "asc" then TimeOf(f, i) else 0 - TimeOf(f, i)
  }

  predicate Sorted(f: Filters, s: seq<Intent>) {
    forall p, q :: 0 <= p < q < |s| ==> SortKey(f, s[p]) <= SortKey(f, s[q])
  }

  /** The elements with sort key `k`, in order. */
  function WithKey(f: Filters, s: seq<Intent>, k: int): (r: seq<Intent>) {
    if s == [] then [] else (if SortKey(f, s[0]) == k then [s[0]] else []) + WithKey(f, s[1..], k)
  }

  /** Equal elements appear in the same order: a permutation that reorders nothing with equal keys. */
  ghost predicate StablePermutation(f: Filters, s: seq<Intent>, t: seq<Intent>) {
    forall k :: WithKey(f, s, k) == WithKey(f, t, k)
  }

  lemma {:induction false} WithKeyJoin(f: Filters, a: seq<Intent>, b: seq<Intent>, k: int)
    ensures WithKey(f, a + b, k) == WithKey(f, a, k) + WithKey(f, b, k)
    decreases |a|
  {
    if a == [] {
      assert a + b == b;
    } else {
      assert (a + b)[1..] == a[1..] + b;
      WithKeyJoin(f, a[1..], b, k);
    }
  }

  /** A stable permutation is a permutation. */
  lemma StablePermutationIsPermutation(f: Filters, s: seq<Intent>, t: seq<Intent>)
    requires StablePermutation(f, s, t)
    ensures multiset(s) == multiset(t)
  {
    forall x ensures multiset(s)[x] == multiset(t)[x] {
      CountInClass(f, s, x);
      CountInClass(f, t, x);
      assert WithKey(f, s, SortKey(f, x)) == WithKey(f, t, SortKey(f, x));
    }
  }

  lemma {:induction false} CountInClass(f: Filters, s: seq<Intent>, x: Intent)
    ensures multiset(s)[x] == multiset(WithKey(f, s, SortKey(f, x)))[x]
    decreases |s|
  {
    if s != [] {
      CountInClass(f, s[1..], x);
      assert s == [s[0]] + s[1..];
    }
  }

  /** Swapping neighbours with different keys reorders nothing with equal keys. */
  lemma SwapStable(f: Filters, a: seq<Intent>, x: Intent, y: Intent, b: seq<Intent>)
    requires SortKey(f, x) != SortKey(f, y)
    ensures StablePermutation(f, a + [x, y] + b, a + [y, x] + b)
  {
    forall k ensures WithKey(f, a + [x, y] + b, k) == WithKey(f, a + [y, x] + b, k) {
      WithKeyJoin(f, a + [x, y], b, k);
      WithKeyJoin(f, a + [y, x], b, k);
      WithKeyJoin(f, a, [x, y], k);
      WithKeyJoin(f, a, [y, x], k);
      TwoElements(f, x, y, k);
    }
  }

  lemma TwoElements(f: Filters, x: Intent, y: Intent, k: int)
    requires SortKey(f, x) != SortKey(f, y)
    ensures WithKey(f, [x, y], k) == WithKey(f, [y, x], k)
  {
    hide SortKey;
    assert [x, y][1..] == [y] && [y, x][1..] == [x];
    assert [x][1..] == [] && [y][1..] == [];
    assert WithKey(f, [x], k) == if SortKey(f, x) == k then [x] else [];
    assert WithKey(f, [y], k) == if SortKey(f, y) == k then [y] else [];
  }

  lemma StableTransitive(f: Filters, s: seq<Intent>, t: seq<Intent>, u: seq<Intent>)
    requires StablePermutation(f, s, t) && StablePermutation(f, t, u)
    ensures StablePermutation(f, s, u)
  {
    forall k ensures WithKey(f, s, k) == WithKey(f, u, k) {
      assert WithKey(f, s, k) == WithKey(f, t, k);
    }
  }

  // ----- There is only one sorted stable permutation -----

  lemma {:induction false} ClassNonEmpty(f: Filters, s: seq<Intent>, p: nat)
    requires p < |s|
    ensures WithKey(f, s, SortKey(f, s[p])) != []
    decreases |s|
  {
    if p > 0 {
      ClassNonEmpty(f, s[1..], p - 1);
    }
  }

  lemma {:induction false} ClassMember(f: Filters, s: seq<Intent>, k: int)
    requires WithKey(f, s, k) != []
    ensures exists p :: 0 <= p < |s| && SortKey(f, s[p]) == k
    decreases |s|
  {
    if SortKey(f, s[0]) != k {
      ClassMember(f, s[1..], k);
      var p :| 0 <= p < |s[1..]| && SortKey(f, s[1..][p]) == k;
      assert s[p + 1] == s[1..][p];
    }
  }

  lemma SmallestFirst(f: Filters, s: seq<Intent>, t: seq<Intent>)
    requires Sorted(f, s) && t != [] && StablePermutation(f, s, t)
    ensures s != [] && SortKey(f, s[0]) <= SortKey(f, t[0])
  {
    var k := SortKey(f, t[0]);
    ClassNonEmpty(f, t, 0);
    assert WithKey(f, s, k) == WithKey(f, t, k);
    ClassMember(f, s, k);
    var p :| 0 <= p < |s| && SortKey(f, s[p]) == k;
    if p > 0 {
      assert SortKey(f, s[0]) <= SortKey(f, s[p]);
    }
  }

  lemma {:induction false} SortedUnique(f: Filters, s: seq<Intent>, t: seq<Intent>)
    requires Sorted(f, s) && Sorted(f, t) && StablePermutation(f, s, t)
    ensures s == t
    decreases |s|
  {
    if t == [] {
      if s != [] {
        SmallestFirst(f, t, s);
      }
    } else {
      SmallestFirst(f, s, t);
      SmallestFirst(f, t, s);
      var k := SortKey(f, s[0]);
      assert WithKey(f, s, k)[0] == s[0] && WithKey(f, t, k)[0] == t[0];
      assert WithKey(f, s, k) == WithKey(f, t, k);
      assert s[0] == t[0];
      TailsStable(f, s, t);
      SortedTail(f, s);
      SortedTail(f, t);
      SortedUnique(f, s[1..], t[1..]);
      assert s == [s[0]] + s[1..] && t == [t[0]] + t[1..];
    }
  }

  lemma SortedTail(f: Filters, s: seq<Intent>)
    requires Sorted(f, s) && s != []
    ensures Sorted(f, s[1..])
  {
  }

  lemma TailsStable(f: Filters, s: seq<Intent>, t: seq<Intent>)
    requires s != [] && t != [] && s[0] == t[0] && StablePermutation(f, s, t)
    ensures StablePermutation(f, s[1..], t[1..])
  {
    forall k ensures WithKey(f, s[1..], k) == WithKey(f, t[1..], k) {
      assert WithKey(f, s, k) == WithKey(f, t, k);
      if SortKey(f, s[0]) == k {
        assert WithKey(f, s, k)[1..] == WithKey(f, s[1..], k);
        assert WithKey(f, t, k)[1..] == WithKey(f, t[1..], k);
      } else {
        assert [] + WithKey(f, s[1..], k) == WithKey(f, s[1..], k);
        assert [] + WithKey(f, t[1..], k) == WithKey(f, t[1..], k);
      }
    }
  }

  // ----- The simple form: insertion sort -----

  /** Puts `x` before the first element whose key is not smaller. */
  function Insert(f: Filters, x: Intent, s: seq<Intent>): (r: seq<Intent>) {
    if s == [] || SortKey(f, x) <= SortKey(f, s[0]) then [x] + s else [s[0]] + Insert(f, x, s[1..])
  }

  function InsertionSort(f: Filters, s: seq<Intent>): (r: seq<Intent>) {
    if s == [] then [] else Insert(f, s[0], InsertionSort(f, s[1..]))
  }

  lemma ConsClass(f: Filters, x: Intent, s: seq<Intent>, k: int)
    ensures WithKey(f, [x] + s, k) == (if SortKey(f, x) == k then [x] else []) + WithKey(f, s, k)
  {
    hide SortKey;
    assert ([x] + s)[1..] == s;
  }

  lemma {:induction false} InsertClass(f: Filters, x: Intent, s: seq<Intent>, k: int)
    requires Sorted(f, s)
    ensures WithKey(f, Insert(f, x, s), k) == WithKey(f, [x] + s, k)
    decreases |s|
  {
    hide SortKey, WithKey;
    if s != [] && SortKey(f, x) > SortKey(f, s[0]) {
      var rest := Insert(f, x, s[1..]);
      SortedTail(f, s);
      InsertClass(f, x, s[1..], k);
      ConsClass(f, s[0], rest, k);
      ConsClass(f, x, s[1..], k);
      ConsClass(f, x, s, k);
      ConsClass(f, s[0], s[1..], k);
      assert s == [s[0]] + s[1..];
    }
  }

  lemma {:induction false} InsertSorted(f: Filters, x: Intent, s: seq<Intent>)
    requires Sorted(f, s)
    ensures Sorted(f, Insert(f, x, s))
    ensures Insert(f, x, s)[0] == x || (s != [] && Insert(f, x, s)[0] == s[0])
    decreases |s|
  {
    hide SortKey;
    if s != [] && SortKey(f, x) > SortKey(f, s[0]) {
      var rest := Insert(f, x, s[1..]);
      InsertSorted(f, x, s[1..]);
      assert SortKey(f, s[0]) <= SortKey(f, rest[0]);
      SortedCons(f, s[0], rest);
    } else if s != [] {
      SortedCons(f, x, s);
    }
  }

  lemma SortedCons(f: Filters, x: Intent, s: seq<Intent>)
    requires Sorted(f, s) && s != [] && SortKey(f, x) <= SortKey(f, s[0])
    ensures Sorted(f, [x] + s)
  {
    hide SortKey;
    forall p, q | 0 <= p < q < |[x] + s| ensures SortKey(f, ([x] + s)[p]) <= SortKey(f, ([x] + s)[q]) {
      assert ([x] + s)[q] == s[q - 1];
      assert q - 1 > 0 ==> SortKey(f, s[0]) <= SortKey(f, s[q - 1]);
      if p > 0 {
        assert ([x] + s)[p] == s[p - 1];
      }
    }
  }

  lemma {:induction false} InsertionSortCorrect(f: Filters, s: seq<Intent>)
    ensures Sorted(f, InsertionSort(f, s)) && StablePermutation(f, s, InsertionSort(f, s))
    decreases |s|
  {
    hide SortKey, Insert;
    if s != [] {
      var rest := InsertionSort(f, s[1..]);
      InsertionSortCorrect(f, s[1..]);
      InsertSorted(f, s[0], rest);
      forall k ensures WithKey(f, s, k) == WithKey(f, InsertionSort(f, s), k) {
        InsertClass(f, s[0], rest, k);
        assert ([s[0]] + rest)[1..] == rest;
        assert WithKey(f, s[1..], k) == WithKey(f, rest, k);
      }
    }
  }

  /** Any sorted stable permutation is what insertion sort computes. */
  lemma SortedStableIsInsertionSort(f: Filters, s: seq<Intent>, t: seq<Intent>)
    requires Sorted(f, t) && StablePermutation(f, s, t)
    ensures t == InsertionSort(f, s)
  {
    hide InsertionSort, WithKey, SortKey;
    InsertionSortCorrect(f, s);
    var u := InsertionSort(f, s);
    forall k ensures WithKey(f, t, k) == WithKey(f, u, k) {
      assert WithKey(f, s, k) == WithKey(f, t, k);
      assert WithKey(f, s, k) == WithKey(f, u, k);
    }
    SortedUnique(f, t, u);
  }

  // ----- Bubble sort -----

  /** Everything before position `m` sorts no later than everything from `m` on, which is in order. */
  ghost predicate Settled(f: Filters, s: seq<Intent>, m: int) {
    forall p, q :: 0 <= p < q < |s| && m <= q ==> SortKey(f, s[p]) <= SortKey(f, s[q])
  }

  ghost predicate LargestAt(f: Filters, s: seq<Intent>, j: int)
    requires 0 <= j < |s|
  {
    forall p :: 0 <= p < j ==> SortKey(f, s[p]) <= SortKey(f, s[j])
  }

  /** What one comparison at position `j` does to the list. */
  function Bubble(f: Filters, s: seq<Intent>, j: nat): (r: seq<Intent>)
    requires j + 1 < |s|
    ensures |r| == |s|
  {
    if SortKey(f, s[j]) > SortKey(f, s[j + 1]) then s[j := s[j + 1]][j + 1 := s[j]] else s
  }

  lemma BubbleStable(f: Filters, s: seq<Intent>, j: nat)
    requires j + 1 < |s|
    ensures StablePermutation(f, s, Bubble(f, s, j))
  {
    hide SortKey, WithKey;
    if SortKey(f, s[j]) > SortKey(f, s[j + 1]) {
      var a, b := s[..j], s[j + 2..];
      assert s == a + [s[j], s[j + 1]] + b;
      assert Bubble(f, s, j) == a + [s[j + 1], s[j]] + b;
      SwapStable(f, a, s[j], s[j + 1], b);
    }
  }

  lemma BubbleProgress(f: Filters, s: seq<Intent>, j: nat, m: int)
    requires j + 1 < m <= |s| && Settled(f, s, m) && LargestAt(f, s, j)
    ensures Settled(f, Bubble(f, s, j), m) && LargestAt(f, Bubble(f, s, j), j + 1)
  {
    hide SortKey;
  }

  method BubbleSort(f: Filters, a: array<Intent>)
    modifies a
    ensures Sorted(f, a[..])
    ensures StablePermutation(f, old(a[..]), a[..])
    ensures a[..] == InsertionSort(f, old(a[..]))
  {
    hide InsertionSort, SortKey, WithKey, Settled, LargestAt, StablePermutation;
    var n := a.Length;
    StableRefl(f, a[..]);
    NothingSettled(f, a[..]);
    var i := 0;
    while i < n - 1
      invariant 0 <= i <= n && (0 < n ==> i < n)
      invariant Settled(f, a[..], n - i)
      invariant StablePermutation(f, old(a[..]), a[..])
    {
      FirstLargest(f, a[..]);
      for j := 0 to n - i - 1
        invariant Settled(f, a[..], n - i)
        invariant LargestAt(f, a[..], j)
        invariant StablePermutation(f, old(a[..]), a[..])
      {
        ghost var before := a[..];
        CompareKeys(f, a[j], a[j + 1]);
        var t1, t2 := TimeOf(f, a[j]), TimeOf(f, a[j + 1]);
        var shouldSwap := if f.sortOrder == "asc" then t1 > t2 else t1 < t2;
        if shouldSwap {
          a[j], a[j + 1] := a[j + 1], a[j];
        }
        assert a[..] == Bubble(f, before, j);
        BubbleProgress(f, before, j, n - i);
        BubbleStable(f, before, j);
        StableTransitive(f, old(a[..]), before, a[..]);
      }
      SettleNext(f, a[..], n - i);
      i := i + 1;
    }
    AllSettled(f, a[..], n - i);
    SortedStableIsInsertionSort(f, old(a[..]), a[..]);
  }

  lemma CompareKeys(f: Filters, x: Intent, y: Intent)
    ensures SortKey(f, x) > SortKey(f, y)
       <==> if f.sortOrder == "asc" then TimeOf(f, x) > TimeOf(f, y) else TimeOf(f, x) < TimeOf(f, y)
  {
  }

  lemma StableRefl(f: Filters, s: seq<Intent>)
    ensures StablePermutation(f, s, s)
  {
  }

  lemma NothingSettled(f: Filters, s: seq<Intent>)
    ensures Settled(f, s, |s|)
  {
  }

  lemma FirstLargest(f: Filters, s: seq<Intent>)
    requires s != []
    ensures LargestAt(f, s, 0)
  {
  }

  lemma SettleNext(f: Filters, s: seq<Intent>, m: nat)
    requires 0 < m <= |s| && Settled(f, s, m) && LargestAt(f, s, m - 1)
    ensures Settled(f, s, m - 1)
  {
  }

  lemma AllSettled(f: Filters, s: seq<Intent>, m: int)
    requires m <= 1 && Settled(f, s, m)
    ensures Sorted(f, s)
  {
  }

  // ----- Pages -----

  const MAX_INT: int := 0x7fff_ffff_ffff_ffff

  function Wrap(x: int): (r: int) {
    if x > MAX_INT then x - 0x1_0000_0000_0000_0000 else x
  }

  function LimitOf(f: Filters): (r: int)
    ensures r > 0
  {
    if f.limit <= 0 then 50 else f.limit
  }

  /** One page; `None` is a slice-bounds panic. Offset plus limit is 64-bit addition. */
  function Page(list: seq<Intent>, offset: int, limit: int): (r: Option<seq<Intent>>) {
    if offset > |list| then Some([]) else
      var sum := Wrap(offset + limit);
      var end := if sum > |list| then |list| else sum;
      if 0 <= offset <= end then Some(list[offset..end]) else None
  }

  /** A page in range: the part of the list from the offset on, up to the limit. */
  lemma PageIs(list: seq<Intent>, offset: int, limit: int)
    requires 0 < limit
    ensures 0 <= offset && offset + limit <= 0x7fff_ffff_ffff_ffff ==>
              Page(list, offset, limit) == Some(
                if offset >= |list| then []
                else list[offset..if offset + limit < |list| then offset + limit else |list|])
  {
    if offset == |list| {
      assert list[offset..offset] == [];
    }
  }

  /** Exactly when a page request panics: a negative offset, or an in-range offset whose sum with the
      limit overflows. */
  lemma PagePanicsExactlyWhen(list: seq<Intent>, offset: int, limit: int)
    requires 0 < limit <= MAX_INT && 0 - MAX_INT - 1 <= offset <= MAX_INT && |list| <= MAX_INT
    ensures Page(list, offset, limit).None? <==>
              offset < 0 || (offset <= |list| && offset + limit > 0x7fff_ffff_ffff_ffff)
  {
  }

  /** A request that panics: one stored intent, offset 1, the largest limit. */
  lemma PagePanicExample(i: Intent)
    ensures Page([i], 1, MAX_INT) == None
  {
    PagePanicsExactlyWhen([i], 1, MAX_INT);
  }

  function PagesFrom(list: seq<Intent>, offset: nat, limit: int): (r: seq<Intent>)
    requires 0 < limit
    decreases |list| - offset
  {
    if offset >= |list| then [] else
      (match Page(list, offset, limit) case Some(p) => p case None => []) + PagesFrom(list, offset + limit, limit)
  }

  /** For every limit that does not overflow, the pages at 0, L, 2L, ... put together are the list. */
  lemma {:induction false} PagesCoverList(list: seq<Intent>, offset: nat, limit: int)
    requires 0 < limit && (|list| + limit <= MAX_INT || (offset == 0 && |list| <= limit <= MAX_INT))
    ensures PagesFrom(list, offset, limit) == if offset <= |list| then list[offset..] else []
    decreases |list| - offset
  {
    if offset < |list| {
      if offset + limit >= |list| {
        assert PagesFrom(list, offset + limit, limit) == [];
        assert list[offset..|list|] + [] == list[offset..];
      } else {
        PagesCoverList(list, offset + limit, limit);
        assert list[offset..offset + limit] + list[offset + limit..] == list[offset..];
      }
    }
  }

  /** The whole listing: the intents passing the filters, in the requested order. */
  function Listed(f: Filters, files: seq<Intent>): (r: seq<Intent>) {
    InsertionSort(f, Matching(f, files))
  }

  lemma {:induction false} MatchingExact(f: Filters, files: seq<Intent>, x: Intent)
    ensures multiset(Matching(f, files))[x] == if Matches(f, x) then multiset(files)[x] else 0
    decreases |files|
  {
    hide Matches;
    if files != [] {
      var n := |files| - 1;
      MatchingExact(f, files[..n], x);
      assert files == files[..n] + [files[n]];
    }
  }

  /** The listing is in the requested order, keeps the file order of intents with equal times, and holds
      every intent as often as the files do if it passes the filters, and not at all otherwise. */
  lemma ListedCorrect(f: Filters, files: seq<Intent>, x: Intent)
    ensures Sorted(f, Listed(f, files))
    ensures StablePermutation(f, Matching(f, files), Listed(f, files))
    ensures multiset(Listed(f, files))[x] == if Matches(f, x) then multiset(files)[x] else 0
  {
    hide Matches, Matching, InsertionSort, Sorted, SortKey, WithKey;
    InsertionSortCorrect(f, Matching(f, files));
    StablePermutationIsPermutation(f, Matching(f, files), Listed(f, files));
    MatchingExact(f, files, x);
  }

  /** Which intents are listed, by the filter fields: an empty text, no status and time 0 filter nothing. */
  lemma ListedMembers(f: Filters, files: seq<Intent>, x: Intent)
    ensures var passes := (f.walletId == "" || x.walletId == f.walletId) &&
                          (f.status == None || f.status == Some(x.status)) &&
                          (f.chain == "" || x.chain == f.chain) &&
                          (f.fromTime == 0 || f.fromTime <= x.createdAt) &&
                          (f.toTime == 0 || x.createdAt <= f.toTime);
            multiset(Listed(f, files))[x] == if passes then multiset(files)[x] else 0
  {
    ListedCorrect(f, files, x);
    hide Listed;
  }

  /** In what order: by creation or update time, newest first unless "asc" is asked for. */
  lemma ListedOrder(f: Filters, files: seq<Intent>, p: nat, q: nat)
    requires p < q < |Listed(f, files)|
    ensures var x, y := Listed(f, files)[p], Listed(f, files)[q];
            if f.sortBy == "updated_at"
            then (if f.sortOrder == "asc" then x.updatedAt <= y.updatedAt else x.updatedAt >= y.updatedAt)
            else (if f.sortOrder == "asc" then x.createdAt <= y.createdAt else x.createdAt >= y.createdAt)
  {
    ListedCorrect(f, files, Listed(f, files)[p]);
    hide Listed;
  }

  /** `at` says where in `s` each element of `t` comes from; equal times keep their order. */
  ghost predicate StablePositions(f: Filters, s: seq<Intent>, t: seq<Intent>, at: seq<nat>) {
    && |at| == |s| && |t| == |s|
    && (forall i :: 0 <= i < |at| ==> at[i] < |s| && t[i] == s[at[i]])
    && (forall i, j :: 0 <= i < j < |at| ==> at[i] != at[j])
    && (forall i, j :: 0 <= i < j < |at| && SortKey(f, t[i]) == SortKey(f, t[j]) ==> at[i] < at[j])
  }

  /** Where `Insert` puts its element. */
  function InsertAt(f: Filters, x: Intent, s: seq<Intent>): (r: nat)
    ensures r <= |s|
    ensures Insert(f, x, s) == s[..r] + [x] + s[r..]
    ensures forall i :: 0 <= i < r ==> SortKey(f, s[i]) < SortKey(f, x)
  {
    if s == [] || SortKey(f, x) <= SortKey(f, s[0]) then 0 else 1 + InsertAt(f, x, s[1..])
  }

  lemma {:induction false} SortPositions(f: Filters, s: seq<Intent>) returns (at: seq<nat>)
    ensures StablePositions(f, s, InsertionSort(f, s), at)
    decreases |s|
  {
    if s == [] {
      at := [];
    } else {
      var before := SortPositions(f, s[1..]);
      var rest := InsertionSort(f, s[1..]);
      var r := InsertAt(f, s[0], rest);
      var shifted := seq(|before|, i requires 0 <= i < |before| => before[i] + 1);
      at := shifted[..r] + [0] + shifted[r..];
      Shifted(f, s, rest, before, shifted);
      InsertPosition(f, s, rest, shifted, r);
    }
  }

  /** The positions of the sorted tail, counted in the whole list. */
  ghost predicate TailPositions(f: Filters, s: seq<Intent>, rest: seq<Intent>, at: seq<nat>) {
    && s != [] && |at| == |rest| && |rest| + 1 == |s|
    && (forall i :: 0 <= i < |at| ==> 0 < at[i] < |s| && rest[i] == s[at[i]])
    && (forall i, j :: 0 <= i < j < |at| ==> at[i] != at[j])
    && (forall i, j :: 0 <= i < j < |at| && SortKey(f, rest[i]) == SortKey(f, rest[j]) ==> at[i] < at[j])
  }

  lemma Shifted(f: Filters, s: seq<Intent>, rest: seq<Intent>, before: seq<nat>, at: seq<nat>)
    requires s != [] && StablePositions(f, s[1..], rest, before)
    requires |at| == |before| && forall i :: 0 <= i < |at| ==> at[i] == before[i] + 1
    ensures TailPositions(f, s, rest, at)
  {
    hide SortKey;
  }

  lemma InsertPosition(f: Filters, s: seq<Intent>, rest: seq<Intent>, at: seq<nat>, r: nat)
    requires TailPositions(f, s, rest, at) && r <= |rest|
    requires forall i :: 0 <= i < r ==> SortKey(f, rest[i]) < SortKey(f, s[0])
    ensures StablePositions(f, s, rest[..r] + [s[0]] + rest[r..], at[..r] + [0] + at[r..])
  {
    hide SortKey;
    var t, more := rest[..r] + [s[0]] + rest[r..], at[..r] + [0] + at[r..];
    forall i | 0 <= i < |more| ensures more[i] < |s| && t[i] == s[more[i]] {
      Spliced(rest, s[0], r, i);
      Spliced(at, 0, r, i);
    }
    forall i, j | 0 <= i < j < |more|
      ensures more[i] != more[j]
      ensures SortKey(f, t[i]) == SortKey(f, t[j]) ==> more[i] < more[j]
    {
      Spliced(rest, s[0], r, i);
      Spliced(at, 0, r, i);
      Spliced(rest, s[0], r, j);
      Spliced(at, 0, r, j);
    }
  }

  lemma Spliced<T>(a: seq<T>, x: T, r: nat, i: nat)
    requires r <= |a| && i <= |a|
    ensures (a[..r] + [x] + a[r..])[i] == if i < r then a[i] else if i == r then x else a[i - 1]
  {
  }

  /** Filtering keeps the file order. */
  lemma {:induction false} MatchingPositions(f: Filters, files: seq<Intent>) returns (at: seq<nat>)
    ensures |at| == |Matching(f, files)|
    ensures forall i :: 0 <= i < |at| ==> at[i] < |files| && Matching(f, files)[i] == files[at[i]]
    ensures forall i, j :: 0 <= i < j < |at| ==> at[i] < at[j]
    decreases |files|
  {
    hide Matches;
    if files == [] {
      at := [];
    } else {
      var n := |files| - 1;
      at := MatchingPositions(f, files[..n]);
      if Matches(f, files[n]) {
        at := at + [n];
      }
    }
  }

  predicate SameTime(f: Filters, x: Intent, y: Intent) {
    if f.sortBy == "updated_at" then x.updatedAt == y.updatedAt else x.createdAt == y.createdAt
  }

  /** Every listed intent is one of the files, no file is listed twice, and intents with equal times are
      listed in file order. */
  lemma ListedStable(f: Filters, files: seq<Intent>) returns (at: seq<nat>)
    ensures |at| == |Listed(f, files)|
    ensures forall i :: 0 <= i < |at| ==> at[i] < |files| && Listed(f, files)[i] == files[at[i]]
    ensures forall i, j :: 0 <= i < j < |at| ==> at[i] != at[j]
    ensures forall i, j :: 0 <= i < j < |at| && SameTime(f, Listed(f, files)[i], Listed(f, files)[j]) ==> at[i] < at[j]
  {
    hide Matching, InsertionSort;
    var from := MatchingPositions(f, files);
    var sorted := SortPositions(f, Matching(f, files));
    at := seq(|sorted|, i requires 0 <= i < |sorted| => from[sorted[i]]);
  }

  /** `ListIntentsFiltered` over the decoded files: the page, and the total before paging. */
  method ListIntentsFiltered(files: seq<Intent>, f: Filters) returns (page: Option<seq<Intent>>, total: nat)
    ensures total == |Listed(f, files)|
    ensures page == Page(Listed(f, files), f.offset, LimitOf(f))
    ensures var limit := if f.limit <= 0 then 50 else f.limit;
            0 <= f.offset && f.offset + limit <= 0x7fff_ffff_ffff_ffff ==>
              page == Some(if f.offset >= total then []
                           else Listed(f, files)[f.offset..if f.offset + limit < total then f.offset + limit else total])
  {
    hide InsertionSort, Matches, Sorted, StablePermutation;
    var intents: seq<Intent> := [];
    for i := 0 to |files|
      invariant intents == Matching(f, files[..i])
    {
      assert files[..i + 1][..i] == files[..i];
      if Matches(f, files[i]) {
        intents := intents + [files[i]];
      }
    }
    assert files[..|files|] == files;
    var a := new Intent[|intents|](i requires 0 <= i < |intents| => intents[i]);
    assert a[..] == intents;
    BubbleSort(f, a);
    total := a.Length;
    PageIs(a[..], f.offset, LimitOf(f));
    if f.offset > total {
      page := Some([]);
    } else {
      var end := Wrap(f.offset + LimitOf(f));
      if end > total {
        end := total;
      }
      if 0 <= f.offset <= end {
        page := Some(a[f.offset..end]);
      } else {
        page := None;
      }
    }
  }

  /** Requests that differ only in offset and limit cut their pages from one list, so the total is
      constant from page to page. */
  lemma ListingDeterministic(f: Filters, g: Filters, files: seq<Intent>)
    requires g == f.(limit := g.limit, offset := g.offset)
    ensures Listed(f, files) == Listed(g, files)
  {
    SameMatching(f, g, files);
    SameSort(f, g, Matching(f, files));
  }

  lemma {:induction false} SameMatching(f: Filters, g: Filters, files: seq<Intent>)
    requires g == f.(limit := g.limit, offset := g.offset)
    ensures Matching(f, files) == Matching(g, files)
    decreases |files|
  {
    if files != [] {
      SameMatching(f, g, files[..|files| - 1]);
    }
  }

  lemma {:induction false} SameInsert(f: Filters, g: Filters, x: Intent, s: seq<Intent>)
    requires g == f.(limit := g.limit, offset := g.offset)
    ensures Insert(f, x, s) == Insert(g, x, s)
    decreases |s|
  {
    if s != [] {
      SameInsert(f, g, x, s[1..]);
    }
  }

  lemma {:induction false} SameSort(f: Filters, g: Filters, s: seq<Intent>)
    requires g == f.(limit := g.limit, offset := g.offset)
    ensures InsertionSort(f, s) == InsertionSort(g, s)
    decreases |s|
  {
    hide Insert;
    if s != [] {
      SameSort(f, g, s[1..]);
      SameInsert(f, g, s[0], InsertionSort(f, s[1..]));
    }
  }
}

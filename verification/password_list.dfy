/** The search-and-sort effect of the list screen
    (src/components/PasswordList/PasswordList.jsx) and its sort-direction
    toggle.

    The effect copies the entry list, keeps the entries whose title,
    username, email, url or notes contain the search term (ASCII case
    folding), and sorts the copy with a comparator that never answers 0.
    `Array.prototype.sort` is specified only as a permutation that respects a
    consistent comparator; it is modelled here by insertion with the same
    comparator, so the order among entries with equal keys (which the
    comparator treats inconsistently) is this model's choice. Timestamps are
    integer clock readings; a missing one is an invalid date, whose numeric
    value NaN compares false with everything. A missing title makes
    `title.toLowerCase()` throw: in the filter for every entry, in the sort
    for every entry once two or more are sorted (each element is compared at
    least once). */
module PasswordList {
  import opened Common
  import opened Entries

  /** JavaScript `a < b` on strings: lexicographic on characters (UTF-16
      code units for text in the Basic Multilingual Plane), a proper
      prefix first. */
  predicate StrLt(a: string, b: string)
    decreases |a|
  {
    if |b| == 0 then false
    else if |a| == 0 then true
    else if a[0] != b[0] then a[0] < b[0]
    else StrLt(a[1..], b[1..])
  }

  lemma {:induction false} StrLtIrreflexive(a: string)
    ensures !StrLt(a, a)
  {
    if |a| > 0 {
      StrLtIrreflexive(a[1..]);
    }
  }

  lemma {:induction false} StrLtTransitive(a: string, b: string, c: string)
    requires StrLt(a, b) && StrLt(b, c)
    ensures StrLt(a, c)
    decreases |a|
  {
    if |a| > 0 && a[0] == b[0] && b[0] == c[0] {
      StrLtTransitive(a[1..], b[1..], c[1..]);
    }
  }

  lemma {:induction false} StrLtTotal(a: string, b: string)
    ensures a == b || StrLt(a, b) || StrLt(b, a)
    decreases |a|
  {
    if |a| > 0 && |b| > 0 && a[0] == b[0] {
      StrLtTotal(a[1..], b[1..]);
      if a[1..] == b[1..] {
        assert a == [a[0]] + a[1..] && b == [b[0]] + b[1..];
      }
    }
  }

  /** The value a comparator call sees: a lower-cased title, or a date that
      is `None` when invalid. */
  datatype Key = Text(s: string) | Time(t: Option<int>)

  /** JavaScript `valueA > valueB` on two keys of the same kind. */
  predicate Gt(a: Key, b: Key)
  {
    match (a, b)
    case (Text(x), Text(y)) => StrLt(y, x)
    case (Time(Some(x)), Time(Some(y))) => x > y
    case _ => false
  }

  /** A key that compares: any title, or a valid date. */
  predicate Defined(k: Key)
  {
    k.Text? || k.t.Some?
  }

  lemma GtIrreflexive(k: Key)
    ensures !Gt(k, k)
  {
    if k.Text? {
      StrLtIrreflexive(k.s);
    }
  }

  lemma GtTransitive(a: Key, b: Key, c: Key)
    requires Gt(a, b) && Gt(b, c)
    ensures Gt(a, c)
  {
    if a.Text? {
      StrLtTransitive(c.s, b.s, a.s);
    }
  }

  /** Two defined keys of the same kind are equal or ordered one way. */
  lemma GtTotal(a: Key, b: Key)
    requires Defined(a) && Defined(b) && a.Text? == b.Text?
    ensures a == b || Gt(a, b) || Gt(b, a)
  {
    if a.Text? {
      StrLtTotal(a.s, b.s);
    }
  }

  /** The key of the `switch (sortOption)`: `title`, `createdAt`, and
      `updatedAt` for any other option. A missing title has no key (the
      effect throws before any comparison); `Text("")` stands in. */
  function SortKey(e: Entry, sortOption: string): Key
  {
    if sortOption == "title" then Text(if e.title.Some? then Lower(e.title.value) else "")
    else if sortOption == "createdAt" then Time(e.createdAt)
    else Time(e.updatedAt)
  }

  /** The comparator returns 1, i.e. `a` goes after `b`: in `asc`
      direction when `a`'s key is greater, in any other direction when it is
      smaller. */
  predicate After(a: Entry, b: Entry, sortOption: string, sortDirection: string)
  {
    if sortDirection == "asc" then Gt(SortKey(a, sortOption), SortKey(b, sortOption))
    else Gt(SortKey(b, sortOption), SortKey(a, sortOption))
  }

  /** Every entry's key compares (no invalid date). */
  predicate KeysDefined(xs: seq<Entry>, sortOption: string)
  {
    forall e | e in xs :: Defined(SortKey(e, sortOption))
  }

  lemma AfterAsymmetric(a: Entry, b: Entry, sortOption: string, sortDirection: string)
    requires After(a, b, sortOption, sortDirection)
    ensures !After(b, a, sortOption, sortDirection)
  {
    var ka, kb := SortKey(a, sortOption), SortKey(b, sortOption);
    if Gt(ka, kb) && Gt(kb, ka) {
      GtTransitive(ka, kb, ka);
      GtIrreflexive(ka);
    }
  }

  lemma AfterTransitive(a: Entry, b: Entry, c: Entry, sortOption: string, sortDirection: string)
    requires After(a, b, sortOption, sortDirection) && After(b, c, sortOption, sortDirection)
    ensures After(a, c, sortOption, sortDirection)
  {
    var ka, kb, kc := SortKey(a, sortOption), SortKey(b, sortOption), SortKey(c, sortOption);
    if sortDirection == "asc" {
      GtTransitive(ka, kb, kc);
    } else {
      GtTransitive(kc, kb, ka);
    }
  }

  /** Transitivity, stated as an implication from the second step. */
  lemma AfterThrough(a: Entry, b: Entry, c: Entry, sortOption: string, sortDirection: string)
    requires After(a, b, sortOption, sortDirection)
    ensures After(b, c, sortOption, sortDirection) ==> After(a, c, sortOption, sortDirection)
  {
    if After(b, c, sortOption, sortDirection) {
      AfterTransitive(a, b, c, sortOption, sortDirection);
    }
  }

  /** With comparable keys, "not after" is transitive. */
  lemma NotAfterTransitive(a: Entry, b: Entry, c: Entry, sortOption: string, sortDirection: string)
    requires Defined(SortKey(a, sortOption)) && Defined(SortKey(b, sortOption))
    requires !After(a, b, sortOption, sortDirection) && !After(b, c, sortOption, sortDirection)
    ensures !After(a, c, sortOption, sortDirection)
  {
    var ka, kb := SortKey(a, sortOption), SortKey(b, sortOption);
    GtTotal(ka, kb);
    if ka != kb {
      assert After(b, a, sortOption, sortDirection);
      AfterThrough(b, a, c, sortOption, sortDirection);
    }
  }

  /** Insertion of one entry into a list already in comparator order. */
  function Insert(x: Entry, s: seq<Entry>, sortOption: string, sortDirection: string): (r: seq<Entry>)
    ensures multiset(r) == multiset(s) + multiset{x}
  {
    if s == [] then [x]
    else if After(x, s[0], sortOption, sortDirection) then
      assert s == [s[0]] + s[1..];
      [s[0]] + Insert(x, s[1..], sortOption, sortDirection)
    else [x] + s
  }

  /** `results.sort(comparator)`: a permutation of its input. */
  function SortEntries(xs: seq<Entry>, sortOption: string, sortDirection: string): (r: seq<Entry>)
    ensures multiset(r) == multiset(xs)
    ensures |r| == |xs|
    ensures forall e :: e in r <==> e in xs
  {
    if xs == [] then []
    else
      assert xs == [xs[0]] + xs[1..];
      var r := Insert(xs[0], SortEntries(xs[1..], sortOption, sortDirection), sortOption, sortDirection);
      assert forall e :: e in r <==> e in multiset(r);
      r
  }

  /** No entry goes after a later one. */
  predicate Sorted(r: seq<Entry>, sortOption: string, sortDirection: string)
  {
    forall i, j :: 0 <= i < j < |r| ==> !After(r[i], r[j], sortOption, sortDirection)
  }

  lemma {:induction false} InsertSorted(x: Entry, s: seq<Entry>, sortOption: string, sortDirection: string)
    requires Sorted(s, sortOption, sortDirection)
    requires KeysDefined(s + [x], sortOption)
    ensures Sorted(Insert(x, s, sortOption, sortDirection), sortOption, sortDirection)
  {
    if s == [] {
      return;
    }
    assert s[0] in s + [x] && x in s + [x];
    var r := Insert(x, s, sortOption, sortDirection);
    if After(x, s[0], sortOption, sortDirection) {
      var tail := Insert(x, s[1..], sortOption, sortDirection);
      assert forall e | e in s[1..] + [x] :: e in s + [x];
      InsertSorted(x, s[1..], sortOption, sortDirection);
      AfterAsymmetric(x, s[0], sortOption, sortDirection);
      forall j | 0 <= j < |tail|
        ensures !After(s[0], tail[j], sortOption, sortDirection)
      {
        assert tail[j] in multiset(tail);
        if tail[j] != x {
          assert tail[j] in s[1..];
        }
      }
      assert r == [s[0]] + tail;
    } else {
      forall j | 1 <= j < |s|
        ensures !After(x, s[j], sortOption, sortDirection)
      {
        NotAfterTransitive(x, s[0], s[j], sortOption, sortDirection);
      }
      assert r == [x] + s;
    }
  }

  /** With comparable keys the sort puts the entries in comparator order:
      non-decreasing keys for `asc`, non-increasing otherwise. */
  lemma {:induction false} SortedWhenKeysDefined(xs: seq<Entry>, sortOption: string, sortDirection: string)
    requires KeysDefined(xs, sortOption)
    ensures Sorted(SortEntries(xs, sortOption, sortDirection), sortOption, sortDirection)
  {
    if xs != [] {
      var rest := SortEntries(xs[1..], sortOption, sortDirection);
      assert forall e | e in xs[1..] :: e in xs;
      SortedWhenKeysDefined(xs[1..], sortOption, sortDirection);
      assert forall e | e in rest + [xs[0]] :: e in xs;
      InsertSorted(xs[0], rest, sortOption, sortDirection);
    }
  }

  /** Every entry goes after each earlier one. */
  predicate StrictlySorted(r: seq<Entry>, sortOption: string, sortDirection: string)
  {
    forall i, j :: 0 <= i < j < |r| ==> After(r[j], r[i], sortOption, sortDirection)
  }

  /** Keys are defined and pairwise distinct by position. */
  predicate DistinctKeys(xs: seq<Entry>, sortOption: string)
  {
    KeysDefined(xs, sortOption)
    && forall i, j :: 0 <= i < j < |xs| ==> SortKey(xs[i], sortOption) != SortKey(xs[j], sortOption)
  }

  lemma {:induction false} InsertStrict(x: Entry, s: seq<Entry>, sortOption: string, sortDirection: string)
    requires StrictlySorted(s, sortOption, sortDirection)
    requires KeysDefined(s + [x], sortOption)
    requires forall e | e in s :: SortKey(e, sortOption) != SortKey(x, sortOption)
    ensures StrictlySorted(Insert(x, s, sortOption, sortDirection), sortOption, sortDirection)
  {
    if s == [] {
      return;
    }
    assert s[0] in s + [x] && x in s + [x];
    var r := Insert(x, s, sortOption, sortDirection);
    if After(x, s[0], sortOption, sortDirection) {
      var tail := Insert(x, s[1..], sortOption, sortDirection);
      assert forall e | e in s[1..] + [x] :: e in s + [x];
      InsertStrict(x, s[1..], sortOption, sortDirection);
      forall j | 0 <= j < |tail|
        ensures After(tail[j], s[0], sortOption, sortDirection)
      {
        assert tail[j] in multiset(tail);
        if tail[j] != x {
          assert tail[j] in s[1..];
        }
      }
      assert r == [s[0]] + tail;
    } else {
      GtTotal(SortKey(x, sortOption), SortKey(s[0], sortOption));
      assert After(s[0], x, sortOption, sortDirection);
      forall j | 0 <= j < |s|
        ensures After(s[j], x, sortOption, sortDirection)
      {
        if j > 0 {
          AfterTransitive(s[j], s[0], x, sortOption, sortDirection);
        }
      }
      assert r == [x] + s;
    }
  }

  /** Distinct keys stay distinct in the tail, and differ from the head's. */
  lemma DistinctKeysTail(xs: seq<Entry>, sortOption: string)
    requires xs != [] && DistinctKeys(xs, sortOption)
    ensures DistinctKeys(xs[1..], sortOption)
    ensures forall e | e in xs[1..] :: SortKey(e, sortOption) != SortKey(xs[0], sortOption)
  {
    var tail := xs[1..];
    assert forall e | e in tail :: e in xs;
    forall i, j | 0 <= i < j < |tail|
      ensures SortKey(tail[i], sortOption) != SortKey(tail[j], sortOption)
    {
      assert tail[i] == xs[i + 1] && tail[j] == xs[j + 1];
    }
    forall e | e in tail
      ensures SortKey(e, sortOption) != SortKey(xs[0], sortOption)
    {
      var j :| 0 <= j < |tail| && tail[j] == e;
      assert xs[j + 1] == e;
    }
  }

  /** With pairwise-distinct keys the order is strict: `asc` gives strictly
      increasing keys, any other direction strictly decreasing ones. */
  lemma {:induction false} StrictWhenKeysDistinct(xs: seq<Entry>, sortOption: string, sortDirection: string)
    requires DistinctKeys(xs, sortOption)
    ensures StrictlySorted(SortEntries(xs, sortOption, sortDirection), sortOption, sortDirection)
  {
    if xs != [] {
      var rest := SortEntries(xs[1..], sortOption, sortDirection);
      DistinctKeysTail(xs, sortOption);
      StrictWhenKeysDistinct(xs[1..], sortOption, sortDirection);
      assert forall e | e in rest + [xs[0]] :: e in xs;
      InsertStrict(xs[0], rest, sortOption, sortDirection);
    }
  }

  /** In `asc` direction, strict comparator order is strictly increasing
      keys. */
  lemma AscendingMeansIncreasing(r: seq<Entry>, sortOption: string, i: nat, j: nat)
    requires StrictlySorted(r, sortOption, "asc") && i < j < |r|
    ensures Gt(SortKey(r[j], sortOption), SortKey(r[i], sortOption))
  {
  }

  /** Any option other than `title` and `createdAt` sorts exactly as
      `updatedAt` does. */
  lemma {:induction false} OtherOptionSortsByUpdatedAt(xs: seq<Entry>, sortOption: string, sortDirection: string)
    requires sortOption != "title" && sortOption != "createdAt"
    ensures SortEntries(xs, sortOption, sortDirection) == SortEntries(xs, "updatedAt", sortDirection)
  {
    if xs != [] {
      OtherOptionSortsByUpdatedAt(xs[1..], sortOption, sortDirection);
      InsertSameOrder(xs[0], SortEntries(xs[1..], sortOption, sortDirection), sortOption, sortDirection);
    }
  }

  lemma {:induction false} InsertSameOrder(x: Entry, s: seq<Entry>, sortOption: string, sortDirection: string)
    requires sortOption != "title" && sortOption != "createdAt"
    ensures Insert(x, s, sortOption, sortDirection) == Insert(x, s, "updatedAt", sortDirection)
  {
    if s != [] {
      InsertSameOrder(x, s[1..], sortOption, sortDirection);
    }
  }

  /** Every entry has a title (no `toLowerCase` of `undefined`). */
  predicate AllTitled(xs: seq<Entry>)
  {
    forall e | e in xs :: e.title.Some?
  }

  /** The search predicate for a lower-cased term: the title, or a present
      username, email, url or notes field, contains it. */
  predicate Matches(e: Entry, term: string)
    requires e.title.Some?
  {
    Contains(Lower(e.title.value), term)
    || (Truthy(e.username) && Contains(Lower(e.username.value), term))
    || (Truthy(e.email) && Contains(Lower(e.email.value), term))
    || (Truthy(e.url) && Contains(Lower(e.url.value), term))
    || (Truthy(e.notes) && Contains(Lower(e.notes.value), term))
  }

  /** `results.filter(...)` with a lower-cased term: exactly the matching
      entries are kept, each as often as before. */
  function FilterEntries(xs: seq<Entry>, term: string): (r: seq<Entry>)
    requires AllTitled(xs)
    ensures forall e :: e in r <==> e in xs && Matches(e, term)
    ensures multiset(r) <= multiset(xs)
  {
    if xs == [] then []
    else
      assert xs == [xs[0]] + xs[1..];
      assert forall e | e in xs[1..] :: e in xs;
      if Matches(xs[0], term) then [xs[0]] + FilterEntries(xs[1..], term)
      else FilterEntries(xs[1..], term)
  }

  /** Filtering keeps relative order: it distributes over concatenation. */
  lemma {:induction false} FilterConcat(a: seq<Entry>, b: seq<Entry>, term: string)
    requires AllTitled(a) && AllTitled(b)
    ensures AllTitled(a + b)
    ensures FilterEntries(a + b, term) == FilterEntries(a, term) + FilterEntries(b, term)
  {
    if a == [] {
      assert a + b == b;
    } else {
      assert (a + b)[1..] == a[1..] + b;
      assert forall e | e in a[1..] :: e in a;
      FilterConcat(a[1..], b, term);
    }
  }

  /** The entries the effect keeps: all of them for an empty term, the
      matching ones otherwise. */
  function Filtered(passwords: seq<Entry>, searchTerm: string): (r: seq<Entry>)
    requires searchTerm != "" ==> AllTitled(passwords)
    ensures searchTerm == "" ==> r == passwords
    ensures forall e :: e in r <==>
      e in passwords && (searchTerm == "" || Matches(e, Lower(searchTerm)))
  {
    if searchTerm == "" then passwords else FilterEntries(passwords, Lower(searchTerm))
  }

  /** Whether the effect runs to the end: no missing title is lower-cased. */
  predicate EffectCompletes(passwords: seq<Entry>, searchTerm: string, sortOption: string)
  {
    (searchTerm != "" ==> AllTitled(passwords))
    && (sortOption == "title" && |Filtered(passwords, searchTerm)| >= 2 ==>
          AllTitled(Filtered(passwords, searchTerm)))
  }

  /** `toggleSortDirection`'s new value. */
  function Toggled(sortDirection: string): (r: string)
    ensures r == "asc" || r == "desc"
    ensures r != sortDirection
  {
    if sortDirection == "asc" then "desc" else "asc"
  }

  /** Toggling twice restores `asc` or `desc`. */
  lemma ToggleTwice(sortDirection: string)
    requires sortDirection == "asc" || sortDirection == "desc"
    ensures Toggled(Toggled(sortDirection)) == sortDirection
  {
  }

  /** The list screen's state: search term, sort option and direction
      (initially `''`, `'updatedAt'`, `'desc'`) and the displayed list. */
  class ListView {
    var searchTerm: string
    var sortOption: string
    var sortDirection: string
    var filteredPasswords: seq<Entry>

    constructor ()
      ensures searchTerm == "" && sortOption == "updatedAt" && sortDirection == "desc"
      ensures filteredPasswords == []
    {
      searchTerm := "";
      sortOption := "updatedAt";
      sortDirection := "desc";
      filteredPasswords := [];
    }

    method SetSearchTerm(term: string)
      modifies this
      ensures searchTerm == term
      ensures sortOption == old(sortOption) && sortDirection == old(sortDirection)
      ensures filteredPasswords == old(filteredPasswords)
    {
      searchTerm := term;
    }

    method SetSortOption(option: string)
      modifies this
      ensures sortOption == option
      ensures searchTerm == old(searchTerm) && sortDirection == old(sortDirection)
      ensures filteredPasswords == old(filteredPasswords)
    {
      sortOption := option;
    }

    /** `toggleSortDirection`: `asc` becomes `desc`, anything else `asc`. */
    method ToggleSortDirection()
      modifies this
      ensures sortDirection == Toggled(old(sortDirection))
      ensures searchTerm == old(searchTerm) && sortOption == old(sortOption)
      ensures filteredPasswords == old(filteredPasswords)
    {
      sortDirection := if sortDirection == "asc" then "desc" else "asc";
    }

    /** The filter-and-sort effect over the context's `passwords`: when it
      completes, the displayed list holds exactly the kept entries, each as
      often as in `passwords`, in comparator order when all keys compare.
      When it throws, the displayed list stays as it was. `passwords` itself
      is a value and is not reordered. */
    method RefreshResults(passwords: seq<Entry>) returns (completed: bool)
      modifies this
      ensures completed <==> EffectCompletes(passwords, searchTerm, sortOption)
      ensures searchTerm == old(searchTerm) && sortOption == old(sortOption)
              && sortDirection == old(sortDirection)
      ensures !completed ==> filteredPasswords == old(filteredPasswords)
      ensures completed ==>
        multiset(filteredPasswords) == multiset(Filtered(passwords, searchTerm))
        && (forall e :: e in filteredPasswords <==>
              e in passwords && (searchTerm == "" || Matches(e, Lower(searchTerm))))
      ensures completed && KeysDefined(passwords, sortOption) ==>
        Sorted(filteredPasswords, sortOption, sortDirection)
      ensures completed && DistinctKeys(Filtered(passwords, searchTerm), sortOption) ==>
        StrictlySorted(filteredPasswords, sortOption, sortDirection)
    {
      var results := passwords;
      if searchTerm != "" {
        if exists e | e in results :: e.title.None? {
          return false;
        }
        results := FilterEntries(results, Lower(searchTerm));
      }
      if sortOption == "title" && |results| >= 2 && exists e | e in results :: e.title.None? {
        return false;
      }
      var sorted := SortEntries(results, sortOption, sortDirection);
      assert results == Filtered(passwords, searchTerm);
      if KeysDefined(passwords, sortOption) {
        assert forall e | e in results :: e in passwords;
        SortedWhenKeysDefined(results, sortOption, sortDirection);
      }
      if DistinctKeys(results, sortOption) {
        StrictWhenKeysDistinct(results, sortOption, sortDirection);
      }
      filteredPasswords := sorted;
      completed := true;
    }
  }
}

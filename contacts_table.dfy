/** The contacts table (`src/components/contacts/ContactsTable.tsx`):
    the leads are filtered by type and by a case-insensitive search on name
    and address, then sorted by contact date or by name. The browser's date
    parsing and `localeCompare` are parameters: a date string's time in
    milliseconds, and a collation rank on names (any total order on names
    arises from such a rank). The library sort is stable, so its result is
    fixed by the comparator; it is modelled by a stable insertion sort. */
module Contacts {
  import opened Common
  import opened Leads

  datatype TypeFilter = All | OnlyType(t: LeadType)

  datatype SortBy = Newest | Oldest | NameAsc | NameDesc

  /** The `filters` prop. */
  datatype Filters = Filters(typeFilter: TypeFilter, sortBy: SortBy, searchQuery: string)

  /** `new Date(s).getTime()` and the order `localeCompare` follows. */
  datatype Browser = Browser(time: string -> int, rank: string -> real)

  // ---------------------------------------------------------------------------
  // Filtering

  /** The filter callback: the type test, then the search on name and
      address when the query is non-empty. */
  predicate Keep(lead: Lead, f: Filters) {
    (f.typeFilter.All? || lead.leadType == f.typeFilter.t)
    && (f.searchQuery == ""
        || Contains(ToLower(lead.name), ToLower(f.searchQuery))
        || Contains(ToLower(lead.address), ToLower(f.searchQuery)))
  }

  /** `leads.filter(...)`. */
  function FilterLeads(leads: seq<Lead>, f: Filters): (r: seq<Lead>)
    ensures |r| <= |leads|
    ensures forall l :: l in r <==> l in leads && Keep(l, f)
    decreases |leads|
  {
    if leads == [] then []
    else
      var rest := FilterLeads(leads[1..], f);
      assert forall l :: l in leads <==> l == leads[0] || l in leads[1..];
      (if Keep(leads[0], f) then [leads[0]] else []) + rest
  }

  /** The filter keeps each kept lead as often as it occurs and drops the
      rest. */
  lemma {:induction false} FilterCounts(leads: seq<Lead>, f: Filters, l: Lead)
    ensures multiset(FilterLeads(leads, f))[l] == if Keep(l, f) then multiset(leads)[l] else 0
    decreases |leads|
  {
    if leads != [] {
      FilterCounts(leads[1..], f, l);
      assert leads == [leads[0]] + leads[1..];
    }
  }

  /** The filter keeps the order: filtering a concatenation concatenates
      the filtered parts. */
  lemma {:induction false} FilterAppend(a: seq<Lead>, b: seq<Lead>, f: Filters)
    ensures FilterLeads(a + b, f) == FilterLeads(a, f) + FilterLeads(b, f)
    decreases |a|
  {
    if a == [] {
      assert a + b == b;
    } else {
      assert (a + b)[0] == a[0];
      assert (a + b)[1..] == a[1..] + b;
      FilterAppend(a[1..], b, f);
    }
  }

  /** Type `all` and an empty query keep every lead. */
  lemma {:induction false} NoFilterKeepsAll(leads: seq<Lead>, f: Filters)
    requires f.typeFilter.All? && f.searchQuery == ""
    ensures FilterLeads(leads, f) == leads
    decreases |leads|
  {
    if leads != [] {
      NoFilterKeepsAll(leads[1..], f);
    }
  }

  /** The query's case does not matter. */
  lemma QueryIgnoresCase(lead: Lead, f: Filters)
    ensures Keep(lead, f.(searchQuery := ToLower(f.searchQuery))) == Keep(lead, f)
  {
    ToLowerIdempotent(f.searchQuery);
  }

  // ---------------------------------------------------------------------------
  // The comparator

  /** `new Date(lead.contactedDate || 0).getTime()`: no date counts as the
      epoch. */
  function Time(lead: Lead, b: Browser): int {
    if Truthy(lead.contactedDate) then b.time(lead.contactedDate.value) else 0
  }

  function Sign(x: real): (r: real)
    ensures r < 0.0 <==> x < 0.0
    ensures r == 0.0 <==> x == 0.0
  {
    if x < 0.0 then -1.0 else if x == 0.0 then 0.0 else 1.0
  }

  /** `x.localeCompare(y)`. */
  function LocaleCompare(x: string, y: string, b: Browser): real {
    Sign(b.rank(x) - b.rank(y))
  }

  /** The `sort` callback: negative puts `x` first. */
  function Compare(x: Lead, y: Lead, order: SortBy, b: Browser): real {
    match order
    case Newest => (Time(y, b) - Time(x, b)) as real
    case Oldest => (Time(x, b) - Time(y, b)) as real
    case NameAsc => LocaleCompare(x.name, y.name, b)
    case NameDesc => LocaleCompare(y.name, x.name, b)
  }

  /** The sort key each option orders by, ascending. */
  function Key(lead: Lead, order: SortBy, b: Browser): real {
    match order
    case Newest => -(Time(lead, b) as real)
    case Oldest => Time(lead, b) as real
    case NameAsc => b.rank(lead.name)
    case NameDesc => -b.rank(lead.name)
  }

  /** The comparator orders exactly as the key: negative when the first key
      is smaller, zero when they are equal. */
  lemma CompareByKey(x: Lead, y: Lead, order: SortBy, b: Browser)
    ensures Compare(x, y, order, b) < 0.0 <==> Key(x, order, b) < Key(y, order, b)
    ensures Compare(x, y, order, b) == 0.0 <==> Key(x, order, b) == Key(y, order, b)
  {
  }

  /** `name-desc` is `name-asc` with the arguments swapped, and `oldest`
      is `newest` swapped. */
  lemma DescendingIsSwapped(x: Lead, y: Lead, b: Browser)
    ensures Compare(x, y, NameDesc, b) == Compare(y, x, NameAsc, b)
    ensures Compare(x, y, Oldest, b) == Compare(y, x, Newest, b)
  {
  }

  // ---------------------------------------------------------------------------
  // Stable sorting

  predicate SortedBy(s: seq<Lead>, key: Lead -> real) {
    forall i, j :: 0 <= i < j < |s| ==> key(s[i]) <= key(s[j])
  }

  /** The leads of `s` whose key is `k`, in their order in `s`. */
  function WithKey(s: seq<Lead>, k: real, key: Lead -> real): (r: seq<Lead>)
    decreases |s|
  {
    if s == [] then []
    else (if key(s[0]) == k then [s[0]] else []) + WithKey(s[1..], k, key)
  }

  /** Insert `x` before the first element whose key is not smaller. */
  function Insert(x: Lead, s: seq<Lead>, key: Lead -> real): (r: seq<Lead>)
    ensures |r| == |s| + 1
    decreases |s|
  {
    if s == [] || key(x) <= key(s[0]) then [x] + s
    else [s[0]] + Insert(x, s[1..], key)
  }

  function Sort(s: seq<Lead>, key: Lead -> real): (r: seq<Lead>)
    ensures |r| == |s|
    decreases |s|
  {
    if s == [] then [] else Insert(s[0], Sort(s[1..], key), key)
  }

  lemma {:induction false} InsertPermutes(x: Lead, s: seq<Lead>, key: Lead -> real)
    ensures multiset(Insert(x, s, key)) == multiset(s) + multiset{x}
    decreases |s|
  {
    if s != [] && key(x) > key(s[0]) {
      InsertPermutes(x, s[1..], key);
      assert s == [s[0]] + s[1..];
    }
  }

  lemma {:induction false} InsertSorted(x: Lead, s: seq<Lead>, key: Lead -> real)
    requires SortedBy(s, key)
    ensures SortedBy(Insert(x, s, key), key)
    decreases |s|
  {
    if s != [] && key(x) > key(s[0]) {
      InsertSorted(x, s[1..], key);
      InsertPermutes(x, s[1..], key);
      var r := Insert(x, s, key);
      forall j | 1 <= j < |r|
        ensures key(s[0]) <= key(r[j])
      {
        var e := r[j];
        assert e in multiset(Insert(x, s[1..], key));
        if e != x {
          assert e in s[1..];
        }
      }
    }
  }

  /** Insertion puts `x` after every lead of smaller key and before every
      lead of equal key, so among equal keys it comes first. */
  lemma {:induction false} InsertStable(x: Lead, s: seq<Lead>, k: real, key: Lead -> real)
    ensures WithKey(Insert(x, s, key), k, key)
            == (if key(x) == k then [x] else []) + WithKey(s, k, key)
    decreases |s|
  {
    if s == [] || key(x) <= key(s[0]) {
      var r := [x] + s;
      assert r[0] == x && r[1..] == s;
    } else {
      var t := Insert(x, s[1..], key);
      var r := [s[0]] + t;
      assert r[0] == s[0] && r[1..] == t;
      InsertStable(x, s[1..], k, key);
      var hx := if key(x) == k then [x] else [];
      var hs := if key(s[0]) == k then [s[0]] else [];
      var rest := WithKey(s[1..], k, key);
      assert WithKey(r, k, key) == hs + (hx + rest);
      assert WithKey(s, k, key) == hs + rest;
      if key(x) == k {
        assert hs == [];
      } else {
        assert hx == [];
      }
    }
  }

  lemma {:induction false} SortPermutes(s: seq<Lead>, key: Lead -> real)
    ensures multiset(Sort(s, key)) == multiset(s)
    decreases |s|
  {
    if s != [] {
      SortPermutes(s[1..], key);
      InsertPermutes(s[0], Sort(s[1..], key), key);
      assert s == [s[0]] + s[1..];
    }
  }

  lemma {:induction false} SortSorted(s: seq<Lead>, key: Lead -> real)
    ensures SortedBy(Sort(s, key), key)
    decreases |s|
  {
    if s != [] {
      SortSorted(s[1..], key);
      InsertSorted(s[0], Sort(s[1..], key), key);
    }
  }

  lemma {:induction false} SortStable(s: seq<Lead>, k: real, key: Lead -> real)
    ensures WithKey(Sort(s, key), k, key) == WithKey(s, k, key)
    decreases |s|
  {
    if s != [] {
      SortStable(s[1..], k, key);
      InsertStable(s[0], Sort(s[1..], key), k, key);
    }
  }

  // ---------------------------------------------------------------------------
  // The rows shown

  /** The key of a sort option, as a function of the lead. */
  function SortKey(order: SortBy, b: Browser): Lead -> real {
    l => Key(l, order, b)
  }

  /** The rows the table renders, in order. */
  function Rows(leads: seq<Lead>, f: Filters, b: Browser): seq<Lead> {
    Sort(FilterLeads(leads, f), SortKey(f.sortBy, b))
  }

  /** The rows are the filtered leads, each as often as in the input,
      ordered by the chosen comparator, with ties in input order. */
  lemma RowsSpec(leads: seq<Lead>, f: Filters, b: Browser)
    ensures forall l :: multiset(Rows(leads, f, b))[l] == if Keep(l, f) then multiset(leads)[l] else 0
    ensures forall i, j :: 0 <= i < j < |Rows(leads, f, b)| ==>
              Compare(Rows(leads, f, b)[i], Rows(leads, f, b)[j], f.sortBy, b) <= 0.0
    ensures forall k :: WithKey(Rows(leads, f, b), k, SortKey(f.sortBy, b))
                        == WithKey(FilterLeads(leads, f), k, SortKey(f.sortBy, b))
  {
    var filtered := FilterLeads(leads, f);
    var key := SortKey(f.sortBy, b);
    SortPermutes(filtered, key);
    SortSorted(filtered, key);
    forall k
      ensures WithKey(Rows(leads, f, b), k, key) == WithKey(filtered, k, key)
    {
      SortStable(filtered, k, key);
    }
    forall l
      ensures multiset(Rows(leads, f, b))[l] == if Keep(l, f) then multiset(leads)[l] else 0
    {
      FilterCounts(leads, f, l);
    }
    var r := Rows(leads, f, b);
    forall i, j | 0 <= i < j < |r|
      ensures Compare(r[i], r[j], f.sortBy, b) <= 0.0
    {
      CompareByKey(r[i], r[j], f.sortBy, b);
    }
  }
}

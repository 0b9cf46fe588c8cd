/** The filter panel (frontend/src/components/LogFilter.tsx): the selected
    severities and types, toggled on and off, the free-text query, the count
    shown on the badge, and the badge variant of a severity. */
module Filters {

  datatype FilterOptions = FilterOptions(severity: seq<string>, kind: seq<string>, searchQuery: string)

  /** The severities offered. */
  const SeverityLevels: seq<string> := ["élevé", "moyen", "faible"]

  /** `values.filter(x => x !== v)`. */
  function Without(values: seq<string>, v: string): seq<string>
  {
    if values == [] then []
    else (if values[0] == v then [] else [values[0]]) + Without(values[1..], v)
  }

  /** Filtering keeps every other value, as often as it occurs, and drops
      every occurrence of `v`. */
  lemma {:induction false} WithoutProperties(values: seq<string>, v: string)
    ensures forall x :: x in Without(values, v) <==> x in values && x != v
    ensures forall x :: x != v ==> multiset(Without(values, v))[x] == multiset(values)[x]
    ensures |Without(values, v)| == |values| - multiset(values)[v]
  {
    if values != [] {
      assert values == [values[0]] + values[1..];
      WithoutProperties(values[1..], v);
    }
  }

  /** Filtering distributes over concatenation, so the kept values stay in
      their original order. */
  lemma {:induction false} WithoutAppend(a: seq<string>, b: seq<string>, v: string)
    ensures Without(a + b, v) == Without(a, v) + Without(b, v)
  {
    if a == [] {
      assert a + b == b;
    } else {
      assert (a + b)[0] == a[0] && (a + b)[1..] == a[1..] + b;
      WithoutAppend(a[1..], b, v);
    }
  }

  /** A list that does not hold `v` is unchanged by removing it. */
  lemma {:induction false} WithoutAbsent(values: seq<string>, v: string)
    requires v !in values
    ensures Without(values, v) == values
  {
    if values != [] {
      WithoutAbsent(values[1..], v);
      assert values == [values[0]] + values[1..];
      assert Without(values, v) == [values[0]] + Without(values[1..], v);
    }
  }

  /** Toggling a value: an absent value is appended at the end, a present one
      is removed with all its repetitions. */
  function Toggle(values: seq<string>, v: string): (r: seq<string>)
    ensures v in r <==> v !in values
    ensures forall x :: x != v ==> multiset(r)[x] == multiset(values)[x]
    ensures v !in values ==> r == values + [v]
  {
    WithoutProperties(values, v);
    if v in values then Without(values, v) else values + [v]
  }

  /** Toggling an absent value twice gives the original list back. */
  lemma ToggleTwice(values: seq<string>, v: string)
    requires v !in values
    ensures Toggle(Toggle(values, v), v) == values
  {
    WithoutAppend(values, [v], v);
    WithoutAbsent(values, v);
    assert Without([v], v) == [];
  }

  /** `toggleSeverity`: only the severity list changes. */
  function ToggleSeverity(f: FilterOptions, v: string): (g: FilterOptions)
    ensures g.kind == f.kind && g.searchQuery == f.searchQuery
    ensures v in g.severity <==> v !in f.severity
    ensures forall x :: x != v ==> multiset(g.severity)[x] == multiset(f.severity)[x]
  {
    f.(severity := Toggle(f.severity, v))
  }

  /** `toggleType`: only the type list changes. */
  function ToggleType(f: FilterOptions, v: string): (g: FilterOptions)
    ensures g.severity == f.severity && g.searchQuery == f.searchQuery
    ensures v in g.kind <==> v !in f.kind
    ensures forall x :: x != v ==> multiset(g.kind)[x] == multiset(f.kind)[x]
  {
    f.(kind := Toggle(f.kind, v))
  }

  predicate HasActiveFilters(f: FilterOptions) {
    |f.severity| > 0 || |f.kind| > 0 || |f.searchQuery| > 0
  }

  /** The number on the badge. */
  function BadgeCount(f: FilterOptions): nat {
    |f.severity| + |f.kind| + (if f.searchQuery != "" then 1 else 0)
  }

  /** The badge is shown exactly when its count is positive. */
  lemma BadgeShownIffCount(f: FilterOptions)
    ensures HasActiveFilters(f) <==> BadgeCount(f) > 0
  {
  }

  /** `clearFilters`. */
  function Clear(): (f: FilterOptions)
    ensures !HasActiveFilters(f) && BadgeCount(f) == 0
  {
    FilterOptions([], [], "")
  }

  /** Selecting a severity activates the filters and adds one to the badge. */
  lemma SelectingCounts(f: FilterOptions, v: string)
    requires v !in f.severity
    ensures HasActiveFilters(ToggleSeverity(f, v))
    ensures BadgeCount(ToggleSeverity(f, v)) == BadgeCount(f) + 1
  {
  }

  datatype Variant = Destructive | Warning | Secondary | Outline

  /** `getSeverityColor`: exact matches only, with no case folding. */
  function SeverityVariant(severity: string): (v: Variant)
    ensures v == Destructive <==> severity == "élevé"
    ensures v == Warning <==> severity == "moyen"
    ensures v == Secondary <==> severity == "faible"
  {
    if severity == "élevé" then Destructive
    else if severity == "moyen" then Warning
    else if severity == "faible" then Secondary
    else Outline
  }

  /** The severity row of the panel: one badge per offered level, in order,
      coloured by `getSeverityColor` while that level is selected and
      outlined otherwise. */
  function SeverityBadges(f: FilterOptions): (r: seq<Variant>)
    ensures |r| == |SeverityLevels|
    ensures forall k :: 0 <= k < |r| ==> (r[k] != Outline <==> SeverityLevels[k] in f.severity)
    ensures forall k :: 0 <= k < |r| && r[k] != Outline ==> r[k] == SeverityVariant(SeverityLevels[k])
  {
    seq(|SeverityLevels|, k requires 0 <= k < |SeverityLevels| =>
      if SeverityLevels[k] in f.severity then SeverityVariant(SeverityLevels[k]) else Outline)
  }

  /** Each offered severity has its own variant, none of them the default. */
  lemma OfferedSeveritiesDistinct(a: string, b: string)
    requires a in SeverityLevels && b in SeverityLevels && a != b
    ensures SeverityVariant(a) != SeverityVariant(b) && SeverityVariant(a) != Outline
  {
  }
}

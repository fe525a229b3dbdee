/**
 Deciding keyed items in key order, for any admission rule.

 A rule says whether an item is admitted after a sequence of admitted ones. A sequence resolves the
 items when it is increasing in their keys and contains exactly the items the rule admits after the
 admitted items with smaller keys. This determines the sequence, and determines each initial
 segment of it from the keys and the rule on that segment alone.
 */
module DecisionOrder {
  import opened Protocol
  import opened Ordering

  datatype Key = Key(depth: nat, priority: nat, id: Id)

  type Keys = map<Id, Key>

  type Rule = (seq<Id>, Id) -> bool

  predicate Less(a: Key, b: Key) {
    || a.depth < b.depth
    || (a.depth == b.depth && a.priority < b.priority)
    || (a.depth == b.depth && a.priority == b.priority && a.id < b.id)
  }

  ghost predicate KeyedById(keys: Keys) {
    forall x :: x in keys ==> keys[x].id == x
  }

  ghost predicate SortedByKey(keys: Keys, accepted: seq<Id>) {
    && (forall i :: 0 <= i < |accepted| ==> accepted[i] in keys)
    && forall i, j :: 0 <= i < j < |accepted| ==> Less(keys[accepted[i]], keys[accepted[j]])
  }

  /** Items of one depth and priority are in key order when they are in id order. */
  lemma AscendingIsSorted(keys: Keys, ids: set<Id>, depth: nat, priority: nat)
    requires ids <= keys.Keys && forall x :: x in ids ==> keys[x] == Key(depth, priority, x)
    ensures SortedByKey(keys, Ascending(ids))
  {
    var s := Ascending(ids);
    forall i | 0 <= i < |s|
      ensures s[i] in keys && keys[s[i]] == Key(depth, priority, s[i])
    {
      assert s[i] in Elements(s);
    }
  }

  lemma SortedConcat(keys: Keys, a: seq<Id>, b: seq<Id>)
    requires SortedByKey(keys, a) && SortedByKey(keys, b)
    requires forall i, j :: 0 <= i < |a| && 0 <= j < |b| ==> Less(keys[a[i]], keys[b[j]])
    ensures SortedByKey(keys, a + b)
  {
    var c := a + b;
    forall i, j | 0 <= i < j < |c|
      ensures c[i] in keys && c[j] in keys && Less(keys[c[i]], keys[c[j]])
    {
      if j < |a| {
        assert c[i] == a[i] && c[j] == a[j];
      } else if i < |a| {
        assert c[i] == a[i] && c[j] == b[j - |a|];
      } else {
        assert c[i] == b[i - |a|] && c[j] == b[j - |a|];
      }
    }
  }

  lemma JoinPriorities(
    keys: Keys, r: set<Id>, a: seq<Id>, s: set<Id>, b: seq<Id>, depth: nat, p: nat, q: nat)
    requires SortedByKey(keys, a) && Elements(a) == r && SortedByKey(keys, b) && Elements(b) == s && p < q
    requires forall x :: x in r ==> x in keys && keys[x].depth == depth && keys[x].priority <= p
    requires forall x :: x in s ==> x in keys && keys[x].depth == depth && keys[x].priority == q
    ensures SortedByKey(keys, a + b) && Elements(a + b) == r + s
  {
    assert forall i :: 0 <= i < |a| ==> a[i] in Elements(a);
    assert forall j :: 0 <= j < |b| ==> b[j] in Elements(b);
    SortedConcat(keys, a, b);
    assert Elements(a + b) == Elements(a) + Elements(b);
  }

  lemma JoinThree(
    keys: Keys, r0: set<Id>, a0: seq<Id>, r1: set<Id>, a1: seq<Id>, r2: set<Id>, a2: seq<Id>, depth: nat)
    requires SortedByKey(keys, a0) && SortedByKey(keys, a1) && SortedByKey(keys, a2)
    requires Elements(a0) == r0 && Elements(a1) == r1 && Elements(a2) == r2
    requires forall x :: x in r0 ==> x in keys && keys[x] == Key(depth, 0, x)
    requires forall x :: x in r1 ==> x in keys && keys[x] == Key(depth, 1, x)
    requires forall x :: x in r2 ==> x in keys && keys[x] == Key(depth, 2, x)
    ensures SortedByKey(keys, a0 + a1 + a2)
    ensures Elements(a0 + a1 + a2) == r0 + r1 + r2
  {
    JoinPriorities(keys, r0, a0, r1, a1, depth, 0, 1);
    JoinPriorities(keys, r0 + r1, a0 + a1, r2, a2, depth, 1, 2);
  }

  /** How many accepted items have smaller keys than `x`. */
  ghost function Cut(keys: Keys, accepted: seq<Id>, x: Id): (n: nat)
    requires SortedByKey(keys, accepted) && x in keys
    ensures n <= |accepted|
    ensures forall i :: 0 <= i < n ==> Less(keys[accepted[i]], keys[x])
    ensures forall i :: n <= i < |accepted| ==> !Less(keys[accepted[i]], keys[x])
  {
    if accepted == [] then 0
    else if Less(keys[accepted[|accepted| - 1]], keys[x]) then |accepted|
    else Cut(keys, accepted[..|accepted| - 1], x)
  }

  lemma CutIs(keys: Keys, accepted: seq<Id>, x: Id, n: nat)
    requires SortedByKey(keys, accepted) && x in keys && n <= |accepted|
    requires forall i :: 0 <= i < n ==> Less(keys[accepted[i]], keys[x])
    requires forall i :: n <= i < |accepted| ==> !Less(keys[accepted[i]], keys[x])
    ensures Cut(keys, accepted, x) == n
  {
    var m := Cut(keys, accepted, x);
    var atCut := m < |accepted| && Less(keys[accepted[m]], keys[x]);
    var atN := n < |accepted| && Less(keys[accepted[n]], keys[x]);
    assert !atCut && !atN;
  }

  /** The accepted items with smaller keys than `x`. */
  ghost function Before(keys: Keys, accepted: seq<Id>, x: Id): seq<Id>
    requires SortedByKey(keys, accepted) && x in keys
  {
    accepted[..Cut(keys, accepted, x)]
  }

  /** `accepted` decides the items in `decided` by the rule, and contains nothing else. */
  ghost predicate ResolvedOn(rule: Rule, keys: Keys, accepted: seq<Id>, decided: set<Id>) {
    && decided <= keys.Keys
    && SortedByKey(keys, accepted)
    && (forall i :: 0 <= i < |accepted| ==> accepted[i] in decided)
    && forall x :: x in decided ==> (x in accepted <==> rule(Before(keys, accepted, x), x))
  }

  ghost predicate Resolved(rule: Rule, keys: Keys, accepted: seq<Id>) {
    ResolvedOn(rule, keys, accepted, keys.Keys)
  }

  /** The i-th accepted item was admitted after the first i. */
  lemma AdmittedInTurn(rule: Rule, keys: Keys, accepted: seq<Id>, decided: set<Id>, i: nat)
    requires ResolvedOn(rule, keys, accepted, decided) && i < |accepted|
    ensures Before(keys, accepted, accepted[i]) == accepted[..i]
    ensures rule(accepted[..i], accepted[i])
  {
    assert forall j :: i < j < |accepted| ==> Less(keys[accepted[i]], keys[accepted[j]]);
    CutIs(keys, accepted, accepted[i], i);
    assert accepted[i] in accepted;
  }

  // ------------------------------------------------------------------ deciding one more item

  /** `x` comes after everything decided. */
  ghost predicate ComesNext(keys: Keys, decided: set<Id>, x: Id) {
    && decided <= keys.Keys && x in keys && x !in decided
    && forall d :: d in decided ==> Less(keys[d], keys[x])
  }

  lemma AppendKeepsBefore(keys: Keys, accepted: seq<Id>, decided: set<Id>, x: Id, y: Id)
    requires SortedByKey(keys, accepted) && forall i :: 0 <= i < |accepted| ==> accepted[i] in decided
    requires ComesNext(keys, decided, x) && y in decided
    ensures SortedByKey(keys, accepted + [x])
    ensures Before(keys, accepted + [x], y) == Before(keys, accepted, y)
  {
    var n := Cut(keys, accepted, y);
    CutIs(keys, accepted + [x], y, n);
    assert (accepted + [x])[..n] == accepted[..n];
  }

  /** A next item sees everything accepted so far. */
  lemma NextSeesAll(keys: Keys, accepted: seq<Id>, decided: set<Id>, x: Id)
    requires SortedByKey(keys, accepted) && forall i :: 0 <= i < |accepted| ==> accepted[i] in decided
    requires ComesNext(keys, decided, x)
    ensures SortedByKey(keys, accepted + [x])
    ensures Before(keys, accepted, x) == accepted
    ensures Before(keys, accepted + [x], x) == accepted
  {
    CutIs(keys, accepted, x, |accepted|);
    assert accepted[..|accepted|] == accepted;
    CutIs(keys, accepted + [x], x, |accepted|);
    assert (accepted + [x])[..|accepted|] == accepted;
  }

  lemma DecideNext(rule: Rule, keys: Keys, accepted: seq<Id>, decided: set<Id>, x: Id)
    requires ResolvedOn(rule, keys, accepted, decided)
    requires ComesNext(keys, decided, x)
    ensures rule(accepted, x) ==> ResolvedOn(rule, keys, accepted + [x], decided + {x})
    ensures !rule(accepted, x) ==> ResolvedOn(rule, keys, accepted, decided + {x})
  {
    NextSeesAll(keys, accepted, decided, x);
    if rule(accepted, x) {
      var longer := accepted + [x];
      forall y | y in decided + {x}
        ensures y in longer <==> rule(Before(keys, longer, y), y)
      {
        if y != x {
          AppendKeepsBefore(keys, accepted, decided, x, y);
        } else {
          assert longer[|accepted|] == x;
        }
      }
    }
  }

  // ------------------------------------------------------------------ agreement on a segment

  /** `segment` is downward closed in the key order. */
  ghost predicate Initial(keys: Keys, segment: set<Id>) {
    && segment <= keys.Keys
    && forall x, z :: x in segment && z in keys && Less(keys[z], keys[x]) ==> z in segment
  }

  ghost predicate Within(ids: seq<Id>, segment: set<Id>) {
    forall i :: 0 <= i < |ids| ==> ids[i] in segment
  }

  ghost predicate RulesAgree(r: Rule, s: Rule, segment: set<Id>) {
    forall ids, x :: Within(ids, segment) && x in segment ==> r(ids, x) == s(ids, x)
  }

  /** Two resolutions of item sets that have the initial segment `segment` in common. */
  ghost predicate Agreeing(
    segment: set<Id>, r: Rule, k: Keys, a: seq<Id>, s: Rule, l: Keys, b: seq<Id>)
  {
    && Resolved(r, k, a) && Resolved(s, l, b)
    && KeyedById(k) && KeyedById(l)
    && Initial(k, segment) && Initial(l, segment)
    && RulesAgree(r, s, segment)
    && forall x :: x in segment ==> k[x] == l[x]
  }

  /** After equal prefixes, what stands next in `a` is the next segment member of `b` as well. */
  lemma PrefixSeenBy(segment: set<Id>, k: Keys, a: seq<Id>, l: Keys, b: seq<Id>, m: nat)
    requires SortedByKey(k, a) && SortedByKey(l, b) && Initial(k, segment) && Initial(l, segment)
    requires forall x :: x in segment ==> k[x] == l[x]
    requires m < |a| && m <= |b| && a[..m] == b[..m] && a[m] in segment
    requires m < |b| ==> b[m] !in segment || !Less(l[b[m]], l[a[m]])
    ensures Within(a[..m], segment)
    ensures Before(l, b, a[m]) == a[..m]
  {
    var x := a[m];
    forall i | 0 <= i < m
      ensures a[i] in segment && b[i] == a[i] && Less(l[b[i]], l[x])
    {
      assert Less(k[a[i]], k[x]);
      assert a[..m][i] == b[..m][i];
    }
    forall i | m <= i < |b|
      ensures !Less(l[b[i]], l[x])
    {
      assert m < i ==> Less(l[b[m]], l[b[i]]);
    }
    CutIs(l, b, x, m);
  }

  /** Nothing from position `m` on is a segment member that belonged at position `m`. */
  lemma NotLater(l: Keys, b: seq<Id>, segment: set<Id>, m: nat, x: Id)
    requires SortedByKey(l, b) && Initial(l, segment) && m <= |b| && x in segment
    requires m < |b| && b[m] in segment ==> Less(l[x], l[b[m]])
    ensures forall j :: m <= j < |b| ==> b[j] != x
  {
    forall j | m <= j < |b|
      ensures b[j] != x
    {
      assert m < j ==> Less(l[b[m]], l[b[j]]);
    }
  }

  lemma NotEarlier(k: Keys, a: seq<Id>, b: seq<Id>, m: nat)
    requires SortedByKey(k, a) && m < |a| && m <= |b| && a[..m] == b[..m]
    ensures forall j :: 0 <= j < m ==> b[j] != a[m]
  {
    forall j | 0 <= j < m
      ensures b[j] != a[m]
    {
      assert b[j] == b[..m][j] == a[..m][j] == a[j];
      assert Less(k[a[j]], k[a[m]]);
    }
  }

  /** The next segment member of `a` cannot be missing from `b`'s next place. */
  lemma NextMatches(
    segment: set<Id>, r: Rule, k: Keys, a: seq<Id>, s: Rule, l: Keys, b: seq<Id>, m: nat)
    requires Agreeing(segment, r, k, a, s, l, b)
    requires m < |a| && m <= |b| && a[..m] == b[..m] && a[m] in segment
    ensures m < |b| && b[m] in segment && !Less(l[a[m]], l[b[m]])
  {
    var x := a[m];
    NotEarlier(k, a, b, m);
    AdmittedInTurn(r, k, a, k.Keys, m);
    if !(m < |b| && b[m] in segment && !Less(l[x], l[b[m]])) {
      PrefixSeenBy(segment, k, a, l, b, m);
      NotLater(l, b, segment, m, x);
    }
  }

  /** The number of leading members of `segment`. */
  ghost function Leading(accepted: seq<Id>, segment: set<Id>): (n: nat)
    ensures n <= |accepted|
    ensures forall i :: 0 <= i < n ==> accepted[i] in segment
    ensures n < |accepted| ==> accepted[n] !in segment
  {
    if accepted == [] || accepted[0] !in segment then 0 else 1 + Leading(accepted[1..], segment)
  }

  lemma AgreeingIsSymmetric(segment: set<Id>, r: Rule, k: Keys, a: seq<Id>, s: Rule, l: Keys, b: seq<Id>)
    requires Agreeing(segment, r, k, a, s, l, b)
    ensures Agreeing(segment, s, l, b, r, k, a)
  {
    forall ids, x | Within(ids, segment) && x in segment
      ensures s(ids, x) == r(ids, x)
    {
    }
  }

  lemma LeadingIs(segment: set<Id>, a: seq<Id>, n: nat)
    requires n <= |a| && (n < |a| ==> a[n] !in segment)
    requires forall i :: 0 <= i < n ==> a[i] in segment
    ensures Leading(a, segment) == n
  {
    var m := Leading(a, segment);
    var atM := m < |a| && a[m] in segment;
    var atN := n < |a| && a[n] in segment;
    assert !atM && !atN;
  }

  /** If one side has a further segment member after equal prefixes, the other has the same one. */
  lemma NextIsSame(
    segment: set<Id>, r: Rule, k: Keys, a: seq<Id>, s: Rule, l: Keys, b: seq<Id>, m: nat)
    requires Agreeing(segment, r, k, a, s, l, b)
    requires m < |a| && m <= |b| && a[..m] == b[..m] && a[m] in segment
    ensures m < |b| && b[m] == a[m]
    ensures a[..m + 1] == b[..m + 1]
  {
    AgreeingIsSymmetric(segment, r, k, a, s, l, b);
    NextMatches(segment, r, k, a, s, l, b, m);
    NextMatches(segment, s, l, b, r, k, a, m);
    SameKey(k, a[m], b[m]);
    assert a[..m + 1] == a[..m] + [a[m]] && b[..m + 1] == b[..m] + [b[m]];
  }

  lemma {:induction false} MatchFrom(
    segment: set<Id>, r: Rule, k: Keys, a: seq<Id>, s: Rule, l: Keys, b: seq<Id>, m: nat)
    requires Agreeing(segment, r, k, a, s, l, b)
    requires m <= |a| && m <= |b| && Within(a[..m], segment) && a[..m] == b[..m]
    ensures exists n :: m <= n && SharedLead(segment, a, b, n)
    decreases |a| - m
  {
    if m < |a| && a[m] in segment {
      NextIsSame(segment, r, k, a, s, l, b, m);
      MatchFrom(segment, r, k, a, s, l, b, m + 1);
    } else {
      if m < |b| && b[m] in segment {
        AgreeingIsSymmetric(segment, r, k, a, s, l, b);
        NextIsSame(segment, s, l, b, r, k, a, m);
      }
      assert SharedLead(segment, a, b, m);
    }
  }

  /** Both sequences lead with the same `n` members of the segment, and no more. */
  ghost predicate SharedLead(segment: set<Id>, a: seq<Id>, b: seq<Id>, n: nat) {
    && n <= |a| && n <= |b| && a[..n] == b[..n] && Within(a[..n], segment)
    && (n < |a| ==> a[n] !in segment)
    && (n < |b| ==> b[n] !in segment)
  }

  lemma SameKey(k: Keys, x: Id, y: Id)
    requires KeyedById(k) && x in k && y in k
    requires !Less(k[x], k[y]) && !Less(k[y], k[x])
    ensures x == y
  {
  }

  /** Two resolutions agree on every initial segment they have in common. */
  lemma AgreeOnSegment(segment: set<Id>, r: Rule, k: Keys, a: seq<Id>, s: Rule, l: Keys, b: seq<Id>)
    requires Agreeing(segment, r, k, a, s, l, b)
    ensures Leading(a, segment) == Leading(b, segment)
    ensures a[..Leading(a, segment)] == b[..Leading(b, segment)]
  {
    MatchFrom(segment, r, k, a, s, l, b, 0);
    var n: nat :| SharedLead(segment, a, b, n);
    assert forall i :: 0 <= i < n ==> a[i] == a[..n][i] && b[i] == b[..n][i] == a[..n][i];
    LeadingIs(segment, a, n);
    LeadingIs(segment, b, n);
  }

  /** A rule and keys admit at most one resolution. */
  lemma ResolvedIsUnique(rule: Rule, keys: Keys, a: seq<Id>, b: seq<Id>)
    requires KeyedById(keys) && Resolved(rule, keys, a) && Resolved(rule, keys, b)
    ensures a == b
  {
    AgreeOnSegment(keys.Keys, rule, keys, a, rule, keys, b);
    assert Leading(a, keys.Keys) == |a| && Leading(b, keys.Keys) == |b|;
    assert a[..|a|] == a && b[..|b|] == b;
  }

  /** The leading members of an initial segment are all its accepted members, seen from inside it alike. */
  lemma SegmentSeesItself(keys: Keys, a: seq<Id>, segment: set<Id>, x: Id)
    requires SortedByKey(keys, a) && Initial(keys, segment) && x in segment
    ensures x in a <==> x in a[..Leading(a, segment)]
    ensures Before(keys, a, x) <= a[..Leading(a, segment)]
    ensures SortedByKey(keys, a[..Leading(a, segment)])
    ensures Before(keys, a, x) == Before(keys, a[..Leading(a, segment)], x)
  {
    var n := Leading(a, segment);
    var c := Cut(keys, a, x);
    assert forall i :: n < i < |a| ==> Less(keys[a[n]], keys[a[i]]);
    assert forall i :: n <= i < |a| ==> a[i] !in segment;
    assert c <= n;
    CutIs(keys, a[..n], x, c);
    assert a[..n][..c] == a[..c];
    if x in a {
      var i :| 0 <= i < |a| && a[i] == x;
      assert a[..n][i] == x;
    }
  }

  lemma SameBefore(k: Keys, l: Keys, lead: seq<Id>, segment: set<Id>, x: Id)
    requires SortedByKey(k, lead) && SortedByKey(l, lead) && Within(lead, segment) && x in segment
    requires segment <= k.Keys && segment <= l.Keys && forall y :: y in segment ==> k[y] == l[y]
    ensures Before(k, lead, x) == Before(l, lead, x)
  {
    CutIs(l, lead, x, Cut(k, lead, x));
  }

  /** Members of a common initial segment are accepted alike and judged after the same items. */
  lemma SegmentJudgedAlike(
    segment: set<Id>, r: Rule, k: Keys, a: seq<Id>, s: Rule, l: Keys, b: seq<Id>, x: Id)
    requires Agreeing(segment, r, k, a, s, l, b) && x in segment
    ensures x in a <==> x in b
    ensures Before(k, a, x) == Before(l, b, x)
  {
    AgreeOnSegment(segment, r, k, a, s, l, b);
    SegmentSeesItself(k, a, segment, x);
    SegmentSeesItself(l, b, segment, x);
    SameBefore(k, l, a[..Leading(a, segment)], segment, x);
  }

  // ------------------------------------------------------------------ one item more

  /** `l` has the keys of `k`, and possibly one for the new item `n`. */
  ghost predicate AddsAtMost(k: Keys, l: Keys, n: Id) {
    && n !in k
    && k.Keys <= l.Keys <= k.Keys + {n}
    && forall x :: x in k ==> k[x] == l[x]
  }

  /** The old items decided before the new one; all of them if the new one has no key. */
  ghost function OldBefore(k: Keys, l: Keys, n: Id): set<Id>
    requires AddsAtMost(k, l, n)
  {
    set x | x in k && (n in l ==> Less(l[x], l[n]))
  }

  lemma OldBeforeIsInitial(k: Keys, l: Keys, n: Id)
    requires AddsAtMost(k, l, n)
    ensures Initial(k, OldBefore(k, l, n)) && Initial(l, OldBefore(k, l, n))
  {
    var segment := OldBefore(k, l, n);
    forall x, z | x in segment && z in l && Less(l[z], l[x])
      ensures z in segment
    {
      assert z in k + map[n := l[z]];
    }
  }

  /** If everything is before the new item and it is not accepted or has no key, nothing changes. */
  lemma NothingNew(r: Rule, k: Keys, a: seq<Id>, s: Rule, b: seq<Id>)
    requires Agreeing(k.Keys, r, k, a, s, k, b)
    ensures a == b
  {
    AgreeOnSegment(k.Keys, r, k, a, s, k, b);
    assert Leading(a, k.Keys) == |a| && Leading(b, k.Keys) == |b|;
    assert a[..|a|] == a && b[..|b|] == b;
  }
}

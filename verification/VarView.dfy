/**
 The client's variable panes: SetVariables compares the daemon's list with the values shown
 before, sorts whole trees by what became of them, and rebuilds what it remembers.
 */
module VarView {
  import opened VarCollect
  import opened VarForest

  // ---------------------------------------------------------------- classes of roots

  // priority 1, 2, 3 and last
  datatype Class = New | Changed | Unchanged | Last

  function Order(c: Class): nat {
    match c
    case New => 0
    case Changed => 1
    case Unchanged => 2
    case Last => 3
  }

  // Collected::IsSolved
  predicate IsSolved(e: Entry) {
    !(e.value.Plain? && (e.value.kind.Unsolved? || e.value.kind.NotImplemented? || e.value.kind.NoValue?))
  }

  // m_ValS: tables are shown by address
  function ValS(e: Entry, address: nat -> string): string {
    match e.value
    case Plain(_, text) => text
    case Table(ref) => address(ref)
  }

  // what became of one entry
  function EntryClass(e: Entry, last: map<string, string>, address: nat -> string): Class {
    if !IsSolved(e) then Last
    else if e.path !in last || e.temporary then New
    else if ValS(e, address) != last[e.path] then Changed
    else Unchanged
  }

  function RootIndex(L: seq<Entry>, i: nat): int
    requires i < |L|
  {
    i - L[i].rootOffset
  }

  // some entry of root r is of class c
  predicate RootHas(L: seq<Entry>, r: int, c: Class, last: map<string, string>, address: nat -> string) {
    exists i :: 0 <= i < |L| && RootIndex(L, i) == r && EntryClass(L[i], last, address) == c
  }

  // a whole tree counts as new if anything in it is new, else as changed if anything changed, ...
  function RootClass(L: seq<Entry>, r: int, last: map<string, string>, address: nat -> string): Class {
    if RootHas(L, r, New, last, address) then New
    else if RootHas(L, r, Changed, last, address) then Changed
    else if RootHas(L, r, Unchanged, last, address) then Unchanged
    else Last
  }

  // ---------------------------------------------------------------- the sort

  // the indices below n whose root is of class c, in order
  function Picked(L: seq<Entry>, n: nat, classOf: int -> Class, c: Class): seq<nat>
    requires n <= |L|
    decreases n
  {
    if n == 0 then []
    else Picked(L, n - 1, classOf, c) + if classOf(RootIndex(L, n - 1)) == c then [n - 1] else []
  }

  function AutoLUT(L: seq<Entry>, classOf: int -> Class): seq<nat> {
    Picked(L, |L|, classOf, New) + Picked(L, |L|, classOf, Changed) +
    Picked(L, |L|, classOf, Unchanged) + Picked(L, |L|, classOf, Last)
  }

  // "lut" lists every index once, by class and then by position: the stable sort
  predicate StableOrder(L: seq<Entry>, lut: seq<nat>, classOf: int -> Class) {
    && |lut| == |L|
    && (forall k :: 0 <= k < |lut| ==> lut[k] < |L|)
    && (forall a, b :: 0 <= a < b < |lut| ==> Before(L, lut[a], lut[b], classOf))
  }

  predicate Before(L: seq<Entry>, i: nat, j: nat, classOf: int -> Class) {
    i < |L| && j < |L| &&
    var ci, cj := Order(classOf(RootIndex(L, i))), Order(classOf(RootIndex(L, j)));
    ci < cj || (ci == cj && i < j)
  }

  // ascending indices below n, all of class c
  predicate AllOf(L: seq<Entry>, p: seq<nat>, n: nat, classOf: int -> Class, c: Class)
    requires n <= |L|
  {
    && (forall k :: 0 <= k < |p| ==> p[k] < n && classOf(RootIndex(L, p[k])) == c)
    && (forall a, b :: 0 <= a < b < |p| ==> p[a] < p[b])
  }

  lemma {:induction false} PickedIs(L: seq<Entry>, n: nat, classOf: int -> Class, c: Class)
    requires n <= |L|
    ensures AllOf(L, Picked(L, n, classOf, c), n, classOf, c)
    decreases n
  {
    if n > 0 {
      PickedIs(L, n - 1, classOf, c);
      AllOfNext(L, Picked(L, n - 1, classOf, c), n, classOf, c);
    }
  }

  lemma AllOfNext(L: seq<Entry>, p: seq<nat>, n: nat, classOf: int -> Class, c: Class)
    requires 0 < n <= |L| && AllOf(L, p, n - 1, classOf, c)
    ensures AllOf(L, p, n, classOf, c)
    ensures classOf(RootIndex(L, n - 1)) == c ==> AllOf(L, p + [n - 1], n, classOf, c)
  {}

  // indices of an earlier class come before those of a later one
  lemma ClassesInOrder(L: seq<Entry>, p: seq<nat>, q: seq<nat>, classOf: int -> Class, c: Class, d: Class)
    requires AllOf(L, p, |L|, classOf, c) && AllOf(L, q, |L|, classOf, d) && Order(c) < Order(d)
    ensures AllBefore(L, p, q, classOf) && Ordered(L, p, classOf) && Ordered(L, q, classOf)
  {}

  predicate AllBefore(L: seq<Entry>, p: seq<nat>, q: seq<nat>, classOf: int -> Class) {
    forall a, b :: 0 <= a < |p| && 0 <= b < |q| ==> Before(L, p[a], q[b], classOf)
  }

  lemma {:induction false} PickedCount(L: seq<Entry>, n: nat, classOf: int -> Class)
    requires n <= |L|
    ensures |Picked(L, n, classOf, New)| + |Picked(L, n, classOf, Changed)| + |Picked(L, n, classOf, Unchanged)|
          + |Picked(L, n, classOf, Last)| == n
    decreases n
  {
    if n > 0 { PickedCount(L, n - 1, classOf); }
  }

  // The look-up table built from the four lists is the stable sort by class.
  lemma AutoLUTIsStable(L: seq<Entry>, classOf: int -> Class)
    ensures StableOrder(L, AutoLUT(L, classOf), classOf)
  {
    PickedCount(L, |L|, classOf);
    PickedIs(L, |L|, classOf, New);
    PickedIs(L, |L|, classOf, Changed);
    PickedIs(L, |L|, classOf, Unchanged);
    PickedIs(L, |L|, classOf, Last);
    FourInOrder(L, Picked(L, |L|, classOf, New), Picked(L, |L|, classOf, Changed),
                Picked(L, |L|, classOf, Unchanged), Picked(L, |L|, classOf, Last), classOf);
  }

  lemma FourInOrder(L: seq<Entry>, p0: seq<nat>, p1: seq<nat>, p2: seq<nat>, p3: seq<nat>, classOf: int -> Class)
    requires AllOf(L, p0, |L|, classOf, New) && AllOf(L, p1, |L|, classOf, Changed)
    requires AllOf(L, p2, |L|, classOf, Unchanged) && AllOf(L, p3, |L|, classOf, Last)
    ensures Ordered(L, p0 + p1 + p2 + p3, classOf)
  {
    ClassesInOrder(L, p0, p1, classOf, New, Changed);
    ClassesInOrder(L, p0, p2, classOf, New, Unchanged);
    ClassesInOrder(L, p0, p3, classOf, New, Last);
    ClassesInOrder(L, p1, p2, classOf, Changed, Unchanged);
    ClassesInOrder(L, p1, p3, classOf, Changed, Last);
    ClassesInOrder(L, p2, p3, classOf, Unchanged, Last);
    OrderedConcat(L, p2, p3, classOf);
    CrossConcat(L, p1, p2, p3, classOf);
    OrderedConcat(L, p1, p2 + p3, classOf);
    CrossConcat(L, p0, p2, p3, classOf);
    CrossConcat(L, p0, p1, p2 + p3, classOf);
    OrderedConcat(L, p0, p1 + (p2 + p3), classOf);
    assert p0 + p1 + p2 + p3 == p0 + (p1 + (p2 + p3));
  }

  lemma CrossConcat(L: seq<Entry>, p: seq<nat>, q: seq<nat>, r: seq<nat>, classOf: int -> Class)
    requires AllBefore(L, p, q, classOf) && AllBefore(L, p, r, classOf)
    ensures AllBefore(L, p, q + r, classOf)
  {}

  predicate Ordered(L: seq<Entry>, p: seq<nat>, classOf: int -> Class) {
    && (forall k :: 0 <= k < |p| ==> p[k] < |L|)
    && (forall a, b :: 0 <= a < b < |p| ==> Before(L, p[a], p[b], classOf))
  }

  lemma OrderedConcat(L: seq<Entry>, p: seq<nat>, q: seq<nat>, classOf: int -> Class)
    requires Ordered(L, p, classOf) && Ordered(L, q, classOf) && AllBefore(L, p, q, classOf)
    ensures Ordered(L, p + q, classOf)
  {
    forall a, b | 0 <= a < b < |p + q|
      ensures Before(L, (p + q)[a], (p + q)[b], classOf)
    {
      if b < |p| { assert Before(L, p[a], p[b], classOf); }
      else if a >= |p| { assert Before(L, q[a - |p|], q[b - |p|], classOf); }
      else { assert Before(L, p[a], q[b - |p|], classOf); }
    }
  }

  lemma {:induction false} PickedHas(L: seq<Entry>, n: nat, classOf: int -> Class, i: nat)
    requires i < n <= |L|
    ensures i in Picked(L, n, classOf, classOf(RootIndex(L, i)))
    decreases n
  {
    if i < n - 1 { PickedHas(L, n - 1, classOf, i); }
  }

  // no index is in the table twice, and none is missing
  lemma AutoLUTHasEach(L: seq<Entry>, classOf: int -> Class, i: nat)
    requires i < |L|
    ensures i in AutoLUT(L, classOf)
    ensures forall a, b :: 0 <= a < b < |AutoLUT(L, classOf)| ==> AutoLUT(L, classOf)[a] != AutoLUT(L, classOf)[b]
  {
    AutoLUTIsStable(L, classOf);
    PickedHas(L, |L|, classOf, i);
    var lut := AutoLUT(L, classOf);
    forall a, b | 0 <= a < b < |lut|
      ensures lut[a] != lut[b]
    {
      assert Before(L, lut[a], lut[b], classOf);
    }
  }

  function Rearranged(L: seq<Entry>, lut: seq<nat>): seq<Entry>
    requires forall k :: 0 <= k < |lut| ==> lut[k] < |L|
  {
    seq(|lut|, k requires 0 <= k < |lut| => L[lut[k]])
  }

  // ---------------------------------------------------------------- subtrees stay whole

  // the entries of the first n whose root is kept
  function Kept(L: seq<Entry>, n: nat, classOf: int -> Class, c: Class): seq<Entry>
    requires n <= |L|
    decreases n
  {
    if n == 0 then []
    else Kept(L, n - 1, classOf, c) + if classOf(RootIndex(L, n - 1)) == c then [L[n - 1]] else []
  }

  lemma {:induction false} KeptIsPicked(L: seq<Entry>, n: nat, classOf: int -> Class, c: Class)
    requires n <= |L|
    ensures |Kept(L, n, classOf, c)| == |Picked(L, n, classOf, c)|
    ensures forall k :: 0 <= k < |Picked(L, n, classOf, c)| ==>
              Picked(L, n, classOf, c)[k] < |L| && Kept(L, n, classOf, c)[k] == L[Picked(L, n, classOf, c)[k]]
    decreases n
  {
    PickedIs(L, n, classOf, c);
    if n > 0 {
      KeptIsPicked(L, n - 1, classOf, c);
      PickedIs(L, n - 1, classOf, c);
    }
  }

  // n is where a tree starts, or the end
  predicate Cut(L: seq<Entry>, n: nat) {
    n == |L| || (n < |L| && L[n].indent == 0)
  }

  // the start of the tree that ends at n
  function TreeStart(L: seq<Entry>, n: nat): (r: nat)
    requires 0 < n <= |L| && Roots(L)
    ensures r < n && L[r].indent == 0
  {
    assert RootAt(L, n - 1);
    RootIndex(L, n - 1)
  }

  // a tree is kept as a whole or not at all
  lemma {:induction false} TreeKept(L: seq<Entry>, r: nat, n: nat, classOf: int -> Class, c: Class)
    requires r <= n <= |L| && Roots(L) && (n > r ==> L[r].indent == 0)
    requires forall j :: r < j < n ==> L[j].indent > 0
    ensures Kept(L, n, classOf, c) == Kept(L, r, classOf, c) + if classOf(r) == c then L[r..n] else []
    decreases n
  {
    if n > r {
      TreeKept(L, r, n - 1, classOf, c);
      assert RootAt(L, n - 1);
      assert RootIndex(L, n - 1) == r;
      assert L[r..n] == L[r..n - 1] + [L[n - 1]];
    }
  }

  // [r, n) is one tree of L
  predicate TreeAt(L: seq<Entry>, r: nat, n: nat) {
    r < n <= |L| && L[r].indent == 0 && forall j :: r < j < n ==> L[j].indent > 0
  }

  lemma TreeRoots(L: seq<Entry>, r: nat, n: nat)
    requires Roots(L) && TreeAt(L, r, n)
    ensures Roots(L[r..n])
  {
    var B := L[r..n];
    forall i | 0 <= i < |B|
      ensures RootAt(B, i)
    {
      assert RootAt(L, r + i);
    }
  }

  lemma TreeParents(L: seq<Entry>, r: nat, n: nat)
    requires Parents(L, 0) && TreeAt(L, r, n)
    ensures Parents(L[r..n], 0)
  {
    var B := L[r..n];
    forall i | 0 <= i < |B| && B[i].indent > 0
      ensures HasParent(B, i)
    {
      assert HasParent(L, r + i);
      var p: nat :| ParentAt(L, p, r + i) && FieldOf(L[r + i], L[p]);
      assert p >= r;
      assert ParentAt(B, p - r, i);
    }
  }

  lemma TreeForest(L: seq<Entry>, r: nat, n: nat)
    requires Forest(L) && TreeAt(L, r, n)
    ensures Forest(L[r..n])
  {
    TreeRoots(L, r, n);
    TreeParents(L, r, n);
  }

  lemma {:induction false} KeptForest(L: seq<Entry>, n: nat, classOf: int -> Class, c: Class)
    requires Forest(L) && n <= |L| && Cut(L, n)
    ensures Forest(Kept(L, n, classOf, c))
    decreases n
  {
    if n > 0 {
      var r := TreeStart(L, n);
      assert RootAt(L, n - 1);
      KeptForest(L, r, classOf, c);
      TreeKept(L, r, n, classOf, c);
      if classOf(r) == c {
        TreeForest(L, r, n);
        ForestConcat(Kept(L, r, classOf, c), L[r..n]);
      } else {
        assert Kept(L, n, classOf, c) == Kept(L, r, classOf, c);
      }
    }
  }

  // Sorting by class tears no subtree apart: the sorted list is again a forest in pre-order, with
  // every root at the offset the daemon wrote, and it has the same entries.
  lemma SortKeepsForest(L: seq<Entry>, classOf: int -> Class)
    requires Forest(L)
    ensures StableOrder(L, AutoLUT(L, classOf), classOf)
    ensures Forest(Rearranged(L, AutoLUT(L, classOf)))
  {
    AutoLUTIsStable(L, classOf);
    var k0, k1, k2, k3 := Kept(L, |L|, classOf, New), Kept(L, |L|, classOf, Changed),
                          Kept(L, |L|, classOf, Unchanged), Kept(L, |L|, classOf, Last);
    KeptForest(L, |L|, classOf, New);
    KeptForest(L, |L|, classOf, Changed);
    KeptForest(L, |L|, classOf, Unchanged);
    KeptForest(L, |L|, classOf, Last);
    ForestConcat(k0, k1);
    ForestConcat(k0 + k1, k2);
    ForestConcat(k0 + k1 + k2, k3);
    RearrangedIsKept(L, classOf);
  }

  lemma RearrangedIsKept(L: seq<Entry>, classOf: int -> Class)
    requires forall k :: 0 <= k < |AutoLUT(L, classOf)| ==> AutoLUT(L, classOf)[k] < |L|
    ensures Rearranged(L, AutoLUT(L, classOf)) == Kept(L, |L|, classOf, New) + Kept(L, |L|, classOf, Changed)
                                                + Kept(L, |L|, classOf, Unchanged) + Kept(L, |L|, classOf, Last)
  {
    KeptIsPicked(L, |L|, classOf, New);
    KeptIsPicked(L, |L|, classOf, Changed);
    KeptIsPicked(L, |L|, classOf, Unchanged);
    KeptIsPicked(L, |L|, classOf, Last);
  }

  // the expanded paths do not depend on the order
  lemma SortKeepsExpanded(L: seq<Entry>, classOf: int -> Class)
    ensures AutoLUTIndices(L, classOf)
    ensures ShownExpanded(Rearranged(L, AutoLUT(L, classOf))) == ShownExpanded(L)
  {
    AutoLUTIsStable(L, classOf);
    var lut := AutoLUT(L, classOf);
    var R := Rearranged(L, lut);
    forall e | e in L && e.expanded
      ensures e in R
    {
      var i :| 0 <= i < |L| && L[i] == e;
      AutoLUTHasEach(L, classOf, i);
      var k :| 0 <= k < |lut| && lut[k] == i;
      assert R[k] == e;
    }
    assert forall e | e in R :: e in L;
  }

  predicate AutoLUTIndices(L: seq<Entry>, classOf: int -> Class) {
    forall k :: 0 <= k < |AutoLUT(L, classOf)| ==> AutoLUT(L, classOf)[k] < |L|
  }

  // the value last seen at each path, among the first n entries
  function LastVals(L: seq<Entry>, n: nat, address: nat -> string): map<string, string>
    requires n <= |L|
    decreases n
  {
    if n == 0 then map[] else LastVals(L, n - 1, address)[L[n - 1].path := ValS(L[n - 1], address)]
  }

  // Shown again unchanged, a list has nothing new or changed but temporaries, apart from entries whose
  // path a later one has too.
  lemma {:induction false} LastValsHas(L: seq<Entry>, n: nat, address: nat -> string, i: nat)
    requires i < n <= |L|
    requires forall j :: i < j < n ==> L[j].path != L[i].path
    ensures L[i].path in LastVals(L, n, address) && Reads(L[i], LastVals(L, n, address)[L[i].path], address)
    ensures EntryClass(L[i], LastVals(L, n, address), address) ==
              if !IsSolved(L[i]) then Last else if L[i].temporary then New else Unchanged
    decreases n
  {
    if i < n - 1 { LastValsHas(L, n - 1, address, i); }
  }

  // and nothing else is remembered
  lemma {:induction false} LastValsOnly(L: seq<Entry>, n: nat, address: nat -> string, path: string)
    requires n <= |L|
    ensures path in LastVals(L, n, address) <==> exists i :: 0 <= i < n && L[i].path == path
    decreases n
  {
    if n > 0 { LastValsOnly(L, n - 1, address, path); }
  }

  // ---------------------------------------------------------------- what the user is promised

  // the daemon found a value
  predicate Solved(e: Entry) {
    e.value.Plain? ==> e.value.kind !in {Unsolved, NotImplemented, NoValue}
  }

  // the value shown for e is s
  predicate Reads(e: Entry, s: string, address: nat -> string) {
    match e.value
    case Plain(_, text) => s == text
    case Table(ref) => s == address(ref)
  }

  // a variable that has come, or may have
  predicate HasCome(e: Entry, last: map<string, string>) {
    Solved(e) && (e.temporary || e.path !in last)
  }

  // one whose value was another one
  predicate HasChanged(e: Entry, last: map<string, string>, address: nat -> string) {
    Solved(e) && !e.temporary && e.path in last && !Reads(e, last[e.path], address)
  }

  predicate IsSame(e: Entry, last: map<string, string>, address: nat -> string) {
    Solved(e) && !e.temporary && e.path in last && Reads(e, last[e.path], address)
  }

  predicate TreeHasNew(L: seq<Entry>, r: int, last: map<string, string>) {
    exists i :: 0 <= i < |L| && i - L[i].rootOffset == r && HasCome(L[i], last)
  }

  predicate TreeHasChanged(L: seq<Entry>, r: int, last: map<string, string>, address: nat -> string) {
    exists i :: 0 <= i < |L| && i - L[i].rootOffset == r && HasChanged(L[i], last, address)
  }

  predicate TreeHasSame(L: seq<Entry>, r: int, last: map<string, string>, address: nat -> string) {
    exists i :: 0 <= i < |L| && i - L[i].rootOffset == r && IsSame(L[i], last, address)
  }

  function Rank(L: seq<Entry>, r: int, last: map<string, string>, address: nat -> string): nat {
    if TreeHasNew(L, r, last) then 0
    else if TreeHasChanged(L, r, last, address) then 1
    else if TreeHasSame(L, r, last, address) then 2
    else 3
  }

  // a row is flagged when an entry of its path has changed
  predicate PathChanged(L: seq<Entry>, path: string, last: map<string, string>, address: nat -> string) {
    exists i :: 0 <= i < |L| && L[i].path == path && HasChanged(L[i], last, address)
  }

  // what change detection finds: the roots of each rank and the paths to be flagged
  datatype Changes = Changes(newVars: set<int>, changedVars: set<int>, unchangedVars: set<int>, changedPaths: set<string>)

  ghost predicate Detected(L: seq<Entry>, found: Changes, last: map<string, string>, address: nat -> string) {
    && (forall r :: r in found.newVars <==> TreeHasNew(L, r, last))
    && (forall r :: r in found.changedVars <==> TreeHasChanged(L, r, last, address))
    && (forall r :: r in found.unchangedVars <==> TreeHasSame(L, r, last, address))
    && (forall p :: p in found.changedPaths <==> PathChanged(L, p, last, address))
  }

  lemma OneMoreEntry(L: seq<Entry>, e: Entry, next: seq<Entry>, last: map<string, string>, address: nat -> string)
    requires next == L + [e]
    ensures forall r :: TreeHasNew(next, r, last) <==>
              TreeHasNew(L, r, last) || (r == |L| - e.rootOffset && HasCome(e, last))
    ensures forall r :: TreeHasChanged(next, r, last, address) <==>
              TreeHasChanged(L, r, last, address) || (r == |L| - e.rootOffset && HasChanged(e, last, address))
    ensures forall r :: TreeHasSame(next, r, last, address) <==>
              TreeHasSame(L, r, last, address) || (r == |L| - e.rootOffset && IsSame(e, last, address))
    ensures forall p :: PathChanged(next, p, last, address) <==>
              PathChanged(L, p, last, address) || (p == e.path && HasChanged(e, last, address))
  {
    assert next[|L|] == e && forall i :: 0 <= i < |L| ==> next[i] == L[i];
  }

  lemma DetectedNext(L: seq<Entry>, e: Entry, next: seq<Entry>, before: Changes, found: Changes, last: map<string, string>, address: nat -> string)
    requires next == L + [e] && Detected(L, before, last, address)
    requires forall r :: r in found.newVars <==> r in before.newVars || (r == |L| - e.rootOffset && HasCome(e, last))
    requires forall r :: r in found.changedVars <==> r in before.changedVars || (r == |L| - e.rootOffset && HasChanged(e, last, address))
    requires forall r :: r in found.unchangedVars <==> r in before.unchangedVars || (r == |L| - e.rootOffset && IsSame(e, last, address))
    requires forall p :: p in found.changedPaths <==> p in before.changedPaths || (p == e.path && HasChanged(e, last, address))
    ensures Detected(next, found, last, address)
  {
    OneMoreEntry(L, e, next, last, address);
  }

  // Trees with something new come first, then those with a changed value, then those with a value,
  // each in the daemon's order.
  predicate Precedes(L: seq<Entry>, i: nat, j: nat, last: map<string, string>, address: nat -> string)
    requires i < |L| && j < |L|
  {
    var ri, rj := Rank(L, i - L[i].rootOffset, last, address), Rank(L, j - L[j].rootOffset, last, address);
    ri < rj || (ri == rj && i < j)
  }

  lemma RankIs(L: seq<Entry>, r: int, last: map<string, string>, address: nat -> string)
    ensures TreeHasNew(L, r, last) <==> RootHas(L, r, New, last, address)
    ensures TreeHasChanged(L, r, last, address) <==> RootHas(L, r, Changed, last, address)
    ensures TreeHasSame(L, r, last, address) <==> RootHas(L, r, Unchanged, last, address)
    ensures Rank(L, r, last, address) == Order(RootClass(L, r, last, address))
  {
    forall i | 0 <= i < |L|
      ensures HasCome(L[i], last) <==> EntryClass(L[i], last, address) == New
      ensures HasChanged(L[i], last, address) <==> EntryClass(L[i], last, address) == Changed
      ensures IsSame(L[i], last, address) <==> EntryClass(L[i], last, address) == Unchanged
    {
      ClassIs(L[i], last, address);
    }
  }

  lemma ClassIs(e: Entry, last: map<string, string>, address: nat -> string)
    ensures HasCome(e, last) <==> EntryClass(e, last, address) == New
    ensures HasChanged(e, last, address) <==> EntryClass(e, last, address) == Changed
    ensures IsSame(e, last, address) <==> EntryClass(e, last, address) == Unchanged
  {
  }

  // The table for the classes found is in the order promised.
  lemma SortedAsPromised(L: seq<Entry>, last: map<string, string>, address: nat -> string, classOf: int -> Class)
    requires forall r :: classOf(r) == RootClass(L, r, last, address)
    ensures var lut := AutoLUT(L, classOf);
            && |lut| == |L| && (forall k :: 0 <= k < |lut| ==> lut[k] < |L|)
            && forall a, b :: 0 <= a < b < |lut| ==> Precedes(L, lut[a], lut[b], last, address)
  {
    AutoLUTIsStable(L, classOf);
    var lut := AutoLUT(L, classOf);
    forall a, b | 0 <= a < b < |lut|
      ensures Precedes(L, lut[a], lut[b], last, address)
    {
      assert Before(L, lut[a], lut[b], classOf);
      RankIs(L, RootIndex(L, lut[a]), last, address);
      RankIs(L, RootIndex(L, lut[b]), last, address);
    }
  }

  // ---------------------------------------------------------------- SetVariables

  class VarViewCtrl {
    var collectedList: seq<Entry>
    var varPathToLastVal: map<string, string>
    var expandedTableSet: set<string>
    var flaggedChanged: seq<bool>   // VAR_FLAG_CHANGED of each row

    constructor ()
      ensures collectedList == [] && varPathToLastVal == map[] && expandedTableSet == {}
    {
      collectedList, varPathToLastVal, expandedTableSet, flaggedChanged := [], map[], {}, [];
    }

    method SetVariables(newCollected: seq<Entry>, autoSort: bool, address: nat -> string) returns (ghost lut: seq<nat>)
      modifies this
      ensures lut == AutoLUT(newCollected, r => RootClass(newCollected, r, old(varPathToLastVal), address))
      ensures |lut| == |newCollected| && forall k :: 0 <= k < |lut| ==> lut[k] < |newCollected|
      ensures forall a, b :: 0 <= a < b < |lut| ==> Precedes(newCollected, lut[a], lut[b], old(varPathToLastVal), address)
      ensures collectedList == if autoSort then Rearranged(newCollected, lut) else newCollected
      ensures autoSort ==> forall k :: 0 <= k < |lut| ==> collectedList[k] == newCollected[lut[k]]
      ensures |flaggedChanged| == |newCollected|
      ensures forall k :: 0 <= k < |flaggedChanged| ==>
                (flaggedChanged[k] <==> PathChanged(newCollected, collectedList[k].path, old(varPathToLastVal), address))
      ensures expandedTableSet == ShownExpanded(collectedList)
      ensures varPathToLastVal == LastVals(collectedList, |collectedList|, address)
    {
      var newVars, changedVars, unchangedVars, changedPaths := DetectChanges(newCollected, address);
      ghost var classOf := r => RootClass(newCollected, r, old(varPathToLastVal), address);
      forall r {
        RankIs(newCollected, r, old(varPathToLastVal), address);
      }
      var autoLUT := BuildLUT(newCollected, newVars, changedVars, unchangedVars, classOf);
      lut := autoLUT;
      SortedAsPromised(newCollected, old(varPathToLastVal), address, classOf);
      WriteSorted(newCollected, autoSort, autoLUT);
      Unroll(changedPaths, address);
    }

    // the loop that writes the possibly sorted list
    method WriteSorted(newCollected: seq<Entry>, autoSort: bool, autoLUT: seq<nat>)
      requires |autoLUT| == |newCollected| && forall k :: 0 <= k < |autoLUT| ==> autoLUT[k] < |newCollected|
      modifies this`collectedList
      ensures collectedList == if autoSort then Rearranged(newCollected, autoLUT) else newCollected
    {
      collectedList := [];
      var k := 0;
      while k < |newCollected|
        invariant 0 <= k <= |newCollected|
        invariant |collectedList| == k
        invariant forall j :: 0 <= j < k ==> collectedList[j] == newCollected[if autoSort then autoLUT[j] else j]
      {
        var i := if autoSort then autoLUT[k] else k;
        collectedList := collectedList + [newCollected[i]];
        k := k + 1;
      }
    }

    // change detection: the roots with a new, a changed, an unchanged entry
    method DetectChanges(L: seq<Entry>, address: nat -> string)
      returns (newVars: set<int>, changedVars: set<int>, unchangedVars: set<int>, changedPaths: set<string>)
      ensures forall r :: r in newVars <==> TreeHasNew(L, r, varPathToLastVal)
      ensures forall r :: r in changedVars <==> TreeHasChanged(L, r, varPathToLastVal, address)
      ensures forall r :: r in unchangedVars <==> TreeHasSame(L, r, varPathToLastVal, address)
      ensures forall p :: p in changedPaths <==> PathChanged(L, p, varPathToLastVal, address)
    {
      newVars, changedVars, unchangedVars, changedPaths := {}, {}, {}, {};
      var i := 0;
      while i < |L|
        invariant 0 <= i <= |L|
        invariant Detected(L[..i], Changes(newVars, changedVars, unchangedVars, changedPaths), varPathToLastVal, address)
      {
        ghost var before := Changes(newVars, changedVars, unchangedVars, changedPaths);
        var e, r := L[i], RootIndex(L, i);
        if IsSolved(e) {
          if e.path !in varPathToLastVal || e.temporary {
            newVars := newVars + {r};
          } else if ValS(e, address) != varPathToLastVal[e.path] {
            changedPaths := changedPaths + {e.path};
            changedVars := changedVars + {r};
          } else {
            unchangedVars := unchangedVars + {r};
          }
        }
        DetectedNext(L[..i], e, L[..i + 1], before, Changes(newVars, changedVars, unchangedVars, changedPaths), varPathToLastVal, address);
        i := i + 1;
      }
      assert L[..i] == L;
    }

    // the four index lists, one after the other
    method BuildLUT(L: seq<Entry>, newVars: set<int>, changedVars: set<int>, unchangedVars: set<int>, ghost classOf: int -> Class)
      returns (autoLUT: seq<nat>)
      requires forall r :: classOf(r) == (if r in newVars then New else if r in changedVars then Changed
                                          else if r in unchangedVars then Unchanged else Last)
      ensures autoLUT == AutoLUT(L, classOf)
    {
      var newList: seq<nat>, changedList: seq<nat>, unchangedList: seq<nat>, unsolvedList: seq<nat> := [], [], [], [];
      var i := 0;
      while i < |L|
        invariant 0 <= i <= |L|
        invariant newList == Picked(L, i, classOf, New) && changedList == Picked(L, i, classOf, Changed)
        invariant unchangedList == Picked(L, i, classOf, Unchanged) && unsolvedList == Picked(L, i, classOf, Last)
      {
        var r := RootIndex(L, i);
        if r in newVars {
          newList := newList + [i];
        } else if r in changedVars {
          changedList := changedList + [i];
        } else if r in unchangedVars {
          unchangedList := unchangedList + [i];
        } else {
          unsolvedList := unsolvedList + [i];
        }
        i := i + 1;
      }
      autoLUT := newList + changedList + unchangedList + unsolvedList;
    }

    // remember the values shown and the tables shown expanded, and flag what changed
    method Unroll(changedPaths: set<string>, address: nat -> string)
      modifies this`varPathToLastVal, this`expandedTableSet, this`flaggedChanged
      ensures expandedTableSet == ShownExpanded(collectedList)
      ensures varPathToLastVal == LastVals(collectedList, |collectedList|, address)
      ensures |flaggedChanged| == |collectedList|
      ensures forall k :: 0 <= k < |flaggedChanged| ==> (flaggedChanged[k] <==> collectedList[k].path in changedPaths)
    {
      varPathToLastVal, expandedTableSet, flaggedChanged := map[], {}, [];
      var i := 0;
      while i < |collectedList|
        invariant 0 <= i <= |collectedList|
        invariant forall p :: p in expandedTableSet <==> exists j :: 0 <= j < i && collectedList[j].expanded && collectedList[j].path == p
        invariant varPathToLastVal == LastVals(collectedList, i, address)
        invariant |flaggedChanged| == i
        invariant forall k :: 0 <= k < i ==> (flaggedChanged[k] <==> collectedList[k].path in changedPaths)
      {
        var ce := collectedList[i];
        varPathToLastVal := varPathToLastVal[ce.path := ValS(ce, address)];
        flaggedChanged := flaggedChanged + [ce.path in changedPaths];
        if ce.expanded {
          expandedTableSet := expandedTableSet + {ce.path};
        }
        i := i + 1;
      }
    }
  }
}

/**
 The flat list is a forest in pre-order: every entry's parent can be found by looking back, and
 so can its root.  And it is all of what the client asked for.
 */
module VarForest {
  import opened VarCollect

  // p is the nearest entry before i with a smaller indent
  predicate ParentAt(L: seq<Entry>, p: nat, i: nat) {
    && p < i < |L|
    && L[p].indent == L[i].indent - 1
    && forall j :: p < j < i ==> L[j].indent >= L[i].indent
  }

  // ... and a table shown expanded, of which i is a field
  predicate FieldOf(child: Entry, parent: Entry) {
    parent.value.Table? && parent.expanded && parent.path != "" && child.path == parent.path + "[" + child.key + "]"
  }

  ghost predicate HasParent(L: seq<Entry>, i: nat)
    requires i < |L|
  {
    exists p: nat :: ParentAt(L, p, i) && FieldOf(L[i], L[p])
  }

  // i's root is the nearest entry of indent 0 at or before i
  predicate RootAt(L: seq<Entry>, i: nat)
    requires i < |L|
  {
    var r := i - L[i].rootOffset;
    0 <= r <= i && L[r].indent == 0 && forall j :: r < j <= i ==> L[j].indent > 0
  }

  // every entry deeper than "indent" has its parent in L
  ghost predicate Parents(L: seq<Entry>, indent: nat) {
    forall i {:trigger HasParent(L, i)} :: 0 <= i < |L| && L[i].indent > indent ==> HasParent(L, i)
  }

  predicate Roots(L: seq<Entry>) {
    forall i {:trigger RootAt(L, i)} :: 0 <= i < |L| ==> RootAt(L, i)
  }

  predicate Bounded(L: seq<Entry>) {
    forall i :: 0 <= i < |L| ==> L[i].indent <= MAX_TABLE_RECURSION + 1
  }

  predicate RootPaths(L: seq<Entry>) {
    forall i :: 0 <= i < |L| && L[i].indent == 0 ==> L[i].path == L[i].key
  }

  ghost predicate Forest(L: seq<Entry>) {
    Parents(L, 0) && Roots(L) && Bounded(L) && RootPaths(L)
  }

  lemma HasParentShift(A: seq<Entry>, B: seq<Entry>, i: nat)
    requires i < |B| && HasParent(B, i)
    ensures HasParent(A + B, |A| + i)
  {
    var p: nat :| ParentAt(B, p, i) && FieldOf(B[i], B[p]);
    assert ParentAt(A + B, |A| + p, |A| + i);
  }

  lemma HasParentPrefix(A: seq<Entry>, B: seq<Entry>, i: nat)
    requires i < |A| && HasParent(A, i)
    ensures HasParent(A + B, i)
  {
    var p: nat :| ParentAt(A, p, i) && FieldOf(A[i], A[p]);
    assert ParentAt(A + B, p, i);
  }

  lemma ParentsConcat(A: seq<Entry>, B: seq<Entry>, indent: nat)
    requires Parents(A, indent) && Parents(B, indent)
    ensures Parents(A + B, indent)
  {
    forall i | 0 <= i < |A + B| && (A + B)[i].indent > indent
      ensures HasParent(A + B, i)
    {
      if i < |A| { HasParentPrefix(A, B, i); } else { HasParentShift(A, B, i - |A|); }
    }
  }

  lemma RootsConcat(A: seq<Entry>, B: seq<Entry>)
    requires Roots(A) && Roots(B)
    ensures Roots(A + B)
  {
    forall i | 0 <= i < |A + B|
      ensures RootAt(A + B, i)
    {
      if i < |A| { assert RootAt(A, i); } else { assert RootAt(B, i - |A|); }
    }
  }

  lemma ForestConcat(A: seq<Entry>, B: seq<Entry>)
    requires Forest(A) && Forest(B)
    ensures Forest(A + B)
  {
    ParentsConcat(A, B, 0);
    RootsConcat(A, B);
  }

  // ---------------------------------------------------------------- what a walk yields

  // a run of entries at or below "indent", whose top entries are fields of a table at "path"
  predicate Levels(L: seq<Entry>, path: string, indent: nat, offset: nat) {
    forall i :: 0 <= i < |L| ==>
      && indent <= L[i].indent <= MAX_TABLE_RECURSION + 1 && L[i].rootOffset == offset + i
      && (L[i].indent == indent ==> L[i].path == Path(path, L[i].key))
  }

  ghost predicate Below(L: seq<Entry>, path: string, indent: nat, offset: nat) {
    Levels(L, path, indent, offset) && Parents(L, indent)
  }

  lemma BelowConcat(A: seq<Entry>, B: seq<Entry>, path: string, indent: nat, offset: nat)
    requires Below(A, path, indent, offset) && Below(B, path, indent, offset + |A|)
    ensures Below(A + B, path, indent, offset)
  {
    ParentsConcat(A, B, indent);
  }

  // a field of the table "own" finds it right at the front
  lemma ParentInFront(own: Entry, rest: seq<Entry>, i: nat)
    requires i < |rest| && FieldOf(rest[i], own) && rest[i].indent == own.indent + 1
    requires forall j :: 0 <= j < |rest| ==> rest[j].indent > own.indent
    ensures HasParent([own] + rest, 1 + i)
  {
    assert ParentAt([own] + rest, 0, 1 + i);
  }

  lemma ParentsCons(own: Entry, rest: seq<Entry>)
    requires Parents(rest, own.indent + 1)
    requires forall i :: 0 <= i < |rest| ==> rest[i].indent > own.indent
    requires forall i :: 0 <= i < |rest| && rest[i].indent == own.indent + 1 ==> FieldOf(rest[i], own)
    ensures Parents([own] + rest, own.indent)
  {
    forall i | 0 <= i < |[own] + rest| && ([own] + rest)[i].indent > own.indent
      ensures HasParent([own] + rest, i)
    {
      if rest[i - 1].indent == own.indent + 1 {
        ParentInFront(own, rest, i - 1);
      } else {
        HasParentShift([own], rest, i - 1);
      }
    }
  }

  lemma BelowCons(own: Entry, rest: seq<Entry>, path: string, offset: nat)
    requires own.path == Path(path, own.key) && own.path != "" && own.rootOffset == offset
    requires own.value.Table? && own.expanded && own.indent <= MAX_TABLE_RECURSION
    requires Below(rest, own.path, own.indent + 1, offset + 1)
    ensures Below([own] + rest, path, own.indent, offset)
  {
    ParentsCons(own, rest);
  }

  lemma {:induction false} VisitBelow(heap: Heap, q: Request, key: string, v: Value, parent: string, indent: nat, offset: nat)
    requires indent <= MAX_TABLE_RECURSION + 1 && key != ""
    ensures Below(Visit(heap, q, key, v, parent, indent, offset), parent, indent, offset)
    decreases MAX_TABLE_RECURSION + 2 - indent, 0
  {
    var path := Path(parent, key);
    if Visible(q, key, v) && Recurses(q, path, indent, v) {
      var own := Entry(key, path, indent, v, true, offset, IsTemporary(key));
      WalkBelow(heap, q, FieldsOf(heap, v.ref), |FieldsOf(heap, v.ref)|, path, indent + 1, offset + 1);
      BelowCons(own, WalkAll(heap, q, v.ref, path, indent + 1, offset + 1), parent, offset);
    }
  }

  lemma {:induction false} WalkBelow(heap: Heap, q: Request, fields: seq<Field>, n: nat, path: string, indent: nat, offset: nat)
    requires n <= |fields|
    requires indent <= MAX_TABLE_RECURSION + 1
    ensures Below(Walk(heap, q, fields, n, path, indent, offset), path, indent, offset)
    decreases MAX_TABLE_RECURSION + 2 - indent, n + 1
  {
    if n > 0 {
      var before := Walk(heap, q, fields, n - 1, path, indent, offset);
      WalkBelow(heap, q, fields, n - 1, path, indent, offset);
      VisitBelow(heap, q, KeyText(fields[n - 1].key), fields[n - 1].value, path, indent, offset + |before|);
      BelowConcat(before, Visit(heap, q, KeyText(fields[n - 1].key), fields[n - 1].value, path, indent, offset + |before|), path, indent, offset);
    }
  }

  lemma {:induction false} VisitHead(heap: Heap, q: Request, key: string, v: Value, parent: string, indent: nat, offset: nat)
    requires indent <= MAX_TABLE_RECURSION + 1 && key != ""
    ensures var L := Visit(heap, q, key, v, parent, indent, offset);
      && (L == [] <==> !Visible(q, key, v))
      && (L != [] ==> L[0] == Entry(key, Path(parent, key), indent, v, v.Table? && Path(parent, key) in q.expanded, offset, IsTemporary(key)))
      && forall i :: 1 <= i < |L| ==> L[i].indent > indent
  {
    var path := Path(parent, key);
    if Visible(q, key, v) && Recurses(q, path, indent, v) {
      WalkBelow(heap, q, FieldsOf(heap, v.ref), |FieldsOf(heap, v.ref)|, path, indent + 1, offset + 1);
    }
  }

  // A root and everything below it is a forest of one tree.
  lemma VisitForest(heap: Heap, q: Request, key: string, v: Value)
    requires key != ""
    ensures Forest(Visit(heap, q, key, v, "", 0, 0))
  {
    var L := Visit(heap, q, key, v, "", 0, 0);
    VisitBelow(heap, q, key, v, "", 0, 0);
    VisitHead(heap, q, key, v, "", 0, 0);
  }

  // The list sent for the globals is a forest, however the heap loops.
  lemma {:induction false} GlobalsForest(heap: Heap, q: Request, fields: seq<Field>, n: nat, hideBuiltIn: bool, reserved: set<string>)
    requires n <= |fields|
    requires GlobalsOk(heap, q, fields, n, hideBuiltIn, reserved)
    ensures Forest(Globals(heap, q, fields, n, hideBuiltIn, reserved))
    decreases n
  {
    if n > 0 {
      GlobalsForest(heap, q, fields, n - 1, hideBuiltIn, reserved);
      if Global(heap, q, fields[n - 1], hideBuiltIn, reserved) != [] { VisitForest(heap, q, fields[n - 1].key.s, fields[n - 1].value); }
      ForestConcat(Globals(heap, q, fields, n - 1, hideBuiltIn, reserved), Global(heap, q, fields[n - 1], hideBuiltIn, reserved));
    }
  }

  lemma {:induction false} WatchesForest(heap: Heap, q: Request, watches: seq<Watched>, n: nat)
    requires n <= |watches| && WatchesOk(heap, q, watches, n)
    ensures Forest(Watches(heap, q, watches, n))
    decreases n
  {
    if n > 0 {
      WatchesForest(heap, q, watches, n - 1);
      if watches[n - 1].Found? { VisitForest(heap, q, watches[n - 1].name, watches[n - 1].value); }
      ForestConcat(Watches(heap, q, watches, n - 1), Watch(heap, q, watches[n - 1]));
    }
  }

  // ---------------------------------------------------------------- nothing left out, nothing twice

  // keys and values of the entries of one indent, in order
  function AtIndent(L: seq<Entry>, indent: nat): seq<(string, Value)> {
    if L == [] then []
    else
      var e := L[|L| - 1];
      AtIndent(L[..|L| - 1], indent) + if e.indent == indent then [(e.key, e.value)] else []
  }

  lemma {:induction false} AtIndentConcat(A: seq<Entry>, B: seq<Entry>, both: seq<Entry>, indent: nat)
    requires both == A + B
    ensures AtIndent(both, indent) == AtIndent(A, indent) + AtIndent(B, indent)
    decreases |B|
  {
    if B == [] {
      assert both == A;
    } else {
      var init := both[..|both| - 1];
      assert init == A + B[..|B| - 1] && both[|both| - 1] == B[|B| - 1];
      AtIndentConcat(A, B[..|B| - 1], init, indent);
    }
  }

  lemma {:induction false} AtIndentDeeper(L: seq<Entry>, indent: nat)
    requires forall i :: 0 <= i < |L| ==> L[i].indent > indent
    ensures AtIndent(L, indent) == []
  {
    if L != [] { AtIndentDeeper(L[..|L| - 1], indent); }
  }

  // the visible fields, each as (key, value)
  function VisibleFields(q: Request, fields: seq<Field>, n: nat): seq<(string, Value)>
    requires n <= |fields|
    decreases n
  {
    if n == 0 then []
    else
      var Field(k, v) := fields[n - 1];
      VisibleFields(q, fields, n - 1) + if Visible(q, KeyText(k), v) then [(KeyText(k), v)] else []
  }

  lemma VisitTop(heap: Heap, q: Request, key: string, v: Value, path: string, indent: nat, offset: nat)
    requires indent <= MAX_TABLE_RECURSION + 1 && key != ""
    ensures AtIndent(Visit(heap, q, key, v, path, indent, offset), indent) == if Visible(q, key, v) then [(key, v)] else []
  {
    var L := Visit(heap, q, key, v, path, indent, offset);
    VisitHead(heap, q, key, v, path, indent, offset);
    if L != [] {
      var first: seq<Entry> := [L[0]];
      assert L == first + L[1..];
      AtIndentConcat(first, L[1..], L, indent);
      AtIndentDeeper(L[1..], indent);
      assert first[..0] == [];
    }
  }

  // The entries one level below a walked table are exactly its visible fields, once each, in the
  // order of the table.
  lemma {:induction false} WalkComplete(heap: Heap, q: Request, fields: seq<Field>, n: nat, path: string, indent: nat, offset: nat)
    requires n <= |fields| && indent <= MAX_TABLE_RECURSION + 1
    ensures AtIndent(Walk(heap, q, fields, n, path, indent, offset), indent) == VisibleFields(q, fields, n)
    decreases n
  {
    if n > 0 {
      var before := Walk(heap, q, fields, n - 1, path, indent, offset);
      var key, v := KeyText(fields[n - 1].key), fields[n - 1].value;
      var last := Visit(heap, q, key, v, path, indent, offset + |before|);
      WalkComplete(heap, q, fields, n - 1, path, indent, offset);
      VisitTop(heap, q, key, v, path, indent, offset + |before|);
      AtIndentConcat(before, last, Walk(heap, q, fields, n, path, indent, offset), indent);
    }
  }

  // [i, n) is entry i with everything below it
  predicate Subtree(L: seq<Entry>, i: nat, n: nat) {
    && i < n <= |L|
    && (forall j :: i < j < n ==> L[j].indent > L[i].indent)
    && (n < |L| ==> L[n].indent <= L[i].indent)
  }

  // the entries one level below i are the visible fields of i's table, once each, in order
  predicate ShowsFields(L: seq<Entry>, heap: Heap, q: Request, i: nat, n: nat)
    requires i < n <= |L| && L[i].value.Table?
  {
    TopFields(L[i + 1..n], heap, q, L[i].value.ref, L[i].indent + 1)
  }

  predicate TopFields(L: seq<Entry>, heap: Heap, q: Request, ref: nat, indent: nat) {
    AtIndent(L, indent) == VisibleFields(q, FieldsOf(heap, ref), |FieldsOf(heap, ref)|)
  }

  // so it is for every table asked for, down to the limit
  ghost predicate Complete(L: seq<Entry>, heap: Heap, q: Request) {
    forall i: nat, n: nat {:trigger Subtree(L, i, n)} ::
      Subtree(L, i, n) && L[i].value.Table? && L[i].path in q.expanded && L[i].indent <= MAX_TABLE_RECURSION ==>
        ShowsFields(L, heap, q, i, n)
  }

  lemma ShowsFieldsFront(A: seq<Entry>, B: seq<Entry>, both: seq<Entry>, heap: Heap, q: Request, i: nat, n: nat)
    requires both == A + B && i < n <= |A| && A[i].value.Table? && ShowsFields(A, heap, q, i, n)
    ensures ShowsFields(both, heap, q, i, n)
  {
    assert both[i + 1..n] == A[i + 1..n];
  }

  lemma ShowsFieldsBack(A: seq<Entry>, B: seq<Entry>, both: seq<Entry>, heap: Heap, q: Request, i: nat, n: nat)
    requires both == A + B && i < n <= |B| && B[i].value.Table? && ShowsFields(B, heap, q, i, n)
    ensures ShowsFields(both, heap, q, |A| + i, |A| + n)
  {
    assert both[|A| + i + 1..|A| + n] == B[i + 1..n];
  }

  lemma SubtreeFront(A: seq<Entry>, B: seq<Entry>, both: seq<Entry>, i: nat, n: nat)
    requires both == A + B && i < |A| && Subtree(both, i, n)
    requires B == [] || B[0].indent <= A[i].indent
    ensures Subtree(A, i, n)
  {
    assert both[i] == A[i];
    assert B == [] || both[|A|] == B[0];
    forall j | i < j < n ensures A[j].indent > A[i].indent { assert both[j] == A[j]; }
    if n < |A| { assert both[n] == A[n]; }
  }

  lemma SubtreeBack(A: seq<Entry>, B: seq<Entry>, both: seq<Entry>, i: nat, n: nat)
    requires both == A + B && |A| <= i && Subtree(both, i, n)
    ensures Subtree(B, i - |A|, n - |A|)
  {
    assert both[i] == B[i - |A|];
    forall j | i - |A| < j < n - |A| ensures B[j].indent > B[i - |A|].indent { assert both[|A| + j] == B[j]; }
    if n < |both| { assert both[n] == B[n - |A|]; }
  }

  // such a table at i
  predicate Asks(L: seq<Entry>, q: Request, i: nat, n: nat) {
    Subtree(L, i, n) && L[i].value.Table? && L[i].path in q.expanded && L[i].indent <= MAX_TABLE_RECURSION
  }

  lemma CompleteBack(A: seq<Entry>, B: seq<Entry>, both: seq<Entry>, heap: Heap, q: Request, i: nat, n: nat)
    requires both == A + B && Complete(B, heap, q) && |A| <= i && Asks(both, q, i, n)
    ensures ShowsFields(both, heap, q, i, n)
  {
    SubtreeBack(A, B, both, i, n);
    assert both[i] == B[i - |A|];
    ShowsFieldsBack(A, B, both, heap, q, i - |A|, n - |A|);
  }

  lemma CompleteConcat(A: seq<Entry>, B: seq<Entry>, both: seq<Entry>, heap: Heap, q: Request)
    requires both == A + B && Complete(A, heap, q) && Complete(B, heap, q)
    requires B == [] || forall i :: 0 <= i < |A| ==> B[0].indent <= A[i].indent
    ensures Complete(both, heap, q)
  {
    forall i: nat, n: nat | Asks(both, q, i, n)
      ensures ShowsFields(both, heap, q, i, n)
    {
      if i < |A| {
        SubtreeFront(A, B, both, i, n);
        assert both[i] == A[i];
        ShowsFieldsFront(A, B, both, heap, q, i, n);
      } else {
        CompleteBack(A, B, both, heap, q, i, n);
      }
    }
  }

  lemma WholeTree(own: Entry, rest: seq<Entry>, both: seq<Entry>, n: nat)
    requires both == [own] + rest && Subtree(both, 0, n)
    requires forall j :: 0 <= j < |rest| ==> rest[j].indent > own.indent
    ensures n == |both|
  {
    assert forall k :: 0 < k < |both| ==> both[k] == rest[k - 1];
  }

  lemma CompleteCons(own: Entry, rest: seq<Entry>, both: seq<Entry>, heap: Heap, q: Request)
    requires both == [own] + rest && Complete(rest, heap, q)
    requires forall j :: 0 <= j < |rest| ==> rest[j].indent > own.indent
    requires own.value.Table? && own.path in q.expanded && own.indent <= MAX_TABLE_RECURSION ==>
               TopFields(rest, heap, q, own.value.ref, own.indent + 1)
    ensures Complete(both, heap, q)
  {
    forall i: nat, n: nat | Asks(both, q, i, n)
      ensures ShowsFields(both, heap, q, i, n)
    {
      if i == 0 {
        WholeTree(own, rest, both, n);
        assert both[1..n] == rest;
      } else {
        CompleteBack([own], rest, both, heap, q, i, n);
      }
    }
  }

  // what a visit puts below its own entry
  function Rest(heap: Heap, q: Request, v: Value, path: string, indent: nat, offset: nat): seq<Entry>
    requires indent <= MAX_TABLE_RECURSION + 1
  {
    if Recurses(q, path, indent, v) then WalkAll(heap, q, v.ref, path, indent + 1, offset + 1) else []
  }

  lemma VisitParts(heap: Heap, q: Request, key: string, v: Value, parent: string, indent: nat, offset: nat)
    requires indent <= MAX_TABLE_RECURSION + 1 && Visible(q, key, v)
    ensures var path := Path(parent, key);
            Visit(heap, q, key, v, parent, indent, offset)
            == [Entry(key, path, indent, v, v.Table? && path in q.expanded, offset, IsTemporary(key))] + Rest(heap, q, v, path, indent, offset)
  {
  }

  lemma {:induction false} VisitComplete(heap: Heap, q: Request, key: string, v: Value, parent: string, indent: nat, offset: nat)
    requires indent <= MAX_TABLE_RECURSION + 1
    ensures Complete(Visit(heap, q, key, v, parent, indent, offset), heap, q)
    decreases MAX_TABLE_RECURSION + 2 - indent, 1
  {
    if Visible(q, key, v) {
      var path := Path(parent, key);
      var own := Entry(key, path, indent, v, v.Table? && path in q.expanded, offset, IsTemporary(key));
      RestComplete(heap, q, v, path, indent, offset);
      VisitParts(heap, q, key, v, parent, indent, offset);
      CompleteCons(own, Rest(heap, q, v, path, indent, offset), Visit(heap, q, key, v, parent, indent, offset), heap, q);
    }
  }

  lemma {:induction false} RestComplete(heap: Heap, q: Request, v: Value, path: string, indent: nat, offset: nat)
    requires indent <= MAX_TABLE_RECURSION + 1
    ensures var rest := Rest(heap, q, v, path, indent, offset);
            && Complete(rest, heap, q)
            && (forall j :: 0 <= j < |rest| ==> rest[j].indent > indent)
            && (v.Table? && path in q.expanded && indent <= MAX_TABLE_RECURSION ==> TopFields(rest, heap, q, v.ref, indent + 1))
    decreases MAX_TABLE_RECURSION + 2 - indent, 0
  {
    if Recurses(q, path, indent, v) {
      var fields := FieldsOf(heap, v.ref);
      WalkAllComplete(heap, q, fields, |fields|, path, indent + 1, offset + 1);
      WalkBelow(heap, q, fields, |fields|, path, indent + 1, offset + 1);
      WalkComplete(heap, q, fields, |fields|, path, indent + 1, offset + 1);
    }
  }

  lemma {:induction false} WalkAllComplete(heap: Heap, q: Request, fields: seq<Field>, n: nat, path: string, indent: nat, offset: nat)
    requires n <= |fields| && indent <= MAX_TABLE_RECURSION + 1
    ensures Complete(Walk(heap, q, fields, n, path, indent, offset), heap, q)
    decreases MAX_TABLE_RECURSION + 2 - indent, n + 2
  {
    if n > 0 {
      var before := Walk(heap, q, fields, n - 1, path, indent, offset);
      var key, v := KeyText(fields[n - 1].key), fields[n - 1].value;
      var last := Visit(heap, q, key, v, path, indent, offset + |before|);
      WalkAllComplete(heap, q, fields, n - 1, path, indent, offset);
      VisitComplete(heap, q, key, v, path, indent, offset + |before|);
      assert last == [] || forall i :: 0 <= i < |before| ==> last[0].indent <= before[i].indent by {
        WalkBelow(heap, q, fields, n - 1, path, indent, offset);
        VisitHead(heap, q, key, v, path, indent, offset + |before|);
      }
      var both := before + last;
      WalkLast(heap, q, fields, n, path, indent, offset, before, last);
      CompleteConcat(before, last, both, heap, q);
    }
  }

  // One more tree behind others.
  lemma CompleteTree(A: seq<Entry>, B: seq<Entry>, both: seq<Entry>, heap: Heap, q: Request)
    requires both == A + B && Complete(A, heap, q) && Complete(B, heap, q)
    requires B != [] ==> B[0].indent == 0
    ensures Complete(both, heap, q)
  {
    CompleteConcat(A, B, both, heap, q);
  }

  // The globals that have a root of their own
  function VisibleGlobals(q: Request, fields: seq<Field>, n: nat, hideBuiltIn: bool, reserved: set<string>): seq<(string, Value)>
    requires n <= |fields|
    decreases n
  {
    if n == 0 then []
    else
      var Field(k, v) := fields[n - 1];
      VisibleGlobals(q, fields, n - 1, hideBuiltIn, reserved)
      + if k.StringKey? && !(hideBuiltIn && k.s in reserved) && Visible(q, k.s, v) then [(k.s, v)] else []
  }

  // Every table the globals' list shows expanded, at whatever depth within the limit, is followed by
  // all its visible fields and no others; and the roots are the visible globals.
  lemma {:induction false} GlobalsComplete(heap: Heap, q: Request, fields: seq<Field>, n: nat, hideBuiltIn: bool, reserved: set<string>)
    requires n <= |fields| && GlobalsOk(heap, q, fields, n, hideBuiltIn, reserved)
    ensures Complete(Globals(heap, q, fields, n, hideBuiltIn, reserved), heap, q)
    ensures AtIndent(Globals(heap, q, fields, n, hideBuiltIn, reserved), 0) == VisibleGlobals(q, fields, n, hideBuiltIn, reserved)
    decreases n
  {
    if n > 0 {
      var before, last := Globals(heap, q, fields, n - 1, hideBuiltIn, reserved), Global(heap, q, fields[n - 1], hideBuiltIn, reserved);
      var L := Globals(heap, q, fields, n, hideBuiltIn, reserved);
      GlobalsComplete(heap, q, fields, n - 1, hideBuiltIn, reserved);
      GlobalComplete(heap, q, fields[n - 1], hideBuiltIn, reserved);
      CompleteTree(before, last, L, heap, q);
      AtIndentConcat(before, last, L, 0);
    }
  }

  lemma GlobalComplete(heap: Heap, q: Request, f: Field, hideBuiltIn: bool, reserved: set<string>)
    requires GlobalOk(heap, q, f, hideBuiltIn, reserved)
    ensures var L := Global(heap, q, f, hideBuiltIn, reserved);
            && Complete(L, heap, q) && (L != [] ==> L[0].indent == 0)
            && AtIndent(L, 0) == if f.key.StringKey? && !(hideBuiltIn && f.key.s in reserved) && Visible(q, f.key.s, f.value)
                                 then [(f.key.s, f.value)] else []
  {
    if f.key.StringKey? && !(hideBuiltIn && f.key.s in reserved) {
      VisitComplete(heap, q, f.key.s, f.value, "", 0, 0);
      VisitHead(heap, q, f.key.s, f.value, "", 0, 0);
      VisitTop(heap, q, f.key.s, f.value, "", 0, 0);
    }
  }

  // the watches' roots: a value that is visible, or the placeholder of one that was not found
  function VisibleWatches(q: Request, watches: seq<Watched>, n: nat): seq<(string, Value)>
    requires n <= |watches|
    decreases n
  {
    if n == 0 then []
    else
      VisibleWatches(q, watches, n - 1)
      + match watches[n - 1]
        case Found(name, v) => if Visible(q, name, v) then [(name, v)] else []
        case Missing(name) => [(name, Plain(Unsolved, ""))]
  }

  lemma {:induction false} WatchesComplete(heap: Heap, q: Request, watches: seq<Watched>, n: nat)
    requires n <= |watches| && WatchesOk(heap, q, watches, n)
    ensures Complete(Watches(heap, q, watches, n), heap, q)
    ensures AtIndent(Watches(heap, q, watches, n), 0) == VisibleWatches(q, watches, n)
    decreases n
  {
    if n > 0 {
      var before, last := Watches(heap, q, watches, n - 1), Watch(heap, q, watches[n - 1]);
      var L := Watches(heap, q, watches, n);
      WatchesComplete(heap, q, watches, n - 1);
      WatchComplete(heap, q, watches[n - 1]);
      CompleteTree(before, last, L, heap, q);
      AtIndentConcat(before, last, L, 0);
    }
  }

  lemma WatchComplete(heap: Heap, q: Request, w: Watched)
    requires WatchOk(heap, q, w)
    ensures var L := Watch(heap, q, w);
            && Complete(L, heap, q) && (L != [] ==> L[0].indent == 0)
            && AtIndent(L, 0) == match w
                                 case Found(name, v) => if Visible(q, name, v) then [(name, v)] else []
                                 case Missing(name) => [(name, Plain(Unsolved, ""))]
  {
    match w {
      case Found(name, v) =>
        VisitComplete(heap, q, name, v, "", 0, 0);
        VisitHead(heap, q, name, v, "", 0, 0);
        VisitTop(heap, q, name, v, "", 0, 0);
      case Missing(name) =>
        var L := [UnsolvedEntry(name)];
        assert L[..0] == [];
    }
  }

  // ---------------------------------------------------------------- asking again

  // q and r agree on which of the tables listed in L are expanded
  predicate AgreeOn(L: seq<Entry>, q: Request, r: Request) {
    && q.hidden == r.hidden && q.hideTables == r.hideTables && q.hideTemporaries == r.hideTemporaries
    && forall e | e in L :: AgreeAt(e, q, r)
  }

  predicate AgreeAt(e: Entry, q: Request, r: Request) {
    e.value.Table? ==> (e.path in q.expanded <==> e.path in r.expanded)
  }

  lemma AgreeOnParts(A: seq<Entry>, B: seq<Entry>, q: Request, r: Request)
    requires AgreeOn(A + B, q, r)
    ensures AgreeOn(A, q, r) && AgreeOn(B, q, r)
  {
    assert forall e | e in A || e in B :: e in A + B;
  }

  lemma {:induction false} VisitAgrees(heap: Heap, q: Request, r: Request, key: string, v: Value, parent: string, indent: nat, offset: nat)
    requires indent <= MAX_TABLE_RECURSION + 1
    requires AgreeOn(Visit(heap, q, key, v, parent, indent, offset), q, r)
    ensures Visit(heap, r, key, v, parent, indent, offset) == Visit(heap, q, key, v, parent, indent, offset)
    decreases MAX_TABLE_RECURSION + 2 - indent, 0
  {
    var path := Path(parent, key);
    var L := Visit(heap, q, key, v, parent, indent, offset);
    if Visible(q, key, v) {
      assert L[0].path == path && L[0].value == v && AgreeAt(L[0], q, r);
      if Recurses(q, path, indent, v) {
        AgreeOnParts([L[0]], WalkAll(heap, q, v.ref, path, indent + 1, offset + 1), q, r);
        WalkAgrees(heap, q, r, FieldsOf(heap, v.ref), |FieldsOf(heap, v.ref)|, path, indent + 1, offset + 1);
      }
    }
  }

  lemma {:induction false} WalkAgrees(heap: Heap, q: Request, r: Request, fields: seq<Field>, n: nat, path: string, indent: nat, offset: nat)
    requires n <= |fields|
    requires indent <= MAX_TABLE_RECURSION + 1
    requires AgreeOn(Walk(heap, q, fields, n, path, indent, offset), q, r)
    ensures Walk(heap, r, fields, n, path, indent, offset) == Walk(heap, q, fields, n, path, indent, offset)
    decreases MAX_TABLE_RECURSION + 2 - indent, n + 1
  {
    if n > 0 {
      var before := Walk(heap, q, fields, n - 1, path, indent, offset);
      var key, v := KeyText(fields[n - 1].key), fields[n - 1].value;
      var here := Visit(heap, q, key, v, path, indent, offset + |before|);
      assert AgreeOn(before + here, q, r) by { WalkLast(heap, q, fields, n, path, indent, offset, before, here); }
      AgreeOnParts(before, here, q, r);
      assert Walk(heap, r, fields, n - 1, path, indent, offset) == before by { WalkAgrees(heap, q, r, fields, n - 1, path, indent, offset); }
      assert Visit(heap, r, key, v, path, indent, offset + |before|) == here by { VisitAgrees(heap, q, r, key, v, path, indent, offset + |before|); }
      WalkLast(heap, r, fields, n, path, indent, offset, before, here);
      WalkLast(heap, q, fields, n, path, indent, offset, before, here);
    }
  }

  lemma WalkLast(heap: Heap, q: Request, fields: seq<Field>, n: nat, path: string, indent: nat, offset: nat, before: seq<Entry>, here: seq<Entry>)
    requires 0 < n <= |fields| && indent <= MAX_TABLE_RECURSION + 1
    requires before == Walk(heap, q, fields, n - 1, path, indent, offset)
    requires here == Visit(heap, q, KeyText(fields[n - 1].key), fields[n - 1].value, path, indent, offset + |before|)
    ensures Walk(heap, q, fields, n, path, indent, offset) == before + here
  {
  }

  lemma {:induction false} GlobalsAgree(heap: Heap, q: Request, r: Request, fields: seq<Field>, n: nat, hideBuiltIn: bool, reserved: set<string>)
    requires n <= |fields|
    requires AgreeOn(Globals(heap, q, fields, n, hideBuiltIn, reserved), q, r)
    ensures Globals(heap, r, fields, n, hideBuiltIn, reserved) == Globals(heap, q, fields, n, hideBuiltIn, reserved)
    decreases n
  {
    if n > 0 {
      AgreeOnParts(Globals(heap, q, fields, n - 1, hideBuiltIn, reserved), Global(heap, q, fields[n - 1], hideBuiltIn, reserved), q, r);
      GlobalsAgree(heap, q, r, fields, n - 1, hideBuiltIn, reserved);
      if fields[n - 1].key.StringKey? && !(hideBuiltIn && fields[n - 1].key.s in reserved) {
        VisitAgrees(heap, q, r, fields[n - 1].key.s, fields[n - 1].value, "", 0, 0);
      }
    }
  }

  // every entry's flag says whether its path was asked to be expanded
  predicate FlagsSay(L: seq<Entry>, q: Request) {
    forall i :: 0 <= i < |L| ==> (L[i].expanded <==> L[i].value.Table? && L[i].path in q.expanded)
  }

  lemma {:induction false} VisitFlags(heap: Heap, q: Request, key: string, v: Value, parent: string, indent: nat, offset: nat)
    requires indent <= MAX_TABLE_RECURSION + 1
    ensures FlagsSay(Visit(heap, q, key, v, parent, indent, offset), q)
    decreases MAX_TABLE_RECURSION + 2 - indent, 0
  {
    if Visible(q, key, v) && Recurses(q, Path(parent, key), indent, v) {
      WalkFlags(heap, q, FieldsOf(heap, v.ref), |FieldsOf(heap, v.ref)|, Path(parent, key), indent + 1, offset + 1);
    }
  }

  lemma FlagsConcat(A: seq<Entry>, B: seq<Entry>, q: Request)
    requires FlagsSay(A, q) && FlagsSay(B, q)
    ensures FlagsSay(A + B, q)
  {}

  lemma {:induction false} WalkFlags(heap: Heap, q: Request, fields: seq<Field>, n: nat, path: string, indent: nat, offset: nat)
    requires n <= |fields|
    requires indent <= MAX_TABLE_RECURSION + 1
    ensures FlagsSay(Walk(heap, q, fields, n, path, indent, offset), q)
    decreases MAX_TABLE_RECURSION + 2 - indent, n + 1
  {
    if n > 0 {
      var before := Walk(heap, q, fields, n - 1, path, indent, offset);
      WalkFlags(heap, q, fields, n - 1, path, indent, offset);
      VisitFlags(heap, q, KeyText(fields[n - 1].key), fields[n - 1].value, path, indent, offset + |before|);
      FlagsConcat(before, Visit(heap, q, KeyText(fields[n - 1].key), fields[n - 1].value, path, indent, offset + |before|), q);
    }
  }

  lemma {:induction false} GlobalsFlags(heap: Heap, q: Request, fields: seq<Field>, n: nat, hideBuiltIn: bool, reserved: set<string>)
    requires n <= |fields|
    ensures FlagsSay(Globals(heap, q, fields, n, hideBuiltIn, reserved), q)
    decreases n
  {
    if n > 0 {
      var Field(k, v) := fields[n - 1];
      GlobalsFlags(heap, q, fields, n - 1, hideBuiltIn, reserved);
      if k.StringKey? { VisitFlags(heap, q, k.s, v, "", 0, 0); }
    }
  }

  // the paths the client keeps as its expanded set after showing L
  function ShownExpanded(L: seq<Entry>): set<string> {
    set e | e in L && e.expanded :: e.path
  }

  // The client forgets every expanded path the list does not show; asking again with what is left
  // gives the same list, even where two entries share a path.
  lemma AskingAgainChangesNothing(heap: Heap, q: Request, fields: seq<Field>, n: nat, hideBuiltIn: bool, reserved: set<string>)
    requires n <= |fields|
    ensures var L := Globals(heap, q, fields, n, hideBuiltIn, reserved);
      Globals(heap, q.(expanded := ShownExpanded(L)), fields, n, hideBuiltIn, reserved) == L
  {
    var L := Globals(heap, q, fields, n, hideBuiltIn, reserved);
    var r := q.(expanded := ShownExpanded(L));
    GlobalsFlags(heap, q, fields, n, hideBuiltIn, reserved);
    forall i | 0 <= i < |L| && L[i].value.Table?
      ensures L[i].path in q.expanded <==> L[i].path in r.expanded
    {
      if L[i].path in q.expanded { assert L[i] in L && L[i].expanded; }
    }
    GlobalsAgree(heap, q, r, fields, n, hideBuiltIn, reserved);
  }
}

/**
 Breakpoints, from the client's set of "file:line0" strings to the daemon's line hook.
 */
module Breakpoints {
  import opened Wrappers
  import opened Decimal

  // ---------------------------------------------------------------- "file:line" strings

  datatype Bp = Bp(file: string, line: nat)

  const MAX_INT := 0x7fff_ffff

  function Key(file: string, line: nat): string {
    file + ":" + Print(line)
  }

  // position of the first ':' , as string::find gives it; |s| stands for npos
  function FindColon(s: string): (i: nat)
    ensures i <= |s| && (i < |s| ==> s[i] == ':') && forall j :: 0 <= j < i ==> s[j] != ':'
  {
    if s == "" || s[0] == ':' then 0 else 1 + FindColon(s[1..])
  }

  lemma FindColonIn(a: string, b: string)
    requires ':' !in a
    ensures FindColon(a + ":" + b) == |a|
  {
    var s := a + ":" + b;
    var i := FindColon(s);
    assert s[|a|] == ':';
    assert forall j :: 0 <= j < |a| ==> s[j] == a[j];
  }

  // A file the whole pipeline can carry: no colon, an extension of exactly ".lua", one line.
  predicate FileOk(file: string) {
    && |file| >= 4 && file[|file| - 4..] == ".lua"
    && ':' !in file && '\n' !in file && '\r' !in file
  }

  // what a breakpoint string must look like for Bookmark::Decode
  predicate ClientKey(s: string) {
    var i := FindColon(s);
    i < |s| - 1 && AllDigits(s[i + 1..]) && Parse(s[i + 1..]) <= MAX_INT
  }

  // ... and also for the daemon's regular expression
  predicate BpString(s: string): (ok: bool)
    ensures ok ==> ClientKey(s)
  {
    ClientKey(s) && FileOk(s[..FindColon(s)])
  }

  predicate CanonicalKey(s: string) {
    var i := FindColon(s);
    i < |s| && Canonical(s[i + 1..])
  }

  // Bookmark::Decode
  function Decode(s: string): Bp
    requires ClientKey(s)
  {
    Bp(s[..FindColon(s)], Parse(s[FindColon(s) + 1..]))
  }

  lemma KeyDecodes(file: string, line: nat)
    requires ':' !in file && line <= MAX_INT
    ensures ClientKey(Key(file, line)) && Decode(Key(file, line)) == Bp(file, line)
    ensures BpString(Key(file, line)) <==> FileOk(file)
  {
    var s := Key(file, line);
    FindColonIn(file, Print(line));
    assert s[..|file|] == file && s[|file| + 1..] == Print(line);
    ParsePrint(line);
  }

  // Two keys are equal only when they mean the same, whatever the other file is called.
  lemma KeyInjective(file: string, line: nat, other: string, n: nat)
    requires ':' !in file && Key(file, line) == Key(other, n)
    ensures file == other && line == n
  {
    var s := Key(file, line);
    assert s[|other|] == ':';
    FindColonIn(file, Print(line));
    assert |file| <= |other|;
    assert file == s[..|file|] == other;
    assert Print(line) == s[|file| + 1..] == Print(n);
    ParsePrint(line);
    ParsePrint(n);
  }

  // ---------------------------------------------------------------- the client's list

  // char by char, a prefix first
  predicate StrLess(a: string, b: string) {
    if b == "" then false
    else if a == "" then true
    else a[0] < b[0] || (a[0] == b[0] && StrLess(a[1..], b[1..]))
  }

  lemma {:induction false} StrLessAsymmetric(a: string, b: string)
    requires StrLess(a, b)
    ensures !StrLess(b, a)
  {
    if a != "" && a[0] == b[0] { StrLessAsymmetric(a[1..], b[1..]); }
  }

  lemma {:induction false} StrLessTotal(a: string, b: string)
    ensures a == b || StrLess(a, b) || StrLess(b, a)
  {
    if a != "" && b != "" && a[0] == b[0] {
      StrLessTotal(a[1..], b[1..]);
      assert a == [a[0]] + a[1..] && b == [b[0]] + b[1..];
    }
  }

  lemma {:induction false} StrLessTransitive(a: string, b: string, c: string)
    requires StrLess(a, b) && StrLess(b, c)
    ensures StrLess(a, c)
  {
    if a != "" && a[0] == b[0] && b[0] == c[0] { StrLessTransitive(a[1..], b[1..], c[1..]); }
  }

  // at the first k characters alike, a ends or has the smaller character
  predicate DiffersAt(a: string, b: string, k: nat) {
    k <= |a| && k < |b| && a[..k] == b[..k] && (k == |a| || a[k] < b[k])
  }

  lemma {:induction false} StrLessDiffers(a: string, b: string) returns (k: nat)
    requires StrLess(a, b)
    ensures DiffersAt(a, b, k)
  {
    if a == "" || a[0] < b[0] {
      k := 0;
    } else {
      k := StrLessDiffers(a[1..], b[1..]);
      assert a[..k + 1] == [a[0]] + a[1..][..k] && b[..k + 1] == [b[0]] + b[1..][..k];
      k := k + 1;
    }
  }

  // in the order of the file's names, and of the lines of a file
  ghost predicate Precedes(p: Bp, q: Bp) {
    if p.file == q.file then p.line <= q.line else exists k :: DiffersAt(p.file, q.file, k)
  }

  lemma NotLessPrecedes(p: Bp, q: Bp)
    requires !BpLess(q, p)
    ensures Precedes(p, q)
  {
    if p.file != q.file {
      StrLessTotal(p.file, q.file);
      var k := StrLessDiffers(p.file, q.file);
    }
  }

  lemma NotLessTransitive(p: Bp, q: Bp, r: Bp)
    requires !BpLess(q, p) && !BpLess(r, q)
    ensures !BpLess(r, p)
  {
    StrLessTotal(p.file, q.file);
    StrLessTotal(q.file, r.file);
    if StrLess(p.file, q.file) && StrLess(q.file, r.file) { StrLessTransitive(p.file, q.file, r.file); }
    if StrLess(p.file, r.file) { StrLessAsymmetric(p.file, r.file); }
    if StrLess(r.file, p.file) { StrLessAsymmetric(r.file, p.file); }
  }

  lemma {:induction false} SortedPairs(s: seq<Bp>, i: nat, j: nat)
    requires Sorted(s) && i < j < |s|
    ensures !BpLess(s[j], s[i])
    decreases j
  {
    if i < j - 1 {
      SortedPairs(s, i, j - 1);
      NotLessTransitive(s[i], s[j - 1], s[j]);
    }
  }

  ghost predicate InOrder(s: seq<Bp>) {
    forall i, j :: 0 <= i < j < |s| ==> Precedes(s[i], s[j])
  }

  lemma SortedInOrder(s: seq<Bp>)
    requires Sorted(s)
    ensures InOrder(s)
  {
    forall i, j | 0 <= i < j < |s|
      ensures Precedes(s[i], s[j])
    {
      SortedPairs(s, i, j);
      NotLessPrecedes(s[i], s[j]);
    }
  }

  // the comparator handed to sort
  predicate BpLess(p: Bp, q: Bp) {
    if p.file == q.file then p.line < q.line else StrLess(p.file, q.file)
  }

  predicate Sorted(s: seq<Bp>) {
    forall i :: 0 <= i < |s| - 1 ==> !BpLess(s[i + 1], s[i])
  }

  // "list" prints the set S, each key once, with the lines moved by "offset"; "order" says which
  // key each line of the list stands for
  ghost predicate Lists(S: set<string>, offset: nat, list: seq<string>, order: seq<string>) {
    && (forall k | k in S :: ClientKey(k))
    && |list| == |order| == |S|
    && (forall i :: 0 <= i < |order| ==> order[i] in S && list[i] == Key(Moved(order[i], offset).file, Moved(order[i], offset).line))
    && (forall k | k in S :: k in order)
  }

  class Controller {
    var breakpointSet: set<string>

    constructor ()
      ensures breakpointSet == {}
    {
      breakpointSet := {};
    }

    // GetSortedBreakpointList, with std::sort done by insertion
    method GetSortedBreakpointList(offset: nat) returns (res: seq<string>, ghost order: seq<string>)
      requires forall k | k in breakpointSet :: ClientKey(k)
      ensures Lists(breakpointSet, offset, res, order)
      ensures exists bps: seq<Bp> :: InOrder(bps) && PrintsAs(bps, res)
    {
      var bpList: seq<Bp> := [];
      order := [];
      var todo := breakpointSet;
      while todo != {}
        invariant todo <= breakpointSet && |order| == |breakpointSet| - |todo|
        invariant Sorted(bpList) && DecodesAs(order, offset, bpList)
        invariant forall k | k in order :: k in breakpointSet
        invariant forall k | k in breakpointSet :: k in todo || k in order
        decreases |todo|
      {
        var bp :| bp in todo;
        todo := todo - {bp};
        bpList, order := InsertSorted(bpList, bp, offset, order);
      }
      res := PrintAll(bpList);
      SortedInOrder(bpList);
    }

    // SetLoadedBreakpoints; false where the C++ code stops at an assertion
    method SetLoadedBreakpoints(list: seq<string>) returns (ok: bool)
      modifies this
      ensures ok <==> (forall i :: 0 <= i < |list| ==> ':' in list[i]) && (forall i, j :: 0 <= i < j < |list| ==> list[i] != list[j])
      ensures ok ==> breakpointSet == set k | k in list
    {
      breakpointSet := {};
      var i := 0;
      while i < |list|
        invariant 0 <= i <= |list|
        invariant forall k :: k in breakpointSet <==> exists j :: 0 <= j < i && list[j] == k
        invariant (forall j :: 0 <= j < i ==> ':' in list[j]) && (forall a, b :: 0 <= a < b < i ==> list[a] != list[b])
      {
        if ':' !in list[i] { return false; }
        if list[i] in breakpointSet { return false; }
        breakpointSet := breakpointSet + {list[i]};
        i := i + 1;
      }
      ok := true;
    }
  }

  // bps are what the keys mean, with the lines moved
  ghost predicate DecodesAs(keys: seq<string>, offset: nat, bps: seq<Bp>) {
    |keys| == |bps| && forall i :: 0 <= i < |bps| ==> ClientKey(keys[i]) && bps[i] == Moved(keys[i], offset)
  }

  function Moved(key: string, offset: nat): Bp
    requires ClientKey(key)
  {
    Bp(Decode(key).file, Decode(key).line + offset)
  }

  predicate PrintsAs(bps: seq<Bp>, list: seq<string>) {
    |list| == |bps| && forall i :: 0 <= i < |list| ==> list[i] == Key(bps[i].file, bps[i].line)
  }

  method PrintAll(bps: seq<Bp>) returns (res: seq<string>)
    ensures PrintsAs(bps, res)
  {
    res := [];
    var i := 0;
    while i < |bps|
      invariant 0 <= i <= |bps| && |res| == i
      invariant forall j :: 0 <= j < i ==> res[j] == Key(bps[j].file, bps[j].line)
    {
      res := res + [bps[i].file + ":" + Print(bps[i].line)];
      i := i + 1;
    }
  }

  // one step of the insertion sort; "keys" moves along
  method InsertSorted(s: seq<Bp>, key: string, offset: nat, ghost keys: seq<string>) returns (r: seq<Bp>, ghost rkeys: seq<string>)
    requires Sorted(s) && DecodesAs(keys, offset, s) && ClientKey(key)
    ensures Sorted(r) && DecodesAs(rkeys, offset, r) && |r| == |s| + 1
    ensures forall k :: k in rkeys <==> k == key || k in keys
  {
    var x := Bp(Decode(key).file, Decode(key).line + offset);
    var n := |s|;
    while n > 0 && BpLess(x, s[n - 1])
      invariant 0 <= n <= |s| && (n < |s| ==> BpLess(x, s[n]))
    {
      n := n - 1;
    }
    r := s[..n] + [x] + s[n..];
    rkeys := keys[..n] + [key] + keys[n..];
    InsertKeepsSorted(s, x, n);
    InsertKeepsDecodes(s, keys, key, offset, n);
  }

  lemma InsertKeepsSorted(s: seq<Bp>, x: Bp, n: nat)
    requires Sorted(s) && n <= |s| && (n > 0 ==> !BpLess(x, s[n - 1])) && (n < |s| ==> BpLess(x, s[n]))
    ensures Sorted(s[..n] + [x] + s[n..])
  {
    if n < |s| && x.file != s[n].file { StrLessAsymmetric(x.file, s[n].file); }
  }

  lemma InsertKeepsDecodes(s: seq<Bp>, keys: seq<string>, key: string, offset: nat, n: nat)
    requires DecodesAs(keys, offset, s) && ClientKey(key) && n <= |s|
    ensures DecodesAs(keys[..n] + [key] + keys[n..], offset, s[..n] + [Moved(key, offset)] + s[n..])
    ensures forall k :: k in keys[..n] + [key] + keys[n..] <==> k == key || k in keys
  {
    assert keys == keys[..n] + keys[n..];
  }

  // The list saved at offset 0 and loaded again reproduces the set exactly when no line in it was
  // written with leading zeros.
  method SaveAndLoad(c: Controller) returns (ok: bool)
    requires forall k | k in c.breakpointSet :: ClientKey(k)
    modifies c
    ensures ok && c.breakpointSet == old(c.breakpointSet) <==>
              forall k | k in old(c.breakpointSet) :: CanonicalKey(k)
  {
    ghost var S := c.breakpointSet;
    var list, order := c.GetSortedBreakpointList(0);
    SavedList(S, list, order);
    ok := c.SetLoadedBreakpoints(list);
  }

  // such a breakpoint, line 0 written with two digits
  lemma PaddedKey(file: string)
    requires ':' !in file
    ensures ClientKey(file + ":" + "00") && !CanonicalKey(file + ":" + "00")
  {
    var key, digits := file + ":" + "00", "00";
    FindColonIn(file, digits);
    assert key[|file| + 1..] == digits;
    assert digits[..1] == "0" && "0"[..0] == "";
  }

  method PaddedKeyIsLost(file: string) returns (c: Controller, ok: bool)
    requires ':' !in file
    ensures !(ok && c.breakpointSet == {file + ":" + "00"})
  {
    PaddedKey(file);
    var key := file + ":" + "00";
    c := new Controller();
    c.breakpointSet := {key};
    ok := SaveAndLoad(c);
    assert key in {key};
  }

  lemma KeyOfCanonical(k: string)
    requires ClientKey(k)
    ensures Key(Decode(k).file, Decode(k).line) == k <==> CanonicalKey(k)
  {
    var i := FindColon(k);
    PrintParseIff(k[i + 1..]);
    assert k == k[..i] + ":" + k[i + 1..];
    assert Key(Decode(k).file, Decode(k).line)[i + 1..] == Print(Parse(k[i + 1..]));
  }

  lemma SavedList(S: set<string>, list: seq<string>, order: seq<string>)
    requires Lists(S, 0, list, order)
    ensures forall i :: 0 <= i < |list| ==> ':' in list[i]
    ensures (forall k | k in S :: CanonicalKey(k)) ==>
              (set k | k in list) == S && forall i, j :: 0 <= i < j < |list| ==> list[i] != list[j]
    ensures (set k | k in list) == S ==> forall k | k in S :: CanonicalKey(k)
  {
    forall i | 0 <= i < |list| ensures ':' in list[i] { HasColon(Decode(order[i]).file, Decode(order[i]).line); }
    if forall k | k in S :: CanonicalKey(k) { CanonicalSaved(S, list, order); }
    if (set k | k in list) == S { SavedCanonical(S, list, order); }
  }

  lemma CanonicalSaved(S: set<string>, list: seq<string>, order: seq<string>)
    requires Lists(S, 0, list, order) && forall k | k in S :: CanonicalKey(k)
    ensures (set k | k in list) == S && forall i, j :: 0 <= i < j < |list| ==> list[i] != list[j]
  {
    NoRepeats(S, order);
    forall i | 0 <= i < |list| ensures list[i] == order[i] { KeyOfCanonical(order[i]); }
    assert list == order;
  }

  lemma SavedCanonical(S: set<string>, list: seq<string>, order: seq<string>)
    requires Lists(S, 0, list, order) && (set k | k in list) == S
    ensures forall k | k in S :: CanonicalKey(k)
  {
    forall k | k in S ensures CanonicalKey(k) {
      assert k in list;
      var i: nat :| i < |list| && list[i] == k;
      ListedIsCanonical(order[i], k);
    }
  }

  lemma HasColon(file: string, line: nat)
    ensures ':' in Key(file, line)
  {
    assert Key(file, line)[|file|] == ':';
  }

  // what is printed for a breakpoint has no leading zeros
  lemma ListedIsCanonical(key: string, k: string)
    requires ClientKey(key) && k == Key(Moved(key, 0).file, Moved(key, 0).line)
    ensures ClientKey(k) && CanonicalKey(k)
  {
    var bp := Decode(key);
    KeyDecodes(bp.file, bp.line);
    assert Decode(k) == bp;
    KeyOfCanonical(k);
  }

  // a list of |S| strings that has all of S has none twice
  lemma {:induction false} NoRepeats(S: set<string>, order: seq<string>)
    requires |order| == |S| && (forall i :: 0 <= i < |order| ==> order[i] in S) && forall k | k in S :: k in order
    ensures forall i, j :: 0 <= i < j < |order| ==> order[i] != order[j]
    decreases |S|
  {
    if order != [] {
      var last, init := order[|order| - 1], order[..|order| - 1];
      assert order == init + [last];
      if last in init {
        assert S == set k | k in init;
        SetOfSeq(init);
        assert false;
      }
      NoRepeats(S - {last}, init);
    }
  }

  lemma {:induction false} SetOfSeq(s: seq<string>)
    ensures |set k | k in s| <= |s|
  {
    if s != [] {
      SetOfSeq(s[1..]);
      assert (set k | k in s) == (set k | k in s[1..]) + {s[0]};
    }
  }
}

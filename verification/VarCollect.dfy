/**
 The daemon flattens variables into one list: each root variable, and below every table the
 client shows expanded, the table's fields, indented.  The heap of tables may be cyclic; the
 expanded set and the recursion limit are what make the walk end.
 */
module VarCollect {

  const MAX_TABLE_RECURSION: nat   // DDT_MAX_TABLE_RECUSION

  // ---------------------------------------------------------------- Lua values

  datatype Kind = NoValue | Nil | Boolean | Number | Text | CFunction | LuaFunction | UserData | Thread | Unsolved | NotImplemented

  datatype Value = Plain(kind: Kind, text: string) | Table(ref: nat)

  // the printed form of a number, boolean or pointer key
  type Printed = s: string | s != "" && s[0] != '[' witness "0"

  datatype Key = StringKey(s: string) | OtherKey(printed: Printed)

  datatype Field = Field(key: Key, value: Value)

  // the tables, each with its fields in the order lua_next visits them
  type Heap = map<nat, seq<Field>>

  function FieldsOf(heap: Heap, ref: nat): seq<Field> {
    if ref in heap then heap[ref] else []
  }

  // what DumpLuaTableRecursive makes of a key; assert(key_name[0] != '[')
  function KeyText(k: Key): (text: string)
    ensures text != "" && text[0] != '['
  {
    match k
    case StringKey(s) => "\"" + s + "\""
    case OtherKey(printed) => printed
  }

  // a text key is told from a printed one, and from every other text
  lemma KeyTextTells(a: string, k: Key)
    requires k.OtherKey? ==> k.printed[0] != '"'
    ensures KeyText(StringKey(a)) == KeyText(k) <==> k == StringKey(a)
  {
    if k.StringKey? {
      assert KeyText(StringKey(a))[1..|a| + 1] == a && KeyText(k)[1..|k.s| + 1] == k.s;
    }
  }

  // ---------------------------------------------------------------- collected entries

  datatype Entry = Entry(key: string, path: string, indent: nat, value: Value, expanded: bool, rootOffset: int, temporary: bool)

  // what the client asked for
  datatype Request = Request(expanded: set<string>, hidden: set<Kind>, hideTables: bool, hideTemporaries: bool)

  predicate Hidden(q: Request, v: Value) {
    match v
    case Plain(kind, _) => kind in q.hidden
    case Table(_) => q.hideTables
  }

  predicate IsTemporary(key: string) {
    key != "" && key[0] == '(' && key[|key| - 1] == ')'
  }

  // varargs are named like temporaries but are none
  predicate Shown(q: Request, key: string, v: Value, varArg: bool) {
    !(IsTemporary(key) && !varArg && q.hideTemporaries) && !Hidden(q, v)
  }

  predicate Visible(q: Request, key: string, v: Value) {
    Shown(q, key, v, false)
  }

  predicate SomeVisible(q: Request, fields: seq<Field>, n: nat)
    requires n <= |fields|
  {
    exists i: nat :: i < n && Visible(q, KeyText(fields[i].key), fields[i].value)
  }

  // a watch expression and the value found for it among locals, upvalues and _ENVs, if any
  datatype Watched = Found(name: string, value: Value) | Missing(name: string)

  function Path(parent: string, key: string): string {
    if parent != "" then parent + "[" + key + "]" else key
  }

  // CollectNextVariable's answer: walk into this table
  predicate Recurses(q: Request, path: string, indent: nat, v: Value) {
    v.Table? && path in q.expanded && indent <= MAX_TABLE_RECURSION
  }

  // A root the collector gets through: it takes the first character of the name, which must not be
  // empty, and below a name that starts with '[' it stops at an assertion with the first field.
  predicate RootOk(heap: Heap, q: Request, name: string, v: Value) {
    && name != ""
    && (name[0] == '[' && Visible(q, name, v) && Recurses(q, name, 0, v) ==>
          !SomeVisible(q, FieldsOf(heap, v.ref), |FieldsOf(heap, v.ref)|))
  }

  predicate GlobalOk(heap: Heap, q: Request, f: Field, hideBuiltIn: bool, reserved: set<string>) {
    f.key.StringKey? && !(hideBuiltIn && f.key.s in reserved) ==> RootOk(heap, q, f.key.s, f.value)
  }

  // a watch's name must not be empty, found or not
  predicate WatchOk(heap: Heap, q: Request, w: Watched) {
    w.name != "" && (w.Found? ==> RootOk(heap, q, w.name, w.value))
  }

  // ---------------------------------------------------------------- reference definition

  // the entries of one variable and everything shown below it; "offset" is the position of its
  // own entry relative to its root's
  function Visit(heap: Heap, q: Request, key: string, v: Value, parent: string, indent: nat, offset: nat): seq<Entry>
    requires indent <= MAX_TABLE_RECURSION + 1
    decreases MAX_TABLE_RECURSION + 2 - indent, 0
  {
    if !Visible(q, key, v) then []
    else
      var path := Path(parent, key);
      var own := Entry(key, path, indent, v, v.Table? && path in q.expanded, offset, IsTemporary(key));
      if Recurses(q, path, indent, v) then [own] + WalkAll(heap, q, v.ref, path, indent + 1, offset + 1)
      else [own]
  }

  // the same for the first n fields of a table
  function Walk(heap: Heap, q: Request, fields: seq<Field>, n: nat, path: string, indent: nat, offset: nat): seq<Entry>
    requires indent <= MAX_TABLE_RECURSION + 1 && n <= |fields|
    decreases MAX_TABLE_RECURSION + 2 - indent, n + 1
  {
    if n == 0 then []
    else
      var before := Walk(heap, q, fields, n - 1, path, indent, offset);
      before + Visit(heap, q, KeyText(fields[n - 1].key), fields[n - 1].value, path, indent, offset + |before|)
  }

  function WalkAll(heap: Heap, q: Request, ref: nat, path: string, indent: nat, offset: nat): seq<Entry>
    requires indent <= MAX_TABLE_RECURSION + 1
    decreases MAX_TABLE_RECURSION + 2 - indent, |FieldsOf(heap, ref)| + 2
  {
    Walk(heap, q, FieldsOf(heap, ref), |FieldsOf(heap, ref)|, path, indent, offset)
  }

  // ---------------------------------------------------------------- the collector

  class VarCollectors {
    var collected: seq<Entry>
    var rootItemIndex: nat
    var q: Request

    constructor ()
      ensures collected == [] && rootItemIndex == 0
    {
      collected, rootItemIndex, q := [], 0, Request({}, {}, false, false);
    }

    // what the variable requests do first
    method CopyStack(expanded: set<string>, hidden: set<Kind>, hideTables: bool, hideTemporaries: bool)
      modifies this
      ensures collected == [] && rootItemIndex == 0 && q == Request(expanded, hidden, hideTables, hideTemporaries)
    {
      collected, rootItemIndex := [], 0;
      q := Request(expanded, hidden, hideTables, hideTemporaries);
    }

    // false for "ok" where the C++ code takes the first character of an empty name, or stops at the
    // assertions on '['
    method CollectNextVariable(key: string, v: Value, varArg: bool, parent: string, indent: nat) returns (ok: bool, recurse: bool)
      requires rootItemIndex <= |collected|
      modifies this`collected, this`rootItemIndex
      ensures ok <==> key != "" && (Shown(q, key, v, varArg) && parent != "" ==> key[0] != '[' && parent[0] != '[')
      ensures ok ==> rootItemIndex == if indent == 0 && Shown(q, key, v, varArg) then old(|collected|) else old(rootItemIndex)
      ensures ok && !Shown(q, key, v, varArg) ==> collected == old(collected)
      ensures ok && Shown(q, key, v, varArg) ==>
                collected == old(collected) + [Entry(key, Path(parent, key), indent, v, v.Table? && Path(parent, key) in q.expanded,
                                                     old(|collected|) - rootItemIndex, IsTemporary(key) && !varArg)]
      ensures recurse <==> ok && Shown(q, key, v, varArg) && Recurses(q, Path(parent, key), indent, v)
      ensures ok ==> (collected == old(collected) <==>
                      || (v.Table? && q.hideTables) || (v.Plain? && v.kind in q.hidden)
                      || (q.hideTemporaries && !varArg && key[0] == '(' && key[|key| - 1] == ')'))
      ensures rootItemIndex <= |collected|
    {
      if key == "" { return false, false; }
      var temporary := key[0] == '(' && key[|key| - 1] == ')' && !varArg;
      if temporary && q.hideTemporaries { return true, false; }
      if Hidden(q, v) { return true, false; }
      if parent != "" && (key[0] == '[' || parent[0] == '[') { return false, false; }
      var path := if parent != "" then parent + "[" + key + "]" else key;
      recurse := false;
      var expanded := false;
      if v.Table? {
        expanded := path in q.expanded;
        recurse := expanded;
        if indent > MAX_TABLE_RECURSION {
          recurse := false;
        }
      }
      if indent == 0 {
        rootItemIndex := |collected|;
      }
      collected := collected + [Entry(key, path, indent, v, expanded, |collected| - rootItemIndex, temporary)];
      ok := true;
    }

    // RECURSIVE, over a heap that may be cyclic
    method DumpLuaTableRecursive(heap: Heap, ref: nat, path: string, indent: nat) returns (ok: bool)
      requires path != "" && 0 < indent <= MAX_TABLE_RECURSION + 1
      requires rootItemIndex <= |collected|
      modifies this`collected, this`rootItemIndex
      ensures ok <==> (path[0] == '[' ==> !SomeVisible(q, FieldsOf(heap, ref), |FieldsOf(heap, ref)|))
      ensures ok ==> rootItemIndex == old(rootItemIndex)
      ensures ok ==> collected == old(collected) + WalkAll(heap, q, ref, path, indent, old(|collected|) - old(rootItemIndex))
      ensures rootItemIndex <= |collected|
      decreases MAX_TABLE_RECURSION + 2 - indent, 1, 0
    {
      var fields := FieldsOf(heap, ref);
      ghost var start, root := collected, rootItemIndex;
      var i := 0;
      ok := true;
      while i < |fields| && ok
        invariant 0 <= i <= |fields| && rootItemIndex <= |collected|
        invariant ok <==> (path[0] == '[' ==> !SomeVisible(q, fields, i))
        invariant ok ==> rootItemIndex == root && collected == start + Walk(heap, q, fields, i, path, indent, |start| - root)
      {
        ok := DumpField(heap, fields, i, path, indent, start);
        i := i + 1;
      }
    }

    // the body of that loop
    method DumpField(heap: Heap, fields: seq<Field>, i: nat, path: string, indent: nat, ghost start: seq<Entry>) returns (ok: bool)
      requires i < |fields| && path != "" && 0 < indent <= MAX_TABLE_RECURSION + 1
      requires rootItemIndex <= |start| && (path[0] == '[' ==> !SomeVisible(q, fields, i))
      requires collected == start + Walk(heap, q, fields, i, path, indent, |start| - rootItemIndex)
      modifies this`collected, this`rootItemIndex
      ensures ok <==> (path[0] == '[' ==> !SomeVisible(q, fields, i + 1))
      ensures rootItemIndex <= |collected|
      ensures ok ==> rootItemIndex == old(rootItemIndex)
      ensures ok ==> collected == start + Walk(heap, q, fields, i + 1, path, indent, |start| - old(rootItemIndex))
      decreases MAX_TABLE_RECURSION + 2 - indent, 0, 1
    {
      ghost var before := Walk(heap, q, fields, i, path, indent, |start| - rootItemIndex);
      ghost var here := Visit(heap, q, KeyText(fields[i].key), fields[i].value, path, indent, |collected| - rootItemIndex);
      assert start + before + here == start + (before + here);
      ok := CollectField(heap, KeyText(fields[i].key), fields[i].value, path, indent);
    }

    method CollectField(heap: Heap, keyText: string, v: Value, path: string, indent: nat) returns (ok: bool)
      requires path != "" && 0 < indent <= MAX_TABLE_RECURSION + 1 && keyText != "" && keyText[0] != '['
      requires rootItemIndex <= |collected|
      modifies this`collected, this`rootItemIndex
      ensures ok <==> (path[0] == '[' ==> !Visible(q, keyText, v))
      ensures ok ==> rootItemIndex == old(rootItemIndex)
      ensures ok ==> collected == old(collected) + Visit(heap, q, keyText, v, path, indent, old(|collected|) - old(rootItemIndex))
      ensures rootItemIndex <= |collected|
      decreases MAX_TABLE_RECURSION + 2 - indent, 0, 0
    {
      var recurse;
      ok, recurse := CollectNextVariable(keyText, v, false, path, indent);
      if recurse {
        var newPath := path + "[" + keyText + "]";
        assert newPath == collected[|collected| - 1].path;
        ok := DumpLuaTableRecursive(heap, v.ref, newPath, indent + 1);
      }
    }

    // the pair of calls every root variable gets
    method CollectRoot(heap: Heap, key: string, v: Value) returns (ok: bool)
      requires rootItemIndex <= |collected|
      modifies this`collected, this`rootItemIndex
      ensures ok <==> RootOk(heap, q, key, v)
      ensures ok ==> collected == old(collected) + Visit(heap, q, key, v, "", 0, 0)
      ensures rootItemIndex <= |collected|
    {
      var recurse;
      ok, recurse := CollectNextVariable(key, v, false, "", 0);
      if recurse {
        ok := DumpLuaTableRecursive(heap, v.ref, key, 1);
      }
    }

    // CollectENVGlobals: string keys only, reserved names left out on request
    method CollectENVGlobals(heap: Heap, env: nat, hideBuiltIn: bool, reserved: set<string>) returns (ok: bool)
      requires rootItemIndex <= |collected|
      modifies this`collected, this`rootItemIndex
      ensures var fields := FieldsOf(heap, env);
              && (ok <==> GlobalsOk(heap, q, fields, |fields|, hideBuiltIn, reserved))
              && (ok ==> collected == old(collected) + Globals(heap, q, fields, |fields|, hideBuiltIn, reserved))
    {
      var fields := FieldsOf(heap, env);
      var i := 0;
      ok := true;
      while i < |fields| && ok
        invariant 0 <= i <= |fields| && rootItemIndex <= |collected|
        invariant ok <==> GlobalsOk(heap, q, fields, i, hideBuiltIn, reserved)
        invariant ok ==> collected == old(collected) + Globals(heap, q, fields, i, hideBuiltIn, reserved)
      {
        ok := CollectGlobal(heap, fields, i, hideBuiltIn, reserved, old(collected));
        i := i + 1;
      }
      GlobalsOkPrefix(heap, q, fields, i, |fields|, hideBuiltIn, reserved);
    }

    // the body of that loop
    method CollectGlobal(heap: Heap, fields: seq<Field>, i: nat, hideBuiltIn: bool, reserved: set<string>, ghost start: seq<Entry>) returns (ok: bool)
      requires i < |fields| && rootItemIndex <= |collected| && GlobalsOk(heap, q, fields, i, hideBuiltIn, reserved)
      requires collected == start + Globals(heap, q, fields, i, hideBuiltIn, reserved)
      modifies this`collected, this`rootItemIndex
      ensures ok <==> GlobalsOk(heap, q, fields, i + 1, hideBuiltIn, reserved)
      ensures ok ==> collected == start + Globals(heap, q, fields, i + 1, hideBuiltIn, reserved)
      ensures rootItemIndex <= |collected|
    {
      var f := fields[i];
      ghost var before, here := Globals(heap, q, fields, i, hideBuiltIn, reserved), Global(heap, q, f, hideBuiltIn, reserved);
      assert start + before + here == start + (before + here);
      assert GlobalsOk(heap, q, fields, i + 1, hideBuiltIn, reserved) <==> GlobalOk(heap, q, f, hideBuiltIn, reserved);
      ok := true;
      if f.key.StringKey? && !(hideBuiltIn && f.key.s in reserved) {
        ok := CollectRoot(heap, f.key.s, f.value);
      }
    }

    // CollectLuaWatches; each name comes with what SolveOneVar finds for it
    method CollectLuaWatches(heap: Heap, watches: seq<Watched>) returns (ok: bool)
      requires rootItemIndex <= |collected|
      modifies this`collected, this`rootItemIndex
      ensures ok <==> WatchesOk(heap, q, watches, |watches|)
      ensures ok ==> collected == old(collected) + Watches(heap, q, watches, |watches|)
    {
      var i := 0;
      ok := true;
      while i < |watches| && ok
        invariant 0 <= i <= |watches| && rootItemIndex <= |collected|
        invariant ok <==> WatchesOk(heap, q, watches, i)
        invariant ok ==> collected == old(collected) + Watches(heap, q, watches, i)
      {
        ok := CollectWatch(heap, watches, i, old(collected));
        i := i + 1;
      }
      WatchesOkPrefix(heap, q, watches, i, |watches|);
    }

    // the body of that loop
    method CollectWatch(heap: Heap, watches: seq<Watched>, i: nat, ghost start: seq<Entry>) returns (ok: bool)
      requires i < |watches| && rootItemIndex <= |collected| && WatchesOk(heap, q, watches, i)
      requires collected == start + Watches(heap, q, watches, i)
      modifies this`collected, this`rootItemIndex
      ensures ok <==> WatchesOk(heap, q, watches, i + 1)
      ensures ok ==> collected == start + Watches(heap, q, watches, i + 1)
      ensures rootItemIndex <= |collected|
    {
      var w := watches[i];
      assert WatchesOk(heap, q, watches, i + 1) <==> WatchOk(heap, q, w);
      ghost var before, here := Watches(heap, q, watches, i), Watch(heap, q, w);
      assert start + before + here == start + (before + here);
      if w.name == "" { return false; }   // an assertion of SolveOneVar
      ok := true;
      if w.Found? {
        ok := CollectRoot(heap, w.name, w.value);
      } else {
        collected := collected + [UnsolvedEntry(w.name)];   // PushUnsolved
      }
    }
  }

  // the first n globals can be collected
  predicate GlobalsOk(heap: Heap, q: Request, fields: seq<Field>, n: nat, hideBuiltIn: bool, reserved: set<string>)
    requires n <= |fields|
  {
    n == 0 || (GlobalsOk(heap, q, fields, n - 1, hideBuiltIn, reserved) && GlobalOk(heap, q, fields[n - 1], hideBuiltIn, reserved))
  }

  predicate WatchesOk(heap: Heap, q: Request, watches: seq<Watched>, n: nat)
    requires n <= |watches|
  {
    n == 0 || (WatchesOk(heap, q, watches, n - 1) && WatchOk(heap, q, watches[n - 1]))
  }

  lemma {:induction false} GlobalsOkPrefix(heap: Heap, q: Request, fields: seq<Field>, m: nat, n: nat, hideBuiltIn: bool, reserved: set<string>)
    requires m <= n <= |fields|
    ensures GlobalsOk(heap, q, fields, n, hideBuiltIn, reserved) ==> GlobalsOk(heap, q, fields, m, hideBuiltIn, reserved)
    decreases n
  {
    if m < n { GlobalsOkPrefix(heap, q, fields, m, n - 1, hideBuiltIn, reserved); }
  }

  lemma {:induction false} WatchesOkPrefix(heap: Heap, q: Request, watches: seq<Watched>, m: nat, n: nat)
    requires m <= n <= |watches|
    ensures WatchesOk(heap, q, watches, n) ==> WatchesOk(heap, q, watches, m)
    decreases n
  {
    if m < n { WatchesOkPrefix(heap, q, watches, m, n - 1); }
  }

  // Collected::GetUnsolved
  function UnsolvedEntry(name: string): Entry {
    Entry(name, name, 0, Plain(Unsolved, ""), false, 0, false)
  }

  // one variable of an _ENV table
  function Global(heap: Heap, q: Request, f: Field, hideBuiltIn: bool, reserved: set<string>): seq<Entry> {
    if f.key.StringKey? && !(hideBuiltIn && f.key.s in reserved) then Visit(heap, q, f.key.s, f.value, "", 0, 0) else []
  }

  // the first n of them
  function Globals(heap: Heap, q: Request, fields: seq<Field>, n: nat, hideBuiltIn: bool, reserved: set<string>): seq<Entry>
    requires n <= |fields|
    decreases n
  {
    if n == 0 then []
    else Globals(heap, q, fields, n - 1, hideBuiltIn, reserved) + Global(heap, q, fields[n - 1], hideBuiltIn, reserved)
  }

  function Watch(heap: Heap, q: Request, w: Watched): seq<Entry> {
    if w.Found? then Visit(heap, q, w.name, w.value, "", 0, 0) else [UnsolvedEntry(w.name)]
  }

  function Watches(heap: Heap, q: Request, watches: seq<Watched>, n: nat): seq<Entry>
    requires n <= |watches|
    decreases n
  {
    if n == 0 then [] else Watches(heap, q, watches, n - 1) + Watch(heap, q, watches[n - 1])
  }
}

/**
 The daemon's half of the breakpoints: which of them are live, the line table the hook looks at
 first, the hook itself, and when it is armed.
 */
module BreakpointHook {
  import opened Wrappers
  import opened Decimal
  import opened Breakpoints

  // ---------------------------------------------------------------- the daemon's regular expression

  // the last ':' ; |s| if there is none
  function LastColon(s: string): (i: nat)
    ensures i <= |s| && (i < |s| ==> s[i] == ':' && forall j :: i < j < |s| ==> s[j] != ':')
    ensures i == |s| ==> ':' !in s
    decreases |s|
  {
    if s == "" then 0
    else if s[|s| - 1] == ':' then |s| - 1
    else var i := LastColon(s[..|s| - 1]); if i == |s| - 1 then |s| else i
  }

  // "^((.*)\.lua):(\d+)$": greedy, so the colon is the last one; '.' stops at a line end
  function RegexMatch(s: string): Option<(string, string)> {
    var i := LastColon(s);
    if i >= |s| - 1 || !AllDigits(s[i + 1..]) then None
    else if i < 4 || s[i - 4..i] != ".lua" || '\n' in s[..i] || '\r' in s[..i] then None
    else Some((s[..i], s[i + 1..]))
  }

  // Everything the client sends matches, and splits where Bookmark::Decode splits.
  lemma SentStringsMatch(s: string)
    requires BpString(s)
    ensures RegexMatch(s) == Some((Decode(s).file, s[FindColon(s) + 1..]))
  {
    var i, j := FindColon(s), LastColon(s);
    assert forall k :: i < k < |s| ==> s[k] == s[i + 1..][k - i - 1];
    assert i == j;
    assert s[i - 4..i] == s[..i][i - 4..];
  }

  // the live breakpoints: those whose source has been instantiated
  function Live(saved: seq<string>, instantiated: set<string>): set<string>
    requires forall i :: 0 <= i < |saved| ==> BpString(saved[i])
  {
    set i: nat | i < |saved| && BpString(saved[i]) && Decode(saved[i]).file in instantiated :: saved[i]
  }

  // those among the first n saved ones
  function LiveUpTo(saved: seq<string>, n: nat, instantiated: set<string>): set<string>
    requires n <= |saved| && forall i :: 0 <= i < |saved| ==> BpString(saved[i])
  {
    if n == 0 then {}
    else LiveUpTo(saved, n - 1, instantiated) + if BpString(saved[n - 1]) && Decode(saved[n - 1]).file in instantiated then {saved[n - 1]} else {}
  }

  lemma {:induction false} LiveUpToIs(saved: seq<string>, n: nat, instantiated: set<string>)
    requires n <= |saved| && forall i :: 0 <= i < |saved| ==> BpString(saved[i])
    ensures LiveUpTo(saved, n, instantiated) == set i: nat | i < n && BpString(saved[i]) && Decode(saved[i]).file in instantiated :: saved[i]
  {
    if n > 0 { LiveUpToIs(saved, n - 1, instantiated); }
  }

  function LineOf(bp: string): nat
    requires BpString(bp)
  {
    Decode(bp).line
  }

  datatype HookKind = NoHook | BreakpointHook

  // ---------------------------------------------------------------- LuaGlue, as far as breakpoints go

  class LuaGlue {
    var saved: seq<string>              // m_AllSavedBreakpoints
    var live: set<string>               // m_BreakpointSet
    var instantiated: set<string>       // m_FileInstantiatedSet
    var lut: array<bool>                // m_LineLUT's storage ...
    var lutSize: nat                    // ... and size(); the storage may be longer
    var tab: array?<bool>               // static s_BreakpointTab
    var tabLen: nat                     // static s_BreakpointTabLen
    var hook: HookKind                  // the hook installed in the Lua state

    // Set bits cover every live line; bits left over from earlier sets are allowed.  The static
    // pointer, once set, is the table's own storage.
    ghost predicate TableOk()
      reads this, lut
    {
      && lutSize <= lut.Length
      && (forall bp | bp in live :: BpString(bp) && LineOf(bp) < lutSize && lut[LineOf(bp)])
      && (tab != null ==> tab == lut && tabLen == lutSize)
    }

    ghost predicate Valid()
      reads this, lut
    {
      && TableOk()
      && (forall i :: 0 <= i < |saved| ==> BpString(saved[i]))
      && live == Live(saved, instantiated)
      && (hook.BreakpointHook? ==> tab != null && lutSize > 0)
    }

    // what must hold whenever Lua code runs
    ghost predicate Armed()
      reads this
    {
      live != {} ==> hook.BreakpointHook?
    }

    constructor ()
      ensures Valid() && saved == [] && instantiated == {} && hook == NoHook && fresh(lut)
    {
      saved, live, instantiated, hook := [], {}, {}, NoHook;
      lut, lutSize := new bool[0], 0;
      tab, tabLen := null, 0;
    }

    // vector::resize(n, 0): what is kept is not cleared; storage moves only when it must grow
    method ResizeLUT(n: nat)
      requires lutSize <= lut.Length
      modifies this`lut, this`lutSize, lut
      ensures lutSize == n <= lut.Length
      ensures lut == old(lut) || fresh(lut)
      ensures forall i :: 0 <= i < n && i < old(lutSize) ==> lut[i] == old(lut[i])
      ensures forall i :: old(lutSize) <= i < n ==> !lut[i]
    {
      if n > lut.Length {
        var bigger := new bool[n + n];
        var i := 0;
        while i < lutSize
          invariant 0 <= i <= lutSize && unchanged(this) && unchanged(lut)
          invariant forall j :: 0 <= j < i ==> bigger[j] == lut[j]
        {
          bigger[i] := lut[i];
          i := i + 1;
        }
        lut := bigger;
      }
      ghost var kept := lut[..];
      var j := lutSize;
      while j < n
        invariant lutSize <= j && (j <= n || j == lutSize) && n <= lut.Length
        invariant lut == old(lut) || fresh(lut)
        invariant lutSize == old(lutSize)
        invariant forall k :: 0 <= k < lutSize ==> lut[k] == kept[k]
        invariant forall k :: lutSize <= k < j ==> !lut[k]
        modifies lut
      {
        lut[j] := false;
        j := j + 1;
      }
      lutSize := n;
    }

    // GetBreakpointLinesTab
    method GetBreakpointLinesTab() returns (t: array?<bool>, len: nat)
      ensures len == lutSize
      ensures t == if lutSize == 0 then null else lut
    {
      len := lutSize;
      if len == 0 { return null, len; }
      t := lut;
    }

    // UpdateFastBreakpoints
    method UpdateFastBreakpoints()
      requires lutSize <= lut.Length
      requires forall bp | bp in live :: BpString(bp)
      modifies this`lut, this`lutSize, this`tab, this`tabLen, lut
      ensures TableOk() && tab != null && lutSize > 0
      ensures lut == old(lut) || fresh(lut)
    {
      var maxLn := MaxLine();
      if maxLn == -1 {
        ResizeLUT(1);   // at least one entry, to have a pointer to return
      } else {
        ResizeLUT(maxLn + 1);
      }
      MarkLines();
      tab, tabLen := GetBreakpointLinesTab();
    }

    method MaxLine() returns (maxLn: int)
      requires forall bp | bp in live :: BpString(bp)
      ensures maxLn >= -1 && forall bp | bp in live :: LineOf(bp) <= maxLn
    {
      maxLn := -1;
      var todo := live;
      while todo != {}
        invariant todo <= live && maxLn >= -1
        invariant forall bp | bp in live :: bp in todo || LineOf(bp) <= maxLn
        decreases todo
      {
        var bp :| bp in todo;
        todo := todo - {bp};
        var ln := Parse(bp[FindColon(bp) + 1..]);
        if ln > maxLn { maxLn := ln; }
      }
    }

    method MarkLines()
      requires lutSize <= lut.Length
      requires forall bp | bp in live :: BpString(bp) && LineOf(bp) < lutSize
      modifies lut
      ensures forall bp | bp in live :: lut[LineOf(bp)]
    {
      var todo := live;
      while todo != {}
        invariant todo <= live
        invariant forall bp | bp in live :: bp in todo || lut[LineOf(bp)]
        decreases todo
        modifies lut
      {
        var bp :| bp in todo;
        todo := todo - {bp};
        lut[Parse(bp[FindColon(bp) + 1..])] := true;
      }
    }

    // SetValidBreakpoints
    method SetValidBreakpoints()
      requires lutSize <= lut.Length
      requires forall i :: 0 <= i < |saved| ==> BpString(saved[i])
      modifies this`live, this`lut, this`lutSize, this`tab, this`tabLen, lut
      ensures Valid() && tab != null && lutSize > 0
      ensures lut == old(lut) || fresh(lut)
    {
      live := {};
      var i := 0;
      while i < |saved|
        invariant 0 <= i <= |saved|
        invariant live == LiveUpTo(saved, i, instantiated)
        modifies this`live
      {
        var keep, key := DaemonKey(saved[i]);
        if keep { live := live + {key}; }
        i := i + 1;
      }
      LiveUpToIs(saved, |saved|, instantiated);
      UpdateFastBreakpoints();
    }

    // the loop's body: take the key apart, look the file up, put the key together again
    method DaemonKey(bpKey: string) returns (keep: bool, key: string)
      requires BpString(bpKey)
      ensures key == bpKey && (keep <==> Decode(bpKey).file in instantiated)
    {
      SentStringsMatch(bpKey);
      var matches := RegexMatch(bpKey).value;   // assert(ok)
      var filename, lnS := matches.0, matches.1;
      keep, key := filename in instantiated, filename + ":" + lnS;
    }

    // SaveAllBreakpoints
    method SaveAllBreakpoints(list: seq<string>)
      requires Valid() && forall i :: 0 <= i < |list| ==> BpString(list[i])
      modifies this`saved, this`live, this`lut, this`lutSize, this`tab, this`tabLen, lut
      ensures Valid() && saved == list
      ensures lut == old(lut) || fresh(lut)
    {
      saved := list;
      SetValidBreakpoints();
    }

    // the end of InstantiateSource_LL
    method InstantiateSource(shortFilename: string)
      requires Valid()
      modifies this`instantiated, this`live, this`lut, this`lutSize, this`tab, this`tabLen, lut
      ensures Valid() && instantiated == old(instantiated) + {shortFilename}
      ensures lut == old(lut) || fresh(lut)
    {
      instantiated := instantiated + {shortFilename};
      SetValidBreakpoints();
    }

    // SetLuaHook(BREAKPOINTS), as pcall does before running a chunk
    method SetBreakpointsHook()
      requires Valid()
      modifies this`tab, this`tabLen, this`hook
      ensures Valid() && Armed()
    {
      tab, tabLen := GetBreakpointLinesTab();
      if tab != null {
        hook := BreakpointHook;
      } else {
        hook := NoHook;
      }
    }

    // ResumeDaemon(RUN)
    method ResumeRun()
      requires Valid()
      modifies this`tab, this`tabLen, this`hook
      ensures Valid() && Armed()
    {
      if |live| > 0 {
        SetBreakpointsHook();
      } else {
        hook := NoHook;
      }
    }

    // A line event: does Lua call the hook, and does lg_BreakpointHookFunction enter the debugger?
    method OnLine(source: string, currentLine: int) returns (suspends: bool)
      requires Valid()
      ensures suspends <==> hook.BreakpointHook? && source != "" && source[0] == '@' && currentLine >= 0 && Key(source[1..], currentLine) in live
    {
      if hook.NoHook? { return false; }
      // compared as size_t: a negative line is a huge one
      if currentLine < 0 || currentLine >= tabLen {
        LiveLines(source, currentLine);
        return false;
      }
      if !tab[currentLine] {
        LiveLines(source, currentLine);
        return false;
      }
      if source == "" || source[0] != '@' { return false; }
      return FastBreakpointExists(source[1..], currentLine);
    }

    // FastBreakpointExists
    predicate FastBreakpointExists(name: string, ln: nat)
      reads this
    {
      name + ":" + Print(ln) in live
    }

    // a live breakpoint's line is within the table and set
    lemma LiveLines(source: string, currentLine: int)
      requires Valid()
      ensures source != "" && currentLine >= 0 && Key(source[1..], currentLine) in live ==> currentLine < lutSize && lut[currentLine]
    {
      if source != "" && currentLine >= 0 && Key(source[1..], currentLine) in live {
        var bp := Key(source[1..], currentLine);
        assert BpString(bp);
        KeyLine(source[1..], currentLine);
      }
    }
  }

  // a key that is a proper breakpoint string has the line it was made with
  lemma KeyLine(file: string, line: nat)
    requires BpString(Key(file, line))
    ensures Decode(Key(file, line)) == Bp(file, line)
  {
    var s := Key(file, line);
    var i := FindColon(s);
    assert s[|file|] == ':';
    assert forall k :: i < k < |s| ==> s[k] == s[i + 1..][k - i - 1];
    assert i == |file|;
    assert s[..i] == file && s[i + 1..] == Print(line);
    ParsePrint(line);
  }

  // ---------------------------------------------------------------- end to end

  // With the list the client sends for S, a line is a stopping line exactly when its source is
  // instantiated and S holds that source with the line before, counted from 0.
  lemma EndToEnd(S: set<string>, list: seq<string>, order: seq<string>, instantiated: set<string>, source: string, line: nat)
    requires Lists(S, 1, list, order)
    requires forall k | k in S :: BpString(k) && Decode(k).line < MAX_INT
    ensures forall i :: 0 <= i < |list| ==> BpString(list[i])
    ensures Key(source, line) in Live(list, instantiated) <==>
              source in instantiated && line > 0 && exists k :: k in S && Decode(k) == Bp(source, line - 1)
  {
    ListDecodes(S, list, order);
    if Key(source, line) in Live(list, instantiated) {
      LiveWasSet(S, list, order, instantiated, source, line);
    }
    if source in instantiated && line > 0 && exists k :: k in S && Decode(k) == Bp(source, line - 1) {
      SetIsLive(S, list, order, instantiated, source, line);
    }
  }

  lemma ListDecodes(S: set<string>, list: seq<string>, order: seq<string>)
    requires Lists(S, 1, list, order)
    requires forall k | k in S :: BpString(k) && Decode(k).line < MAX_INT
    ensures forall i :: 0 <= i < |list| ==> BpString(list[i]) && Decode(list[i]) == Moved(order[i], 1)
  {
    forall i | 0 <= i < |list|
      ensures BpString(list[i]) && Decode(list[i]) == Moved(order[i], 1)
    {
      assert order[i] in S;
      KeyDecodes(Decode(order[i]).file, Decode(order[i]).line + 1);
    }
  }

  lemma LiveWasSet(S: set<string>, list: seq<string>, order: seq<string>, instantiated: set<string>, source: string, line: nat)
    requires Lists(S, 1, list, order)
    requires forall i :: 0 <= i < |list| ==> BpString(list[i]) && Decode(list[i]) == Moved(order[i], 1)
    requires Key(source, line) in Live(list, instantiated)
    ensures source in instantiated && line > 0 && exists k :: k in S && Decode(k) == Bp(source, line - 1)
  {
    var i: nat :| i < |list| && list[i] == Key(source, line) && Decode(list[i]).file in instantiated;
    KeyLine(source, line);
    MovedFrom(order[i], source, line);
    assert order[i] in S;
  }

  lemma MovedFrom(key: string, source: string, line: nat)
    requires ClientKey(key) && Moved(key, 1) == Bp(source, line)
    ensures line > 0 && Decode(key) == Bp(source, line - 1)
  {
  }

  lemma SetIsLive(S: set<string>, list: seq<string>, order: seq<string>, instantiated: set<string>, source: string, line: nat)
    requires Lists(S, 1, list, order)
    requires forall i :: 0 <= i < |list| ==> BpString(list[i]) && Decode(list[i]) == Moved(order[i], 1)
    requires source in instantiated && line > 0 && exists k :: k in S && Decode(k) == Bp(source, line - 1)
    ensures Key(source, line) in Live(list, instantiated)
  {
    var k :| k in S && Decode(k) == Bp(source, line - 1);
    var i: nat :| i < |order| && order[i] == k;
    assert Moved(k, 1) == Bp(source, line);
    assert list[i] == Key(source, line) && BpString(list[i]) && Decode(list[i]).file == source;
  }

  // The whole way in one call chain: the client sends its set (or, with breakpoints switched off,
  // an empty list) and RUN; then a line event arrives.
  method SendAndHit(c: Controller, enable: bool, glue: LuaGlue, source: string, line: int) returns (suspends: bool)
    requires glue.Valid()
    requires forall k | k in c.breakpointSet :: BpString(k) && Decode(k).line < MAX_INT
    requires source != "" && source[0] == '@'
    modifies glue, glue.lut
    ensures suspends <==> enable && source[1..] in glue.instantiated && line > 0
                          && exists k :: k in c.breakpointSet && BpString(k) && Decode(k) == Bp(source[1..], line - 1)
    ensures glue.instantiated == old(glue.instantiated)
  {
    var list: seq<string> := [];
    if enable {
      ghost var order;
      list, order := c.GetSortedBreakpointList(1);
      EndToEnd(c.breakpointSet, list, order, glue.instantiated, source[1..], if line > 0 then line else 0);
    }
    glue.SaveAllBreakpoints(list);
    glue.ResumeRun();
    suspends := glue.OnLine(source, line);
  }

  // ---------------------------------------------------------------- always armed while Lua runs

  // What can happen in a session resumed with RUN only: a chunk starts (pcall), a project module
  // is required, Lua stops, breakpoints arrive while it is stopped, it is resumed.
  datatype Event = Start | Require(file: string) | Stop | Breakpoints(list: seq<string>) | Resume

  predicate EventOk(e: Event) {
    e.Breakpoints? ==> forall i :: 0 <= i < |e.list| ==> BpString(e.list[i])
  }

  // does Lua run after these events?
  predicate RunningAfter(events: seq<Event>) {
    if events == [] then false
    else
      match events[|events| - 1]
      case Start => true
      case Resume => true
      case Stop => false
      case _ => RunningAfter(events[..|events| - 1])
  }

  // the breakpoints last received
  function SavedAfter(saved: seq<string>, events: seq<Event>): seq<string> {
    if events == [] then saved
    else
      var before, e := events[..|events| - 1], events[|events| - 1];
      if e.Breakpoints? && !RunningAfter(before) then e.list else SavedAfter(saved, before)
  }

  // the sources instantiated by then
  function InstantiatedAfter(instantiated: set<string>, events: seq<Event>): set<string> {
    if events == [] then instantiated
    else
      var before, e := events[..|events| - 1], events[|events| - 1];
      InstantiatedAfter(instantiated, before) + if e.Require? && RunningAfter(before) then {e.file} else {}
  }

  // After every such run: Lua runs or not as the events say, exactly the breakpoints last received
  // whose sources were instantiated are live, and if Lua runs and any is live, the hook is in place
  // and looks at the current table, also when the resume had removed it and a later require brought
  // the first live breakpoint.
  method Session(glue: LuaGlue, events: seq<Event>) returns (running: bool)
    requires glue.Valid() && forall i :: 0 <= i < |events| ==> EventOk(events[i])
    modifies glue, glue.lut
    ensures glue.Valid() && running == RunningAfter(events)
    ensures glue.saved == SavedAfter(old(glue.saved), events)
    ensures glue.instantiated == InstantiatedAfter(old(glue.instantiated), events)
    ensures RunningAfter(events) ==> glue.Armed()
  {
    running := false;
    var i := 0;
    while i < |events|
      invariant 0 <= i <= |events|
      invariant glue.lut == old(glue.lut) || fresh(glue.lut)
      invariant glue.Valid() && running == RunningAfter(events[..i]) && (running ==> glue.Armed())
      invariant glue.saved == SavedAfter(old(glue.saved), events[..i])
      invariant glue.instantiated == InstantiatedAfter(old(glue.instantiated), events[..i])
    {
      assert EventOk(events[i]);
      assert events[..i + 1][..i] == events[..i];
      running := OnEvent(glue, events[i], running);
      i := i + 1;
    }
    assert events[..i] == events;
  }

  method OnEvent(glue: LuaGlue, e: Event, running: bool) returns (after: bool)
    requires glue.Valid() && EventOk(e) && (running ==> glue.Armed())
    modifies glue, glue.lut
    ensures glue.Valid() && (glue.lut == old(glue.lut) || fresh(glue.lut)) && (after ==> glue.Armed())
    ensures after == (e.Start? || e.Resume? || (!e.Stop? && running))
    ensures glue.saved == if e.Breakpoints? && !running then e.list else old(glue.saved)
    ensures glue.instantiated == old(glue.instantiated) + if e.Require? && running then {e.file} else {}
  {
    after := running;
    match e {
      case Start =>
        if !running { glue.SetBreakpointsHook(); }
        after := true;
      case Require(file) =>
        if running {
          glue.InstantiateSource(file);
          glue.SetBreakpointsHook();   // by the pcall of its outer shell
        }
      case Stop =>
        after := false;
      case Breakpoints(list) =>
        if !running { glue.SaveAllBreakpoints(list); }
      case Resume =>
        if !running { glue.ResumeRun(); }
        after := true;
    }
  }
}

/**
 The panes below and beside the editor: three notebooks, each with a list of its pages, and for
 every page a record of the notebook and the position it is at.
 */
module PaneBooks {

  const NUM_PANES := 11        // PANE_ID_MAX
  const NUM_BOOKS := 3         // PANEBOOK_MAX
  const BOTTOM_LEFT := 1
  const NOT_FOUND := -1
  const ADD_TO_BACK := 2001
  const KEEP_AS_IS := 2002

  type Pane = p: nat | p < NUM_PANES
  type Book = b: nat | b < NUM_BOOKS

  // m_CurrentBook (-1: nil) and m_PageIndex
  datatype PageInfo = PageInfo(book: int, pos: int)

  const UNUSED := PageInfo(-1, -1)

  predicate IsUsed(i: PageInfo) {
    i.pos >= 0 && i.book != -1
  }

  // s_ShiftPaneMap
  function ShiftBook(b: Book): Book {
    match b case 0 => 1 case 1 => 2 case 2 => 0
  }

  // what wxNotebook::HitTest tells; onPage stands for ONPAGE or NOWHERE
  datatype Hit = Hit(inside: bool, pos: int, onPage: bool, onItem: bool)

  predicate NoRepeats(s: seq<Pane>) {
    forall i, j :: 0 <= i < j < |s| ==> s[i] != s[j]
  }

  function Inserted(s: seq<Pane>, at: nat, p: Pane): seq<Pane>
    requires at <= |s|
  {
    s[..at] + [p] + s[at..]
  }

  function Removed(s: seq<Pane>, at: nat): seq<Pane>
    requires at < |s|
  {
    s[..at] + s[at + 1..]
  }

  // Both indices agree: a page is recorded at (b, i) if and only if book b has it at i.
  ghost predicate Agree(lists: seq<seq<Pane>>, info: seq<PageInfo>) {
    && |lists| == NUM_BOOKS && |info| == NUM_PANES
    && (forall p: Pane :: info[p] == UNUSED || RecordedRight(lists, info, p))
    && (forall b: Book, i: nat | i < |lists[b]| :: info[lists[b][i]] == PageInfo(b, i))
  }

  predicate RecordedRight(lists: seq<seq<Pane>>, info: seq<PageInfo>, p: Pane)
    requires |lists| == NUM_BOOKS && |info| == NUM_PANES
  {
    0 <= info[p].book < NUM_BOOKS && 0 <= info[p].pos < |lists[info[p].book]| && lists[info[p].book][info[p].pos] == p
  }

  // "after" is "info" with the pages of one book recorded anew
  ghost predicate Reindexed(info: seq<PageInfo>, after: seq<PageInfo>, b: Book, list: seq<Pane>) {
    && |info| == |after| == NUM_PANES
    && (forall i: nat | i < |list| :: after[list[i]] == PageInfo(b, i))
    && (forall p: Pane | p !in list :: after[p] == info[p])
  }

  function Without(s: seq<nat>, p: nat): seq<nat> {
    if s == [] then [] else if s[0] == p then Without(s[1..], p) else [s[0]] + Without(s[1..], p)
  }

  // The names of the panes are eleven different words; any other word is Unknown.
  datatype Name = NameOf(pane: Pane) | Unknown(text: string)

  // one pair of the list in the preferences
  datatype Entry = Entry(name: Name, book: int)

  function EntriesOf(s: seq<Pane>, b: Book): seq<Entry> {
    seq(|s|, i requires 0 <= i < |s| => Entry(NameOf(s[i]), b))
  }

  function SavedTo(lists: seq<seq<Pane>>, n: nat): seq<Entry>
    requires |lists| == NUM_BOOKS && n <= NUM_BOOKS
  {
    if n == 0 then [] else SavedTo(lists, n - 1) + EntriesOf(lists[n - 1], n - 1)
  }

  function Saved(lists: seq<seq<Pane>>): seq<Entry>
    requires |lists| == NUM_BOOKS
  {
    SavedTo(lists, NUM_BOOKS)
  }

  // the panes that the first n entries put into b
  function Listed(list: seq<Entry>, n: nat, b: Book): seq<Pane>
    requires n <= |list|
  {
    if n == 0 then [] else Listed(list, n - 1, b) + PaneFor(list[n - 1], b)
  }

  function PaneFor(e: Entry, b: Book): seq<Pane> {
    if e.book == b && e.name.NameOf? then [e.name.pane] else []
  }

  predicate Mentions(list: seq<Entry>, n: nat, p: Pane)
    requires n <= |list|
  {
    exists i: nat :: i < n && list[i].name == NameOf(p)
  }

  // books exist, and no known pane is listed twice or in use already
  predicate Loadable(list: seq<Entry>, n: nat, info: seq<PageInfo>)
    requires n <= |list| && |info| == NUM_PANES
  {
    forall i: nat | i < n :: EntryOk(list, i, info)
  }

  predicate EntryOk(list: seq<Entry>, i: nat, info: seq<PageInfo>)
    requires i < |list| && |info| == NUM_PANES
  {
    var e := list[i];
    0 <= e.book < NUM_BOOKS && (e.name.NameOf? ==> info[e.name.pane] == UNUSED && !Mentions(list, i, e.name.pane))
  }

  // the first n entries have been added to what there was, a record and the books it is of
  ghost predicate Loaded(list: seq<Entry>, n: nat, was: seq<PageInfo>, start: seq<seq<Pane>>, info: seq<PageInfo>, lists: seq<seq<Pane>>)
    requires n <= |list|
  {
    && |was| == |info| == NUM_PANES && |start| == |lists| == NUM_BOOKS
    && Loadable(list, n, was)
    && (forall b: Book :: lists[b] == start[b] + Listed(list, n, b))
    && (forall p: Pane :: info[p] == UNUSED <==> was[p] == UNUSED && !Mentions(list, n, p))
  }

  lemma NextEntry(list: seq<Entry>, i: nat, info: seq<PageInfo>)
    requires i < |list| && |info| == NUM_PANES && Loadable(list, i, info)
    ensures Loadable(list, i + 1, info) <==> EntryOk(list, i, info)
    ensures Loadable(list, |list|, info) ==> EntryOk(list, i, info)
    ensures forall p: Pane :: Mentions(list, i + 1, p) <==> Mentions(list, i, p) || list[i].name == NameOf(p)
  {
  }

  lemma LoadedNone(list: seq<Entry>, info: seq<PageInfo>, lists: seq<seq<Pane>>)
    requires |info| == NUM_PANES && |lists| == NUM_BOOKS
    ensures Loaded(list, 0, info, lists, info, lists)
  {
  }

  lemma LoadedNext(list: seq<Entry>, i: nat, was: seq<PageInfo>, start: seq<seq<Pane>>,
                   info: seq<PageInfo>, lists: seq<seq<Pane>>, after: seq<PageInfo>, next: seq<seq<Pane>>)
    requires i < |list| && Loaded(list, i, was, start, info, lists) && EntryOk(list, i, was) && list[i].name.NameOf?
    requires |after| == NUM_PANES && |next| == NUM_BOOKS
    requires after[list[i].name.pane] != UNUSED
    requires forall q: Pane | q != list[i].name.pane :: after[q] == UNUSED <==> info[q] == UNUSED
    requires next[list[i].book] == lists[list[i].book] + [list[i].name.pane]
    requires forall c: Book | c != list[i].book :: next[c] == lists[c]
    ensures Loaded(list, i + 1, was, start, after, next)
  {
    NextEntry(list, i, was);
    forall b: Book ensures next[b] == start[b] + Listed(list, i + 1, b) {
      assert start[b] + Listed(list, i, b) + PaneFor(list[i], b) == start[b] + (Listed(list, i, b) + PaneFor(list[i], b));
    }
  }

  class BottomNotePanel {
    var pages: seq<seq<Pane>>     // what each wxNotebook shows
    var lists: seq<seq<Pane>>     // m_PageIDList of each SingleNotebook
    var info: seq<PageInfo>
    var dragged: int              // m_DraggedPageID; -1 when nothing is dragged
    var lastHit: (int, int)       // m_LastHitBook, m_LastHitPagePos

    ghost predicate Sizes()
      reads this
    {
      |pages| == |lists| == NUM_BOOKS && |info| == NUM_PANES && -1 <= dragged < NUM_PANES
    }

    ghost predicate Valid()
      reads this
    {
      Sizes() && lists == pages && Agree(lists, info)
    }

    // No page is shown twice, in one book or in two.
    lemma ShownOnce(b: Book, i: nat, c: Book, j: nat)
      requires Valid() && i < |lists[b]| && j < |lists[c]| && lists[b][i] == lists[c][j]
      ensures b == c && i == j
    {
      assert info[lists[b][i]] == PageInfo(b, i);
      assert info[lists[c][j]] == PageInfo(c, j);
    }

    constructor ()
      ensures Valid() && lists == [[], [], []] && dragged == -1
      ensures forall p: Pane :: info[p] == UNUSED
    {
      pages, lists := [[], [], []], [[], [], []];
      info := seq(NUM_PANES, _ => UNUSED);
      dragged, lastHit := -1, (-1, -1);
    }

    // SingleNotebook::ReIndex
    method ReIndex(b: Book)
      requires Sizes() && NoRepeats(pages[b])
      modifies this`lists, this`info
      ensures Sizes() && lists == old(lists)[b := pages[b]]
      ensures Reindexed(old(info), info, b, pages[b])
    {
      lists := lists[b := []];
      var pos := 0;
      while pos < |pages[b]|
        invariant 0 <= pos <= |pages[b]| && Sizes()
        invariant lists[b] == pages[b][..pos] && forall c: Book | c != b :: lists[c] == old(lists)[c]
        invariant forall i: nat | i < pos :: info[pages[b][i]] == PageInfo(b, i)
        invariant forall p: Pane | p !in pages[b] :: info[p] == old(info[p])
      {
        var p := pages[b][pos];
        lists := lists[b := lists[b] + [p]];
        info := info[p := PageInfo(b, pos)];
        pos := pos + 1;
      }
      assert lists[b] == pages[b];
    }

    // SingleNotebook::AddPageID
    method AddPageID(b: Book, p: Pane, atPos: int) returns (pageIndex: nat)
      requires Valid() && !IsUsed(info[p])
      requires atPos == ADD_TO_BACK || 0 <= atPos <= |lists[b]|
      modifies this`pages, this`lists, this`info
      ensures Valid() && pageIndex == (if atPos == ADD_TO_BACK then old(|lists[b]|) else atPos)
      ensures pageIndex <= old(|lists[b]|) && lists == old(lists)[b := Inserted(old(lists[b]), pageIndex, p)]
      ensures info[p] == PageInfo(b, pageIndex) && forall q: Pane | q != p :: info[q] == UNUSED <==> old(info[q]) == UNUSED
    {
      pageIndex := if atPos == ADD_TO_BACK then |lists[b]| else atPos;
      ghost var was := info;
      AddedAgree(lists, info, b, pageIndex, p);
      pages := pages[b := pages[b][..pageIndex] + [p] + pages[b][pageIndex..]];
      info := info[p := PageInfo(b, pageIndex)];
      ReIndex(b);
      assert Reindexed(was, info, b, pages[b]);
      assert lists[b][pageIndex] == p;
    }

    // SingleNotebook::RemovePageFromBook, found through the page's record
    method RemovePageID(p: Pane)
      requires Valid()
      modifies this`pages, this`lists, this`info
      ensures Valid() && info[p] == UNUSED
      ensures lists == if old(IsUsed(info[p])) then old(lists)[old(info[p].book) := Removed(old(lists[info[p].book]), old(info[p].pos))] else old(lists)
    {
      if !IsUsed(info[p]) { return; }
      var b, pos := info[p].book, info[p].pos;
      ghost var was := info;
      RemovedAgree(lists, info, p, info[p := UNUSED]);
      pages := pages[b := pages[b][..pos] + pages[b][pos + 1..]];
      info := info[p := UNUSED];
      ReIndex(b);
      assert Reindexed(was[p := UNUSED], info, b, pages[b]);
    }

    // SingleNotebook::SelectPageID; the preconditions are its assertions
    method SelectPageID(b: Book, p: Pane)
      requires Valid() && info[p].book == b
      requires 0 <= info[p].pos < |lists[b]| && lists[b][info[p].pos] == p
      modifies this`lists, this`info
      ensures Valid() && lists == old(lists) && info == old(info)
    {
      ghost var was := info;
      ListsHaveNoRepeats(lists, info, b);
      ReIndex(b);
      assert info == was;
    }

    // ---- moving panes

    // the context menu's "shift"
    method ShiftPane(p: Pane)
      requires Valid() && IsUsed(info[p])
      modifies this`pages, this`lists, this`info
      ensures Valid()
      ensures var b: Book := old(info[p].book);
              && info[p].book == ShiftBook(b) == (b + 1) % NUM_BOOKS
              && lists[b] == Removed(old(lists[b]), old(info[p].pos))
              && lists[ShiftBook(b)] == old(lists[ShiftBook(b)]) + [p]
              && forall c: Book | c != b && c != ShiftBook(b) :: lists[c] == old(lists[c])
    {
      assert RecordedRight(lists, info, p);
      var b: Book := info[p].book;
      RemovePageID(p);
      var at := AddPageID(ShiftBook(b), p, ADD_TO_BACK);
      assert lists[ShiftBook(b)][at] == p;
    }

    // SingleNotebook::DragHitTest
    function DragHitTest(b: Book, h: Hit): int
      requires Sizes() && dragged >= 0
      reads this
    {
      if !h.inside then NOT_FOUND
      else if |lists[b]| == 0 then ADD_TO_BACK
      else if |lists[b]| == 1 && dragged == lists[b][0] then KEEP_AS_IS
      else
        var existing := if info[dragged].book == b then info[dragged].pos else -2;
        if h.pos == existing then KEEP_AS_IS
        else if h.onPage then if existing >= 0 then KEEP_AS_IS else ADD_TO_BACK
        else if h.pos == -1 || !h.onItem then KEEP_AS_IS
        else h.pos
    }

    // the first book under the mouse, and what its hit test says
    function FirstHit(hits: seq<Hit>, b: nat): (int, int)
      requires Sizes() && dragged >= 0 && |hits| == NUM_BOOKS && b <= NUM_BOOKS
      reads this
      decreases NUM_BOOKS - b
    {
      if b == NUM_BOOKS then (-1, NOT_FOUND)
      else if DragHitTest(b, hits[b]) == NOT_FOUND then FirstHit(hits, b + 1)
      else (b, DragHitTest(b, hits[b]))
    }

    // wxNotebook answers with the position of a page it shows
    predicate HitsOk(hits: seq<Hit>)
      requires Sizes()
      reads this
    {
      |hits| == NUM_BOOKS && forall b: Book :: -1 <= hits[b].pos < |pages[b]|
    }

    lemma RecordedHere(p: Pane, b: Book)
      requires Valid()
      ensures info[p].book == b <==> p in lists[b]
      ensures info[p].book == b ==> 0 <= info[p].pos < |lists[b]| && lists[b][info[p].pos] == p
      ensures forall i: nat | i < |lists[b]| && lists[b][i] == p :: info[p].pos == i
    {
      if info[p].book == b { assert RecordedRight(lists, info, p); }
    }

    // The mouse is over book b.  On the tab of another pane the dragged one goes where that tab is;
    // beside the tabs, or in an empty book, to the end, unless it is in that book already; otherwise
    // it stays.
    lemma HitMeans(hits: seq<Hit>, b: Book)
      requires Valid() && HitsOk(hits) && dragged >= 0 && hits[b].inside
      ensures var h, here := hits[b], dragged in lists[b];
              DragHitTest(b, h) ==
                if h.onItem && !h.onPage && h.pos >= 0 && lists[b][h.pos] != dragged then h.pos
                else if !here && (lists[b] == [] || h.onPage) then ADD_TO_BACK
                else KEEP_AS_IS
    {
      RecordedHere(dragged, b);
    }

    // The first book under the mouse counts; with none there is no hit.
    lemma {:induction false} FirstInside(hits: seq<Hit>, from: nat, b: nat)
      requires Valid() && HitsOk(hits) && dragged >= 0 && from <= b <= NUM_BOOKS
      requires forall c: Book | from <= c < b :: !hits[c].inside
      requires b < NUM_BOOKS ==> hits[b].inside
      ensures FirstHit(hits, from) == if b == NUM_BOOKS then (-1, NOT_FOUND) else (b as int, DragHitTest(b, hits[b]))
      decreases b - from
    {
      if from < b { FirstInside(hits, from + 1, b); }
    }

    // OnMouseDragMove.  The position is computed before the pane is taken out of its old book, yet
    // it is always one where the pane can be inserted afterwards: no assertion on the way fails.
    method OnMouseDragMove(hits: seq<Hit>)
      requires Valid() && HitsOk(hits)
      modifies this`pages, this`lists, this`info, this`lastHit
      ensures Valid() && dragged == old(dragged)
      ensures dragged >= 0 ==>
                var hit := old(FirstHit(hits, 0));
                && (hit.1 == KEEP_AS_IS || hit == old(lastHit) ==> lists == old(lists) && lastHit == old(lastHit))
                && (hit.1 != KEEP_AS_IS && hit != old(lastHit) ==> lastHit == hit && Moved(dragged, hit, old(lists)))
      ensures dragged < 0 ==> lists == old(lists)
    {
      if dragged < 0 { return; }
      var p: Pane := dragged;
      var hitBook, hitPos := FindHit(hits);
      if hitPos == KEEP_AS_IS { return; }
      if (hitBook, hitPos) == lastHit { return; }
      lastHit := (hitBook, hitPos);
      MoveTo(p, hitBook, hitPos);
    }

    method MoveTo(p: Pane, hitBook: int, hitPos: int)
      requires Valid() && -1 <= hitBook < NUM_BOOKS
      requires hitBook != -1 ==> hitPos == ADD_TO_BACK || 0 <= hitPos < |lists[hitBook]|
      modifies this`pages, this`lists, this`info
      ensures Valid() && Moved(p, (hitBook, hitPos), old(lists))
    {
      TakeOut(p);
      if hitBook != -1 { PutIn(hitBook, p, hitPos); }
    }

    ghost predicate SameOthers(p: Pane, was: seq<seq<Pane>>)
      requires |lists| == |was| == NUM_BOOKS
      reads this
    {
      forall c: Book :: Without(lists[c], p) == Without(was[c], p)
    }

    method TakeOut(p: Pane)
      requires Valid()
      modifies this`pages, this`lists, this`info
      ensures Valid() && info[p] == UNUSED && SameOthers(p, old(lists))
      ensures forall c: Book :: |lists[c]| >= |old(lists)[c]| - 1
    {
      if info[p] != UNUSED { WithoutRemoved(lists, info, p); }
      RemovePageID(p);
    }

    method PutIn(b: Book, p: Pane, at: int)
      requires Valid() && info[p] == UNUSED && (at == ADD_TO_BACK || 0 <= at <= |lists[b]|)
      modifies this`pages, this`lists, this`info
      ensures Valid() && SameOthers(p, old(lists))
      ensures info[p] == PageInfo(b, if at == ADD_TO_BACK then |lists[b]| - 1 else at)
    {
      WithoutInserted(lists[b], p);
      var index := AddPageID(b, p, at);
      assert lists[b][index] == p;
      SelectPageID(b, p);
    }

    // where the dragged pane went: out of every book, or into the book hit, at the position hit or
    // at the end; nothing else changed its order
    ghost predicate Moved(p: Pane, hit: (int, int), was: seq<seq<Pane>>)
      requires Sizes() && |was| == NUM_BOOKS
      reads this
    {
      && SameOthers(p, was)
      && (hit.0 == -1 ==> info[p] == UNUSED)
      && (0 <= hit.0 < NUM_BOOKS ==>
            info[p] == PageInfo(hit.0, if hit.1 == ADD_TO_BACK then |lists[hit.0]| - 1 else hit.1))
    }

    method FindHit(hits: seq<Hit>) returns (hitBook: int, hitPos: int)
      requires Valid() && HitsOk(hits) && dragged >= 0
      ensures (hitBook, hitPos) == FirstHit(hits, 0)
      ensures hitBook == -1 <==> hitPos == NOT_FOUND
      ensures hitPos != KEEP_AS_IS && hitBook != -1 ==>
                0 <= hitBook < NUM_BOOKS && (hitPos == ADD_TO_BACK || 0 <= hitPos < |lists[hitBook]|)
    {
      hitBook := 0;
      while hitBook < NUM_BOOKS
        invariant 0 <= hitBook <= NUM_BOOKS && FirstHit(hits, hitBook) == FirstHit(hits, 0)
      {
        hitPos := DragHitTest(hitBook, hits[hitBook]);
        if hitPos != NOT_FOUND { return; }
        hitBook := hitBook + 1;
      }
      hitBook, hitPos := -1, NOT_FOUND;
    }

    // the end of PreDragContextMenu, and OnLeftMouseClick
    method StartDrag(p: Pane)
      requires Valid()
      modifies this`dragged, this`lastHit
      ensures Valid() && dragged == p && lastHit == (-1, -1)
    {
      dragged, lastHit := p, (-1, -1);
    }

    method EndDrag()
      requires Valid()
      modifies this`dragged
      ensures Valid() && dragged == -1
    {
      dragged := -1;
    }

    // ResetNotesPanes
    method ResetNotesPanes()
      requires Valid()
      modifies this`pages, this`lists, this`info
      ensures Valid() && lists == [[], seq(NUM_PANES, i => i), []]
    {
      var id := 0;
      while id < NUM_PANES
        invariant 0 <= id <= NUM_PANES && Valid()
        invariant forall p: Pane | p < id :: info[p] == UNUSED
      {
        RemovePageID(id);
        id := id + 1;
      }
      NothingUsed();
      id := 0;
      while id < NUM_PANES
        invariant 0 <= id <= NUM_PANES && Valid()
        invariant lists[0] == lists[2] == [] && lists[1] == seq(id, i => i)
        invariant forall p: Pane | p >= id :: info[p] == UNUSED
      {
        var at := AddPageID(BOTTOM_LEFT, id, ADD_TO_BACK);
        id := id + 1;
      }
    }

    // ---- the layout in the preferences

    // SaveUI; false while a pane is dragged
    method SaveUI() returns (ok: bool, list: seq<Entry>)
      requires Valid()
      ensures ok == (dragged < 0) && list == if ok then Saved(lists) else []
    {
      list := [];
      if dragged >= 0 { return false, list; }
      var b := 0;
      while b < NUM_BOOKS
        invariant 0 <= b <= NUM_BOOKS && list == SavedTo(lists, b)
      {
        var i := 0;
        ghost var start := list;
        while i < |lists[b]|
          invariant 0 <= i <= |lists[b]| && list == start + EntriesOf(lists[b][..i], b)
        {
          assert EntriesOf(lists[b][..i + 1], b) == EntriesOf(lists[b][..i], b) + [Entry(NameOf(lists[b][i]), b)];
          list := list + [Entry(NameOf(lists[b][i]), b)];
          i := i + 1;
        }
        assert lists[b][..i] == lists[b];
        b := b + 1;
      }
      ok := true;
    }

    // LoadUI; false where the C++ code stops at an assertion.  The stream is read once before its
    // end is looked at, so an empty list stops it too.
    method LoadUI(list: seq<Entry>) returns (ok: bool)
      requires Valid()
      modifies this`pages, this`lists, this`info
      ensures Valid()
      ensures ok <==> list != [] && Loadable(list, |list|, old(info))
      ensures ok ==> forall b: Book :: lists[b] == old(lists)[b] + Listed(list, |list|, b)
    {
      if list == [] { return false; }
      var i := 0;
      ghost var was, start := info, lists;
      LoadedNone(list, info, lists);
      while i < |list|
        invariant 0 <= i <= |list| && Valid() && Loaded(list, i, was, start, info, lists)
      {
        ok := LoadEntry(list, i, was, start);
        if !ok { return; }
        i := i + 1;
      }
      ok := true;
    }

    method LoadEntry(list: seq<Entry>, i: nat, ghost was: seq<PageInfo>, ghost start: seq<seq<Pane>>) returns (ok: bool)
      requires i < |list| && Valid() && |was| == NUM_PANES && |start| == NUM_BOOKS && Loaded(list, i, was, start, info, lists)
      modifies this`pages, this`lists, this`info
      ensures Valid() && ok == Loadable(list, i + 1, was)
      ensures if ok then Loaded(list, i + 1, was, start, info, lists) else !Loadable(list, |list|, was)
    {
      var e := list[i];
      NextEntry(list, i, was);
      if !(0 <= e.book < NUM_BOOKS) { return false; }
      if e.name.Unknown? { return true; }   // ignored
      var id := e.name.pane;
      if IsUsed(info[id]) { return false; }
      ghost var info0, lists0 := info, lists;
      AddToBook(e.book, id);
      LoadedNext(list, i, was, start, info0, lists0, info, lists);
      ok := true;
    }

    method AddToBook(b: Book, p: Pane)
      requires Valid() && info[p] == UNUSED
      modifies this`pages, this`lists, this`info
      ensures Valid() && lists[b] == old(lists[b]) + [p] && forall c: Book | c != b :: lists[c] == old(lists[c])
      ensures info[p] != UNUSED && forall q: Pane | q != p :: info[q] == UNUSED <==> old(info[q]) == UNUSED
    {
      var at := AddPageID(b, p, ADD_TO_BACK);
    }

    lemma NothingUsed()
      requires Valid() && forall p: Pane :: info[p] == UNUSED
      ensures lists == [[], [], []]
    {
      forall b: Book ensures lists[b] == [] { FirstIsUsed(b); }
    }

    lemma FirstIsUsed(b: Book)
      requires Valid()
      ensures lists[b] != [] ==> exists p: Pane :: info[p] != UNUSED
    {
      if lists[b] != [] { assert info[lists[b][0]] == PageInfo(b, 0); }
    }
  }

  lemma ListsHaveNoRepeats(lists: seq<seq<Pane>>, info: seq<PageInfo>, b: Book)
    requires Agree(lists, info)
    ensures NoRepeats(lists[b])
  {
    forall i, j | 0 <= i < j < |lists[b]| ensures lists[b][i] != lists[b][j] {
      assert info[lists[b][i]] == PageInfo(b, i);
      assert info[lists[b][j]] == PageInfo(b, j);
    }
  }

  lemma AddedAgree(lists: seq<seq<Pane>>, info: seq<PageInfo>, b: Book, at: nat, p: Pane)
    requires Agree(lists, info) && info[p] == UNUSED && at <= |lists[b]|
    ensures NoRepeats(Inserted(lists[b], at, p))
    ensures forall after | Reindexed(info, after, b, Inserted(lists[b], at, p)) :: Agree(lists[b := Inserted(lists[b], at, p)], after)
  {
    var s, t := lists[b], Inserted(lists[b], at, p);
    ListsHaveNoRepeats(lists, info, b);
    InsertedHas(s, at, p);
    forall after | Reindexed(info, after, b, t) ensures Agree(lists[b := t], after) {
      OneBookChanged(lists, info, b, t, after);
    }
  }

  lemma RemovedAgree(lists: seq<seq<Pane>>, info: seq<PageInfo>, p: Pane, cleared: seq<PageInfo>)
    requires Agree(lists, info) && cleared == info[p := UNUSED] && info[p] != UNUSED
    ensures var b, at := info[p].book, info[p].pos;
            && NoRepeats(Removed(lists[b], at)) && p !in Removed(lists[b], at)
            && forall after | Reindexed(cleared, after, b, Removed(lists[b], at)) :: Agree(lists[b := Removed(lists[b], at)], after)
  {
    var b, at := info[p].book, info[p].pos;
    var t := Removed(lists[b], at);
    assert RecordedRight(lists, info, p);
    ListsHaveNoRepeats(lists, info, b);
    RemovedHas(lists[b], at);
    forall after | Reindexed(cleared, after, b, t) ensures Agree(lists[b := t], after) {
      OneBookChanged(lists, cleared, b, t, after);
    }
  }

  // Only pages of b's old or new list may be recorded in b; the other books are untouched.
  lemma OneBookChanged(lists: seq<seq<Pane>>, info: seq<PageInfo>, b: Book, t: seq<Pane>, after: seq<PageInfo>)
    requires |lists| == NUM_BOOKS && Reindexed(info, after, b, t)
    requires forall c: Book, i: nat | c != b && i < |lists[c]| :: info[lists[c][i]] == PageInfo(c, i) && lists[c][i] !in t
    requires forall p: Pane | p !in t :: info[p] == UNUSED || (RecordedRight(lists, info, p) && info[p].book != b)
    ensures Agree(lists[b := t], after)
  {
    var now := lists[b := t];
    forall p: Pane ensures after[p] == UNUSED || RecordedRight(now, after, p) {
      if p in t {
        var i: nat :| i < |t| && t[i] == p;
        assert after[t[i]] == PageInfo(b, i);
      } else {
        assert after[p] == info[p];
      }
    }
    forall c: Book, i: nat | i < |now[c]| ensures after[now[c][i]] == PageInfo(c, i) {
      if c == b {
        assert after[t[i]] == PageInfo(b, i);
      } else {
        assert lists[c][i] !in t;
      }
    }
  }

  lemma {:induction false} WithoutAppend(s: seq<nat>, t: seq<nat>, both: seq<nat>, p: nat)
    requires both == s + t
    ensures Without(both, p) == Without(s, p) + Without(t, p)
  {
    if s == [] {
      assert both == t;
    } else {
      assert both[0] == s[0] && both[1..] == s[1..] + t;
      WithoutAppend(s[1..], t, both[1..], p);
    }
  }

  lemma WithoutInserted(s: seq<Pane>, p: Pane)
    ensures forall at: nat | at <= |s| :: Without(Inserted(s, at, p), p) == Without(s, p)
  {
    forall at: nat | at <= |s| ensures Without(Inserted(s, at, p), p) == Without(s, p) {
      var l, r := s[..at], s[at..];
      WithoutAppend(l, [p] + r, Inserted(s, at, p), p);
      WithoutAppend(l, r, s, p);
      assert ([p] + r)[1..] == r;
    }
  }

  lemma WithoutRemoved(lists: seq<seq<Pane>>, info: seq<PageInfo>, p: Pane)
    requires Agree(lists, info) && info[p] != UNUSED
    ensures Without(Removed(lists[info[p].book], info[p].pos), p) == Without(lists[info[p].book], p)
  {
    assert RecordedRight(lists, info, p);
    var s, at := lists[info[p].book], info[p].pos;
    var t := Removed(s, at);
    assert Inserted(t, at, p) == s;
    WithoutInserted(t, p);
  }

  lemma InsertedHas(s: seq<Pane>, at: nat, p: Pane)
    requires at <= |s| && NoRepeats(s) && p !in s
    ensures NoRepeats(Inserted(s, at, p))
    ensures forall q :: q in Inserted(s, at, p) <==> q == p || q in s
  {
    assert s == s[..at] + s[at..];
  }

  lemma RemovedHas(s: seq<Pane>, at: nat)
    requires at < |s| && NoRepeats(s)
    ensures NoRepeats(Removed(s, at))
    ensures forall q :: q in Removed(s, at) <==> q != s[at] && q in s
  {
    assert s == s[..at] + [s[at]] + s[at + 1..];
  }

  // ---------------------------------------------------------------- saving and loading

  lemma {:induction false} ListedAppend(l: seq<Entry>, r: seq<Entry>, both: seq<Entry>, m: nat, n: nat, b: Book)
    requires both == l + r && n <= |r| && m == |l| + n
    ensures Listed(both, m, b) == Listed(l, |l|, b) + Listed(r, n, b)
  {
    if n == 0 {
      ListedPrefix(l, both, |l|, b);
    } else {
      ListedAppend(l, r, both, m - 1, n - 1, b);
      assert both[m - 1] == r[n - 1];
    }
  }

  lemma {:induction false} ListedPrefix(l: seq<Entry>, both: seq<Entry>, n: nat, b: Book)
    requires n <= |l| <= |both| && forall i: nat | i < n :: both[i] == l[i]
    ensures Listed(both, n, b) == Listed(l, n, b)
  {
    if n > 0 { ListedPrefix(l, both, n - 1, b); }
  }

  lemma {:induction false} ListedOfBook(s: seq<Pane>, entries: seq<Entry>, c: Book, n: nat, b: Book)
    requires n <= |s| == |entries| && forall i: nat | i < |s| :: entries[i] == Entry(NameOf(s[i]), c)
    ensures Listed(entries, n, b) == OnlyIn(s[..n], c, b)
  {
    if n > 0 {
      ListedOfBook(s, entries, c, n - 1, b);
      assert PaneFor(entries[n - 1], b) == OnlyIn([s[n - 1]], c, b);
      assert s[..n] == s[..n - 1] + [s[n - 1]];
    }
  }

  function OnlyIn(s: seq<Pane>, c: Book, b: Book): seq<Pane> {
    if b == c then s else []
  }

  lemma ListedOfWholeBook(s: seq<Pane>, c: Book, b: Book, entries: seq<Entry>)
    requires entries == EntriesOf(s, c)
    ensures Listed(entries, |entries|, b) == OnlyIn(s, c, b)
  {
    ListedOfBook(s, entries, c, |s|, b);
    assert s[..|s|] == s;
  }

  lemma ListedJoin(before: seq<Entry>, here: seq<Entry>, all: seq<Entry>, b: Book, u: seq<Pane>, v: seq<Pane>)
    requires all == before + here && Listed(before, |before|, b) == u && Listed(here, |here|, b) == v
    ensures Listed(all, |all|, b) == u + v
  {
    ListedAppend(before, here, all, |all|, |here|, b);
  }

  lemma {:induction false} ListedOfSaved(lists: seq<seq<Pane>>, n: nat, b: Book)
    requires |lists| == NUM_BOOKS && n <= NUM_BOOKS
    ensures Listed(SavedTo(lists, n), |SavedTo(lists, n)|, b) == UpTo(lists, n, b)
  {
    if n > 0 {
      var c: Book := n - 1;
      var before, here := SavedTo(lists, c), EntriesOf(lists[c], c);
      ListedOfSaved(lists, c, b);
      ListedOfWholeBook(lists[c], c, b, here);
      SavedToNext(before, here, SavedTo(lists, n), lists, c, b);
    }
  }

  lemma SavedToNext(before: seq<Entry>, here: seq<Entry>, all: seq<Entry>, lists: seq<seq<Pane>>, c: Book, b: Book)
    requires |lists| == NUM_BOOKS && all == before + here
    requires Listed(before, |before|, b) == UpTo(lists, c, b)
    requires Listed(here, |here|, b) == OnlyIn(lists[c], c, b)
    ensures Listed(all, |all|, b) == UpTo(lists, c + 1, b)
  {
    PagesUpTo(lists, c, b);
    ListedJoin(before, here, all, b, UpTo(lists, c, b), OnlyIn(lists[c], c, b));
  }

  // the pages of b if it is one of the first n books
  function UpTo(lists: seq<seq<Pane>>, n: nat, b: Book): seq<Pane>
    requires |lists| == NUM_BOOKS
  {
    if b < n then lists[b] else []
  }

  lemma PagesUpTo(lists: seq<seq<Pane>>, c: Book, b: Book)
    requires |lists| == NUM_BOOKS
    ensures UpTo(lists, c, b) + OnlyIn(lists[c], c, b) == UpTo(lists, c + 1, b)
  {
  }

  lemma SavedListsEveryBook(lists: seq<seq<Pane>>)
    requires |lists| == NUM_BOOKS
    ensures forall b: Book :: Listed(Saved(lists), |Saved(lists)|, b) == lists[b]
  {
    forall b: Book ensures Listed(Saved(lists), |Saved(lists)|, b) == lists[b] { ListedOfSaved(lists, NUM_BOOKS, b); }
  }

  // every entry of a saved layout stands for a page of some book
  lemma {:induction false} SavedEntry(lists: seq<seq<Pane>>, n: nat, k: nat) returns (b: Book, i: nat)
    requires |lists| == NUM_BOOKS && n <= NUM_BOOKS && k < |SavedTo(lists, n)|
    ensures b < n && i < |lists[b]| && SavedTo(lists, n)[k] == Entry(NameOf(lists[b][i]), b)
    ensures k == |SavedTo(lists, b)| + i
  {
    var before := SavedTo(lists, n - 1);
    if k < |before| {
      b, i := SavedEntry(lists, n - 1, k);
    } else {
      b, i := n - 1, k - |before|;
    }
  }

  lemma SavedLoadable(lists: seq<seq<Pane>>, info: seq<PageInfo>, free: seq<PageInfo>)
    requires Agree(lists, info) && |free| == NUM_PANES && forall p: Pane :: free[p] == UNUSED
    ensures Loadable(Saved(lists), |Saved(lists)|, free)
  {
    var list := Saved(lists);
    forall k: nat | k < |list|
      ensures 0 <= list[k].book < NUM_BOOKS
      ensures list[k].name.NameOf? && !Mentions(list, k, list[k].name.pane)
    {
      var b, i := SavedEntry(lists, NUM_BOOKS, k);
      assert info[lists[b][i]] == PageInfo(b, i);
      forall m: nat | m < k ensures list[m].name != NameOf(lists[b][i]) {
        var c, j := SavedEntry(lists, NUM_BOOKS, m);
        assert info[lists[c][j]] == PageInfo(c, j);
      }
    }
  }

  // Loading what was saved gives every book the same pages in the same order, on a panel with no
  // pages yet.  A layout without any page cannot be loaded again.
  method SaveThenLoad(from: BottomNotePanel, to: BottomNotePanel) returns (ok: bool)
    requires from.Valid() && to.Valid() && from.dragged < 0 && from != to
    requires forall p: Pane :: to.info[p] == UNUSED
    modifies to
    ensures ok <==> exists b: Book :: from.lists[b] != []
    ensures to.Valid() && from.Valid()
    ensures ok ==> to.lists == from.lists
  {
    var saved, list := from.SaveUI();
    ok := LoadSaved(to, list, from.lists, from.info);
    SavedEmptyIff(from.lists);
  }

  method LoadSaved(to: BottomNotePanel, list: seq<Entry>, ghost lists: seq<seq<Pane>>, ghost info: seq<PageInfo>) returns (ok: bool)
    requires to.Valid() && Agree(lists, info) && list == Saved(lists)
    requires forall p: Pane :: to.info[p] == UNUSED
    modifies to`pages, to`lists, to`info
    ensures to.Valid() && (ok <==> list != []) && (ok ==> to.lists == lists)
  {
    to.NothingUsed();
    assert Loadable(list, |list|, to.info) by { SavedLoadable(lists, info, to.info); }
    ok := to.LoadUI(list);
    if ok { SameAsSaved(lists, to.lists); }
  }

  lemma SameAsSaved(lists: seq<seq<Pane>>, after: seq<seq<Pane>>)
    requires |lists| == |after| == NUM_BOOKS
    requires forall b: Book :: after[b] == [] + Listed(Saved(lists), |Saved(lists)|, b)
    ensures after == lists
  {
    SavedListsEveryBook(lists);
    assert forall b: Book :: after[b] == lists[b];
  }

  lemma SavedEmptyIff(lists: seq<seq<Pane>>)
    requires |lists| == NUM_BOOKS
    ensures Saved(lists) != [] <==> exists b: Book :: lists[b] != []
  {
    SavedSize(lists, NUM_BOOKS);
    assert |lists[0]| + |lists[1]| + |lists[2]| > 0 <==> lists[0] != [] || lists[1] != [] || lists[2] != [];
  }

  lemma SavedSize(lists: seq<seq<Pane>>, n: nat)
    requires |lists| == NUM_BOOKS && n <= NUM_BOOKS
    ensures |SavedTo(lists, n)| == (if n > 0 then |lists[0]| else 0) + (if n > 1 then |lists[1]| else 0) + (if n > 2 then |lists[2]| else 0)
  {
    if n > 0 { SavedSize(lists, n - 1); }
  }
}

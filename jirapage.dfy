/** The board page as the script keeps it: three column containers that its
    handlers change in place, the storage entry, the issues of the last
    render and the four counters. Each handler is proved against the pure
    functions of `Board`. */
module JiraPage {
  import opened Wrappers
  import opened Status
  import opened StatusFilter
  import opened Board

  class BoardPage {
    /** The children of the three column containers, in display order. */
    var todo: seq<Card>
    var inprog: seq<Card>
    var done: seq<Card>
    /** The `jira_kanban_state` entry of local storage. */
    var storage: Slot
    /** `currentIssues`: the issue list of the last render. */
    var currentIssues: seq<Issue>
    /** The text of the four counters. */
    var statTotal: nat
    var statTodo: nat
    var statInprog: nat
    var statDone: nat

    function Layout(): (c: Columns)
      reads this
    {
      Columns(todo, inprog, done)
    }

    /** Each card id of the last render's issues is on the board once, and
        no other id is. */
    ghost predicate Valid()
      reads this
    {
      IdBag(Layout()) == multiset(CardIds(currentIssues))
    }

    /** The counters show the last render's issue count and each column's
        length. */
    predicate StatsShown()
      reads this
    {
      statTotal == |currentIssues| && statTodo == |todo| && statInprog == |inprog| && statDone == |done|
    }

    /** A page before its first render: no issues, whatever storage already
        holds, and the markup's columns and counters taken to be empty. */
    constructor (saved: Slot)
      ensures Layout() == NoColumns && storage == saved && currentIssues == []
      ensures Valid() && StatsShown()
    {
      todo, inprog, done := [], [], [];
      storage := saved;
      currentIssues := [];
      statTotal, statTodo, statInprog, statDone := 0, 0, 0, 0;
    }

    /** Replaces one column's children. */
    method SetCol(lane: Lane, s: seq<Card>)
      modifies this`todo, this`inprog, this`done
      ensures Layout() == WithCol(old(Layout()), lane, s)
    {
      match lane
      case Todo => todo := s;
      case InProg => inprog := s;
      case Done => done := s;
    }

    /** `clearColumns`. */
    method ClearColumns()
      modifies this`todo, this`inprog, this`done
      ensures Layout() == NoColumns
    {
      todo, inprog, done := [], [], [];
    }

    /** `populateColumns(issues)`: empties the columns, then appends each
        issue's fresh card to the column its status names. */
    method PopulateColumns(issues: seq<Issue>)
      modifies this`todo, this`inprog, this`done
      ensures Layout() == Placement(issues)
    {
      ClearColumns();
      var k := 0;
      while k < |issues|
        invariant 0 <= k <= |issues|
        invariant Layout() == Placement(issues[..k])
      {
        var issue := issues[k];
        var card := CreateCard(issue);
        var st := NormalizeStatus(issue.status);
        assert issues[..k + 1][..k] == issues[..k];
        if st == Done {
          done := done + [card];
        } else if st == InProg {
          inprog := inprog + [card];
        } else {
          todo := todo + [card];
        }
        k := k + 1;
      }
      assert issues[..|issues|] == issues;
    }

    /** `updateStats(issues)`. */
    method UpdateStats(issues: seq<Issue>)
      modifies this`statTotal, this`statTodo, this`statInprog, this`statDone
      ensures statTotal == |issues|
      ensures statTodo == |todo| && statInprog == |inprog| && statDone == |done|
    {
      statTotal := |issues|;
      statTodo := |todo|;
      statInprog := |inprog|;
      statDone := |done|;
    }

    /** The per-card step of `applyFilter` over one column's cards. */
    static method FilterColumn(s: seq<Card>, filter: Option<string>) returns (r: seq<Card>)
      ensures r == ShowCol(s, filter)
    {
      r := s;
      var k := 0;
      while k < |r|
        invariant 0 <= k <= |r| == |s|
        invariant forall j :: 0 <= j < k ==> r[j] == s[j].(shown := Shows(filter, s[j].status))
        invariant r[k..] == s[k..]
      {
        assert r[k] == s[k];
        r := r[k := r[k].(shown := Shows(filter, r[k].status))];
        k := k + 1;
      }
    }

    /** `applyFilter(filter)`: sets the visibility of every card. */
    method ApplyFilter(filter: Option<string>)
      modifies this`todo, this`inprog, this`done
      ensures Layout() == Filtered(old(Layout()), filter)
      ensures old(Valid()) ==> Valid()
      ensures old(StatsShown()) ==> StatsShown()
    {
      var t := FilterColumn(todo, filter);
      var i := FilterColumn(inprog, filter);
      var d := FilterColumn(done, filter);
      FilterKeepsCounts(Layout(), filter);
      todo, inprog, done := t, i, d;
    }

    /** Looks the card up by its DOM id and, when there is one, moves it to
        the end of the target column. */
    method AppendById(id: string, target: Lane)
      modifies this`todo, this`inprog, this`done
      ensures Layout() == MoveCard(old(Layout()), id, target)
    {
      match Locate(Layout(), id)
      case None =>
      case Some(Location(l, i)) =>
        var s := Col(Layout(), l);
        var card := s[i];
        SetCol(l, s[..i] + s[i + 1..]);
        SetCol(target, Col(Layout(), target) + [card]);
    }

    /** `persistBoardState()`: records each column's ids; when storage
        refuses the write, the error is caught and the entry stays as it
        was. */
    method PersistBoardState(writable: bool)
      modifies this`storage
      ensures storage == if writable then Stored(Snapshot(Layout())) else old(storage)
    {
      if writable {
        storage := Stored(Snapshot(Layout()));
      }
    }

    /** The inner loop of `restoreBoardState` for one saved column. */
    method RestoreColumn(ids: seq<string>, lane: Lane)
      modifies this`todo, this`inprog, this`done
      ensures Layout() == AppendAll(old(Layout()), ids, lane)
    {
      ghost var start := Layout();
      var k := 0;
      while k < |ids|
        invariant 0 <= k <= |ids|
        invariant Layout() == AppendAll(start, ids[..k], lane)
      {
        AppendAllSnoc(start, ids, k, lane);
        AppendById(ids[k], lane);
        k := k + 1;
      }
      assert ids[..|ids|] == ids;
    }

    /** `restoreBoardState()`: with no entry, or one that does not parse,
        nothing moves and the answer is false; otherwise the saved to-do,
        in-progress and done lists are re-applied in that order. */
    method RestoreBoardState() returns (restored: bool)
      modifies this`todo, this`inprog, this`done
      ensures restored <==> storage.Stored?
      ensures Layout() == if storage.Stored? then Restored(old(Layout()), storage.state) else old(Layout())
    {
      match storage
      case Empty =>
        restored := false;
      case Malformed =>
        restored := false;
      case Stored(s) =>
        RestoreColumn(s.todo, Todo);
        RestoreColumn(s.inprog, InProg);
        RestoreColumn(s.done, Done);
        restored := true;
    }

    /** The drop handler of a column: move the dragged card there, save the
        layout, recount. */
    method Drop(id: string, target: Lane, writable: bool)
      requires Valid()
      modifies this`todo, this`inprog, this`done, this`storage
      modifies this`statTotal, this`statTodo, this`statInprog, this`statDone
      ensures Layout() == MoveCard(old(Layout()), id, target)
      ensures storage == if writable then Stored(Snapshot(Layout())) else old(storage)
      ensures Valid() && StatsShown()
      ensures statTodo + statInprog + statDone == statTotal
    {
      ghost var before := Layout();
      AppendById(id, target);
      MoveKeepsIssues(before, currentIssues, id, target);
      PersistBoardState(writable);
      UpdateStats(currentIssues);
    }

    /** `fetchAndRender()` once the issues have arrived: remember them,
        place their cards, re-apply a saved layout, recount. */
    method FetchAndRender(issues: seq<Issue>)
      modifies this`todo, this`inprog, this`done, this`currentIssues
      modifies this`statTotal, this`statTodo, this`statInprog, this`statDone
      ensures currentIssues == issues
      ensures Layout() == if storage.Stored? then Restored(Placement(issues), storage.state) else Placement(issues)
      ensures Valid() && StatsShown()
      ensures statTodo + statInprog + statDone == statTotal
    {
      ghost var rendered := if storage.Stored? then Restored(Placement(issues), storage.state) else Placement(issues);
      currentIssues := issues;
      PopulateColumns(issues);
      var _ := RestoreBoardState();
      assert Layout() == rendered;
      RenderKeepsCards(issues, storage);
      CountOfIssues(rendered, issues);
      UpdateStats(issues);
    }

    /** The reset button's click: the entry is removed and a fetch is
        started. The render runs later, as `FetchAndRender`, when the fetch
        resolves, and the page keeps taking drops until then. */
    method Reset()
      modifies this`storage
      ensures storage == Empty
    {
      storage := Empty;
    }
  }

  /** A board that holds one card per issue holds as many cards as there
      are issues. */
  lemma CountOfIssues(c: Columns, issues: seq<Issue>)
    requires IdBag(c) == multiset(CardIds(issues))
    ensures |c.todo| + |c.inprog| + |c.done| == |issues|
  {
    assert |multiset(Ids(c.todo))| == |Ids(c.todo)|;
    assert |multiset(CardIds(issues))| == |CardIds(issues)|;
  }

  /** A move keeps one card per issue on the board. */
  lemma MoveKeepsIssues(c: Columns, issues: seq<Issue>, id: string, target: Lane)
    requires IdBag(c) == multiset(CardIds(issues))
    ensures IdBag(MoveCard(c, id, target)) == multiset(CardIds(issues))
    ensures var r := MoveCard(c, id, target); |r.todo| + |r.inprog| + |r.done| == |issues|
  {
    MoveCardKeepsCards(c, id, target);
    CountOfIssues(MoveCard(c, id, target), issues);
  }

  /** A render holds one card per issue, whether or not a layout is
      restored. */
  lemma RenderKeepsCards(issues: seq<Issue>, slot: Slot)
    ensures IdBag(if slot.Stored? then Restored(Placement(issues), slot.state) else Placement(issues)) ==
      multiset(CardIds(issues))
  {
    PlacementIds(issues);
    if slot.Stored? {
      RestoredKeepsCards(Placement(issues), slot.state);
    }
  }

  /** A drop that was saved survives a reload: rendering the same issues
      (unique keys) afresh and restoring the record the drop wrote gives
      back the layout the drop left. */
  lemma DropThenReload(c: Columns, issues: seq<Issue>, id: string, target: Lane)
    requires UniqueKeys(issues)
    requires IdBag(c) == multiset(CardIds(issues))
    ensures var moved := MoveCard(c, id, target);
      Snapshot(Restored(Placement(issues), Snapshot(moved))) == Snapshot(moved)
  {
    var moved := MoveCard(c, id, target);
    MoveKeepsIssues(c, issues, id, target);
    BagOfAll(moved);
    ReloadReproducesLayout(issues, Snapshot(moved));
  }
}

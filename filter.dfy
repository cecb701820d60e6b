/** The per-card decision of `applyFilter`: whether a card with a given
    stored status is displayed under a given filter value. */
module StatusFilter {
  import opened Wrappers
  import opened Text
  import opened Status

  /** The `to do` group of filter values and the words its test looks for. */
  predicate IsTodoFilter(f: string) {
    f == "to do" || f == "to-do" || f == "todo"
  }

  predicate IsInProgFilter(f: string) {
    f == "in progress" || f == "in-progress" || f == "pågår" || f == "inprogress"
  }

  predicate IsDoneFilter(f: string) {
    f == "done" || f == "ferdig" || f == "completed"
  }

  /** `applyFilter`'s decision for one card: the filter value is lower-cased
      (a missing value reads as empty); empty or "all" shows every card; the
      three named groups test the lower-cased status against their own word
      lists; any other value is a substring test. */
  function Shows(filter: Option<string>, status: string): (shown: bool) {
    var f := Lower(filter.GetOr(""));
    if f == "" || f == "all" then true
    else
      var st := Lower(status);
      if IsTodoFilter(f) then
        Contains(st, "to do") || Contains(st, "todo") || Contains(st, "ikke") || Contains(st, "open")
      else if IsInProgFilter(f) then
        Contains(st, "in progress") || Contains(st, "pågår") || Contains(st, "doing")
      else if IsDoneFilter(f) then
        Contains(st, "done") || Contains(st, "ferdig") || Contains(st, "completed")
      else
        Contains(st, f)
  }

  /** No filter, an empty one, or "all" in any letter case shows every card. */
  lemma ShowAllFilter(filter: Option<string>, status: string)
    requires filter.None? || Lower(filter.value) in {"", "all"}
    ensures Shows(filter, status)
  {
  }

  /** The filter value is matched without regard to letter case. */
  lemma ShowsIgnoresFilterCase(f: string, g: string, status: string)
    requires Lower(f) == Lower(g)
    ensures Shows(Some(f), status) == Shows(Some(g), status)
  {
  }

  /** The status a card stores is already lower-cased; filtering it gives
      the same answer as filtering the issue's original status. */
  lemma ShowsOfLowered(filter: Option<string>, s: string)
    ensures Shows(filter, Lower(s)) == Shows(filter, s)
  {
    LowerIdempotent(s);
  }

  /** An unrecognised filter value shows exactly the cards whose status
      contains it, in any letter case. */
  lemma SubstringFallback(f: string, status: string)
    requires var g := Lower(f);
      g != "" && g != "all" && !IsTodoFilter(g) && !IsInProgFilter(g) && !IsDoneFilter(g)
    ensures Shows(Some(f), status) <==> Mentions(status, Lower(f))
  {
    ContainsLowerIff(status, Lower(f));
  }

  /** The three named groups, in any letter case of the filter value: each
      shows exactly the cards whose status mentions one of its own words, in
      any letter case. */
  lemma NamedGroups(f: string, st: string)
    ensures IsTodoFilter(Lower(f)) ==> (Shows(Some(f), st) <==>
      Mentions(st, "to do") || Mentions(st, "todo") || Mentions(st, "ikke") || Mentions(st, "open"))
    ensures IsInProgFilter(Lower(f)) ==> (Shows(Some(f), st) <==>
      Mentions(st, "in progress") || Mentions(st, "pågår") || Mentions(st, "doing"))
    ensures IsDoneFilter(Lower(f)) ==> (Shows(Some(f), st) <==>
      Mentions(st, "done") || Mentions(st, "ferdig") || Mentions(st, "completed"))
  {
    ContainsLowerIff(st, "to do");
    ContainsLowerIff(st, "todo");
    ContainsLowerIff(st, "ikke");
    ContainsLowerIff(st, "open");
    ContainsLowerIff(st, "in progress");
    ContainsLowerIff(st, "pågår");
    ContainsLowerIff(st, "doing");
    ContainsLowerIff(st, "done");
    ContainsLowerIff(st, "ferdig");
    ContainsLowerIff(st, "completed");
  }

  /** An "In-Progress" issue sits in the in-progress column, but the
      "in progress" filter hides it: its words lack the hyphenated form. */
  lemma InProgFilterHidesHyphenated()
    ensures NormalizeStatus(Some("In-Progress")) == InProg
    ensures !Shows(Some("in progress"), "In-Progress")
  {
    HyphenatedIsInProg();
    HyphenatedFiltered();
  }

  lemma HyphenatedIsInProg()
    ensures NormalizeStatus(Some("In-Progress")) == InProg
  {
    var s := "in-progress";
    assert Lower("In-Progress") == s;
    assert OccursAt(s, "in-progress", 0);
    NotContains(s, "done", 0);
    NotContains(s, "closed", 0);
    NotContains(s, "resolved", 4);
    NotContains(s, "ferdig", 0);
  }

  lemma HyphenatedFiltered()
    ensures !Shows(Some("in progress"), "In-Progress")
  {
    var s := "in-progress";
    assert Lower("In-Progress") == s;
    assert Lower("in progress") == "in progress";
    NotContains(s, "in progress", 2);
    NotContains(s, "pågår", 1);
    NotContains(s, "doing", 0);
  }

  /** A "Backlog" issue sits in the to-do column, but the "todo" filter
      hides it. */
  lemma TodoFilterHidesBacklog()
    ensures NormalizeStatus(Some("Backlog")) == Todo
    ensures !Shows(Some("todo"), "Backlog")
  {
    BacklogIsTodo();
    BacklogFiltered();
  }

  lemma BacklogIsTodo()
    ensures NormalizeStatus(Some("Backlog")) == Todo
  {
    var s := "backlog";
    assert Lower("Backlog") == s;
    NotContains(s, "done", 0);
    NotContains(s, "closed", 4);
    NotContains(s, "resolved", 0);
    NotContains(s, "ferdig", 0);
    NotContains(s, "in progress", 0);
    NotContains(s, "pågår", 1);
    NotContains(s, "in-progress", 0);
    NotContains(s, "doing", 0);
  }

  lemma BacklogFiltered()
    ensures !Shows(Some("todo"), "Backlog")
  {
    var s := "backlog";
    assert Lower("Backlog") == s;
    assert Lower("todo") == "todo";
    NotContains(s, "to do", 0);
    NotContains(s, "todo", 0);
    NotContains(s, "ikke", 0);
    NotContains(s, "open", 1);
  }

  /** The filter's word lists are not the classifier's. A "Closed" issue
      sits in the done column, but the "done" filter hides it. */
  lemma DoneFilterHidesClosed()
    ensures NormalizeStatus(Some("Closed")) == Done
    ensures !Shows(Some("done"), "Closed")
  {
    assert Lower("Closed") == "closed";
    assert Lower("done") == "done";
    assert OccursAt("closed", "closed", 0);
    NotContains("closed", "done", 0);
    NotContains("closed", "ferdig", 0);
    NotContains("closed", "completed", 0);
  }

  /** A "Completed" issue sits in the to-do column, but the "done" filter
      shows it. */
  lemma DoneFilterShowsCompleted()
    ensures NormalizeStatus(Some("Completed")) == Todo
    ensures Shows(Some("done"), "Completed")
  {
    var c := "completed";
    assert Lower("Completed") == c;
    assert Lower("done") == "done";
    assert OccursAt(c, "completed", 0);
    assert !HasDoneWord(c) by {
      NotContains(c, "done", 0);
      NotContains(c, "closed", 2);
      NotContains(c, "resolved", 0);
      NotContains(c, "ferdig", 0);
    }
    assert !HasInProgWord(c) by {
      NotContains(c, "in progress", 0);
      NotContains(c, "pågår", 1);
      NotContains(c, "in-progress", 0);
      NotContains(c, "doing", 0);
    }
  }
}

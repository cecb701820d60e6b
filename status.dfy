/** The two classifications of an issue that the board derives from free
    text: the lane of its status (`normalizeStatus`) and the class of its
    priority badge (the chain inside `createCard`). */
module Status {
  import opened Wrappers
  import opened Text

  /** The three columns of the board, in the order they stand in the page. */
  datatype Lane = Todo | InProg | Done

  /** The lower-cased status names a done keyword. */
  predicate HasDoneWord(n: string) {
    Contains(n, "done") || Contains(n, "closed") || Contains(n, "resolved") || Contains(n, "ferdig")
  }

  /** The lower-cased status names an in-progress keyword. */
  predicate HasInProgWord(n: string) {
    Contains(n, "in progress") || Contains(n, "pågår") || Contains(n, "in-progress") || Contains(n, "doing")
  }

  /** Reference reading of the done keywords: some segment of the status, in
      any letter case, is one of them. */
  ghost predicate MentionsDone(s: string) {
    Mentions(s, "done") || Mentions(s, "closed") || Mentions(s, "resolved") || Mentions(s, "ferdig")
  }

  ghost predicate MentionsInProg(s: string) {
    Mentions(s, "in progress") || Mentions(s, "pågår") || Mentions(s, "in-progress") || Mentions(s, "doing")
  }

  lemma DoneWordIff(s: string)
    ensures HasDoneWord(Lower(s)) <==> MentionsDone(s)
  {
    ContainsLowerIff(s, "done");
    ContainsLowerIff(s, "closed");
    ContainsLowerIff(s, "resolved");
    ContainsLowerIff(s, "ferdig");
  }

  lemma InProgWordIff(s: string)
    ensures HasInProgWord(Lower(s)) <==> MentionsInProg(s)
  {
    ContainsLowerIff(s, "in progress");
    ContainsLowerIff(s, "pågår");
    ContainsLowerIff(s, "in-progress");
    ContainsLowerIff(s, "doing");
  }

  /** `normalizeStatus(name)`: a missing or empty status is `todo`; otherwise
      the lower-cased text is searched for done keywords first, then for
      in-progress keywords, and anything else is `todo`. */
  function NormalizeStatus(name: Option<string>): (lane: Lane) {
    match name
    case None => Todo
    case Some(s) =>
      if s == "" then Todo
      else
        var n := Lower(s);
        if HasDoneWord(n) then Done
        else if HasInProgWord(n) then InProg
        else Todo
  }

  /** The classifier against the segment-wise reading: `done` exactly when a
      done keyword appears in any case; `inprog` exactly when no done keyword
      but an in-progress keyword appears; `todo` otherwise, and always for a
      missing status. */
  lemma NormalizeStatusCases(name: Option<string>)
    ensures NormalizeStatus(name) == Done <==> name.Some? && MentionsDone(name.value)
    ensures NormalizeStatus(name) == InProg <==>
      name.Some? && !MentionsDone(name.value) && MentionsInProg(name.value)
    ensures NormalizeStatus(name) == Todo <==>
      name.None? || (!MentionsDone(name.value) && !MentionsInProg(name.value))
  {
    if name.Some? {
      var s := name.value;
      DoneWordIff(s);
      InProgWordIff(s);
      if s == "" {
        assert !Mentions(s, "done") && !Mentions(s, "closed") && !Mentions(s, "resolved") && !Mentions(s, "ferdig");
        assert !Mentions(s, "in progress") && !Mentions(s, "pågår") && !Mentions(s, "in-progress") && !Mentions(s, "doing");
      }
    }
  }

  /** A missing status and an empty one both land in `todo`. */
  lemma MissingStatusIsTodo()
    ensures NormalizeStatus(None) == Todo
    ensures NormalizeStatus(Some("")) == Todo
  {
  }

  /** Precedence: a done keyword anywhere, in any case, wins, whatever else the
      status says (so "Doing -> DONE" is `done`). */
  lemma DoneWordWins(a: string, k: string, b: string)
    requires Lower(k) in {"done", "closed", "resolved", "ferdig"}
    ensures NormalizeStatus(Some(a + k + b)) == Done
  {
    MentionsInfix(a, k, b, Lower(k));
    NormalizeStatusCases(Some(a + k + b));
  }

  /** An in-progress keyword, in any case, gives `inprog` unless a done
      keyword appears too. */
  lemma InProgWordClassifies(a: string, k: string, b: string)
    requires Lower(k) in {"in progress", "pågår", "in-progress", "doing"}
    requires !MentionsDone(a + k + b)
    ensures NormalizeStatus(Some(a + k + b)) == InProg
  {
    MentionsInfix(a, k, b, Lower(k));
    NormalizeStatusCases(Some(a + k + b));
  }

  /** Matching ignores letter case: statuses equal up to case share a lane. */
  lemma NormalizeStatusIgnoresCase(a: string, b: string)
    requires Lower(a) == Lower(b)
    ensures NormalizeStatus(Some(a)) == NormalizeStatus(Some(b))
  {
  }

  /** The card stores the lower-cased status; classifying that gives the
      same lane as classifying the original text. */
  lemma NormalizeStatusOfLowered(s: string)
    ensures NormalizeStatus(Some(Lower(s))) == NormalizeStatus(Some(s))
  {
    LowerIdempotent(s);
  }

  /** The class of a card's priority badge; `Unranked` is the empty class. */
  datatype Priority = High | Medium | Low | Unranked

  /** The if/else chain of `createCard`: the lower-cased priority text (a
      missing priority reads as empty) is tested for "high", then "medium",
      then "low". Against the segment-wise reading, the first word that
      appears in any case, in the order high, medium, low, decides. */
  function PriorityClass(priority: Option<string>): (badge: Priority)
    ensures var p := priority.GetOr("");
      && (badge == High <==> Mentions(p, "high"))
      && (badge == Medium <==> !Mentions(p, "high") && Mentions(p, "medium"))
      && (badge == Low <==> !Mentions(p, "high") && !Mentions(p, "medium") && Mentions(p, "low"))
      && (badge == Unranked <==> !Mentions(p, "high") && !Mentions(p, "medium") && !Mentions(p, "low"))
  {
    var p := priority.GetOr("");
    ContainsLowerIff(p, "high");
    ContainsLowerIff(p, "medium");
    ContainsLowerIff(p, "low");
    var n := Lower(p);
    if Contains(n, "high") then High
    else if Contains(n, "medium") then Medium
    else if Contains(n, "low") then Low
    else Unranked
  }

  /** "High" anywhere in the priority, in any case, gives the `high` class,
      even when "low" appears as well. */
  lemma HighWins(a: string, k: string, b: string)
    requires Lower(k) == "high"
    ensures PriorityClass(Some(a + k + b)) == High
  {
    MentionsInfix(a, k, b, "high");
  }

  /** No priority, or an empty one, gives the empty class. */
  lemma MissingPriorityIsUnranked()
    ensures PriorityClass(None) == Unranked
    ensures PriorityClass(Some("")) == Unranked
  {
  }
}

/** The state of the board as values: the cards, the three columns that hold
    them, and the pure functions that the page's handlers are proved against
    (placement of fresh cards, moving a card by id, filtering, saving and
    restoring the layout). */
module Board {
  import opened Wrappers
  import opened Text
  import opened Seqs
  import opened Status
  import opened StatusFilter

  /** The fields of an issue record that the board reads. */
  datatype Issue = Issue(key: string, status: Option<string>, priority: Option<string>)

  /** A card element: its DOM id, the lower-cased status it keeps as
      `data-status`, the class of its priority badge, and whether it is
      displayed (`style.display` is not "none"). */
  datatype Card = Card(id: string, status: string, priority: Priority, shown: bool)

  /** The DOM id of an issue's card. */
  function CardId(key: string): (id: string) {
    "card-" + key
  }

  /** Different keys give different card ids. */
  lemma CardIdInjective(a: string, b: string)
    requires CardId(a) == CardId(b)
    ensures a == b
  {
    assert a == CardId(a)[5..];
    assert b == CardId(b)[5..];
  }

  /** `createCard`, reduced to what the board's logic reads back. */
  function CreateCard(issue: Issue): (card: Card)
    ensures card.id == CardId(issue.key) && card.shown
    ensures Lower(card.status) == card.status
    ensures NormalizeStatus(Some(card.status)) == NormalizeStatus(issue.status)
  {
    var s := issue.status.GetOr("");
    LowerIdempotent(s);
    NormalizeStatusOfLowered(s);
    Card(CardId(issue.key), Lower(s), PriorityClass(issue.priority), true)
  }

  /** The three column containers, each in display order. */
  datatype Columns = Columns(todo: seq<Card>, inprog: seq<Card>, done: seq<Card>)

  const NoColumns := Columns([], [], [])

  function Col(c: Columns, lane: Lane): (cards: seq<Card>) {
    match lane
    case Todo => c.todo
    case InProg => c.inprog
    case Done => c.done
  }

  function WithCol(c: Columns, lane: Lane, s: seq<Card>): (r: Columns)
    ensures Col(r, lane) == s
    ensures forall l :: l != lane ==> Col(r, l) == Col(c, l)
  {
    match lane
    case Todo => c.(todo := s)
    case InProg => c.(inprog := s)
    case Done => c.(done := s)
  }

  /** The ids of a column, in display order. */
  function Ids(s: seq<Card>): (ids: seq<string>)
    ensures |ids| == |s|
    ensures forall i :: 0 <= i < |s| ==> ids[i] == s[i].id
  {
    seq(|s|, i requires 0 <= i < |s| => s[i].id)
  }

  /** Every card on the board, in document order (the columns are assumed to
      stand in the page in the order to-do, in progress, done). */
  function AllCards(c: Columns): (cards: seq<Card>) {
    c.todo + c.inprog + c.done
  }

  function AllIds(c: Columns): (ids: seq<string>) {
    Ids(c.todo) + Ids(c.inprog) + Ids(c.done)
  }

  lemma IdsConcat(a: seq<Card>, b: seq<Card>)
    ensures Ids(a + b) == Ids(a) + Ids(b)
  {
  }

  lemma IdsCut(s: seq<Card>, i: nat)
    requires i < |s|
    ensures Ids(s[..i] + s[i + 1..]) == Ids(s)[..i] + Ids(s)[i + 1..]
  {
  }

  /** The cards of the board as a multiset, column by column. */
  function Bag(c: Columns): (bag: multiset<Card>) {
    multiset(c.todo) + multiset(c.inprog) + multiset(c.done)
  }

  /** The ids of the board as a multiset, column by column. */
  function IdBag(c: Columns): (bag: multiset<string>) {
    multiset(Ids(c.todo)) + multiset(Ids(c.inprog)) + multiset(Ids(c.done))
  }

  lemma BagOfAll(c: Columns)
    ensures multiset(AllCards(c)) == Bag(c)
    ensures multiset(AllIds(c)) == IdBag(c)
  {
  }

  /** Replacing one column trades its cards for the new ones. */
  lemma BagWithCol(c: Columns, lane: Lane, s: seq<Card>)
    ensures Bag(WithCol(c, lane, s)) + multiset(Col(c, lane)) == Bag(c) + multiset(s)
    ensures IdBag(WithCol(c, lane, s)) + multiset(Ids(Col(c, lane))) == IdBag(c) + multiset(Ids(s))
  {
    match lane
    case Todo =>
    case InProg =>
    case Done =>
  }

  /** With distinct ids on the board, each column is distinct and no id sits
      in two columns. */
  lemma DistinctLanes(c: Columns)
    requires Distinct(AllIds(c))
    ensures forall l :: Distinct(Ids(Col(c, l)))
    ensures forall l1, l2, x :: x in Ids(Col(c, l1)) && x in Ids(Col(c, l2)) ==> l1 == l2
  {
    DistinctConcat(Ids(c.todo) + Ids(c.inprog), Ids(c.done));
    DistinctConcat(Ids(c.todo), Ids(c.inprog));
  }

  /** The rank of a column in document order. */
  function Rank(lane: Lane): (rank: nat) {
    match lane
    case Todo => 0
    case InProg => 1
    case Done => 2
  }

  /** The first position of a card with this id in a column. */
  function IndexOf(s: seq<Card>, id: string): (r: Option<nat>)
    ensures r.Some? ==> r.value < |s| && s[r.value].id == id
    ensures r.Some? ==> forall j :: 0 <= j < r.value ==> s[j].id != id
    ensures r.None? <==> id !in Ids(s)
  {
    if |s| == 0 then None
    else if s[0].id == id then Some(0)
    else
      match IndexOf(s[1..], id)
      case None => None
      case Some(k) => Some(k + 1)
  }

  /** Where a card sits: its column and its position there. */
  datatype Location = Location(lane: Lane, index: nat)

  /** `document.getElementById(id)` among the cards: the first card with this
      id in document order, or none. */
  function Locate(c: Columns, id: string): (loc: Option<Location>)
    ensures loc.None? <==> id !in AllIds(c)
    ensures loc.Some? ==> loc.value.index < |Col(c, loc.value.lane)|
    ensures loc.Some? ==> Col(c, loc.value.lane)[loc.value.index].id == id
    ensures loc.Some? ==> forall l :: Rank(l) < Rank(loc.value.lane) ==> id !in Ids(Col(c, l))
    ensures loc.Some? ==> forall j :: 0 <= j < loc.value.index ==> Col(c, loc.value.lane)[j].id != id
  {
    match IndexOf(c.todo, id)
    case Some(i) => Some(Location(Todo, i))
    case None =>
      match IndexOf(c.inprog, id)
      case Some(i) => Some(Location(InProg, i))
      case None =>
        match IndexOf(c.done, id)
        case Some(i) => Some(Location(Done, i))
        case None => None
  }

  /** `target.appendChild(document.getElementById(id))`: the card is taken out
      of the column that holds it and added at the end of `target` (the same
      column included); an id no card carries changes nothing. */
  function MoveCard(c: Columns, id: string, target: Lane): (r: Columns)
    ensures id !in AllIds(c) ==> r == c
    ensures id in AllIds(c) ==> |Col(r, target)| > 0 && Col(r, target)[|Col(r, target)| - 1].id == id
  {
    match Locate(c, id)
    case None => c
    case Some(Location(l, i)) =>
      var s := Col(c, l);
      var rest := WithCol(c, l, s[..i] + s[i + 1..]);
      WithCol(rest, target, Col(rest, target) + [s[i]])
  }

  lemma BagCancel<T>(a: multiset<T>, b: multiset<T>, m: multiset<T>)
    requires a + m == b + m
    ensures a == b
  {
    assert forall x :: a[x] == (a + m)[x] - m[x];
    assert forall x :: b[x] == (b + m)[x] - m[x];
  }

  /** The two steps of a move of a card that is on the board. */
  lemma MoveCardSteps(c: Columns, id: string, target: Lane)
    requires id in AllIds(c)
    ensures var loc := Locate(c, id).value;
      var s := Col(c, loc.lane);
      var rest := WithCol(c, loc.lane, s[..loc.index] + s[loc.index + 1..]);
      MoveCard(c, id, target) == WithCol(rest, target, Col(rest, target) + [s[loc.index]])
  {
  }

  /** Cutting a card out of a column and appending it to a column keeps the
      board's multiset of cards. */
  lemma CutAppendCards(c: Columns, l: Lane, i: nat, target: Lane)
    requires i < |Col(c, l)|
    ensures var s := Col(c, l);
      var rest := WithCol(c, l, s[..i] + s[i + 1..]);
      Bag(WithCol(rest, target, Col(rest, target) + [s[i]])) == Bag(c)
  {
    var s := Col(c, l);
    var x := s[i];
    var cut := s[..i] + s[i + 1..];
    var rest := WithCol(c, l, cut);
    var t := Col(rest, target);
    var r := WithCol(rest, target, t + [x]);
    CutMultiset(s, i);
    BagWithCol(c, l, cut);
    BagCancel(Bag(rest) + multiset{x}, Bag(c), multiset(cut));
    BagWithCol(rest, target, t + [x]);
    BagCancel(Bag(r), Bag(rest) + multiset{x}, multiset(t));
  }

  /** Cutting out position `k` takes one id `t[k].id` out of the ids. */
  lemma CutIds(t: seq<Card>, k: nat)
    requires k < |t|
    ensures multiset(Ids(t[..k] + t[k + 1..])) + multiset{t[k].id} == multiset(Ids(t))
  {
    IdsCut(t, k);
    CutMultiset(Ids(t), k);
  }

  lemma HeadIds(s: seq<Card>)
    requires s != []
    ensures multiset(Ids(s)) == multiset{s[0].id} + multiset(Ids(s[1..]))
  {
    var ids := Ids(s);
    assert ids == [ids[0]] + ids[1..];
    assert ids[1..] == Ids(s[1..]);
  }

  /** The ids of a column are determined by its cards up to order: columns
      with the same multiset of cards have the same multiset of ids. */
  lemma {:induction false} IdsOfPermutation(s: seq<Card>, t: seq<Card>)
    requires multiset(s) == multiset(t)
    ensures multiset(Ids(s)) == multiset(Ids(t))
    decreases |s|
  {
    if s == [] {
      assert |t| == |multiset(t)| == 0;
    } else {
      var x := s[0];
      assert x in multiset(s);
      var k :| 0 <= k < |t| && t[k] == x;
      var rest := t[..k] + t[k + 1..];
      CutMultiset(t, k);
      CutMultiset(s, 0);
      assert s[..0] + s[1..] == s[1..];
      BagCancel(multiset(s[1..]), multiset(rest), multiset{x});
      IdsOfPermutation(s[1..], rest);
      CutIds(t, k);
      HeadIds(s);
    }
  }

  /** Equal multisets of cards give equal multisets of ids on the board. */
  lemma IdBagOfBag(c: Columns, d: Columns)
    requires Bag(c) == Bag(d)
    ensures IdBag(c) == IdBag(d)
  {
    BagOfAll(c);
    BagOfAll(d);
    IdsConcat(c.todo, c.inprog);
    IdsConcat(c.todo + c.inprog, c.done);
    IdsConcat(d.todo, d.inprog);
    IdsConcat(d.todo + d.inprog, d.done);
    IdsOfPermutation(AllCards(c), AllCards(d));
  }

  /** A move loses no card, duplicates none and alters none: the multiset of
      cards on the board, and so of their ids, is unchanged. */
  lemma MoveCardKeepsCards(c: Columns, id: string, target: Lane)
    ensures Bag(MoveCard(c, id, target)) == Bag(c)
    ensures IdBag(MoveCard(c, id, target)) == IdBag(c)
  {
    if id in AllIds(c) {
      var loc := Locate(c, id).value;
      MoveCardSteps(c, id, target);
      CutAppendCards(c, loc.lane, loc.index, target);
      IdBagOfBag(c, MoveCard(c, id, target));
    }
  }

  /** An id in a column is on the board. */
  lemma InLane(c: Columns, x: string, l: Lane)
    ensures x in Ids(Col(c, l)) ==> x in AllIds(c)
  {
  }

  /** Cutting card `i` out of column `l0` and appending it to `target`, seen
      from one column `l`, when the board's ids are distinct. */
  lemma CutAppendLane(c: Columns, l0: Lane, i: nat, target: Lane, l: Lane)
    requires Distinct(AllIds(c)) && i < |Col(c, l0)|
    ensures var s := Col(c, l0);
      var rest := WithCol(c, l0, s[..i] + s[i + 1..]);
      Ids(Col(WithCol(rest, target, Col(rest, target) + [s[i]]), l)) ==
        Remove(Ids(Col(c, l)), {s[i].id}) + (if l == target then [s[i].id] else [])
  {
    var s := Col(c, l0);
    var x := s[i].id;
    var rest := WithCol(c, l0, s[..i] + s[i + 1..]);
    DistinctLanes(c);
    if l == l0 {
      IdsCut(s, i);
      RemoveAt(Ids(s), i);
    } else {
      assert x in Ids(s);
      RemoveAbsent(Ids(Col(c, l)), {x});
    }
    if l == target {
      IdsConcat(Col(rest, target), [s[i]]);
    }
  }

  /** With distinct ids, a move changes each column only by the moved card:
      the card leaves the column that held it and is appended to `target`;
      every other card keeps its column and its place in the order. */
  lemma MoveCardLanes(c: Columns, x: string, target: Lane)
    requires Distinct(AllIds(c))
    ensures forall l :: (Ids(Col(MoveCard(c, x, target), l)) ==
      Remove(Ids(Col(c, l)), {x}) + (if l == target && x in AllIds(c) then [x] else []))
  {
    forall l ensures Ids(Col(MoveCard(c, x, target), l)) ==
      Remove(Ids(Col(c, l)), {x}) + (if l == target && x in AllIds(c) then [x] else [])
    {
      if x in AllIds(c) {
        var loc := Locate(c, x).value;
        MoveCardSteps(c, x, target);
        CutAppendLane(c, loc.lane, loc.index, target, l);
      } else {
        InLane(c, x, l);
        RemoveAbsent(Ids(Col(c, l)), {x});
      }
    }
  }

  /** Board ids stay distinct, and the same, when the multiset of ids is
      kept. */
  lemma SameIds(c: Columns, d: Columns)
    requires IdBag(c) == IdBag(d)
    ensures Distinct(AllIds(c)) ==> Distinct(AllIds(d))
    ensures Elems(AllIds(c)) == Elems(AllIds(d))
  {
    BagOfAll(c);
    BagOfAll(d);
    forall x ensures x in AllIds(c) <==> x in AllIds(d) {
      assert x in AllIds(c) <==> x in multiset(AllIds(c));
      assert x in AllIds(d) <==> x in multiset(AllIds(d));
    }
  }

  /** The saved layout: the id lists of the three columns. */
  datatype SavedState = SavedState(todo: seq<string>, inprog: seq<string>, done: seq<string>)

  /** The storage entry: absent, holding a saved layout, or holding text that
      does not parse. */
  datatype Slot = Empty | Stored(state: SavedState) | Malformed

  function Saved(s: SavedState, lane: Lane): (ids: seq<string>) {
    match lane
    case Todo => s.todo
    case InProg => s.inprog
    case Done => s.done
  }

  function AllSaved(s: SavedState): (ids: seq<string>) {
    s.todo + s.inprog + s.done
  }

  /** `persistBoardState`'s record: each column's ids in display order. */
  function Snapshot(c: Columns): (s: SavedState)
    ensures forall l :: Saved(s, l) == Ids(Col(c, l))
    ensures AllSaved(s) == AllIds(c)
  {
    SavedState(Ids(c.todo), Ids(c.inprog), Ids(c.done))
  }

  /** Appending, one after the other, the cards with the given ids to the end
      of `lane` (the inner loop of `restoreBoardState`). */
  function AppendAll(c: Columns, ids: seq<string>, lane: Lane): (r: Columns)
    decreases |ids|
  {
    if ids == [] then c
    else MoveCard(AppendAll(c, ids[..|ids| - 1], lane), ids[|ids| - 1], lane)
  }

  /** `restoreBoardState` on a parsed entry: the saved to-do ids, then the
      in-progress ids, then the done ids. */
  function Restored(c: Columns, s: SavedState): (r: Columns) {
    AppendAll(AppendAll(AppendAll(c, s.todo, Todo), s.inprog, InProg), s.done, Done)
  }

  /** One more step of the loop of `AppendAll`. */
  lemma AppendAllSnoc(c: Columns, ids: seq<string>, k: nat, lane: Lane)
    requires k < |ids|
    ensures AppendAll(c, ids[..k + 1], lane) == MoveCard(AppendAll(c, ids[..k], lane), ids[k], lane)
  {
    assert ids[..k + 1][..k] == ids[..k];
  }

  lemma {:induction false} AppendAllKeepsCards(c: Columns, ids: seq<string>, lane: Lane)
    ensures Bag(AppendAll(c, ids, lane)) == Bag(c)
    ensures IdBag(AppendAll(c, ids, lane)) == IdBag(c)
    decreases |ids|
  {
    if ids != [] {
      var p := ids[..|ids| - 1];
      AppendAllKeepsCards(c, p, lane);
      MoveCardKeepsCards(AppendAll(c, p, lane), ids[|ids| - 1], lane);
    }
  }

  /** Restoring keeps every card on the board, once. */
  lemma RestoredKeepsCards(c: Columns, s: SavedState)
    ensures Bag(Restored(c, s)) == Bag(c)
    ensures IdBag(Restored(c, s)) == IdBag(c)
  {
    AppendAllKeepsCards(c, s.todo, Todo);
    AppendAllKeepsCards(AppendAll(c, s.todo, Todo), s.inprog, InProg);
    AppendAllKeepsCards(AppendAll(AppendAll(c, s.todo, Todo), s.inprog, InProg), s.done, Done);
  }

  /** One step of `AppendAll`, seen from column `l`: `x` was not among the
      ids appended so far, `p`. */
  lemma AppendStep(col: seq<string>, p: seq<string>, x: string, a: set<string>, toLane: bool)
    requires x !in p
    ensures var before := Remove(col, Elems(p)) + (if toLane then Keep(p, a) else []);
      Remove(before, {x}) + (if toLane && x in a then [x] else []) ==
        Remove(col, Elems(p + [x])) + (if toLane then Keep(p + [x], a) else [])
  {
    var k := if toLane then Keep(p, a) else [];
    KeepElems(p, a);
    RemovePast(col, Elems(p), k, {x});
    ElemsSnoc(p, x);
    KeepSnoc(p, x, a);
  }

  /** With distinct ids on the board and in `ids`, appending `ids` to `lane`
      takes exactly those ids out of every column and puts the ones that name
      a card at the end of `lane`, in the order of `ids`; ids that name no
      card are skipped. */
  lemma {:induction false} AppendAllLanes(c: Columns, ids: seq<string>, lane: Lane)
    requires Distinct(AllIds(c)) && Distinct(ids)
    ensures forall l :: (Ids(Col(AppendAll(c, ids, lane), l)) ==
      Remove(Ids(Col(c, l)), Elems(ids)) + (if l == lane then Keep(ids, Elems(AllIds(c))) else []))
    decreases |ids|
  {
    var a := Elems(AllIds(c));
    if ids == [] {
      assert Elems(ids) == {};
      forall l ensures Ids(Col(c, l)) == Remove(Ids(Col(c, l)), {}) + [] {
        RemoveAbsent(Ids(Col(c, l)), {});
      }
    } else {
      var p, x := ids[..|ids| - 1], ids[|ids| - 1];
      assert ids == p + [x];
      DistinctConcat(p, [x]);
      AppendAllLanes(c, p, lane);
      var r := AppendAll(c, p, lane);
      AppendAllKeepsCards(c, p, lane);
      SameIds(c, r);
      MoveCardLanes(r, x, lane);
      forall l ensures Ids(Col(AppendAll(c, ids, lane), l)) ==
        Remove(Ids(Col(c, l)), Elems(ids)) + (if l == lane then Keep(ids, a) else [])
      {
        AppendStep(Ids(Col(c, l)), p, x, a, l == lane);
      }
    }
  }

  /** The parts of a saved layout whose ids are distinct. */
  lemma SavedParts(s: SavedState)
    requires Distinct(AllSaved(s))
    ensures Distinct(s.todo) && Distinct(s.inprog) && Distinct(s.done)
    ensures forall x :: x in s.todo ==> x !in s.inprog && x !in s.done
    ensures forall x :: x in s.inprog ==> x !in s.done
    ensures Elems(AllSaved(s)) == Elems(s.todo) + Elems(s.inprog) + Elems(s.done)
  {
    var t, i, d := s.todo, s.inprog, s.done;
    DistinctConcat(t + i, d);
    DistinctConcat(t, i);
    ElemsConcat(t + i, d);
    ElemsConcat(t, i);
  }

  /** Appending distinct ids, seen from column `l`. */
  lemma AppendDistinct(c: Columns, ids: seq<string>, lane: Lane, l: Lane)
    requires Distinct(AllIds(c)) && Distinct(ids)
    ensures Ids(Col(AppendAll(c, ids, lane), l)) ==
      Remove(Ids(Col(c, l)), Elems(ids)) + (if l == lane then Keep(ids, Elems(AllIds(c))) else [])
    ensures Distinct(AllIds(AppendAll(c, ids, lane)))
    ensures Elems(AllIds(AppendAll(c, ids, lane))) == Elems(AllIds(c))
  {
    AppendAllLanes(c, ids, lane);
    AppendAllKeepsCards(c, ids, lane);
    SameIds(c, AppendAll(c, ids, lane));
  }

  /** With distinct ids on the board and in the saved layout,
      restoring leaves in each column, in front and in their order, the cards
      the layout does not list, followed by the cards it lists for that
      column in its order; saved ids that name no card are skipped. */
  lemma RestoreLane(c: Columns, s: SavedState, l: Lane)
    requires Distinct(AllIds(c)) && Distinct(AllSaved(s))
    ensures Ids(Col(Restored(c, s), l)) ==
      Remove(Ids(Col(c, l)), Elems(AllSaved(s))) + Keep(Saved(s, l), Elems(AllIds(c)))
  {
    var t, i, d := s.todo, s.inprog, s.done;
    var a := Elems(AllIds(c));
    SavedParts(s);
    var r1 := AppendAll(c, t, Todo);
    var r2 := AppendAll(r1, i, InProg);
    var r3 := AppendAll(r2, d, Done);
    assert r3 == Restored(c, s);
    var kt := if l == Todo then Keep(t, a) else [];
    var ki := if l == InProg then Keep(i, a) else [];
    var kd := if l == Done then Keep(d, a) else [];
    var col := Ids(Col(c, l));
    AppendDistinct(c, t, Todo, l);
    assert Ids(Col(r1, l)) == Remove(col, Elems(t)) + kt;
    AppendDistinct(r1, i, InProg, l);
    assert Ids(Col(r2, l)) == Remove(Ids(Col(r1, l)), Elems(i)) + ki;
    AppendDistinct(r2, d, Done, l);
    assert Ids(Col(r3, l)) == Remove(Ids(Col(r2, l)), Elems(d)) + kd;
    KeepElems(t, a);
    KeepElems(i, a);
    RemoveThree(col, t, i, d, kt, ki, kd);
    KeepSaved(s, l, a);
  }

  /** The ids that restoring appends to column `l`, list by list. */
  lemma KeepSaved(s: SavedState, l: Lane, a: set<string>)
    ensures Keep(Saved(s, l), a) ==
      (if l == Todo then Keep(s.todo, a) else []) + (if l == InProg then Keep(s.inprog, a) else []) +
      (if l == Done then Keep(s.done, a) else [])
  {
    match l
    case Todo => assert Keep(s.todo, a) + [] + [] == Keep(s.todo, a);
    case InProg => assert [] + Keep(s.inprog, a) + [] == Keep(s.inprog, a);
    case Done => assert [] + [] + Keep(s.done, a) == Keep(s.done, a);
  }

  /** The ids of a saved layout that lists every card once. */
  lemma SavedIds(c: Columns, s: SavedState)
    requires Distinct(AllIds(c))
    requires multiset(AllSaved(s)) == multiset(AllIds(c))
    ensures Distinct(AllSaved(s))
    ensures Elems(AllIds(c)) == Elems(AllSaved(s))
  {
    forall x ensures x in AllIds(c) <==> x in AllSaved(s) {
      assert x in AllIds(c) <==> x in multiset(AllIds(c));
      assert x in AllSaved(s) <==> x in multiset(AllSaved(s));
    }
  }

  /** Restoring a saved layout that lists every card once rebuilds column
      `l` exactly as saved. */
  lemma RestoreExactLane(c: Columns, s: SavedState, l: Lane)
    requires Distinct(AllIds(c))
    requires multiset(AllSaved(s)) == multiset(AllIds(c))
    ensures Ids(Col(Restored(c, s), l)) == Saved(s, l)
  {
    SavedIds(c, s);
    RestoreLane(c, s, l);
    var col := Ids(Col(c, l));
    forall y | y in col ensures y in Elems(AllSaved(s)) {
      InLane(c, y, l);
    }
    RemoveAllOf(col, Elems(AllSaved(s)));
    SavedParts(s);
    KeepAll(Saved(s, l), Elems(AllIds(c)));
  }

  /** When the saved layout lists every card of the board once, restoring
      it yields a board whose snapshot is that layout. */
  lemma RestoreReproducesLayout(c: Columns, s: SavedState)
    requires Distinct(AllIds(c))
    requires multiset(AllSaved(s)) == multiset(AllIds(c))
    ensures Snapshot(Restored(c, s)) == s
  {
    RestoreExactLane(c, s, Todo);
    RestoreExactLane(c, s, InProg);
    RestoreExactLane(c, s, Done);
  }

  /** Persisting a board and restoring the record onto it changes nothing in
      its layout. */
  lemma PersistThenRestore(c: Columns)
    requires Distinct(AllIds(c))
    ensures Snapshot(Restored(c, Snapshot(c))) == Snapshot(c)
  {
    RestoreReproducesLayout(c, Snapshot(c));
  }

  /** With two issues sharing a key the round trip fails: `getElementById`
      finds the to-do card first, so the saved done entry moves that card,
      and the to-do column comes back empty. */
  lemma RepeatedKeysBreakRoundTrip()
    ensures var c := Placement([Issue("A", None, None), Issue("A", Some("done"), None)]);
      Snapshot(Restored(c, Snapshot(c))) != Snapshot(c)
  {
    var a, b := Issue("A", None, None), Issue("A", Some("done"), None);
    RepeatedKeysPlacement(a, b);
    var ca, cb := CreateCard(a), CreateCard(b);
    SharedIdRestore(ca, cb);
  }

  /** Two issues with one key, the first to do and the second done, give one
      card in each of those columns. */
  lemma RepeatedKeysPlacement(a: Issue, b: Issue)
    requires a == Issue("A", None, None) && b == Issue("A", Some("done"), None)
    ensures Placement([a, b]) == Columns([CreateCard(a)], [], [CreateCard(b)])
  {
    var issues := [a, b];
    assert NormalizeStatus(b.status) == Done by {
      assert Lower("done") == "done";
      assert OccursAt("done", "done", 0);
    }
    assert issues[..1] == [a];
    assert [a][..0] == [];
    assert CardsIn([a], Todo) == [CreateCard(a)];
    assert CardsIn([a], InProg) == [];
    assert CardsIn([a], Done) == [];
  }

  /** A to-do card and a done card sharing one id: restoring their own
      snapshot moves the to-do card into the done column. */
  lemma SharedIdRestore(ca: Card, cb: Card)
    requires ca.id == cb.id
    ensures var c := Columns([ca], [], [cb]);
      Snapshot(c) == SavedState([ca.id], [], [ca.id]) &&
      Restored(c, Snapshot(c)) == Columns([], [], [cb, ca])
  {
    var id := ca.id;
    var c := Columns([ca], [], [cb]);
    assert Snapshot(c) == SavedState([id], [], [id]);
    SharedIdTodoStep(ca, cb);
    AppendOne(c, id, Todo);
    AppendAll0(c, InProg);
    SharedIdDoneStep(ca, cb);
    AppendOne(c, id, Done);
  }

  /** Re-applying the saved to-do list finds the to-do card first and puts
      it back where it was. */
  lemma SharedIdTodoStep(ca: Card, cb: Card)
    requires ca.id == cb.id
    ensures MoveCard(Columns([ca], [], [cb]), ca.id, Todo) == Columns([ca], [], [cb])
  {
    var c := Columns([ca], [], [cb]);
    assert Locate(c, ca.id) == Some(Location(Todo, 0));
    assert [ca][..0] + [ca][1..] == [];
    assert WithCol(c, Todo, []) == Columns([], [], [cb]);
    MoveCardSteps(c, ca.id, Todo);
  }

  /** Re-applying the saved done list finds the to-do card too, and moves
      it behind the done card. */
  lemma SharedIdDoneStep(ca: Card, cb: Card)
    requires ca.id == cb.id
    ensures MoveCard(Columns([ca], [], [cb]), ca.id, Done) == Columns([], [], [cb, ca])
  {
    var c := Columns([ca], [], [cb]);
    assert Locate(c, ca.id) == Some(Location(Todo, 0));
    assert [ca][..0] + [ca][1..] == [];
    assert WithCol(c, Todo, []) == Columns([], [], [cb]);
    MoveCardSteps(c, ca.id, Done);
  }

  lemma AppendOne(c: Columns, x: string, lane: Lane)
    ensures AppendAll(c, [x], lane) == MoveCard(c, x, lane)
  {
    assert [x][..0] == [];
  }

  lemma AppendAll0(c: Columns, lane: Lane)
    ensures AppendAll(c, [], lane) == c
  {
  }

  /** A card sits at the same place in a longer column with the same
      front; a card that is not in the front sits past it. */
  lemma IndexOfAppend(s: seq<Card>, t: seq<Card>, id: string)
    ensures id in Ids(s) ==> IndexOf(s + t, id) == IndexOf(s, id)
    ensures id !in Ids(s) && id in Ids(s + t) ==> IndexOf(s + t, id).value >= |s|
  {
    if id in Ids(s) {
      IndexOfFront(s, t, id);
    } else if id in Ids(s + t) {
      IndexOfPast(s, t, id);
    }
  }

  lemma IndexOfFront(s: seq<Card>, t: seq<Card>, id: string)
    requires id in Ids(s)
    ensures IndexOf(s + t, id) == IndexOf(s, id)
  {
    IdsConcat(s, t);
    var q := IndexOf(s, id).value;
    var r := IndexOf(s + t, id).value;
    assert (s + t)[q].id == id;
  }

  lemma IndexOfPast(s: seq<Card>, t: seq<Card>, id: string)
    requires id !in Ids(s) && id in Ids(s + t)
    ensures IndexOf(s + t, id).value >= |s|
  {
    IdsConcat(s, t);
  }

  /** The cards `populateColumns` appends to column `lane`, in the order of
      the issues. */
  function CardsIn(issues: seq<Issue>, lane: Lane): (cards: seq<Card>)
    decreases |issues|
  {
    if issues == [] then []
    else
      var last := issues[|issues| - 1];
      CardsIn(issues[..|issues| - 1], lane) + (if NormalizeStatus(last.status) == lane then [CreateCard(last)] else [])
  }

  /** `populateColumns(issues)`: the columns after clearing them and placing
      one fresh card per issue. */
  function Placement(issues: seq<Issue>): (c: Columns) {
    Columns(CardsIn(issues, Todo), CardsIn(issues, InProg), CardsIn(issues, Done))
  }

  /** The card ids of the issues, in input order. */
  function CardIds(issues: seq<Issue>): (ids: seq<string>)
    ensures |ids| == |issues|
    ensures forall k :: 0 <= k < |issues| ==> ids[k] == CardId(issues[k].key)
  {
    seq(|issues|, k requires 0 <= k < |issues| => CardId(issues[k].key))
  }

  /** No two issues share a key. */
  ghost predicate UniqueKeys(issues: seq<Issue>) {
    forall i, j :: 0 <= i < j < |issues| ==> issues[i].key != issues[j].key
  }

  /** Every issue's card is placed in the column of its status. */
  lemma {:induction false} CardsInHas(issues: seq<Issue>, k: nat)
    requires k < |issues|
    ensures CreateCard(issues[k]) in CardsIn(issues, NormalizeStatus(issues[k].status))
    decreases |issues|
  {
    if k < |issues| - 1 {
      var p := issues[..|issues| - 1];
      assert p[k] == issues[k];
      CardsInHas(p, k);
    }
  }

  /** Every placed card is the card of an issue whose status names that
      column. */
  lemma {:induction false} CardsInFrom(issues: seq<Issue>, lane: Lane, card: Card)
    requires card in CardsIn(issues, lane)
    ensures exists k :: 0 <= k < |issues| && NormalizeStatus(issues[k].status) == lane && card == CreateCard(issues[k])
    decreases |issues|
  {
    var p, last := issues[..|issues| - 1], issues[|issues| - 1];
    if card in CardsIn(p, lane) {
      CardsInFrom(p, lane, card);
      var k :| 0 <= k < |p| && NormalizeStatus(p[k].status) == lane && card == CreateCard(p[k]);
      assert issues[k] == p[k];
    } else {
      assert NormalizeStatus(issues[|issues| - 1].status) == lane;
    }
  }

  /** One more issue adds its card id to the end of the column of its
      status, and to no other. */
  lemma CardsInSnocIds(p: seq<Issue>, x: Issue, l: Lane)
    ensures multiset(Ids(CardsIn(p + [x], l))) ==
      multiset(Ids(CardsIn(p, l))) + (if NormalizeStatus(x.status) == l then multiset{CardId(x.key)} else multiset{})
  {
    var q := p + [x];
    assert q[..|p|] == p;
    var tail := if NormalizeStatus(x.status) == l then [CreateCard(x)] else [];
    assert CardsIn(q, l) == CardsIn(p, l) + tail;
    IdsConcat(CardsIn(p, l), tail);
  }

  /** One more issue adds its card id to the column of its status. */
  lemma PlacementSnoc(p: seq<Issue>, x: Issue)
    ensures (p + [x])[..|p|] == p
    ensures IdBag(Placement(p + [x])) == IdBag(Placement(p)) + multiset{CardId(x.key)}
    ensures CardIds(p + [x]) == CardIds(p) + [CardId(x.key)]
  {
    assert (p + [x])[..|p|] == p;
    CardsInSnocIds(p, x, Todo);
    CardsInSnocIds(p, x, InProg);
    CardsInSnocIds(p, x, Done);
  }

  /** The cards placed are exactly the issues' cards, each once. */
  lemma {:induction false} PlacementIds(issues: seq<Issue>)
    ensures IdBag(Placement(issues)) == multiset(CardIds(issues))
    decreases |issues|
  {
    if issues != [] {
      var p, x := issues[..|issues| - 1], issues[|issues| - 1];
      assert issues == p + [x];
      PlacementIds(p);
      PlacementSnoc(p, x);
    }
  }

  /** The columns together hold one card per issue. */
  lemma PlacementCount(issues: seq<Issue>)
    ensures |Col(Placement(issues), Todo)| + |Col(Placement(issues), InProg)| + |Col(Placement(issues), Done)| == |issues|
  {
    var c := Placement(issues);
    PlacementIds(issues);
    assert |IdBag(c)| == |Ids(c.todo)| + |Ids(c.inprog)| + |Ids(c.done)|;
  }

  /** Different keys make distinct card ids on the placed board. */
  lemma PlacementDistinct(issues: seq<Issue>)
    requires UniqueKeys(issues)
    ensures Distinct(CardIds(issues))
    ensures Distinct(AllIds(Placement(issues)))
  {
    var ids := CardIds(issues);
    forall i, j | 0 <= i < j < |ids| ensures ids[i] != ids[j] {
      if ids[i] == ids[j] {
        CardIdInjective(issues[i].key, issues[j].key);
      }
    }
    DistinctByIndex(ids);
    PlacementIds(issues);
    BagOfAll(Placement(issues));
  }

  /** Each issue's card sits in the column of its status and, when keys are
      unique, in no other column. */
  lemma PlacementLane(issues: seq<Issue>, k: nat, l: Lane)
    requires k < |issues| && UniqueKeys(issues)
    ensures CardId(issues[k].key) in Ids(Col(Placement(issues), l)) <==> l == NormalizeStatus(issues[k].status)
  {
    var c := Placement(issues);
    var home := NormalizeStatus(issues[k].status);
    CardsInHas(issues, k);
    assert CardId(issues[k].key) in Ids(Col(c, home));
    PlacementDistinct(issues);
    DistinctLanes(c);
  }

  /** With unique keys, only issue `k`'s card carries its id. */
  lemma CardsInOnly(issues: seq<Issue>, lane: Lane, k: nat)
    requires k < |issues| && UniqueKeys(issues)
    ensures CardId(issues[k].key) !in Ids(CardsIn(issues[..k], lane))
  {
    var p := issues[..k];
    var id := CardId(issues[k].key);
    if id in Ids(CardsIn(p, lane)) {
      var m :| 0 <= m < |Ids(CardsIn(p, lane))| && Ids(CardsIn(p, lane))[m] == id;
      CardsInFrom(p, lane, CardsIn(p, lane)[m]);
      var k' :| 0 <= k' < |p| && NormalizeStatus(p[k'].status) == lane && CardsIn(p, lane)[m] == CreateCard(p[k']);
      CardIdInjective(p[k'].key, issues[k].key);
      assert false;
    }
  }

  lemma UniquePrefix(issues: seq<Issue>, m: nat)
    requires m <= |issues| && UniqueKeys(issues)
    ensures UniqueKeys(issues[..m])
  {
    var p := issues[..m];
    forall i, i' | 0 <= i < i' < |p| ensures p[i].key != p[i'].key {
      assert p[i] == issues[i] && p[i'] == issues[i'];
    }
  }

  /** The column of a lane after one more issue: the cards of the earlier
      issues, then the new card when its status names the lane. */
  lemma CardsInSnoc(issues: seq<Issue>, l: Lane)
    requires issues != []
    ensures var n := |issues|;
      Col(Placement(issues), l) == CardsIn(issues[..n - 1], l) +
        (if NormalizeStatus(issues[n - 1].status) == l then [CreateCard(issues[n - 1])] else [])
  {
    assert Col(Placement(issues), l) == CardsIn(issues, l);
  }

  /** Issue `j`'s card stays at its place when later issues are placed. */
  lemma PlacedEarlier(issues: seq<Issue>, j: nat)
    requires j < |issues| - 1
    ensures var n := |issues|;
      var l := NormalizeStatus(issues[j].status);
      var col := Col(Placement(issues), l);
      var front := CardsIn(issues[..n - 1], l);
      var id := CardId(issues[j].key);
      id in Ids(front) && IndexOf(col, id) == IndexOf(front, id)
  {
    var n := |issues|;
    var l := NormalizeStatus(issues[j].status);
    var p := issues[..n - 1];
    assert p[j] == issues[j];
    CardsInHas(p, j);
    CardsInSnoc(issues, l);
    IndexOfAppend(CardsIn(p, l), if NormalizeStatus(issues[n - 1].status) == l then [CreateCard(issues[n - 1])] else [],
      CardId(issues[j].key));
  }

  /** A card appended to a column that does not hold its id is found at the
      end. */
  lemma AppendedLast(front: seq<Card>, card: Card)
    requires card.id !in Ids(front)
    ensures IndexOf(front + [card], card.id) == Some(|front|)
  {
    var s := front + [card];
    assert Ids(s)[|front|] == card.id;
    AppendedAt(front, card, IndexOf(s, card.id).value);
  }

  lemma AppendedAt(front: seq<Card>, card: Card, r: nat)
    requires card.id !in Ids(front)
    requires IndexOf(front + [card], card.id) == Some(r)
    ensures r == |front|
  {
  }

  /** The last issue's card ends its column, past every earlier card. */
  lemma PlacedLast(issues: seq<Issue>)
    requires issues != [] && UniqueKeys(issues)
    ensures var n := |issues|;
      var l := NormalizeStatus(issues[n - 1].status);
      IndexOf(Col(Placement(issues), l), CardId(issues[n - 1].key)) == Some(|CardsIn(issues[..n - 1], l)|)
  {
    var n := |issues|;
    var l := NormalizeStatus(issues[n - 1].status);
    CardsInOnly(issues, l, n - 1);
    CardsInSnoc(issues, l);
    AppendedLast(CardsIn(issues[..n - 1], l), CreateCard(issues[n - 1]));
  }

  /** Within a column the cards of issues with unique keys
      keep the order of the issues. */
  lemma {:induction false} PlacementOrder(issues: seq<Issue>, j: nat, k: nat)
    requires j < k < |issues| && UniqueKeys(issues)
    requires NormalizeStatus(issues[j].status) == NormalizeStatus(issues[k].status)
    ensures var col := Col(Placement(issues), NormalizeStatus(issues[k].status));
      var pj, pk := IndexOf(col, CardId(issues[j].key)), IndexOf(col, CardId(issues[k].key));
      pj.Some? && pk.Some? && pj.value < pk.value
    decreases |issues|
  {
    var n := |issues|;
    var p := issues[..n - 1];
    PlacedEarlier(issues, j);
    if k == n - 1 {
      PlacedLast(issues);
    } else {
      PlacedEarlier(issues, k);
      assert p[j] == issues[j] && p[k] == issues[k];
      UniquePrefix(issues, n - 1);
      PlacementOrder(p, j, k);
      CardsInSnoc(p + [issues[n - 1]], NormalizeStatus(issues[k].status));
      assert Col(Placement(p), NormalizeStatus(issues[k].status)) == CardsIn(p, NormalizeStatus(issues[k].status));
    }
  }

  /** Rendering issues with unique keys and then
      restoring a saved layout that lists each of their cards once yields
      exactly that layout. */
  lemma ReloadReproducesLayout(issues: seq<Issue>, s: SavedState)
    requires UniqueKeys(issues)
    requires multiset(AllSaved(s)) == multiset(CardIds(issues))
    ensures Snapshot(Restored(Placement(issues), s)) == s
  {
    PlacementDistinct(issues);
    PlacementIds(issues);
    BagOfAll(Placement(issues));
    RestoreReproducesLayout(Placement(issues), s);
  }

  /** `applyFilter(filter)` on one column: every card's visibility is decided
      afresh from its stored status. */
  function ShowCol(s: seq<Card>, filter: Option<string>): (r: seq<Card>) {
    seq(|s|, i requires 0 <= i < |s| => s[i].(shown := Shows(filter, s[i].status)))
  }

  /** `applyFilter(filter)` on the board. */
  function Filtered(c: Columns, filter: Option<string>): (r: Columns) {
    Columns(ShowCol(c.todo, filter), ShowCol(c.inprog, filter), ShowCol(c.done, filter))
  }

  /** Filtering touches nothing but visibility, and shows exactly the cards
      whose stored status the filter accepts. */
  lemma FilteredCard(c: Columns, filter: Option<string>, l: Lane, i: nat)
    requires i < |Col(c, l)|
    ensures |Col(Filtered(c, filter), l)| == |Col(c, l)|
    ensures Col(Filtered(c, filter), l)[i].shown <==> Shows(filter, Col(c, l)[i].status)
    ensures Col(Filtered(c, filter), l)[i].(shown := Col(c, l)[i].shown) == Col(c, l)[i]
  {
  }

  /** Filtering moves no card: the layout a save would record is unchanged. */
  lemma FilterKeepsLayout(c: Columns, filter: Option<string>)
    ensures Snapshot(Filtered(c, filter)) == Snapshot(c)
  {
  }

  /** Filtering keeps the board's ids and each column's length. */
  lemma FilterKeepsCounts(c: Columns, filter: Option<string>)
    ensures IdBag(Filtered(c, filter)) == IdBag(c)
    ensures var r := Filtered(c, filter); |r.todo| == |c.todo| && |r.inprog| == |c.inprog| && |r.done| == |c.done|
  {
    FilterKeepsLayout(c, filter);
    assert Saved(Snapshot(Filtered(c, filter)), Todo) == Saved(Snapshot(c), Todo);
    assert Saved(Snapshot(Filtered(c, filter)), InProg) == Saved(Snapshot(c), InProg);
    assert Saved(Snapshot(Filtered(c, filter)), Done) == Saved(Snapshot(c), Done);
  }

  /** The last filter wins: what an earlier filter hid or showed plays no
      part. */
  lemma FilterOverrides(c: Columns, f: Option<string>, g: Option<string>)
    ensures Filtered(Filtered(c, f), g) == Filtered(c, g)
  {
  }

  /** No filter, an empty one, or "all" shows every card. */
  lemma FilterAllShowsEverything(c: Columns, filter: Option<string>)
    requires filter.None? || Lower(filter.value) in {"", "all"}
    ensures forall l, i :: 0 <= i < |Col(Filtered(c, filter), l)| ==> Col(Filtered(c, filter), l)[i].shown
  {
  }
}

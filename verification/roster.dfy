/**
 * The roster of the team builder as values: the creature records, the three things the
 * page shows besides the cards (roster, error line, text field) and what add, remove and
 * clear do to them. The controller class in module TeamBuilder is proved against these.
 */
module Roster {
  import opened Wrappers
  import opened JsString

  /** The most creatures an add lets onto the roster. */
  const Capacity: nat := 6

  const EmptyInputMessage: string := "Please enter a Pokémon name!"
  const TeamFullMessage: string := "Your team is full!"
  const NotFoundMessage: string := "Pokémon not found!"

  /** One looked-up creature: its canonical name, its sprite URL and its type names in order. */
  datatype Creature = Creature(name: string, sprite: string, types: seq<string>)

  /** The roster, the text of the error line and the value of the text field. */
  datatype Widget = Widget(team: seq<Creature>, error: string, input: string)

  /** The page as it starts: nothing on the roster, no error, an empty text field. */
  const Start: Widget := Widget([], "", "")

  /** What the checks before the lookup decide: reject, or look up the trimmed name. */
  datatype Check = Blank | Full | Lookup(name: string)

  /**
   * The checks an add makes before it looks anything up. A blank field wins over a full
   * roster, and only a non-blank name with room on the roster reaches the lookup.
   */
  function PreCheck(input: string, size: nat): (c: Check)
    ensures c == Blank <==> IsBlank(input)
    ensures c == Full <==> !IsBlank(input) && size >= Capacity
    ensures c.Lookup? ==> c.name == Trim(input) && c.name != [] && size < Capacity
  {
    var name := Trim(input);
    if name == [] then Blank
    else if size >= Capacity then Full
    else Lookup(name)
  }

  /** The error line an add leaves when its checks decide `c`. */
  function CheckMessage(c: Check): (message: string)
    ensures message == "" <==> c.Lookup?
  {
    match c
    case Blank => EmptyInputMessage
    case Full => TeamFullMessage
    case Lookup(_) => ""
  }

  /**
   * One add, run to completion, where `found` is what the lookup of the trimmed name
   * answers. Every outcome but success leaves roster and text field alone.
   */
  function Add(w: Widget, found: Option<Creature>): (r: Widget)
    ensures IsBlank(w.input) ==> r == w.(error := EmptyInputMessage)
    ensures !IsBlank(w.input) && |w.team| >= Capacity ==> r == w.(error := TeamFullMessage)
    ensures !IsBlank(w.input) && |w.team| < Capacity && found.None? ==>
              r == w.(error := NotFoundMessage)
    ensures !IsBlank(w.input) && |w.team| < Capacity && found.Some? ==>
              r == Widget(w.team + [found.value], "", "")
  {
    match PreCheck(w.input, |w.team|)
    case Lookup(_) =>
      (match found
       case None => w.(error := NotFoundMessage)
       case Some(c) => Widget(w.team + [c], "", ""))
    case check => w.(error := CheckMessage(check))
  }

  /**
   * `team.splice(index, 1)` for a natural-number index: the entry at `index` is gone and
   * the others keep their order; an index past the end changes nothing.
   */
  function Splice(team: seq<Creature>, index: nat): (r: seq<Creature>)
    ensures index < |team| ==> |r| == |team| - 1
    ensures index < |team| ==> forall k :: 0 <= k < index ==> r[k] == team[k]
    ensures index < |team| ==> forall k :: index <= k < |r| ==> r[k] == team[k + 1]
    ensures index < |team| ==> multiset(r) + multiset{team[index]} == multiset(team)
    ensures index >= |team| ==> r == team
  {
    if index < |team| then
      assert team == team[..index] + [team[index]] + team[index + 1..];
      team[..index] + team[index + 1..]
    else team
  }

  /** Remove: the roster loses at most its entry at `index`; error line and text field are kept. */
  function Remove(w: Widget, index: nat): (r: Widget)
    ensures r.error == w.error && r.input == w.input
    ensures index < |w.team| ==> |r.team| == |w.team| - 1 && r.team[..index] == w.team[..index]
    ensures index < |w.team| ==> r.team == w.team[..index] + w.team[index + 1..]
    ensures index >= |w.team| ==> r == w
  {
    w.(team := Splice(w.team, index))
  }

  /** Clear: whatever the roster held, it is empty; error line and text field are kept. */
  function Clear(w: Widget): (r: Widget)
    ensures r.team == [] && r.error == w.error && r.input == w.input
  {
    w.(team := [])
  }

  /** The user actions, one at a time; `EditInput` is the user typing into the text field. */
  datatype Action =
    | AddAction(found: Option<Creature>)
    | RemoveAction(index: nat)
    | ClearAction
    | EditInput(text: string)

  /** One action. None of them takes a roster of at most six entries past six. */
  function Apply(w: Widget, a: Action): (r: Widget)
    ensures |w.team| <= Capacity ==> |r.team| <= Capacity
    ensures a.ClearAction? ==> r.team == []
  {
    match a
    case AddAction(found) => Add(w, found)
    case RemoveAction(index) => Remove(w, index)
    case ClearAction => Clear(w)
    case EditInput(text) => w.(input := text)
  }

  /** The actions in order, each one finished before the next starts. */
  function Run(w: Widget, actions: seq<Action>): Widget
    decreases |actions|
  {
    if actions == [] then w else Run(Apply(w, actions[0]), actions[1..])
  }

  /** An add whose checks reject the input gives the same result whatever the lookup would say. */
  lemma AddIgnoresLookupWhenRejected(w: Widget, found: Option<Creature>, other: Option<Creature>)
    requires IsBlank(w.input) || |w.team| >= Capacity
    ensures Add(w, found) == Add(w, other)
    ensures Add(w, found).team == w.team && Add(w, found).input == w.input
  {
  }

  /**
   * Once the checks answer `Lookup`, the lookup's answer alone decides the add: no record
   * sets only the not-found message; a record is appended after the unchanged earlier
   * entries, and error line and text field are cleared.
   */
  lemma AddAfterChecks(w: Widget, found: Option<Creature>)
    requires PreCheck(w.input, |w.team|).Lookup?
    ensures found.None? ==> Add(w, found) == w.(error := NotFoundMessage)
    ensures found.Some? ==> |Add(w, found).team| == |w.team| + 1
    ensures found.Some? ==> Add(w, found).team[..|w.team|] == w.team
    ensures found.Some? ==> Add(w, found).team[|w.team|] == found.value
    ensures found.Some? ==> Add(w, found).error == "" && Add(w, found).input == ""
  {
  }

  /** Any sequence of actions keeps the roster within 0..6 entries. */
  lemma {:induction false} RunKeepsRosterBounded(w: Widget, actions: seq<Action>)
    requires |w.team| <= Capacity
    ensures |Run(w, actions).team| <= Capacity
    decreases |actions|
  {
    if actions != [] {
      RunKeepsRosterBounded(Apply(w, actions[0]), actions[1..]);
    }
  }

  /** Running `actions` and then `a` is applying `a` to the state `actions` leave. */
  lemma {:induction false} RunThenApply(w: Widget, actions: seq<Action>, a: Action)
    ensures Run(w, actions + [a]) == Apply(Run(w, actions), a)
    decreases |actions|
  {
    if actions == [] {
      assert [a][1..] == [];
    } else {
      assert (actions + [a])[1..] == actions[1..] + [a];
      RunThenApply(Apply(w, actions[0]), actions[1..], a);
    }
  }

  /** Whatever came before, clearing leaves the empty roster. */
  lemma RunEndingInClearIsEmpty(w: Widget, actions: seq<Action>)
    ensures Run(w, actions + [ClearAction]).team == []
  {
    RunThenApply(w, actions, ClearAction);
  }

  /**
   * The first add on a fresh page: with "pikachu" typed and a lookup that finds an
   * electric creature, the roster holds that one record and error and text field are empty.
   */
  lemma FirstAddScenario(sprite: string)
    ensures var pikachu := Creature("pikachu", sprite, ["electric"]);
            Add(Start.(input := "pikachu"), Some(pikachu)) == Widget([pikachu], "", "")
  {
  }
}

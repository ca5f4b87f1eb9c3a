/**
 * The page's controller: the roster array it holds in a closure, the error line, the
 * text field and the slots it last drew, changed in place by add, remove and clear.
 * The lookup is not called from here: an add is split into the checks that decide whether
 * a lookup is needed, and a commit that takes the lookup's answer.
 */
module TeamBuilder {
  import opened Wrappers
  import opened JsString
  import opened Roster
  import opened Display

  class Controller {
    var team: seq<Creature>
    var errorMsg: string
    var input: string
    var display: seq<Slot>

    /** At most six entries, and the page shows the current roster. */
    ghost predicate Valid()
      reads this
    {
      |team| <= Capacity && display == Render(team)
    }

    /** The roster, the error line and the text field as a value. */
    function State(): Widget
      reads this
    {
      Widget(team, errorMsg, input)
    }

    /** Page load: an empty roster, drawn once as six placeholders. */
    constructor ()
      ensures Valid() && State() == Start
    {
      team := [];
      errorMsg := "";
      input := "";
      new;
      UpdateTeamDisplay();
    }

    /** Redraws the slots from the current roster. */
    method UpdateTeamDisplay()
      modifies this`display
      ensures display == Render(team)
    {
      display := RenderSlots(team);
    }

    /** The user types into the text field. */
    method EditInput(text: string)
      requires Valid()
      modifies this`input
      ensures Valid() && State() == old(State()).(input := text)
    {
      input := text;
    }

    /**
     * The first half of an add: clears the error line, then rejects a blank name or a full
     * roster with its message; otherwise answers the trimmed name to look up.
     */
    method BeginAdd() returns (check: Check)
      requires Valid()
      modifies this`errorMsg
      ensures Valid()
      ensures check == PreCheck(input, |team|)
      ensures errorMsg == CheckMessage(check)
    {
      var name := Trim(input);
      errorMsg := "";
      if name == [] {
        errorMsg := EmptyInputMessage;
        check := Blank;
      } else if |team| >= Capacity {
        errorMsg := TeamFullMessage;
        check := Full;
      } else {
        check := Lookup(name);
      }
    }

    /**
     * The second half of an add, once the checks have passed and the lookup has answered:
     * no record sets the not-found message; a record is appended, the page redrawn and the
     * text field cleared.
     */
    method FinishAdd(found: Option<Creature>)
      requires Valid() && !IsBlank(input) && |team| < Capacity && errorMsg == ""
      modifies this`team, this`errorMsg, this`input, this`display
      ensures Valid()
      ensures found.None? ==> State() == old(State()).(error := NotFoundMessage)
      ensures found.Some? ==> State() == Widget(old(team) + [found.value], "", "")
    {
      match found
      case None =>
        errorMsg := NotFoundMessage;
      case Some(c) =>
        team := team + [c];
        UpdateTeamDisplay();
        input := "";
    }

    /**
     * A whole add: the lookup's answer `found` is used only when the checks answer
     * `Lookup`, so a blank name or a full roster never consults it.
     */
    method AddPokemon(found: Option<Creature>) returns (check: Check)
      requires Valid()
      modifies this`team, this`errorMsg, this`input, this`display
      ensures Valid()
      ensures check == PreCheck(old(input), old(|team|))
      ensures !check.Lookup? ==> State() == old(State()).(error := CheckMessage(check))
      ensures State() == Add(old(State()), found)
    {
      check := BeginAdd();
      if check.Lookup? {
        AddAfterChecks(State(), found);
        FinishAdd(found);
      }
    }

    /** Deletes the entry at `index`, if there is one, and redraws. */
    method RemovePokemon(index: nat)
      requires Valid()
      modifies this`team, this`display
      ensures Valid()
      ensures State() == Remove(old(State()), index)
      ensures index < old(|team|) ==> team == old(team[..index] + team[index + 1..])
      ensures index >= old(|team|) ==> team == old(team)
    {
      team := Splice(team, index);
      UpdateTeamDisplay();
    }

    /** Empties the roster and redraws. */
    method ClearTeam()
      requires Valid()
      modifies this`team, this`display
      ensures Valid()
      ensures team == [] && State() == Clear(old(State()))
    {
      team := [];
      UpdateTeamDisplay();
    }
  }
}

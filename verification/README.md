# Pokémon team builder: roster controller model

A Dafny model of the logic inside `script.js`, the only script of a single-page team
builder. The user types a creature name. The page looks the name up on a public REST
service and keeps a roster of at most six creatures. It redraws that roster as six slots:
one card per creature, then empty placeholders.

The model has six modules:

- `JsString`: JavaScript's `String.prototype.trim`, which the add operation applies to
  the text field. White space is the WhiteSpace and LineTerminator code points of the
  ECMAScript language specification.
- `Roster`: the state as a value (`Widget`: roster, error line, text field). It also holds
  the checks an add makes before the lookup (`PreCheck`), and add, remove and clear as
  functions. Actions run one after another with `Run`, and lemmas are proved over any
  sequence of them.
- `TypeColors`: `getTypeColor`, the fixed table of 18 type colours with default `#AAA`.
- `Display`: `updateTeamDisplay` as a view model. `Render` is a pure function from the
  roster to slot descriptors (`Card(name, sprite, badges, index)` or `Empty`).
  `RenderSlots` is the source's two loops, proved equal to `Render`.
- `TeamBuilder`: the class `Controller`. Its fields `team`, `errorMsg`, `input` and
  `display` are updated in place. `AddPokemon`, `RemovePokemon` and `ClearTeam` are proved
  against the `Roster` functions `Add`, `Remove` and `Clear`. `FinishAdd` states its two
  outcomes directly. `UpdateTeamDisplay` is proved against `Display.Render`. Every method
  keeps `Valid()`: at most six entries, with `display` showing the current roster.
- `Wrappers`: `Option`, used for the lookup's answer (`null` in the source).

The network lookup is not modelled. An add is split in two. `BeginAdd` runs the checks
and says whether a lookup is needed. `FinishAdd` takes the lookup's answer as an
`Option<Creature>`. `AddPokemon` runs both halves and uses the answer only when the checks
ask for it.

Two facts about the code shape the model:

- The code draws one card per roster entry, however many there are, and adds placeholders
  only below six (script.js:70-87). `Display.RenderLayout` states both cases.
- The bound of six entries holds only when adds run one at a time (see "## Left out").

## Model

| member | source | states |
|---|---|---|
| JsString.Trim | script.js:36 | the trimmed name is a contiguous slice of the input with only white space cut from its start and its end; it neither starts nor ends with white space, and it is empty exactly when the input is all white space |
| Roster.PreCheck | script.js:36-47 | a blank name is rejected first, then a roster of six or more; only a non-blank name with room on the roster reaches the lookup, and the name looked up is the trimmed input |
| Roster.CheckMessage | script.js:37-46 | the error line after the checks is empty exactly when they let the add go on to the lookup |
| Roster.Add | script.js:35-59 | blank input: only the error changes, to "Please enter a Pokémon name!"; full roster: only the error changes, to "Your team is full!"; lookup finds nothing: only the error changes, to "Pokémon not found!"; success: the record is appended and the error and the text field are cleared |
| Roster.AddIgnoresLookupWhenRejected | script.js:39-49 | when the input is blank or the roster full, the result of an add does not depend on the lookup's answer, and roster and text field are unchanged |
| Roster.AddAfterChecks | script.js:49-57 | once the checks answer `Lookup`, a lookup that finds nothing only sets "Pokémon not found!"; a found record makes the roster one longer, keeps the earlier entries, puts the record last, and clears error and text field |
| Roster.Splice | script.js:61-62 | for an index inside the roster, exactly that entry is deleted: one entry fewer, the entries before it unchanged, the entries after it shifted down by one, the same multiset less that entry; an index past the end changes nothing |
| Roster.Remove | script.js:61-62 | error line and text field are kept; an index inside the roster removes exactly that entry, one entry fewer, the entries before it unchanged and the entries after it keeping their order (`team[..i] + team[i+1..]`); an index past the end changes nothing |
| Roster.Clear | script.js:90-91 | the roster becomes empty; error line and text field are kept |
| Roster.Apply | script.js:35-93 | no add, remove, clear or edit of the text field takes a roster of at most six entries past six; clear always gives the empty roster |
| Roster.Run | script.js:119-127 | the user's actions applied one after another, each finished before the next starts; its properties are the lemmas below |
| Roster.RunThenApply | script.js:119-127 | running a list of actions and then one more is applying that one to the state the list leaves |
| Roster.RunKeepsRosterBounded | script.js:44-55 | across any sequence of actions run one at a time, the roster stays within 0..6 entries |
| Roster.RunEndingInClearIsEmpty | script.js:90-91 | whatever actions came before, a clear leaves the empty roster |
| TypeColors.TypeColor | script.js:95-117 | every colour returned, listed or default, is a CSS hex colour |
| TypeColors.DefaultOnlyForUnlisted | script.js:116 | the default "#AAA" comes back exactly for the names outside the 18 listed types |
| TypeColors.ListedColorsDistinct | script.js:96-115 | a check on the transcribed table, not a promise of the script: the 18 listed colours are pairwise different |
| Display.Badges | script.js:76 | one badge per type, in the record's type order, each coloured by the given colour function (the cards pass the type-colour table) |
| Display.CardOf | script.js:71-78 | the card carries the creature's name and sprite and the given index, with one badge per type, in order, badge k labelled by type k and coloured by `TypeColor` of that type |
| Display.CardsLayout | script.js:70-80 | the cards are one per roster entry, in roster order, the card at position k tagged with index k |
| Display.PaddingLayout | script.js:82-87 | the padding is the given number of empty slots |
| Display.Render | script.js:66-88 | the slots shown number six for a roster of at most six, and one per entry for a longer roster |
| Display.RenderLayout | script.js:66-88 | a roster of at most six gives exactly six slots: the card of entry k at position k, then 6 - \|team\| empty slots; a longer roster gives all its cards and no empty slot |
| Display.RenderSlots | script.js:70-87 | the card loop followed by the padding loop yields exactly `Render(team)` |
| Roster.FirstAddScenario | script.js:35-59 | adding "pikachu" on a fresh page with a lookup that finds an electric creature gives the one-entry roster, no error and an empty text field |
| Display.OneCardThenFivePlaceholders | script.js:66-88 | that one-entry roster is drawn as its card, with one badge in the electric colour "#F8D030" and index 0, followed by five empty slots |
| TeamBuilder.Controller.constructor | script.js:129 | the page starts with an empty roster, no error and an empty text field, drawn as six empty slots |
| TeamBuilder.Controller.UpdateTeamDisplay | script.js:66-88 | the slots shown become `Render(team)` of the current roster |
| TeamBuilder.Controller.EditInput | script.js:4 | the user typing into the text field (the input element of script.js:4); no function of the script does this, and only the text field changes |
| TeamBuilder.Controller.BeginAdd | script.js:35-49 | the error line is cleared and then set by the checks; roster and text field are untouched; the result says whether a lookup is needed and of which name |
| TeamBuilder.Controller.FinishAdd | script.js:49-57 | with a non-blank name and room on the roster: no record sets only the error to "Pokémon not found!"; a record is appended, the text field cleared, the error stays empty and the display shows the new roster |
| TeamBuilder.Controller.AddPokemon | script.js:35-59 | the new state is `Add` of the old state; when the checks reject, the only change is the error line and the lookup's answer is not used |
| TeamBuilder.Controller.RemovePokemon | script.js:61-64 | the roster becomes its splice at the index (entry deleted, or unchanged past the end), and the display is redrawn |
| TeamBuilder.Controller.ClearTeam | script.js:90-93 | the roster becomes empty, error and text field are kept, and the display is redrawn |

## Left out

- DOM work is not modelled: element lookup, `innerHTML` templates, event listeners and
  `console.log`. The model produces slot descriptors instead of markup.
- `fetchPokemon` (script.js:17-33) is not modelled: the `fetch` call, JSON parsing and the
  lower-casing of the name are network I/O and Unicode case mapping. The lookup's answer is
  a parameter, and only the record shape it returns (script.js:24-28) is kept.
- The sprite URL is a string. The service can send `null` there, and the page would print
  it; that case is not modelled.
- Concurrent adds are not modelled. The length check (script.js:44) happens before the
  `await` (script.js:49) and the push after it (script.js:55), so two adds in flight can
  push a seventh entry. The model runs each add to completion, and the bound of six holds
  only under that sequential execution.
- TeamBuilder.Controller.RemovePokemon: takes a natural-number index only. `parseInt` of
  the button's `data-index` (script.js:124-125) and `splice` with a NaN or negative index
  are not modelled.
- TypeColors.TypeColor: the table is exactly its 18 literal keys. Looking up an inherited
  object property such as "constructor" (script.js:116) is not modelled.
- HTML escaping of names and type labels is presentation only and is not modelled.
- The text field's and the error line's initial contents come from the HTML page, which is
  not part of this model; the constructor starts both empty.

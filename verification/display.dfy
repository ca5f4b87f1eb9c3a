/**
 * `updateTeamDisplay` as a view model: the list of slots the page shows for a roster,
 * one card per creature in roster order, then empty placeholders up to six slots.
 */
module Display {
  import opened Roster
  import opened TypeColors

  /** How many slots the page pads the roster to. */
  const SlotCount: nat := 6

  /** A type label with its background colour. */
  datatype Badge = Badge(typeName: string, color: string)

  /** A filled card, tagged with the roster position its remove button deletes, or a placeholder. */
  datatype Slot = Card(name: string, sprite: string, badges: seq<Badge>, index: nat) | Empty

  /** One badge per type name, in the record's order, each coloured by `color`. */
  function Badges(types: seq<string>, color: string -> string): (r: seq<Badge>)
    ensures |r| == |types|
    ensures forall k :: 0 <= k < |r| ==> r[k] == Badge(types[k], color(types[k]))
  {
    if types == [] then [] else [Badge(types[0], color(types[0]))] + Badges(types[1..], color)
  }

  /** The card of the creature at roster position `index`. */
  function CardOf(c: Creature, index: nat): (card: Slot)
    ensures card.Card? && card.name == c.name && card.sprite == c.sprite && card.index == index
    ensures |card.badges| == |c.types|
    ensures forall k :: 0 <= k < |c.types| ==> card.badges[k] == Badge(c.types[k], TypeColor(c.types[k]))
  {
    Card(c.name, c.sprite, Badges(c.types, TypeColor), index)
  }

  /** The cards of the roster, built front to back as the roster is walked. */
  function Cards(team: seq<Creature>): seq<Slot>
  {
    if team == [] then [] else Cards(team[..|team| - 1]) + [CardOf(team[|team| - 1], |team| - 1)]
  }

  /** `n` placeholders. */
  function Padding(n: nat): seq<Slot>
  {
    if n == 0 then [] else Padding(n - 1) + [Empty]
  }

  /** The slots shown for a roster: its cards, then placeholders while fewer than six slots are shown. */
  function Render(team: seq<Creature>): (slots: seq<Slot>)
    ensures |slots| == if |team| < SlotCount then SlotCount else |team|
  {
    CardsLayout(team);
    PaddingLayout(if |team| < SlotCount then SlotCount - |team| else 0);
    Cards(team) + Padding(if |team| < SlotCount then SlotCount - |team| else 0)
  }

  lemma {:induction false} CardsLayout(team: seq<Creature>)
    ensures |Cards(team)| == |team|
    ensures forall k :: 0 <= k < |team| ==> Cards(team)[k] == CardOf(team[k], k)
  {
    if team != [] {
      var front := team[..|team| - 1];
      var last := CardOf(team[|team| - 1], |team| - 1);
      CardsLayout(front);
      assert Cards(team) == Cards(front) + [last];
      forall k | 0 <= k < |team|
        ensures Cards(team)[k] == CardOf(team[k], k)
      {
        if k < |front| {
          assert Cards(team)[k] == Cards(front)[k];
          assert front[k] == team[k];
        }
      }
    }
  }

  lemma {:induction false} PaddingLayout(n: nat)
    ensures |Padding(n)| == n
    ensures forall k :: 0 <= k < n ==> Padding(n)[k] == Empty
  {
    if n > 0 {
      PaddingLayout(n - 1);
    }
  }

  /**
   * A roster of at most six shows exactly six slots: the card of entry k at position k,
   * tagged with k, then 6 - |team| placeholders. A longer roster shows all its cards and no
   * placeholder.
   */
  lemma RenderLayout(team: seq<Creature>)
    ensures |team| <= SlotCount ==> |Render(team)| == SlotCount
    ensures |team| > SlotCount ==> |Render(team)| == |team|
    ensures forall k :: 0 <= k < |team| ==> Render(team)[k] == CardOf(team[k], k)
    ensures forall k :: |team| <= k < |Render(team)| ==> Render(team)[k] == Empty
  {
    CardsLayout(team);
    PaddingLayout(if |team| < SlotCount then SlotCount - |team| else 0);
  }

  /**
   * The two loops of the page's redraw: a card for each roster entry with its position,
   * then placeholders from the roster's length up to six.
   */
  method RenderSlots(team: seq<Creature>) returns (slots: seq<Slot>)
    ensures slots == Render(team)
  {
    slots := [];
    var i := 0;
    while i < |team|
      invariant i <= |team| && |slots| == i
      invariant forall k :: 0 <= k < i ==> slots[k] == CardOf(team[k], k)
    {
      slots := slots + [CardOf(team[i], i)];
      i := i + 1;
    }
    while i < SlotCount
      invariant |team| <= i && |slots| == i
      invariant i <= if |team| < SlotCount then SlotCount else |team|
      invariant forall k :: 0 <= k < |team| ==> slots[k] == CardOf(team[k], k)
      invariant forall k :: |team| <= k < i ==> slots[k] == Empty
    {
      slots := slots + [Empty];
      i := i + 1;
    }
    RenderLayout(team);
    assert |slots| == |Render(team)|;
    assert forall k :: 0 <= k < |slots| ==> slots[k] == Render(team)[k];
  }

  /**
   * The page after a first add of an electric creature named "pikachu": its card, with one
   * badge in the electric colour and the remove button tagged 0, followed by five placeholders.
   */
  lemma OneCardThenFivePlaceholders(sprite: string)
    ensures Render([Creature("pikachu", sprite, ["electric"])]) ==
            [Card("pikachu", sprite, [Badge("electric", "#F8D030")], 0),
             Empty, Empty, Empty, Empty, Empty]
  {
    var pikachu := Creature("pikachu", sprite, ["electric"]);
    assert TypeColor("electric") == "#F8D030";
    assert Badges(["electric"], TypeColor) == [Badge("electric", "#F8D030")];
    RenderLayout([pikachu]);
  }
}

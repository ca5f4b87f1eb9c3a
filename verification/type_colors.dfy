/** The fixed table that colours a type badge (`getTypeColor`). */
module TypeColors {

  /** The colour of a type name the table does not list. */
  const DefaultColor: string := "#AAA"

  /** The eighteen listed type names and their colours. */
  const ColorTable: map<string, string> := map[
    "normal" := "#A8A878",
    "fire" := "#F08030",
    "water" := "#6890F0",
    "electric" := "#F8D030",
    "grass" := "#78C850",
    "ice" := "#98D8D8",
    "fighting" := "#C03028",
    "poison" := "#A040A0",
    "ground" := "#E0C068",
    "flying" := "#A890F0",
    "psychic" := "#F85888",
    "bug" := "#A8B820",
    "rock" := "#B8A038",
    "ghost" := "#705898",
    "dragon" := "#7038F8",
    "dark" := "#705848",
    "steel" := "#B8B8D0",
    "fairy" := "#EE99AC"
  ]

  /** A CSS colour written `#RGB` or `#RRGGBB`. */
  predicate IsHexColor(color: string)
  {
    (|color| == 4 || |color| == 7) && color[0] == '#' &&
    forall k :: 1 <= k < |color| ==> color[k] in "0123456789ABCDEF"
  }

  /** The badge colour of a type name: its listed colour, or the default for any other name. */
  function TypeColor(typeName: string): (color: string)
    ensures IsHexColor(color)
  {
    if typeName in ColorTable then ColorTable[typeName] else DefaultColor
  }

  /** The default colour comes back exactly for the names the table does not list. */
  lemma DefaultOnlyForUnlisted(typeName: string)
    ensures TypeColor(typeName) == DefaultColor <==> typeName !in ColorTable
  {
  }

  /** Guards the transcription of the table: no colour was copied into two rows. The script does
      not promise this; it holds of the 18 colours as listed. */
  lemma ListedColorsDistinct(a: string, b: string)
    requires a in ColorTable && b in ColorTable && a != b
    ensures TypeColor(a) != TypeColor(b)
  {
  }
}

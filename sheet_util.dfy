/** Naming the sheet that holds a gym's climbs of one wall category:
    `"<location> - <plural noun>"`, where the location is the second word of
    the gym's name and the noun is the Finnish plural for the category. */
module SheetUtil {
  import opened Wrappers
  import opened Strings

  /** `format_sheet_name`: the location, a spaced dash, then the noun. */
  function FormatSheetName(location: string, noun: string): (name: string)
    ensures |name| == |location| + 3 + |noun|
    ensures name[..|location|] == location
    ensures name[|location|..|location| + 3] == " - "
    ensures name[|location| + 3..] == noun
  {
    location + " - " + noun
  }

  /** `wall_category_to_plural_human_type`: the two known categories have a
      noun each; anything else panics, with no default. */
  function WallCategoryToPluralHumanType(category: string): (r: Result<string>)
    ensures r.Ok? <==> category == "gym_bouldering" || category == "gym_sportclimbing"
    ensures category == "gym_bouldering" ==> r == Ok("Boulderit")
    ensures category == "gym_sportclimbing" ==> r == Ok("Reitit")
  {
    match category
    case "gym_bouldering" => Ok("Boulderit")
    case "gym_sportclimbing" => Ok("Reitit")
    case _ => Err(Panic("unknown wall category"))
  }

  /** `gym_name.split(' ').nth(1).unwrap()`: the second space-separated
      piece; a panic when the name has no space. */
  function ParseLocationFromGymName(gymName: string): (r: Result<string>)
    ensures r.Ok? <==> ' ' in gymName
    ensures r.Ok? ==> ' ' !in r.value
  {
    var pieces := Split(gymName, ' ');
    SplitCount(gymName, ' ');
    SplitJoin(gymName, ' ');
    if |pieces| > 1 then Ok(pieces[1]) else Err(Panic("gym name has no second word"))
  }

  /** `location` is what follows the first space of `gymName` (at `i`), up to
      the next space or the end. */
  predicate LocationAt(gymName: string, i: nat, location: string) {
    && i + 1 + |location| <= |gymName|
    && ' ' !in gymName[..i] && gymName[i] == ' '
    && gymName[i + 1..i + 1 + |location|] == location && ' ' !in location
    && (i + 1 + |location| == |gymName| || gymName[i + 1 + |location|] == ' ')
  }

  /** The pieces after the first space, when there is one: the second piece
      starts right after it and ends at the next space or the end. */
  lemma SecondPieceLayout(gymName: string)
    requires ' ' in gymName
    ensures |Split(gymName, ' ')| > 1
    ensures LocationAt(gymName, |Split(gymName, ' ')[0]|, Split(gymName, ' ')[1])
  {
    var pieces := Split(gymName, ' ');
    var k := |pieces[0]|;
    SplitCount(gymName, ' ');
    SplitFirstPiece(gymName, ' ');
    SplitFirst(gymName, ' ');
    var rest := gymName[k + 1..];
    assert pieces[1] == Split(rest, ' ')[0];
    SplitFirstPiece(rest, ' ');
    var m := |pieces[1]|;
    assert gymName[k + 1..k + 1 + m] == rest[..m];
    assert k + 1 + m < |gymName| ==> gymName[k + 1 + m] == rest[m];
  }

  /** The parsed location is the word after the first space. */
  lemma ParseLocationIsSecondWord(gymName: string)
    requires ParseLocationFromGymName(gymName).Ok?
    ensures LocationAt(gymName, |Split(gymName, ' ')[0]|, ParseLocationFromGymName(gymName).value)
  {
    SecondPieceLayout(gymName);
  }

  /** Conversely, any word standing after the first space is what is parsed. */
  lemma ParseLocationOfSecondWord(gymName: string, i: nat, location: string)
    requires LocationAt(gymName, i, location)
    ensures ParseLocationFromGymName(gymName) == Ok(location)
  {
    var pieces := Split(gymName, ' ');
    var k := |pieces[0]|;
    assert ' ' in gymName by { assert gymName[i] == ' '; }
    SplitFirstPiece(gymName, ' ');
    SecondPieceLayout(gymName);
    FirstSeparatorUnique(gymName, ' ', i, k);
    var rest := gymName[k + 1..];
    var m := |pieces[1]|;
    assert rest[..|location|] == location;
    assert rest[..m] == pieces[1];
    assert |location| < |rest| ==> rest[|location|] == gymName[i + 1 + |location|];
    assert m < |rest| ==> rest[m] == gymName[k + 1 + m];
    FirstSeparatorUnique(rest, ' ', |location|, m);
  }

  /** The repository's own example of the location word. */
  lemma ParseLocationExample()
    ensures ParseLocationFromGymName("Kiipeilyareena Ristikko") == Ok("Ristikko")
  {
    var name := "Kiipeilyareena Ristikko";
    assert name[..14] == "Kiipeilyareena";
    assert name[15..23] == "Ristikko";
    assert LocationAt(name, 14, "Ristikko");
    ParseLocationOfSecondWord(name, 14, "Ristikko");
  }

  /** The repository's own examples of sheet names. */
  lemma SheetNameExample()
    ensures FormatSheetName("Ristikko", WallCategoryToPluralHumanType("gym_bouldering").value) == "Ristikko - Boulderit"
    ensures FormatSheetName("Ristikko", WallCategoryToPluralHumanType("gym_sportclimbing").value) == "Ristikko - Reitit"
  {
  }
}

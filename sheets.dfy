/** The spreadsheet helpers: reading the landed row out of an append
    response, the grid ranges of the format and sort requests, finding a
    sheet's numeric id by its title (with a memo of earlier answers) and
    decoding `#RRGGBB` colours. The Google Sheets calls themselves are
    outside the model; their answers are parameters. */
module Sheets {
  import opened Wrappers
  import opened Strings

  const I32Max: int := 0x7fff_ffff

  // ---------------------------------------------------------------------
  // Spreadsheet metadata
  // ---------------------------------------------------------------------

  datatype SheetProperties = SheetProperties(title: Option<string>, sheetId: Option<int>)

  datatype Sheet = Sheet(properties: Option<SheetProperties>)

  datatype Spreadsheet = Spreadsheet(spreadsheetId: Option<string>, sheets: Option<seq<Sheet>>)

  /** Sheet `i` is the first one titled `name`, and every sheet before it
      could be inspected (had properties) and had another title. */
  predicate FirstTitled(sheets: seq<Sheet>, name: string, i: int) {
    && 0 <= i < |sheets|
    && sheets[i].properties.Some?
    && sheets[i].properties.value.title == Some(name)
    && forall j :: 0 <= j < i ==>
         sheets[j].properties.Some? && sheets[j].properties.value.title != Some(name)
  }

  function SheetIdAt(sheets: seq<Sheet>, i: int): Option<int>
    requires 0 <= i < |sheets| && sheets[i].properties.Some?
  {
    sheets[i].properties.value.sheetId
  }

  /** `sheets.find(|s| s.properties.unwrap().title == Some(name))` followed by
      `.properties.unwrap().sheet_id.unwrap()`: the id of the first sheet with
      that title; a panic when a sheet before it has no properties, when no
      sheet has the title, or when the found sheet has no id. */
  function FindSheetId(sheets: seq<Sheet>, name: string): (r: Result<int>)
    ensures r.Ok? ==> exists i :: FirstTitled(sheets, name, i) && SheetIdAt(sheets, i) == Some(r.value)
    ensures (exists i :: FirstTitled(sheets, name, i) && SheetIdAt(sheets, i).Some?) ==> r.Ok?
  {
    if sheets == [] then Err(Panic("sheet not found in spreadsheet"))
    else match sheets[0].properties
      case None => Err(Panic("sheet without properties"))
      case Some(p) =>
        if p.title == Some(name) then
          (match p.sheetId
           case None => Err(Panic("sheet without id"))
           case Some(id) =>
             assert FirstTitled(sheets, name, 0);
             Ok(id))
        else
          var r := FindSheetId(sheets[1..], name);
          assert forall i :: FirstTitled(sheets[1..], name, i) ==> FirstTitled(sheets, name, i + 1);
          assert forall i :: FirstTitled(sheets, name, i) ==> i >= 1 && FirstTitled(sheets[1..], name, i - 1);
          r
  }

  /** `get_sheet_id`: the spreadsheet's sheet list must be present (it is
      unwrapped), then the first sheet with the title gives the id. */
  function GetSheetId(spreadsheet: Spreadsheet, name: string): (r: Result<int>)
    ensures spreadsheet.sheets.None? ==> r.Err?
    ensures spreadsheet.sheets.Some? ==> r == FindSheetId(spreadsheet.sheets.value, name)
  {
    match spreadsheet.sheets
    case None => Err(Panic("spreadsheet without sheets"))
    case Some(sheets) => FindSheetId(sheets, name)
  }

  /** `memoized_get_sheet_id`'s process-wide map, as an explicit object. The
      metadata a miss would fetch is passed in as `fetched`. */
  class SheetIdCache {
    var entries: map<string, int>

    /** Every cached id is the one a fresh lookup in `spreadsheet` gives. */
    ghost predicate AgreesWith(spreadsheet: Spreadsheet)
      reads this
    {
      forall n :: n in entries ==> GetSheetId(spreadsheet, n) == Ok(entries[n])
    }

    constructor ()
      ensures entries == map[]
    {
      entries := map[];
    }

    method MemoizedGetSheetId(name: string, fetched: Result<Spreadsheet>) returns (r: Result<int>, didFetch: bool)
      modifies this
      // a hit answers from the map, fetches nothing and changes nothing
      ensures name in old(entries) ==> r == Ok(old(entries)[name]) && !didFetch && entries == old(entries)
      // a miss fetches, and stores exactly the id it found
      ensures name !in old(entries) ==> didFetch
      ensures name !in old(entries) && fetched.Err? ==> r == Err(fetched.error) && entries == old(entries)
      ensures name !in old(entries) && fetched.Ok? ==> r == GetSheetId(fetched.value, name)
      ensures name !in old(entries) ==>
                entries == if r.Ok? then old(entries)[name := r.value] else old(entries)
      // with a consistent map, memoisation is invisible: the answer is a fresh lookup's
      ensures fetched.Ok? && old(AgreesWith(fetched.value)) ==>
                AgreesWith(fetched.value) && r == GetSheetId(fetched.value, name)
    {
      if name in entries {
        return Ok(entries[name]), false;
      }
      didFetch := true;
      if fetched.Err? {
        return Err(fetched.error), didFetch;
      }
      r := GetSheetId(fetched.value, name);
      if r.Ok? {
        entries := entries[name := r.value];
      }
    }
  }

  // ---------------------------------------------------------------------
  // Rows read back and append responses
  // ---------------------------------------------------------------------

  /** `get_sheet_rows`: the values of the response, or no rows when absent. */
  function SheetRows(values: Option<seq<seq<string>>>): (rows: seq<seq<string>>)
    ensures values.None? ==> rows == []
    ensures values.Some? ==> rows == values.value
  {
    match values
    case None => []
    case Some(v) => v
  }

  datatype UpdateValuesResponse = UpdateValuesResponse(updatedRange: Option<string>)

  datatype AppendValuesResponse = AppendValuesResponse(updates: Option<UpdateValuesResponse>)

  /** Length of the run of upper-case letters starting at `i`. */
  function UpperRun(s: string, i: nat): (n: nat)
    requires i <= |s|
    ensures i + n <= |s|
    decreases |s| - i
  {
    if i < |s| && IsUpper(s[i]) then 1 + UpperRun(s, i + 1) else 0
  }

  /** The run is all letters and stops before a non-letter or at the end. */
  lemma {:induction false} UpperRunIsRun(s: string, i: nat)
    requires i <= |s|
    decreases |s| - i
    ensures AllUpper(s[i..i + UpperRun(s, i)])
    ensures i + UpperRun(s, i) == |s| || !IsUpper(s[i + UpperRun(s, i)])
  {
    if i < |s| && IsUpper(s[i]) {
      UpperRunIsRun(s, i + 1);
      var n := UpperRun(s, i + 1);
      assert s[i..i + 1 + n] == [s[i]] + s[i + 1..i + 1 + n];
    }
  }

  /** Length of the run of decimal digits starting at `i`. */
  function DigitRun(s: string, i: nat): (n: nat)
    requires i <= |s|
    ensures i + n <= |s|
    decreases |s| - i
  {
    if i < |s| && IsDigit(s[i]) then 1 + DigitRun(s, i + 1) else 0
  }

  /** The run is all digits and stops before a non-digit or at the end. */
  lemma {:induction false} DigitRunIsRun(s: string, i: nat)
    requires i <= |s|
    decreases |s| - i
    ensures AllDigits(s[i..i + DigitRun(s, i)])
    ensures i + DigitRun(s, i) == |s| || !IsDigit(s[i + DigitRun(s, i)])
  {
    if i < |s| && IsDigit(s[i]) {
      DigitRunIsRun(s, i + 1);
      var n := DigitRun(s, i + 1);
      assert s[i..i + 1 + n] == [s[i]] + s[i + 1..i + 1 + n];
    }
  }

  /** `[A-Z]+\d+` matches from position `c`. */
  predicate LettersThenDigitsAt(s: string, c: nat)
    requires c <= |s|
  {
    UpperRun(s, c) >= 1 && DigitRun(s, c + UpperRun(s, c)) >= 1
  }

  /** `\d+:[A-Z]+\d+` matches from position `b`. */
  predicate DigitsColonAt(s: string, b: nat)
    requires b <= |s|
  {
    && DigitRun(s, b) >= 1
    && b + DigitRun(s, b) < |s| && s[b + DigitRun(s, b)] == ':'
    && LettersThenDigitsAt(s, b + DigitRun(s, b) + 1)
  }

  /** The regular expression `.+![A-Z]+(\d+):[A-Z]+\d+` matches `s` with its
      `!` at position `p`: something before it, then letters, digits, a colon,
      letters and digits. (Letter and digit runs are necessarily maximal.) */
  predicate BangMatchesAt(s: string, p: nat) {
    && 1 <= p < |s| && s[p] == '!'
    && UpperRun(s, p + 1) >= 1
    && DigitsColonAt(s, p + 1 + UpperRun(s, p + 1))
  }

  /** The captured row digits of a match whose `!` is at `p`. */
  function RowDigits(s: string, p: nat): (d: string)
    requires BangMatchesAt(s, p)
    ensures |d| >= 1 && AllDigits(d)
  {
    var a := p + 1 + UpperRun(s, p + 1);
    DigitRunIsRun(s, a);
    s[a..a + DigitRun(s, a)]
  }

  /** The greedy `.+` puts the `!` as far right as a match allows: the last
      matching position no later than `top`. */
  function LastMatch(s: string, top: nat): (r: Option<nat>)
    requires top < |s|
    ensures r.Some? ==> r.value <= top && BangMatchesAt(s, r.value)
    decreases top
  {
    if BangMatchesAt(s, top) then Some(top)
    else if top == 0 then None
    else LastMatch(s, top - 1)
  }

  /** `LastMatch` finds the last match: a match at any `q <= top` means it
      returns one, at `q` or later. */
  lemma {:induction false} LastMatchIsLast(s: string, top: nat, q: nat)
    requires top < |s| && q <= top && BangMatchesAt(s, q)
    decreases top
    ensures LastMatch(s, top).Some? && q <= LastMatch(s, top).value
  {
    if !BangMatchesAt(s, top) {
      LastMatchIsLast(s, top - 1, q);
    }
  }

  /** `parse_row_from_range`: the captured row number parsed as an `i32`;
      a panic when the pattern does not match or the number overflows. */
  function ParseRowFromRange(range: string): (r: Result<int>)
    ensures r.Ok? ==> 0 <= r.value <= I32Max
  {
    if range == [] then Err(Panic("range does not match"))
    else match LastMatch(range, |range| - 1)
      case None => Err(Panic("range does not match"))
      case Some(p) =>
        var v := DecimalValue(RowDigits(range, p));
        if v > I32Max then Err(Panic("row does not fit in i32")) else Ok(v)
  }

  /** `parse_row_from_range` on any string: it succeeds exactly when the
      pattern matches somewhere and the row digits of the last match (where
      the greedy `.+` puts the `!`) fit in an `i32`, and then gives their
      value; every failure is a panic. */
  lemma ParseRowFromRangeCases(s: string)
    ensures (exists p :: BangMatchesAt(s, p)) <==> s != [] && LastMatch(s, |s| - 1).Some?
    ensures ParseRowFromRange(s).Ok? <==>
              && s != [] && LastMatch(s, |s| - 1).Some?
              && DecimalValue(RowDigits(s, LastMatch(s, |s| - 1).value)) <= I32Max
    ensures ParseRowFromRange(s).Ok? ==>
              ParseRowFromRange(s).value == DecimalValue(RowDigits(s, LastMatch(s, |s| - 1).value))
    ensures (forall p :: !BangMatchesAt(s, p)) ==> ParseRowFromRange(s).Err?
    ensures ParseRowFromRange(s).Err? ==> ParseRowFromRange(s).error.Panic?
  {
    if p :| BangMatchesAt(s, p) {
      LastMatchIsLast(s, |s| - 1, p);
    }
  }

  /** An A1 range as the append response writes it: `<title>!<col><row>:<col><row>`. */
  function A1Range(title: string, startColumn: string, row: nat, endColumn: string, endRow: nat): string {
    title + "!" + startColumn + NatToDecimal(row) + ":" + endColumn + NatToDecimal(endRow)
  }

  lemma {:induction false} UpperRunExact(s: string, i: nat, n: nat)
    requires i + n <= |s| && AllUpper(s[i..i + n])
    requires i + n == |s| || !IsUpper(s[i + n])
    ensures UpperRun(s, i) == n
    decreases n
  {
    if n > 0 {
      assert IsUpper(s[i..i + n][0]);
      assert s[i + 1..i + 1 + (n - 1)] == s[i..i + n][1..];
      UpperRunExact(s, i + 1, n - 1);
    }
  }

  lemma {:induction false} DigitRunExact(s: string, i: nat, n: nat)
    requires i + n <= |s| && AllDigits(s[i..i + n])
    requires i + n == |s| || !IsDigit(s[i + n])
    ensures DigitRun(s, i) == n
    decreases n
  {
    if n > 0 {
      assert IsDigit(s[i..i + n][0]);
      assert s[i + 1..i + 1 + (n - 1)] == s[i..i + n][1..];
      DigitRunExact(s, i + 1, n - 1);
    }
  }

  /** The pieces of an A1 range string, by position. */
  lemma A1RangeLayout(title: string, startColumn: string, row: nat, endColumn: string, endRow: nat)
    ensures var s := A1Range(title, startColumn, row, endColumn, endRow);
            var d1, d2 := NatToDecimal(row), NatToDecimal(endRow);
            var p := |title|;
            var b := p + 1 + |startColumn|;
            var q := b + |d1|;
            var e := q + 1 + |endColumn|;
            && |s| == e + |d2| && s[p] == '!' && s[p + 1..b] == startColumn && s[b..q] == d1
            && s[q] == ':' && s[q + 1..e] == endColumn && s[e..] == d2
  {
    var d1, d2 := NatToDecimal(row), NatToDecimal(endRow);
    var s1 := title + "!";
    var s2 := s1 + startColumn;
    var s3 := s2 + d1;
    var s4 := s3 + ":";
    var s5 := s4 + endColumn;
    var s := s5 + d2;
    assert s == A1Range(title, startColumn, row, endColumn, endRow);
    assert s[|s1|..|s2|] == startColumn by { assert s[..|s2|] == s2; }
    assert s[|s2|..|s3|] == d1 by { assert s[..|s3|] == s3; }
    assert s[|s4|..|s5|] == endColumn by { assert s[..|s5|] == s5; }
    assert s[|s3|] == ':' by { assert s[..|s4|] == s4; }
    assert s[|title|] == '!' by { assert s[..|s1|] == s1; }
  }

  /** When the `!` at `p` starts a match and no `!` follows it, the greedy
      match is the one at `p`. */
  lemma LastMatchIsLastBang(s: string, p: nat)
    requires BangMatchesAt(s, p)
    requires forall k :: p < k < |s| ==> s[k] != '!'
    ensures LastMatch(s, |s| - 1) == Some(p)
  {
    LastMatchIsLast(s, |s| - 1, p);
    var v := LastMatch(s, |s| - 1).value;
    assert s[v] == '!';
  }

  /** The pieces of `.!<letters><digits>:<letters><digits>`, by position. */
  predicate LaidOut(s: string, p: nat, l1: nat, d1: nat, l2: nat, d2: nat) {
    && 1 <= p && l1 >= 1 && d1 >= 1 && l2 >= 1 && d2 >= 1
    && |s| == p + 1 + l1 + d1 + 1 + l2 + d2 && s[p] == '!'
    && AllUpper(s[p + 1..p + 1 + l1]) && AllDigits(s[p + 1 + l1..p + 1 + l1 + d1])
    && s[p + 1 + l1 + d1] == ':'
    && AllUpper(s[p + 2 + l1 + d1..p + 2 + l1 + d1 + l2]) && AllDigits(s[p + 2 + l1 + d1 + l2..])
  }

  /** Letters then digits from `i`, followed by a non-digit or the end: the
      runs are exactly those. */
  lemma RunsAt(s: string, i: nat, l: nat, d: nat)
    requires d >= 1 && i + l + d <= |s|
    requires AllUpper(s[i..i + l]) && AllDigits(s[i + l..i + l + d])
    requires i + l + d == |s| || !IsDigit(s[i + l + d])
    ensures UpperRun(s, i) == l && DigitRun(s, i + l) == d
  {
    assert !IsUpper(s[i + l]) by { assert s[i + l] == s[i + l..i + l + d][0]; }
    UpperRunExact(s, i, l);
    DigitRunExact(s, i + l, d);
  }

  /** Runs of the lengths `l1`, `d1`, `l2`, `d2` around a colon after the `!`
      at `p` make a match whose row digits are the first digit run. */
  lemma RunsMatch(s: string, p: nat, l1: nat, d1: nat, l2: nat, d2: nat)
    requires 1 <= p < |s| && s[p] == '!' && l1 >= 1 && d1 >= 1 && l2 >= 1 && d2 >= 1
    requires p + 1 + l1 + d1 < |s| && s[p + 1 + l1 + d1] == ':'
    requires p + 2 + l1 + d1 + l2 <= |s|
    requires UpperRun(s, p + 1) == l1 && DigitRun(s, p + 1 + l1) == d1
    requires UpperRun(s, p + 2 + l1 + d1) == l2 && DigitRun(s, p + 2 + l1 + d1 + l2) == d2
    ensures BangMatchesAt(s, p) && RowDigits(s, p) == s[p + 1 + l1..p + 1 + l1 + d1]
  {
  }

  lemma LaidOutMatches(s: string, p: nat, l1: nat, d1: nat, l2: nat, d2: nat)
    requires LaidOut(s, p, l1, d1, l2, d2)
    ensures BangMatchesAt(s, p) && RowDigits(s, p) == s[p + 1 + l1..p + 1 + l1 + d1]
  {
    var q := p + 1 + l1 + d1;
    var e := q + 1 + l2;
    RunsAt(s, p + 1, l1, d1);
    assert s[e..e + d2] == s[e..];
    RunsAt(s, q + 1, l2, d2);
    RunsMatch(s, p, l1, d1, l2, d2);
  }

  lemma LaidOutNoLaterBang(s: string, p: nat, l1: nat, d1: nat, l2: nat, d2: nat)
    requires LaidOut(s, p, l1, d1, l2, d2)
    ensures forall k :: p < k < |s| ==> s[k] != '!'
  {
    var b := p + 1 + l1;
    var q := b + d1;
    var e := q + 1 + l2;
    forall k | p < k < |s|
      ensures s[k] != '!'
    {
      if k < b { assert IsUpper(s[p + 1..b][k - p - 1]); }
      else if k < q { assert IsDigit(s[b..q][k - b]); }
      else if k == q { }
      else if k < e { assert IsUpper(s[q + 1..e][k - q - 1]); }
      else { assert IsDigit(s[e..][k - e]); }
    }
  }

  /** A string laid out as `.!<letters><digits>:<letters><digits>` with no `!`
      after position `p` parses to the value of its first digits. */
  lemma ParseLaidOut(s: string, p: nat, l1: nat, d1: nat, l2: nat, d2: nat)
    requires LaidOut(s, p, l1, d1, l2, d2)
    ensures ParseRowFromRange(s).Ok? <==> DecimalValue(s[p + 1 + l1..p + 1 + l1 + d1]) <= I32Max
    ensures ParseRowFromRange(s).Ok? ==> ParseRowFromRange(s).value == DecimalValue(s[p + 1 + l1..p + 1 + l1 + d1])
  {
    LaidOutMatches(s, p, l1, d1, l2, d2);
    LaidOutNoLaterBang(s, p, l1, d1, l2, d2);
    LastMatchIsLastBang(s, p);
  }

  /** An A1 range with column letters is laid out as the pattern expects. */
  lemma A1RangeLaidOut(title: string, startColumn: string, row: nat, endColumn: string, endRow: nat)
    requires |title| >= 1
    requires |startColumn| >= 1 && AllUpper(startColumn)
    requires |endColumn| >= 1 && AllUpper(endColumn)
    ensures LaidOut(A1Range(title, startColumn, row, endColumn, endRow), |title|, |startColumn|,
                    |NatToDecimal(row)|, |endColumn|, |NatToDecimal(endRow)|)
    ensures var b := |title| + 1 + |startColumn|;
            A1Range(title, startColumn, row, endColumn, endRow)[b..b + |NatToDecimal(row)|] == NatToDecimal(row)
  {
    var s := A1Range(title, startColumn, row, endColumn, endRow);
    A1RangeLayout(title, startColumn, row, endColumn, endRow);
    var b := |title| + 1 + |startColumn|;
    var d1 := NatToDecimal(row);
    assert s[b + |d1| + 1..b + |d1| + 1 + |endColumn|] == endColumn;
  }

  /** The row digits of an A1 range read back as its start row. */
  lemma A1RangeRowDigits(title: string, startColumn: string, row: nat, endColumn: string, endRow: nat)
    requires |title| >= 1
    requires |startColumn| >= 1 && AllUpper(startColumn)
    requires |endColumn| >= 1 && AllUpper(endColumn)
    ensures var s := A1Range(title, startColumn, row, endColumn, endRow);
            var b := |title| + 1 + |startColumn|;
            && LaidOut(s, |title|, |startColumn|, |NatToDecimal(row)|, |endColumn|, |NatToDecimal(endRow)|)
            && DecimalValue(s[b..b + |NatToDecimal(row)|]) == row
  {
    A1RangeLaidOut(title, startColumn, row, endColumn, endRow);
    DecimalRoundTrip(row);
  }

  /** Parsing the range an append reports gives back its start row, whatever
      the sheet title is (it may itself contain `!`), and panics when the row
      does not fit in an `i32`. */
  lemma ParseA1Range(title: string, startColumn: string, row: nat, endColumn: string, endRow: nat)
    requires |title| >= 1
    requires |startColumn| >= 1 && AllUpper(startColumn)
    requires |endColumn| >= 1 && AllUpper(endColumn)
    ensures var r := ParseRowFromRange(A1Range(title, startColumn, row, endColumn, endRow));
            (r.Ok? <==> row <= I32Max) && (r.Ok? ==> r.value == row)
  {
    var s := A1Range(title, startColumn, row, endColumn, endRow);
    A1RangeRowDigits(title, startColumn, row, endColumn, endRow);
    ParseLaidOut(s, |title|, |startColumn|, |NatToDecimal(row)|, |endColumn|, |NatToDecimal(endRow)|);
  }

  /** The repository's own example: row 12 of a sheet whose title is quoted. */
  lemma ParseRowExample()
    ensures ParseRowFromRange("'Ristikko - Reitit'!B12:F12") == Ok(12)
  {
    assert NatToDecimal(12) == "12";
    assert A1Range("'Ristikko - Reitit'", "B", 12, "F", 12) == "'Ristikko - Reitit'!B12:F12";
    ParseA1Range("'Ristikko - Reitit'", "B", 12, "F", 12);
  }

  /** `get_updated_row_from_update_values_response`: the zero-based landed
      row, one less than the row the updated range starts at; a panic when
      the response has no updated range or the range does not parse. */
  function GetUpdatedRow(response: AppendValuesResponse): (r: Result<int>)
    ensures r.Ok? <==> response.updates.Some? && response.updates.value.updatedRange.Some?
                       && ParseRowFromRange(response.updates.value.updatedRange.value).Ok?
    ensures r.Ok? ==> ParseRowFromRange(response.updates.value.updatedRange.value) == Ok(r.value + 1)
    ensures r.Ok? ==> -1 <= r.value < I32Max
  {
    match response.updates
    case None => Err(Panic("expected row in update values response"))
    case Some(u) =>
      match u.updatedRange
      case None => Err(Panic("expected row in update values response"))
      case Some(range) =>
        match ParseRowFromRange(range)
        case Err(e) => Err(e)
        case Ok(row) => Ok(row - 1)
  }

  // ---------------------------------------------------------------------
  // Colours
  // ---------------------------------------------------------------------

  /** The integer channels of a colour; the API receives each divided by 255. */
  datatype Color = Color(red: byte, green: byte, blue: byte)

  function HexDigitValue(c: char): Option<nat> {
    if '0' <= c <= '9' then Some(c as int - '0' as int)
    else if 'a' <= c <= 'f' then Some(c as int - 'a' as int + 10)
    else if 'A' <= c <= 'F' then Some(c as int - 'A' as int + 10)
    else None
  }

  /** `u8::from_str_radix(s, 16)` on a two-character string: two hex digits,
      or (as Rust also accepts) a `+` sign followed by one. */
  function ParseHexByte(s: string): (r: Option<byte>)
    requires |s| == 2
  {
    if s[0] == '+' then
      (match HexDigitValue(s[1]) case None => None case Some(d) => Some(d))
    else match (HexDigitValue(s[0]), HexDigitValue(s[1]))
      case (Some(h), Some(l)) => Some(16 * h + l)
      case _ => None
  }

  /** `color_from_hex`: bytes 1-2, 3-4 and 5-6 as red, green and blue;
      anything after the seventh byte is ignored. The slices are taken by
      byte offset, so a first character outside ASCII (more than one byte in
      UTF-8) puts byte 1 inside it, and the slice panics. With an ASCII first
      character, the hex pairs that parse are ASCII too, and byte offsets are
      character offsets. A panic also when the string is too short or a pair
      is not hex. */
  function ColorFromHex(hex: string): (r: Result<Color>)
    ensures r.Ok? <==> |hex| >= 7 && hex[0] as int < 128 && ParseHexByte(hex[1..3]).Some?
                       && ParseHexByte(hex[3..5]).Some? && ParseHexByte(hex[5..7]).Some?
    ensures r.Ok? ==> r.value == Color(ParseHexByte(hex[1..3]).value,
                                       ParseHexByte(hex[3..5]).value,
                                       ParseHexByte(hex[5..7]).value)
    ensures r.Err? ==> r.error.Panic?
  {
    if |hex| < 3 then Err(Panic("byte index out of range"))
    else if hex[0] as int >= 128 then Err(Panic("byte index 1 is not a char boundary"))
    else match ParseHexByte(hex[1..3])
      case None => Err(Panic("invalid red channel"))
      case Some(red) =>
        if |hex| < 5 then Err(Panic("byte index out of range"))
        else match ParseHexByte(hex[3..5])
          case None => Err(Panic("invalid green channel"))
          case Some(green) =>
            if |hex| < 7 then Err(Panic("byte index out of range"))
            else match ParseHexByte(hex[5..7])
              case None => Err(Panic("invalid blue channel"))
              case Some(blue) => Ok(Color(red, green, blue))
  }

  function HexDigit(d: nat): char
    requires d < 16
  {
    "0123456789abcdef"[d]
  }

  /** The two lower-case hex digits of a byte. */
  function HexByte(b: byte): string {
    [HexDigit(b / 16), HexDigit(b % 16)]
  }

  lemma HexDigitRoundTrip(d: nat)
    requires d < 16
    ensures HexDigitValue(HexDigit(d)) == Some(d)
  {
    if d < 10 {
      assert HexDigit(d) == "0123456789"[d];
    } else {
      assert HexDigit(d) == "abcdef"[d - 10];
    }
  }

  /** Reading back the two hex digits of a byte gives the byte. */
  lemma HexByteRoundTrip(b: byte)
    ensures ParseHexByte(HexByte(b)) == Some(b)
  {
    var h, l := b / 16, b % 16;
    HexDigitRoundTrip(h);
    HexDigitRoundTrip(l);
    assert HexByte(b)[0] != '+';
    assert 16 * h + l == b;
  }

  /** Decoding `#rrggbb` gives back the channels it was written from. */
  lemma ColorFromHexRoundTrip(red: byte, green: byte, blue: byte)
    ensures ColorFromHex("#" + HexByte(red) + HexByte(green) + HexByte(blue)) == Ok(Color(red, green, blue))
  {
    var hex := "#" + HexByte(red) + HexByte(green) + HexByte(blue);
    assert hex[1..3] == HexByte(red);
    assert hex[3..5] == HexByte(green);
    assert hex[5..7] == HexByte(blue);
    HexByteRoundTrip(red);
    HexByteRoundTrip(green);
    HexByteRoundTrip(blue);
  }

  /** A first character that takes two bytes in UTF-8 puts the red slice's
      start inside it: the program panics although six hex digits follow. */
  lemma ColorFromHexByteBoundary()
    ensures ColorFromHex("\U{e9}123456").Err?
    ensures ColorFromHex("#123456") == Ok(Color(0x12, 0x34, 0x56))
  {
  }

  // ---------------------------------------------------------------------
  // Grid ranges and batch-update requests
  // ---------------------------------------------------------------------

  /** A rectangle of a sheet: start indices inclusive, end indices exclusive,
      an absent bound unbounded (zero-based, as the Sheets API defines it). */
  datatype GridRange = GridRange(
    sheetId: Option<int>,
    startRowIndex: Option<int>,
    endRowIndex: Option<int>,
    startColumnIndex: Option<int>,
    endColumnIndex: Option<int>)

  predicate WithinBounds(start: Option<int>, end: Option<int>, k: int) {
    (start.None? || start.value <= k) && (end.None? || k < end.value)
  }

  /** The cell at zero-based `row`, `column` lies in the range. */
  predicate Covers(g: GridRange, row: nat, column: nat) {
    WithinBounds(g.startRowIndex, g.endRowIndex, row)
    && WithinBounds(g.startColumnIndex, g.endColumnIndex, column)
  }

  datatype CellFormat = CellFormat(backgroundColor: Option<Color>)

  datatype SortSpec = SortSpec(dimensionIndex: Option<int>, sortOrder: Option<string>)

  /** The single request each batch update carries. `fields` is the mask of
      the format fields to overwrite. */
  datatype Request =
    | RepeatCell(range: GridRange, format: CellFormat, fields: string)
    | SortRange(range: GridRange, sortSpecs: seq<SortSpec>)

  /** `set_cell_background_color`'s request: one cell, every format field
      replaced by one carrying the colour. A panic when the colour does not
      decode, and (as a debug build checks) when `row + 1` or `column + 1`
      overflows `i32`. */
  function SetCellBackgroundColorRequest(sheetIdNum: int, hexColor: string, row: int, column: int): (r: Result<Request>)
    ensures r.Ok? <==> ColorFromHex(hexColor).Ok? && row < I32Max && column < I32Max
    ensures r.Ok? ==> r.value.RepeatCell? && r.value.range.sheetId == Some(sheetIdNum)
                      && r.value.format == CellFormat(Some(ColorFromHex(hexColor).value))
                      && r.value.fields == "*"
    ensures r.Ok? ==> forall rr: nat, cc: nat {:trigger Covers(r.value.range, rr, cc)} ::
                        Covers(r.value.range, rr, cc) <==> rr == row && cc == column
    ensures r.Err? ==> r.error.Panic?
  {
    match ColorFromHex(hexColor)
    case Err(e) => Err(e)
    case Ok(color) =>
      if row >= I32Max || column >= I32Max then Err(Panic("attempt to add with overflow"))
      else Ok(RepeatCell(GridRange(Some(sheetIdNum), Some(row), Some(row + 1), Some(column), Some(column + 1)),
                         CellFormat(Some(color)), "*"))
  }

  /** `reset_row_format`'s request: the whole of one row, from the first
      column on, back to the default format. A panic (in a debug build) when
      `row + 1` overflows `i32`. */
  function ResetRowFormatRequest(sheetIdNum: int, row: int): (r: Result<Request>)
    ensures r.Ok? <==> row < I32Max
    ensures r.Ok? ==> r.value.RepeatCell? && r.value.range.sheetId == Some(sheetIdNum)
    ensures r.Ok? ==> r.value.format == CellFormat(None) && r.value.fields == "*"
    ensures r.Ok? ==> forall rr: nat, cc: nat {:trigger Covers(r.value.range, rr, cc)} ::
                        Covers(r.value.range, rr, cc) <==> rr == row
  {
    if row >= I32Max then Err(Panic("attempt to add with overflow"))
    else Ok(RepeatCell(GridRange(Some(sheetIdNum), Some(row), Some(row + 1), Some(0), None), CellFormat(None), "*"))
  }

  /** `sort_sheet_by_column`'s request: every row but the header, every
      column, ordered descending on `columnIdx`. */
  function SortSheetByColumnRequest(sheetIdNum: int, columnIdx: int): (r: Request)
    ensures r.SortRange? && r.range.sheetId == Some(sheetIdNum)
    ensures r.sortSpecs == [SortSpec(Some(columnIdx), Some("DESCENDING"))]
    ensures forall rr: nat, cc: nat {:trigger Covers(r.range, rr, cc)} :: Covers(r.range, rr, cc) <==> rr >= 1
  {
    SortRange(GridRange(Some(sheetIdNum), Some(1), None, Some(0), None),
              [SortSpec(Some(columnIdx), Some("DESCENDING"))])
  }
}

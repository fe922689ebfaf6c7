/** The StintStrategy column: `parse_stint`, which turns the text a CSV file
    holds for a list of tyre compounds back into that list, and the
    StintCount derived from it. `ast.literal_eval` is modelled for the one
    literal form this column holds: a list of quoted strings. */
module Stints {
  import opened Cells

  /** A StintStrategy cell: as read from the CSV file, or already a list of
      compound labels (as in a table that has been cleaned once). */
  datatype StintValue = Raw(cell: Cell) | Labels(items: seq<string>)

  /** Space the Python tokenizer skips between the tokens of a bracketed literal. */
  predicate IsSpace(c: char) { c == ' ' || c == '\t' || c == '\n' || c == '\r' }

  function SkipSpaces(s: string): (r: string)
    ensures |r| <= |s| && r == s[|s| - |r|..]
    ensures |r| > 0 ==> !IsSpace(r[0])
    ensures forall i :: 0 <= i < |s| - |r| ==> IsSpace(s[i])
  {
    if |s| > 0 && IsSpace(s[0]) then SkipSpaces(s[1..]) else s
  }

  /** A label read from a literal: no escape sequence and no line break. */
  predicate Unescaped(x: string)
  {
    forall i :: 0 <= i < |x| ==> x[i] != '\\' && x[i] != '\n' && x[i] != '\r'
  }

  /** The text of a string literal closed by quote q, up to its closing quote,
      and the text after that quote. Escapes and line breaks are refused. */
  function LiteralBody(s: string, q: char): (r: Option<(string, string)>)
    ensures r.Some? ==> |r.value.1| < |s|
    ensures r.Some? ==> s == r.value.0 + [q] + r.value.1
    ensures r.Some? ==> Unescaped(r.value.0) && q !in r.value.0
  {
    if |s| == 0 || s[0] == '\\' || s[0] == '\n' || s[0] == '\r' then None
    else if s[0] == q then Some(([], s[1..]))
    else
      match LiteralBody(s[1..], q)
      case None => None
      case Some((body, rest)) => Some(([s[0]] + body, rest))
  }

  /** A single- or double-quoted string literal at the start of s. */
  function ParseLabel(s: string): (r: Option<(string, string)>)
    ensures r.Some? ==> |r.value.1| < |s|
    ensures r.Some? ==> (s[0] == '\'' || s[0] == '"') && s == [s[0]] + r.value.0 + [s[0]] + r.value.1
    ensures r.Some? ==> Unescaped(r.value.0)
  {
    if |s| > 0 && (s[0] == '\'' || s[0] == '"') then LiteralBody(s[1..], s[0]) else None
  }

  /** The elements of a list literal whose opening bracket has been read:
      labels separated by commas, an optional trailing comma, the closing
      bracket, and nothing but space after it. */
  function ParseElements(s: string): (r: Option<seq<string>>)
    ensures r.Some? ==> forall k :: 0 <= k < |r.value| ==> Unescaped(r.value[k])
    decreases |s|, 1
  {
    var t := SkipSpaces(s);
    if |t| == 0 then None
    else if t[0] == ']' then
      if SkipSpaces(t[1..]) == [] then Some([]) else None
    else
      match ParseLabel(t)
      case None => None
      case Some((first, rest)) => ParseAfterLabel(first, SkipSpaces(rest))
  }

  /** What may follow a label: the closing bracket, or a comma and more elements. */
  function ParseAfterLabel(first: string, u: string): (r: Option<seq<string>>)
    requires Unescaped(first)
    ensures r.Some? ==> |r.value| > 0 && r.value[0] == first
    ensures r.Some? ==> forall k :: 0 <= k < |r.value| ==> Unescaped(r.value[k])
    decreases |u|, 0
  {
    if |u| == 0 then None
    else if u[0] == ']' then
      if SkipSpaces(u[1..]) == [] then Some([first]) else None
    else if u[0] == ',' then
      match ParseElements(u[1..])
      case None => None
      case Some(more) => Some([first] + more)
    else None
  }

  /** `ast.literal_eval` restricted to a list of string literals; None stands
      for the exception it raises on anything else. */
  function ParseListLiteral(s: string): (r: Option<seq<string>>)
    ensures r.Some? ==> |s| > 0 && s[0] == '['
    ensures r.Some? ==> forall k :: 0 <= k < |r.value| ==> Unescaped(r.value[k])
  {
    if |s| > 0 && s[0] == '[' then ParseElements(s[1..]) else None
  }

  predicate StartsWithBracket(v: StintValue)
  {
    v.Raw? && v.cell.Text? && |v.cell.text| > 0 && v.cell.text[0] == '['
  }

  /** `parse_stint`: a list passes through, text that starts with '[' is
      evaluated as a literal (an empty list if that fails), and every other
      value gives the empty list. */
  function ParseStint(v: StintValue): (r: seq<string>)
    ensures v.Labels? ==> r == v.items
    ensures v.Raw? && !StartsWithBracket(v) ==> r == []
    ensures StartsWithBracket(v) && ParseListLiteral(v.cell.text).None? ==> r == []
    ensures StartsWithBracket(v) && ParseListLiteral(v.cell.text).Some? ==> r == ParseListLiteral(v.cell.text).value
  {
    match v
    case Labels(xs) => xs
    case Raw(Text(s)) =>
      if |s| > 0 && s[0] == '[' then
        match ParseListLiteral(s)
        case Some(xs) => xs
        case None => []
      else []
    case Raw(_) => []
  }

  /** The StintCount lambda: the length of a list, 0 for anything else. */
  function StintCount(v: StintValue): (n: nat)
    ensures v.Labels? ==> n == |v.items|
    ensures v.Raw? ==> n == 0
  {
    match v
    case Labels(xs) => |xs|
    case Raw(_) => 0
  }

  /** After parsing, StintCount is the number of stints parsed. */
  lemma StintCountOfParsed(v: StintValue)
    ensures StintCount(Labels(ParseStint(v))) == |ParseStint(v)|
    ensures v.Labels? ==> StintCount(Labels(ParseStint(v))) == StintCount(v)
  {
  }

  /** Parsing is idempotent: a parsed list parses to itself. */
  lemma ParseStintIdempotent(v: StintValue)
    ensures ParseStint(Labels(ParseStint(v))) == ParseStint(v)
  {
  }

  // Writing a list of labels as `str(list)` does, which is what `to_csv`
  // stores for a list cell.

  /** A label that `repr` writes between single quotes without escapes. */
  predicate PlainLabel(x: string)
  {
    forall i :: 0 <= i < |x| ==> ' ' <= x[i] <= '~' && x[i] != '\'' && x[i] != '\\'
  }

  function Quoted(x: string): string { "'" + x + "'" }

  function ShowElements(xs: seq<string>): string
  {
    if |xs| == 0 then "]"
    else if |xs| == 1 then Quoted(xs[0]) + "]"
    else Quoted(xs[0]) + ", " + ShowElements(xs[1..])
  }

  /** `str(xs)` for a list of plain labels, e.g. "['SOFT', 'MEDIUM']". */
  function ShowLabels(xs: seq<string>): string
  {
    "[" + ShowElements(xs)
  }

  lemma {:induction false} LiteralBodyOf(x: string, q: char, rest: string)
    requires q == '\'' || q == '"'
    requires forall i :: 0 <= i < |x| ==> x[i] != q && x[i] != '\\' && x[i] != '\n' && x[i] != '\r'
    ensures LiteralBody(x + [q] + rest, q) == Some((x, rest))
  {
    if |x| > 0 {
      LiteralBodyOf(x[1..], q, rest);
      assert (x + [q] + rest)[1..] == x[1..] + [q] + rest;
      assert [x[0]] + x[1..] == x;
    } else {
      assert x + [q] + rest == [q] + rest;
      assert ([q] + rest)[1..] == rest;
    }
  }

  lemma QuotedLabel(x: string, rest: string)
    requires PlainLabel(x)
    ensures ParseLabel(Quoted(x) + rest) == Some((x, rest))
  {
    LiteralBodyOf(x, '\'', rest);
    assert (Quoted(x) + rest)[1..] == x + ['\''] + rest;
  }

  lemma ClosingBracket(s: string)
    requires |s| == 1 && s[0] == ']'
    ensures ParseElements(s) == Some([])
  {
    assert SkipSpaces(s) == s;
    assert SkipSpaces(s[1..]) == [];
  }

  lemma LastElement(x: string)
    requires PlainLabel(x)
    ensures ParseElements(Quoted(x) + "]") == Some([x])
  {
    var s := Quoted(x) + "]";
    QuotedLabel(x, "]");
    assert SkipSpaces(s) == s;
    assert "]"[1..] == [];
  }

  lemma SpaceThenElements(tail: string)
    requires |tail| > 0 && !IsSpace(tail[0])
    ensures ParseElements(" " + tail) == ParseElements(tail)
  {
    assert (" " + tail)[1..] == tail;
    assert SkipSpaces(" " + tail) == tail == SkipSpaces(tail);
  }

  lemma LabelThenRest(x: string, rest: string)
    requires PlainLabel(x)
    requires |rest| > 0 && !IsSpace(rest[0])
    ensures ParseElements(Quoted(x) + rest) == ParseAfterLabel(x, rest)
  {
    var s := Quoted(x) + rest;
    QuotedLabel(x, rest);
    assert s[0] == '\'';
    assert SkipSpaces(s) == s;
  }

  lemma CommaThenElements(x: string, tail: string)
    requires Unescaped(x)
    requires |tail| > 0 && !IsSpace(tail[0])
    ensures ParseAfterLabel(x, ", " + tail) ==
      match ParseElements(tail)
      case None => None
      case Some(more) => Some([x] + more)
  {
    assert (", " + tail)[1..] == " " + tail;
    SpaceThenElements(tail);
  }

  lemma NextElement(x: string, tail: string)
    requires PlainLabel(x)
    requires |tail| > 0 && !IsSpace(tail[0])
    ensures ParseElements(Quoted(x) + (", " + tail)) ==
      match ParseElements(tail)
      case None => None
      case Some(more) => Some([x] + more)
  {
    LabelThenRest(x, ", " + tail);
    CommaThenElements(x, tail);
  }

  lemma ShowElementsStart(xs: seq<string>)
    ensures |ShowElements(xs)| > 0 && !IsSpace(ShowElements(xs)[0])
  {
  }

  lemma NoElementsRoundTrip(xs: seq<string>)
    requires |xs| == 0
    ensures ParseElements(ShowElements(xs)) == Some(xs)
  {
    ClosingBracket(ShowElements(xs));
  }

  lemma OneElementRoundTrip(xs: seq<string>)
    requires |xs| == 1 && PlainLabel(xs[0])
    ensures ParseElements(ShowElements(xs)) == Some(xs)
  {
    LastElement(xs[0]);
    assert ShowElements(xs) == Quoted(xs[0]) + "]";
    assert xs == [xs[0]];
  }

  lemma MoreElementsRoundTrip(xs: seq<string>)
    requires |xs| > 1 && PlainLabel(xs[0])
    requires ParseElements(ShowElements(xs[1..])) == Some(xs[1..])
    ensures ParseElements(ShowElements(xs)) == Some(xs)
  {
    var tail := ShowElements(xs[1..]);
    ShowElementsStart(xs[1..]);
    NextElement(xs[0], tail);
    assert ShowElements(xs) == Quoted(xs[0]) + (", " + tail);
    assert [xs[0]] + xs[1..] == xs;
  }

  lemma {:induction false} ElementsRoundTrip(xs: seq<string>)
    requires forall k :: 0 <= k < |xs| ==> PlainLabel(xs[k])
    ensures ParseElements(ShowElements(xs)) == Some(xs)
  {
    if |xs| == 0 {
      NoElementsRoundTrip(xs);
    } else if |xs| == 1 {
      OneElementRoundTrip(xs);
    } else {
      ElementsRoundTrip(xs[1..]);
      MoreElementsRoundTrip(xs);
    }
  }

  /** Writing a list of labels to text and parsing it back gives the list:
      a cleaned table written by `to_csv` and cleaned again keeps its stints. */
  lemma StintTextRoundTrip(xs: seq<string>)
    requires forall k :: 0 <= k < |xs| ==> PlainLabel(xs[k])
    ensures ParseListLiteral(ShowLabels(xs)) == Some(xs)
    ensures ParseStint(Raw(Text(ShowLabels(xs)))) == xs
  {
    ElementsRoundTrip(xs);
    ShowElementsStart(xs);
    assert ShowLabels(xs)[1..] == ShowElements(xs);
  }
}

/** `render` of the e-mail templates: `{{key}}` placeholders filled from
    keyword arguments, with the special `used_parts` argument expanded into
    one table cell per part. The template text is a parameter. */
module Templates {
  import opened Common
  import opened Strings

  /** A keyword argument's value: text, a list of strings, or `None`. */
  datatype Arg = Text(text: string) | List(items: seq<string>) | Null

  const UsedPartsKey: string := "used_parts"
  const PartOnePlaceholder: string := "{{part_1}}"
  const NoParts: string := "—"

  function Placeholder(key: string): (p: string)
    ensures |p| == |key| + 4
  {
    "{{" + key + "}}"
  }

  /** `str(value)`; a list prints as its repr. */
  function Show(a: Arg): string
  {
    match a
    case Text(t) => t
    case Null => "None"
    case List(items) => "[" + Quoted(items) + "]"
  }

  function Quoted(items: seq<string>): string
  {
    if items == [] then ""
    else if |items| == 1 then "'" + items[0] + "'"
    else "'" + items[0] + "', " + Quoted(items[1..])
  }

  /** `kwargs.pop("used_parts") or []`, then iterated: a falsy value gives no
      parts, and text is iterated character by character. */
  function PartsOf(a: Arg): (parts: seq<string>)
    ensures a.Null? ==> parts == []
    ensures a.List? ==> parts == a.items
    ensures a.Text? ==> |parts| == |a.text| && forall i :: 0 <= i < |parts| ==> parts[i] == [a.text[i]]
  {
    match a
    case Null => []
    case List(items) => items
    case Text(t) => seq(|t|, i requires 0 <= i < |t| => [t[i]])
  }

  /** The sample cell of the template, with the comment after it, that a
      non-empty parts list replaces. */
  const SampleBlock: string :=
    "<td style=\"padding-right:8px;padding-bottom:6px;\">\n"
    + "                          <table cellpadding=\"0\" cellspacing=\"0\" border=\"0\">\n"
    + "                            <tr>\n"
    + "                              <td style=\"background-color:#1a1200;border:1px solid #332200;padding:4px 10px;\">\n"
    + "                                <span style=\"font-family:\'Courier New\',Courier,monospace;font-size:11px;color:#F5A623;\">{{part_1}}</span>\n"
    + "                              </td>\n"
    + "                            </tr>\n"
    + "                          </table>\n"
    + "                        </td>\n"
    + "                        <!-- Repeat above <td> block for each part via template engine -->"

  const CellOpen: string :=
    "<td style=\"padding-right:8px;padding-bottom:6px;\">"
    + "<table cellpadding=\"0\" cellspacing=\"0\" border=\"0\"><tr>"
    + "<td style=\"background-color:#1a1200;border:1px solid #332200;padding:4px 10px;\">"
    + "<span style=\"font-family:\'Courier New\',Courier,monospace;font-size:11px;color:#F5A623;\">"

  const CellClose: string := "</span></td></tr></table></td>"

  /** The one-line cell for one part. */
  function Cell(part: string): (c: string)
    ensures |c| == |CellOpen| + |part| + |CellClose|
    ensures c[|CellOpen|..|CellOpen| + |part|] == part
  {
    CellOpen + part + CellClose
  }

  /** Strings written one after another. */
  function Concat(pieces: seq<string>): string
  {
    if pieces == [] then "" else pieces[0] + Concat(pieces[1..])
  }

  /** Where piece `i` starts in `Concat(pieces)`. */
  function Start(pieces: seq<string>, i: nat): nat
    requires i <= |pieces|
  {
    if i == 0 then 0 else Start(pieces, i - 1) + |pieces[i - 1]|
  }

  /** Starts in the tail are starts in the whole list less the first piece. */
  lemma {:induction false} StartShift(pieces: seq<string>, i: nat)
    requires 0 < i <= |pieces|
    ensures Start(pieces, i) == |pieces[0]| + Start(pieces[1..], i - 1)
  {
    if i > 1 {
      StartShift(pieces, i - 1);
    }
  }

  /** Piece `i` sits at `Start(pieces, i)`: the pieces appear in order, each
      once. */
  lemma {:induction false} PiecesInOrder(pieces: seq<string>, i: nat)
    requires i < |pieces|
    ensures Start(pieces, i) + |pieces[i]| <= |Concat(pieces)|
    ensures Concat(pieces)[Start(pieces, i)..Start(pieces, i) + |pieces[i]|] == pieces[i]
  {
    var head, tail := pieces[0], Concat(pieces[1..]);
    assert Concat(pieces) == head + tail;
    if i > 0 {
      PiecesInOrder(pieces[1..], i - 1);
      StartShift(pieces, i);
      var o, n := Start(pieces[1..], i - 1), |pieces[i]|;
      assert pieces[1..][i - 1] == pieces[i];
      assert (head + tail)[|head| + o..|head| + o + n] == tail[o..o + n];
    }
  }

  /** One cell per part. */
  function CellList(parts: seq<string>): (cells: seq<string>)
    ensures |cells| == |parts|
    ensures forall i :: 0 <= i < |parts| ==> cells[i] == Cell(parts[i])
  {
    seq(|parts|, i requires 0 <= i < |parts| => Cell(parts[i]))
  }

  /** The cells of all parts, concatenated. */
  function Cells(parts: seq<string>): string
  {
    Concat(CellList(parts))
  }

  /** The cell of part `i` sits at the start of piece `i`, so the cells appear
      in the order of the parts, each once. */
  lemma CellsInOrder(parts: seq<string>, i: nat)
    requires i < |parts|
    ensures var at := Start(CellList(parts), i);
            at + |Cell(parts[i])| <= |Cells(parts)| && Cells(parts)[at..at + |Cell(parts[i])|] == Cell(parts[i])
  {
    PiecesInOrder(CellList(parts), i);
  }

  /** The `used_parts` step: a non-empty list of parts replaces the sample
      block with its cells; no parts replace the sample's placeholder with a
      dash. */
  function ExpandParts(html: string, a: Arg): (r: string)
    ensures PartsOf(a) != [] ==> r == Join(SplitOn(html, SampleBlock), Cells(PartsOf(a)))
    ensures PartsOf(a) == [] ==> r == Join(SplitOn(html, PartOnePlaceholder), NoParts)
    ensures Free(html, SampleBlock) && Free(html, PartOnePlaceholder) ==> r == html
  {
    var parts := PartsOf(a);
    if parts != [] then
      ReplaceIsSplitJoin(html, SampleBlock, Cells(parts));
      if Free(html, SampleBlock) then ReplaceAbsent(html, SampleBlock, Cells(parts)); ReplaceAll(html, SampleBlock, Cells(parts))
      else ReplaceAll(html, SampleBlock, Cells(parts))
    else
      ReplaceIsSplitJoin(html, PartOnePlaceholder, NoParts);
      if Free(html, PartOnePlaceholder) then ReplaceAbsent(html, PartOnePlaceholder, NoParts); ReplaceAll(html, PartOnePlaceholder, NoParts)
      else ReplaceAll(html, PartOnePlaceholder, NoParts)
  }

  /** The remaining arguments in order: each replaces every occurrence of its
      placeholder in the text produced so far. */
  function Substitute(html: string, kwargs: seq<(string, Arg)>): (r: string)
    ensures (forall i :: 0 <= i < |kwargs| ==> Free(html, Placeholder(kwargs[i].0))) ==> r == html
    ensures |kwargs| == 1 ==> r == Join(SplitOn(html, Placeholder(kwargs[0].0)), Show(kwargs[0].1))
    decreases |kwargs|
  {
    if kwargs == [] then html
    else
      var (key, value) := kwargs[0];
      var next := ReplaceAll(html, Placeholder(key), Show(value));
      ReplaceIsSplitJoin(html, Placeholder(key), Show(value));
      if Free(html, Placeholder(key)) then
        ReplaceAbsent(html, Placeholder(key), Show(value));
        Substitute(next, kwargs[1..])
      else Substitute(next, kwargs[1..])
  }

  predicate DistinctKeys(kwargs: seq<(string, Arg)>)
  {
    forall i, j :: 0 <= i < j < |kwargs| ==> kwargs[i].0 != kwargs[j].0
  }

  /** The position of `used_parts` among the arguments, if it is one. */
  function FindUsedParts(kwargs: seq<(string, Arg)>): (r: Option<nat>)
    ensures r.Some? ==> r.value < |kwargs| && kwargs[r.value].0 == UsedPartsKey
    ensures r.None? ==> forall i :: 0 <= i < |kwargs| ==> kwargs[i].0 != UsedPartsKey
  {
    if kwargs == [] then None
    else if kwargs[0].0 == UsedPartsKey then Some(0)
    else match FindUsedParts(kwargs[1..])
      case None => None
      case Some(i) => Some(i + 1)
  }

  /** `render` on the template's text. `used_parts` is taken out of the
      arguments and expanded first; it is never substituted as a plain key,
      so its own placeholder is left as it is. */
  function Render(html: string, kwargs: seq<(string, Arg)>): (r: string)
    requires DistinctKeys(kwargs)
    ensures ((forall i :: 0 <= i < |kwargs| && kwargs[i].0 != UsedPartsKey ==> Free(html, Placeholder(kwargs[i].0)))
             && Free(html, SampleBlock) && Free(html, PartOnePlaceholder)) ==> r == html
  {
    match FindUsedParts(kwargs)
    case None => Substitute(html, kwargs)
    case Some(i) =>
      var rest := kwargs[..i] + kwargs[i + 1..];
      assert forall j :: 0 <= j < |rest| ==> rest[j].0 != UsedPartsKey && rest[j] in kwargs by {
        forall j | 0 <= j < |rest|
          ensures rest[j].0 != UsedPartsKey && rest[j] in kwargs
        {
          if j < i {
            assert rest[j] == kwargs[j];
          } else {
            assert rest[j] == kwargs[j + 1];
          }
        }
      }
      Substitute(ExpandParts(html, kwargs[i].1), rest)
  }

  /** Rendering one plain argument replaces every occurrence of its
      placeholder and nothing else: the text between occurrences is kept. */
  lemma RenderOneKey(html: string, key: string, value: Arg)
    requires key != UsedPartsKey
    ensures Render(html, [(key, value)]) == Join(SplitOn(html, Placeholder(key)), Show(value))
  {
  }

  /** With `used_parts` as the only argument, an empty or absent list puts a
      dash in place of the sample's placeholder, and a non-empty one puts its
      cells, in order, in place of the sample block. */
  lemma RenderParts(html: string, a: Arg)
    ensures PartsOf(a) == [] ==> Render(html, [(UsedPartsKey, a)]) == Join(SplitOn(html, PartOnePlaceholder), NoParts)
    ensures PartsOf(a) != [] ==> Render(html, [(UsedPartsKey, a)]) == Join(SplitOn(html, SampleBlock), Cells(PartsOf(a)))
  {
    assert [(UsedPartsKey, a)][..0] + [(UsedPartsKey, a)][1..] == [];
  }
}

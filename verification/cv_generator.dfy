/** The row population of the code-generated CV template: its tables are
    found by their header texts, emptied down to the header and one
    template row, and refilled with one copy of the template row per
    item.  A table is its rows of cell texts; formatting is not modelled. */
module CvGenerator {
  import opened Wrappers
  import opened Text
  import opened Seqs
  import opened Enrichment
  import opened TemplateContext

  type Row = seq<string>
  type Table = seq<Row>

  // ---------------------------------------------------------------------
  // Finding a table
  // ---------------------------------------------------------------------

  /** The table's first row has a cell for every header, and each of those
      cells, stripped and lower-cased, starts with its header likewise
      normalised. */
  predicate HeadersMatch(t: Table, headers: seq<string>) {
    |t| > 0 && |t[0]| >= |headers|
    && forall i :: 0 <= i < |headers| ==> StartsWith(Lower(Trim(t[0][i])), Lower(Trim(headers[i])))
  }

  /** The first table at or after `from` whose headers match. */
  function FindTableFrom(tables: seq<Table>, headers: seq<string>, from: nat): (r: Option<nat>)
    ensures r.Some? ==> from <= r.value < |tables| && HeadersMatch(tables[r.value], headers)
    ensures r.Some? ==> forall j :: from <= j < r.value ==> !HeadersMatch(tables[j], headers)
    ensures r.None? ==> forall j :: from <= j < |tables| ==> !HeadersMatch(tables[j], headers)
    decreases |tables| - from
  {
    if from >= |tables| then None
    else if HeadersMatch(tables[from], headers) then Some(from)
    else FindTableFrom(tables, headers, from + 1)
  }

  /** `_find_table_by_headers`: the first matching table of the document,
      None exactly when no table matches. */
  function FindTableByHeaders(tables: seq<Table>, headers: seq<string>): (r: Option<nat>)
    ensures r.Some? ==> r.value < |tables| && HeadersMatch(tables[r.value], headers)
    ensures r.Some? ==> forall j :: 0 <= j < r.value ==> !HeadersMatch(tables[j], headers)
    ensures r.None? <==> forall j :: 0 <= j < |tables| ==> !HeadersMatch(tables[j], headers)
  {
    FindTableFrom(tables, headers, 0)
  }

  // ---------------------------------------------------------------------
  // Row operations
  // ---------------------------------------------------------------------

  /** `_clear_data_rows`: drop the last row while more than `headerRows`
      remain. */
  method ClearDataRows(t: Table, headerRows: nat) returns (r: Table)
    ensures |r| == Min(headerRows, |t|)
    ensures forall i :: 0 <= i < |r| ==> r[i] == t[i]
  {
    r := t;
    while |r| > headerRows
      invariant |r| <= |t| && r == t[..|r|]
      invariant |t| <= headerRows ==> r == t
      invariant |t| > headerRows ==> |r| >= headerRows
      decreases |r|
    {
      r := r[..|r| - 1];
    }
  }

  /** `_clone_row`: append a copy of row `idx`; an IndexError when there is
      no such row. */
  function CloneRow(t: Table, idx: nat): (r: Result<Table>)
    ensures r.Failure? <==> idx >= |t|
    ensures r.Failure? ==> r.error == IndexError
    ensures r.Success? ==> |r.value| == |t| + 1 && r.value[..|t|] == t && r.value[|t|] == t[idx]
  {
    if idx < |t| then Success(t + [t[idx]]) else Failure(IndexError)
  }

  /** `_remove_row`: drop row `idx`; out of range the table is left as it is. */
  function RemoveRow(t: Table, idx: nat): (r: Table)
    ensures idx < |t| ==> |r| == |t| - 1 && r[..idx] == t[..idx] && r[idx..] == t[idx + 1..]
    ensures idx >= |t| ==> r == t
  {
    if idx < |t| then t[..idx] + t[idx + 1..] else t
  }

  /** Assign `cells[0]`, `cells[1]`, ... of a row in turn; an IndexError
      when the row has fewer cells. */
  function SetCells(row: Row, cells: seq<string>): (r: Result<Row>)
    ensures r.Failure? <==> |row| < |cells|
    ensures r.Success? ==> |r.value| == |row|
    ensures r.Success? ==> forall i :: 0 <= i < |cells| ==> r.value[i] == cells[i]
    ensures r.Success? ==> forall i :: |cells| <= i < |row| ==> r.value[i] == row[i]
  {
    if |row| < |cells| then Failure(IndexError) else Success(cells + row[|cells|..])
  }

  /** A row as `table.add_row()` creates it: one empty cell per column. */
  function BlankRow(width: nat): (r: Row)
    ensures |r| == width && forall i :: 0 <= i < width ==> r[i] == ""
  {
    seq(width, i => "")
  }

  /** The row every item is copied from once the table is prepared: the
      second row, or a blank one the method adds when only the header
      exists; None when there is none. */
  function TemplateRow(t: Table, addsTemplate: bool): (r: Option<Row>)
    requires |t| > 0
    ensures |t| >= 2 ==> r == Some(t[1])
    ensures |t| < 2 ==> (r.Some? <==> addsTemplate)
  {
    if |t| >= 2 then Some(t[1]) else if addsTemplate then Some(BlankRow(|t[0]|)) else None
  }

  /** Clone the template row (row 1) once per item, in order, and write the
      item's texts into the copy's first cells. */
  method FillRows(t: Table, items: seq<seq<string>>, width: nat) returns (r: Result<Table>)
    requires forall k :: 0 <= k < |items| ==> |items[k]| == width
    ensures r.Failure? <==> |items| > 0 && (|t| < 2 || |t[1]| < width)
    ensures r.Failure? ==> r.error == IndexError
    ensures r.Success? ==> |r.value| == |t| + |items| && r.value[..|t|] == t
    ensures r.Success? ==> forall k :: 0 <= k < |items| ==> r.value[|t| + k] == items[k] + t[1][width..]
  {
    var cur := t;
    var k := 0;
    while k < |items|
      invariant 0 <= k <= |items|
      invariant k > 0 ==> |t| >= 2 && |t[1]| >= width
      invariant |cur| == |t| + k && cur[..|t|] == t
      invariant forall j :: 0 <= j < k ==> cur[|t| + j] == items[j] + t[1][width..]
    {
      var cloned := CloneRow(cur, 1);
      if cloned.Failure? {
        return Failure(cloned.error);
      }
      var copy := cloned.value[|cur|];
      assert copy == t[1];
      var written := SetCells(copy, items[k]);
      if written.Failure? {
        return Failure(written.error);
      }
      assert written.value == items[k] + t[1][width..];
      cur := cloned.value[..|cur|] + [written.value];
      k := k + 1;
    }
    return Success(cur);
  }

  // ---------------------------------------------------------------------
  // Populating a table
  // ---------------------------------------------------------------------

  /** What populating the table found by `headers` with `items` yields:
      a ValueError carrying `message` when no table matches; otherwise an
      IndexError when there are items but no template row wide enough, or
      else the document with that table replaced by its header row followed
      by one copy of the template row per item, in order, its first cells
      holding the item's texts.  No other table changes. */
  predicate PopulatedAs(tables: seq<Table>, headers: seq<string>, message: string, addsTemplate: bool,
                        items: seq<seq<string>>, width: nat, r: Result<seq<Table>>)
  {
    match FindTableByHeaders(tables, headers)
    case None => r == Failure(ValueError(message))
    case Some(k) =>
      var tmpl := TemplateRow(tables[k], addsTemplate);
      (r.Failure? <==> |items| > 0 && (tmpl.None? || |tmpl.value| < width))
      && (r.Failure? ==> r.error == IndexError)
      && (r.Success? ==>
            |r.value| == |tables|
            && (forall j :: 0 <= j < |tables| && j != k ==> r.value[j] == tables[j])
            && |r.value[k]| == |items| + 1
            && r.value[k][0] == tables[k][0]
            && forall i :: 0 <= i < |items| ==> tmpl.Some? && r.value[k][i + 1] == items[i] + tmpl.value[width..])
  }

  /** The shared body of the four populate methods.  `addsTemplate` says
      whether the method adds a blank template row to a header-only table. */
  method Populate(tables: seq<Table>, headers: seq<string>, message: string, addsTemplate: bool,
                  items: seq<seq<string>>, width: nat) returns (r: Result<seq<Table>>)
    requires forall k :: 0 <= k < |items| ==> |items[k]| == width
    ensures PopulatedAs(tables, headers, message, addsTemplate, items, width, r)
  {
    var found := FindTableByHeaders(tables, headers);
    if found.None? {
      return Failure(ValueError(message));
    }
    var k := found.value;
    var t := tables[k];
    if addsTemplate && |t| <= 1 {
      t := t + [BlankRow(|t[0]|)];
    }
    assert |t| >= 2 ==> t[1] == TemplateRow(tables[k], addsTemplate).value;
    t := ClearDataRows(t, 2);
    var filled := FillRows(t, items, width);
    if filled.Failure? {
      return Failure(filled.error);
    }
    var rows := filled.value;
    if |rows| > 1 {
      rows := RemoveRow(rows, 1);
    }
    assert rows[0] == tables[k][0];
    return Success(tables[k := rows]);
  }

  /** The texts of one skills row. */
  function SkillCells(row: SkillRow): (r: seq<string>)
    ensures |r| == 2 && r[0] == Trim(row.left) && r[1] == Trim(row.right)
  {
    [Trim(row.left), Trim(row.right)]
  }

  /** `populate_skills`: the table headed "Category", "Skills"; no
      template row is added, so a header-only table takes no items. */
  method PopulateSkills(tables: seq<Table>, rows: seq<SkillRow>) returns (r: Result<seq<Table>>)
    ensures PopulatedAs(tables, ["Category", "Skills"], "Skills table not found (headers 'Category'|'Skills')",
                        false, seq(|rows|, i requires 0 <= i < |rows| => SkillCells(rows[i])), 2, r)
  {
    r := Populate(tables, ["Category", "Skills"], "Skills table not found (headers 'Category'|'Skills')",
                  false, seq(|rows|, i requires 0 <= i < |rows| => SkillCells(rows[i])), 2);
  }

  /** The technologies cell of a project row: a list is joined with ", "
      after dropping blank entries, any other value is written as it is. */
  function TechsText(v: StrList): (r: string)
    ensures !Truthy(v) ==> r == ""
    ensures v.Text? && v.text != "" ==> r == v.text
  {
    match v
    case Items(xs) => JoinNonBlank(xs)
    case Text(t) => t
    case Absent => ""
  }

  /** A list without blank entries is joined entry for entry. */
  lemma TechsTextJoins(xs: seq<string>)
    requires forall i :: 0 <= i < |xs| ==> NonBlank(xs[i])
    ensures TechsText(Items(xs)) == Join(xs, ", ")
  {
    FilterKeepsAll(xs, NonBlank);
  }

  /** Blank entries never show in the technologies cell. */
  lemma {:induction false} TechsTextSkipsBlank(xs: seq<string>, b: string)
    requires !NonBlank(b)
    ensures TechsText(Items(xs + [b])) == TechsText(Items(xs))
    ensures TechsText(Items([b] + xs)) == TechsText(Items(xs))
  {
    FilterAppendRejected(xs, b, NonBlank);
    assert ([b] + xs)[1..] == xs;
  }

  /** The texts of one project row. */
  function ProjectCells(row: ProjectRow): (r: seq<string>)
    ensures |r| == 3 && r[0] == Trim(row.name) && r[1] == Trim(row.duration) && r[2] == TechsText(row.technologies)
  {
    [Trim(row.name), Trim(row.duration), TechsText(row.technologies)]
  }

  /** `populate_other_projects`: the table headed "Project Name",
      "Duration", "Technology". */
  method PopulateOtherProjects(tables: seq<Table>, rows: seq<ProjectRow>) returns (r: Result<seq<Table>>)
    ensures PopulatedAs(tables, ["Project Name", "Duration", "Technology"], "Other Notable Projects table not found",
                        true, seq(|rows|, i requires 0 <= i < |rows| => ProjectCells(rows[i])), 3, r)
  {
    r := Populate(tables, ["Project Name", "Duration", "Technology"], "Other Notable Projects table not found",
                  true, seq(|rows|, i requires 0 <= i < |rows| => ProjectCells(rows[i])), 3);
  }

  /** The texts of one education row. */
  function EducationCells(row: EducationRow): (r: seq<string>)
    ensures |r| == 3 && r[0] == Trim(row.degree) && r[1] == Trim(row.institution)
    ensures r[2] == Trim(row.graduationDate)
  {
    [Trim(row.degree), Trim(row.institution), Trim(row.graduationDate)]
  }

  /** `populate_education`: the table headed "Course", "University / Board",
      "Year of Passing". */
  method PopulateEducation(tables: seq<Table>, rows: seq<EducationRow>) returns (r: Result<seq<Table>>)
    ensures PopulatedAs(tables, ["Course", "University / Board", "Year of Passing"], "Education table not found",
                        true, seq(|rows|, i requires 0 <= i < |rows| => EducationCells(rows[i])), 3, r)
  {
    r := Populate(tables, ["Course", "University / Board", "Year of Passing"], "Education table not found",
                  true, seq(|rows|, i requires 0 <= i < |rows| => EducationCells(rows[i])), 3);
  }

  /** The texts of one certification row: its number in decimal and the
      authority. */
  function CertCells(row: CertRow): (r: seq<string>)
    ensures |r| == 2 && DigitsValue(r[0]) == row.sno && r[1] == Trim(row.authority)
  {
    var sno := NatToString(row.sno);
    TrimDigits(sno);
    [Trim(sno), Trim(row.authority)]
  }

  /** A run of digits needs no trimming. */
  lemma TrimDigits(s: string)
    requires |s| > 0 && IsDigits(s)
    ensures Trim(s) == s
  {
    TrimUnchanged(s);
  }

  /** `populate_certifications`: the table headed "Sr.No",
      "University/Board". */
  method PopulateCertifications(tables: seq<Table>, rows: seq<CertRow>) returns (r: Result<seq<Table>>)
    ensures PopulatedAs(tables, ["Sr.No", "University/Board"], "Certifications table not found",
                        true, seq(|rows|, i requires 0 <= i < |rows| => CertCells(rows[i])), 2, r)
  {
    r := Populate(tables, ["Sr.No", "University/Board"], "Certifications table not found",
                  true, seq(|rows|, i requires 0 <= i < |rows| => CertCells(rows[i])), 2);
  }

  // ---------------------------------------------------------------------
  // Colours
  // ---------------------------------------------------------------------

  type Byte = x: int | 0 <= x < 256

  /** The `.rgb` or `._rgb` attribute the fallback reads, when indexing the
      colour fails: three bytes, or any other value with what `int()` makes
      of it (None when that raises too). */
  datatype RawColor = ThreeBytes(r: Byte, g: Byte, b: Byte) | IntLike(n: Option<int>)

  /** A colour handed to `_rgb_hex`: its three channels when it can be
      indexed, otherwise the attribute value found, if any. */
  datatype ColorValue = Channels(r: Byte, g: Byte, b: Byte) | NoChannels(attr: Option<RawColor>)

  const HexChars: string := "0123456789abcdef"

  /** A lower-case hexadecimal digit. */
  predicate IsHexChar(c: char) {
    '0' <= c <= '9' || 'a' <= c <= 'f'
  }

  predicate IsHex(s: string) {
    forall i :: 0 <= i < |s| ==> IsHexChar(s[i])
  }

  function HexCharValue(c: char): (v: nat)
    requires IsHexChar(c)
    ensures v < 16
  {
    if c <= '9' then c as int - '0' as int else c as int - 'a' as int + 10
  }

  function HexDigit(d: nat): (c: char)
    requires d < 16
    ensures IsHexChar(c) && HexCharValue(c) == d
  {
    HexChars[d]
  }

  /** The number a string of hexadecimal digits denotes. */
  function HexValue(s: string): nat
    requires IsHex(s)
    decreases |s|
  {
    if |s| == 0 then 0 else HexValue(s[..|s| - 1]) * 16 + HexCharValue(s[|s| - 1])
  }

  function Pow16(w: nat): (p: nat)
    ensures p >= 1
  {
    if w == 0 then 1 else 16 * Pow16(w - 1)
  }

  /** `format(n, 'x')`: the shortest hexadecimal digits of `n`. */
  function HexDigits(n: nat): (r: string)
    ensures |r| >= 1 && IsHex(r)
    ensures HexValue(r) == n
    decreases n
  {
    if n < 16 then [HexDigit(n)]
    else
      var p := HexDigits(n / 16);
      var r := p + [HexDigit(n % 16)];
      assert r[..|r| - 1] == p;
      r
  }

  /** Below `16^w`, at most `w` digits are needed. */
  lemma {:induction false} HexDigitsLength(n: nat, w: nat)
    requires w >= 1 && n < Pow16(w)
    ensures |HexDigits(n)| <= w
    decreases w
  {
    if n >= 16 {
      assert w >= 2;
      HexDigitsLength(n / 16, w - 1);
    }
  }

  function Zeros(k: nat): (r: string)
    ensures |r| == k && IsHex(r)
  {
    seq(k, i => '0')
  }

  /** Leading zeros do not change the value. */
  lemma {:induction false} ZerosPrefixValue(k: nat, s: string)
    requires IsHex(s)
    ensures IsHex(Zeros(k) + s) && HexValue(Zeros(k) + s) == HexValue(s)
    decreases |s| + k
  {
    var t := Zeros(k) + s;
    if |s| > 0 {
      assert t[..|t| - 1] == Zeros(k) + s[..|s| - 1];
      ZerosPrefixValue(k, s[..|s| - 1]);
    } else if k > 0 {
      assert t[..|t| - 1] == Zeros(k - 1) + "";
      ZerosPrefixValue(k - 1, "");
    }
  }

  /** Zero-padded on the left to at least `w` characters. */
  function PadZeros(s: string, w: nat): (r: string)
    requires IsHex(s)
    ensures IsHex(r) && HexValue(r) == HexValue(s)
    ensures |r| == if |s| >= w then |s| else w
  {
    if |s| >= w then s
    else
      ZerosPrefixValue(w - |s|, s);
      Zeros(w - |s|) + s
  }

  /** `format(n, '0{w}x')`: a minus sign for a negative number, then the
      digits zero-padded so that the whole is at least `w` wide. */
  function FormatHex(n: int, w: nat): (r: string)
    ensures n >= 0 ==> IsHex(r) && HexValue(r) == n && |r| >= w
    ensures n < 0 ==> |r| > 0 && r[0] == '-'
  {
    if n >= 0 then PadZeros(HexDigits(n), w)
    else "-" + PadZeros(HexDigits(-n), if w >= 1 then w - 1 else 0)
  }

  /** A number below `16^w` takes exactly `w` characters. */
  lemma FormatHexWidth(n: nat, w: nat)
    requires w >= 1 && n < Pow16(w)
    ensures |FormatHex(n, w)| == w
  {
    HexDigitsLength(n, w);
  }

  /** `f"{r:02x}{g:02x}{b:02x}"`. */
  function ChannelsHex(r: Byte, g: Byte, b: Byte): (s: string)
    ensures |s| == 6 && IsHex(s)
    ensures HexValue(s[..2]) == r && HexValue(s[2..4]) == g && HexValue(s[4..]) == b
  {
    FormatHexWidth(r, 2);
    FormatHexWidth(g, 2);
    FormatHexWidth(b, 2);
    var s := FormatHex(r, 2) + FormatHex(g, 2) + FormatHex(b, 2);
    assert s[..2] == FormatHex(r, 2) && s[2..4] == FormatHex(g, 2) && s[4..] == FormatHex(b, 2);
    s
  }

  /** `_rgb_hex`: the lower-case RRGGBB text of a colour.  When the colour
      cannot be indexed, three attribute bytes are formatted likewise, any
      other attribute value as a number of at least six digits, and
      "000000" stands for everything that cannot be read. */
  function RgbHex(c: ColorValue): (s: string)
    ensures c.Channels? ==> s == ChannelsHex(c.r, c.g, c.b)
    ensures c.NoChannels? && c.attr.Some? && c.attr.value.ThreeBytes? ==>
      s == ChannelsHex(c.attr.value.r, c.attr.value.g, c.attr.value.b)
    ensures c.NoChannels? && c.attr.Some? && c.attr.value.IntLike? && c.attr.value.n.Some? && c.attr.value.n.value >= 0 ==>
      IsHex(s) && |s| >= 6 && HexValue(s) == c.attr.value.n.value
    ensures c == NoChannels(None) || c == NoChannels(Some(IntLike(None))) ==> s == "000000"
  {
    match c
    case Channels(r, g, b) => ChannelsHex(r, g, b)
    case NoChannels(None) => "000000"
    case NoChannels(Some(ThreeBytes(r, g, b))) => ChannelsHex(r, g, b)
    case NoChannels(Some(IntLike(Some(n)))) => FormatHex(n, 6)
    case NoChannels(Some(IntLike(None))) => "000000"
  }

  /** Read RRGGBB text back into its three channels. */
  function DecodeRgb(s: string): (r: Option<(nat, nat, nat)>)
    ensures r.Some? <==> |s| == 6 && IsHex(s)
    ensures r.Some? ==> r.value.0 < 256 && r.value.1 < 256 && r.value.2 < 256
  {
    if |s| == 6 && IsHex(s) then
      HexValueBound(s[..2]);
      HexValueBound(s[2..4]);
      HexValueBound(s[4..]);
      Some((HexValue(s[..2]), HexValue(s[2..4]), HexValue(s[4..])))
    else None
  }

  /** Two hexadecimal digits denote less than 256. */
  lemma HexValueBound(s: string)
    requires IsHex(s) && |s| == 2
    ensures HexValue(s) < 256
  {
    var h := s[..1];
    assert h[..0] == "";
    assert HexValue(h) == HexCharValue(s[0]) < 16;
    assert HexValue(s) == HexValue(h) * 16 + HexCharValue(s[1]);
  }

  /** Formatting a colour's channels and reading them back gives them again. */
  lemma RgbHexRoundTrip(r: Byte, g: Byte, b: Byte)
    ensures DecodeRgb(RgbHex(Channels(r, g, b))) == Some((r, g, b))
  {
  }

  /** A number attribute below 16^6 gives exactly six digits denoting it. */
  lemma RgbHexNumber(n: nat)
    requires n < 0x100_0000
    ensures |RgbHex(NoChannels(Some(IntLike(Some(n)))))| == 6
    ensures HexValue(RgbHex(NoChannels(Some(IntLike(Some(n)))))) == n
  {
    FormatHexWidth(n, 6);
  }
}

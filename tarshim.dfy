/** The bookkeeping inside the table and plot helpers: which columns of a
    table get rendered as embedded images, the `<img>` tag built around a
    base64 payload, and the shared bounds of the observed-versus-predicted
    plot. Drawing and HTML rendering are done by libraries and are described
    here only by the arguments the helpers pass to them. */
module Tarshim {
  import opened Wrappers

  /** A two-level column label: (first level, second level). */
  type Column = (string, string)

  /** The part of a table the helpers look at: its column labels, in order. */
  datatype DataFrame = DataFrame(columns: seq<Column>)

  /** The `figure_columns` argument: None, the string 'infer', or a list. */
  datatype FigureColumns = NoFigureColumns | Infer | Explicit(names: seq<Column>)

  /** The `assert c in df.columns` that fails, with the column it failed on. */
  datatype ColumnError = MissingColumn(column: Column)

  /** The cell formatter installed for a figure column: `cell_figure_mapping`. */
  datatype Formatter = CellFigureFormatter

  /** The rendering request handed to the table library. */
  datatype ToHtmlCall = ToHtml(frame: DataFrame, formatters: map<Column, Formatter>, escape: bool, border: int)

  /** `[c for c in columns if c[1] == 'fig']`. */
  function InferFigureColumns(columns: seq<Column>): (r: seq<Column>)
    ensures forall c :: c in r <==> c in columns && c.1 == "fig"
    ensures |r| <= |columns|
  {
    if columns == [] then []
    else (if columns[0].1 == "fig" then [columns[0]] else []) + InferFigureColumns(columns[1..])
  }

  /** Selection keeps the table's column order: selecting from two parts is
      selecting from each and concatenating. */
  lemma {:induction false} InferFigureColumnsAppend(a: seq<Column>, b: seq<Column>)
    ensures InferFigureColumns(a + b) == InferFigureColumns(a) + InferFigureColumns(b)
  {
    if a != [] {
      assert (a + b)[1..] == a[1..] + b;
      InferFigureColumnsAppend(a[1..], b);
    } else {
      assert a + b == b;
    }
  }

  /** Selecting twice selects nothing more. */
  lemma {:induction false} InferFigureColumnsIdempotent(columns: seq<Column>)
    ensures InferFigureColumns(InferFigureColumns(columns)) == InferFigureColumns(columns)
  {
    if columns != [] {
      var head := if columns[0].1 == "fig" then [columns[0]] else [];
      InferFigureColumnsAppend(head, InferFigureColumns(columns[1..]));
      InferFigureColumnsIdempotent(columns[1..]);
      if columns[0].1 == "fig" {
        assert InferFigureColumns(head) == head by {
          assert head[1..] == [];
        }
      }
    }
  }

  /** The loop `for c in names: assert c in columns`: the index of the first
      name that is not a column, if any. */
  function FirstMissing(columns: seq<Column>, names: seq<Column>): (r: Option<nat>)
    ensures r.None? <==> forall i :: 0 <= i < |names| ==> names[i] in columns
    ensures r.Some? ==> r.value < |names| && names[r.value] !in columns &&
                        forall i :: 0 <= i < r.value ==> names[i] in columns
  {
    if names == [] then None
    else if names[0] !in columns then Some(0)
    else match FirstMissing(columns, names[1..])
      case None => None
      case Some(k) => Some(k + 1)
  }

  /** The list of figure columns that `html_from_dataframe` settles on, or
      the assertion that stops it. */
  function ResolveFigureColumns(columns: seq<Column>, spec: FigureColumns): (r: Result<seq<Column>, ColumnError>)
    ensures spec.NoFigureColumns? ==> r == Success([])
    ensures spec.Infer? ==> r == Success(InferFigureColumns(columns))
    ensures spec.Infer? ==> r.Success? && forall c :: c in r.value <==> c in columns && c.1 == "fig"
    ensures spec.Explicit? ==>
              (r.Success? <==> forall i :: 0 <= i < |spec.names| ==> spec.names[i] in columns) &&
              (r.Success? ==> r.value == spec.names) &&
              (r.Failure? ==> r.error.column in spec.names && r.error.column !in columns)
  {
    match spec
    case NoFigureColumns => Success([])
    case Infer => Success(InferFigureColumns(columns))
    case Explicit(names) =>
      match FirstMissing(columns, names)
      case None => Success(names)
      case Some(i) => Failure(MissingColumn(names[i]))
  }

  /** `{c: cell_figure_mapping for c in selected}`. */
  function Formatters(selected: seq<Column>): (m: map<Column, Formatter>)
    ensures forall c :: c in m <==> c in selected
    ensures forall c :: c in m ==> m[c] == CellFigureFormatter
  {
    map c | c in selected :: CellFigureFormatter
  }

  /** `html_from_dataframe(df, figure_columns)` up to the call into the table
      library: a failed column check produces no HTML; otherwise a copy of
      the table is rendered unescaped, without border, with exactly the
      selected figure columns formatted as images. */
  function HtmlFromDataFrame(df: DataFrame, spec: FigureColumns): (r: Result<ToHtmlCall, ColumnError>)
    ensures r.Success? <==> ResolveFigureColumns(df.columns, spec).Success?
    ensures r.Failure? ==> r.error == ResolveFigureColumns(df.columns, spec).error
    ensures r.Success? ==>
              r.value.frame == df && !r.value.escape && r.value.border == 0 &&
              (forall c :: c in r.value.formatters ==> r.value.formatters[c] == CellFigureFormatter) &&
              (forall c :: c in r.value.formatters <==> c in ResolveFigureColumns(df.columns, spec).value)
    ensures spec.NoFigureColumns? ==> r.Success? && r.value.formatters == map[]
    ensures spec.Infer? ==> r.Success? && forall c :: c in r.value.formatters <==> c in df.columns && c.1 == "fig"
    ensures spec.Explicit? ==> (r.Success? <==> forall i :: 0 <= i < |spec.names| ==> spec.names[i] in df.columns)
  {
    match ResolveFigureColumns(df.columns, spec)
    case Failure(e) => Failure(e)
    case Success(selected) => Success(ToHtml(df, Formatters(selected), false, 0))
  }

  const ImgOpen: string := "<img src=\""
  const DataUriPrefix: string := "data:image/png;base64,"
  const ImgSuffix: string := "\" />"

  /** The characters of base64 text (section 4 of RFC 4648), padding included. */
  predicate IsBase64Char(c: char)
  {
    'A' <= c <= 'Z' || 'a' <= c <= 'z' || '0' <= c <= '9' || c == '+' || c == '/' || c == '='
  }

  predicate IsBase64Text(s: string) { forall i :: 0 <= i < |s| ==> IsBase64Char(s[i]) }

  /** The tag `cell_figure_mapping` builds around the base64 text of a PNG. */
  function CellFigureMapping(encoded: string): string
  {
    ImgOpen + DataUriPrefix + encoded + ImgSuffix
  }

  /** The tag is the fixed opening, the encoded text unchanged, and the fixed
      closing. */
  lemma CellFigureMappingShape(encoded: string)
    ensures var tag := CellFigureMapping(encoded);
            var k := |ImgOpen| + |DataUriPrefix|;
            |tag| == k + |encoded| + |ImgSuffix| &&
            tag[..k] == ImgOpen + DataUriPrefix &&
            tag[k..|tag| - |ImgSuffix|] == encoded &&
            tag[|tag| - |ImgSuffix|..] == ImgSuffix
  {
  }

  /** The index of the first double quote in `s`, if any. */
  function QuoteIndex(s: string): (r: Option<nat>)
    ensures r.Some? ==> r.value < |s| && s[r.value] == '"' && forall j :: 0 <= j < r.value ==> s[j] != '"'
    ensures r.None? ==> forall j :: 0 <= j < |s| ==> s[j] != '"'
  {
    if s == [] then None
    else if s[0] == '"' then Some(0)
    else match QuoteIndex(s[1..])
      case None => None
      case Some(k) => Some(k + 1)
  }

  /** The value of the `src` attribute of a tag that starts `<img src="`,
      read as an HTML reader does: up to the next double quote. */
  function SrcAttribute(tag: string): Option<string>
  {
    if |tag| >= |ImgOpen| && tag[..|ImgOpen|] == ImgOpen then
      var rest := tag[|ImgOpen|..];
      match QuoteIndex(rest)
      case None => None
      case Some(q) => Some(rest[..q])
    else None
  }

  /** The payload of a `data:image/png;base64,` URI. */
  function DataUriPayload(uri: string): Option<string>
  {
    if |uri| >= |DataUriPrefix| && uri[..|DataUriPrefix|] == DataUriPrefix then Some(uri[|DataUriPrefix|..])
    else None
  }

  /** A quote right after quote-free text is the first quote. */
  lemma {:induction false} QuoteIndexAfter(u: string, v: string)
    requires forall j :: 0 <= j < |u| ==> u[j] != '"'
    requires |v| > 0 && v[0] == '"'
    ensures QuoteIndex(u + v) == Some(|u|)
  {
    if u == [] {
      assert u + v == v;
    } else {
      assert (u + v)[1..] == u[1..] + v;
      QuoteIndexAfter(u[1..], v);
    }
  }

  /** A quote-free URI between the tag's opening and closing is read back
      whole as the `src` attribute. */
  lemma SrcAttributeOfQuoteFreeUri(uri: string)
    requires forall j :: 0 <= j < |uri| ==> uri[j] != '"'
    ensures SrcAttribute(ImgOpen + uri + ImgSuffix) == Some(uri)
  {
    var rest := uri + ImgSuffix;
    assert ImgOpen + uri + ImgSuffix == ImgOpen + rest;
    assert (ImgOpen + rest)[..|ImgOpen|] == ImgOpen && (ImgOpen + rest)[|ImgOpen|..] == rest;
    QuoteIndexAfter(uri, ImgSuffix);
    assert rest[..|uri|] == uri;
  }

  /** For base64 text the tag is well formed: its `src` attribute is exactly
      the PNG data URI, and the payload read back from it is the text. */
  lemma CellFigureMappingRoundTrip(encoded: string)
    requires IsBase64Text(encoded)
    ensures SrcAttribute(CellFigureMapping(encoded)) == Some(DataUriPrefix + encoded)
    ensures DataUriPayload(DataUriPrefix + encoded) == Some(encoded)
  {
    var uri := DataUriPrefix + encoded;
    forall j | 0 <= j < |uri| ensures uri[j] != '"' {
      if j >= |DataUriPrefix| {
        assert uri[j] == encoded[j - |DataUriPrefix|];
      }
    }
    SrcAttributeOfQuoteFreeUri(uri);
    assert CellFigureMapping(encoded) == ImgOpen + uri + ImgSuffix;
    assert uri[..|DataUriPrefix|] == DataUriPrefix && uri[|DataUriPrefix|..] == encoded;
  }

  /** The error `min` and `max` raise on an empty sequence. */
  datatype PlotError = EmptySequence

  /** Python's `min` over a non-empty sequence. */
  function SeqMin(s: seq<real>): (m: real)
    requires |s| > 0
    ensures m in s && forall i :: 0 <= i < |s| ==> m <= s[i]
  {
    if |s| == 1 then s[0]
    else var rest := SeqMin(s[1..]); if rest < s[0] then rest else s[0]
  }

  /** Python's `max` over a non-empty sequence. */
  function SeqMax(s: seq<real>): (m: real)
    requires |s| > 0
    ensures m in s && forall i :: 0 <= i < |s| ==> s[i] <= m
  {
    if |s| == 1 then s[0]
    else var rest := SeqMax(s[1..]); if rest > s[0] then rest else s[0]
  }

  /** The square layout of the observed-versus-predicted plot: the dashed
      identity line's x and y coordinates, both axis limits and the aspect
      ratio. */
  datatype SquareAxes = SquareAxes(identityX: seq<real>, identityY: seq<real>, xlim: (real, real), ylim: (real, real), aspect: real)

  /** The bounds `mn`, `mx` and what `_actual_plot_observed_vs_predicted`
      sets from them. The identity line runs from (mn, mn) to (mx, mx), both
      axes span [mn, mx], that span is the smallest holding every observation
      and every prediction, and an empty input raises. */
  function ObservedVsPredictedAxes(observations: seq<real>, predictions: seq<real>): (r: Result<SquareAxes, PlotError>)
    ensures r.Failure? <==> |observations| == 0 || |predictions| == 0
    ensures r.Success? ==>
              var lo := r.value.xlim.0;
              var hi := r.value.xlim.1;
              lo <= hi && r.value.ylim == r.value.xlim &&
              r.value.identityX == [lo, hi] && r.value.identityY == r.value.identityX &&
              r.value.aspect == 1.0 &&
              (forall i :: 0 <= i < |observations| ==> lo <= observations[i] <= hi) &&
              (forall i :: 0 <= i < |predictions| ==> lo <= predictions[i] <= hi) &&
              (lo in observations || lo in predictions) &&
              (hi in observations || hi in predictions)
  {
    if |observations| == 0 || |predictions| == 0 then Failure(EmptySequence)
    else
      var obsMin, predMin := SeqMin(observations), SeqMin(predictions);
      var obsMax, predMax := SeqMax(observations), SeqMax(predictions);
      var mn := if predMin < obsMin then predMin else obsMin;
      var mx := if predMax > obsMax then predMax else obsMax;
      Success(SquareAxes([mn, mx], [mn, mx], (mn, mx), (mn, mx), 1.0))
  }
}

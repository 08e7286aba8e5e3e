# Notebook figure helpers, modelled in Dafny

This project models the two pieces of bookkeeping in the `tarshim` notebook
helpers and proves what they promise.

1. **`FigureDisplay`** (`src/notebook_image_handling.py`). This handler numbers
   the figures of a report. Construction resolves the report directory
   `<abspath(parent_directory)>/<report_name>`, removes any old directory tree
   there, creates it again empty and starts the counter at 1. Each `figsave`
   does four things in order:
   - stamps the title, if titles are enabled and a title was given;
   - writes `figure_%03d.png` for the current number;
   - advances the counter;
   - closes the figure.

   `figdisp` and calling the handler are `figsave` followed by showing the
   file. The model is the class `NotebookImageHandling.FigureDisplay`:
   - the figure is an object holding only what the handler reads or changes
     (its title, its background colour, whether it is closed);
   - the report directory is a ghost record of the names written, in order,
     and the image each file holds;
   - the notebook output is a ghost sequence of the images shown;
   - whether each file-system step and the title call succeed is a parameter.

   The class invariant `Valid()` says the directory holds exactly
   `figure_001.png … figure_{n-1}.png`, written in that order, where `n` is
   the counter. It also says every default title option is set. Every method
   keeps this invariant.

   The two-state predicate `SavedOnce` is the effect of one save. It is
   stated once, and `FigSave`, `FigDisp` and `Call` all promise it. So the
   three entry points write the same file under the same name and advance the
   counter by the same amount. The names returned are pairwise distinct: this
   rests on reading the number back out of a file name
   (`FigureNumberOfFileName`), which rests on the zero-padded numeral reading
   back to its number (`DecimalFormat.Pad3Value`).

2. **The table and plot helpers** (`src/tarshim.py`), modelled as pure
   functions in module `Tarshim`:
   - which columns `html_from_dataframe` formats as images: none, the
     inferred ones whose second-level label is `'fig'`, or an explicit list
     checked against the table;
   - the formatter map, and the arguments passed to the table renderer;
   - the `<img>` tag that `cell_figure_mapping` wraps around base64 text;
   - the shared bounds `mn`/`mx` that set the identity line and both axis
     limits of the observed-versus-predicted plot.

Module `DecimalFormat` holds Python's `%d` and `%03d` on natural numbers.
Module `Paths` holds `os.path.join` for two components, and module
`Wrappers` holds `Option` and `Result`.

Where the code and its description differ, the model follows the code:

- After a failed write the counter is NOT advanced and the figure is NOT
  closed. The exception from `savefig` leaves `figsave` before line 77.
- Removing the old tree swallows every `OSError`, not only "not found"
  (`except OSError: pass`, lines 59-62). If the tree could not be removed,
  `os.makedirs` then fails because the directory still exists.
- The docstring promises "at least two leading zeros" (line 34). The format
  `%03d` pads to three digits, so `figure_010.png` has one leading zero.

## Model

| member | source | states |
|---|---|---|
| `DecimalFormat.Decimal` | src/notebook_image_handling.py:75 | `%d` of a natural number: at least one character, all decimal digits; the first character is `'0'` exactly when the number is 0; exactly one digit exactly when the number is below 10 |
| `DecimalFormat.Pad3` | src/notebook_image_handling.py:75 | `"%03d" % n`: the plain numeral of `n` left-padded with zeros to three characters; its properties are the lemmas below |
| `DecimalFormat.Pad3Shape` | src/notebook_image_handling.py:75 | `%03d`: all digits, at least 3 characters, ends with the plain numeral of `n`, and everything in front of it is `'0'` |
| `DecimalFormat.ValueOfDecimal` | src/notebook_image_handling.py:75 | reading the numeral of `n` back as decimal gives `n` |
| `DecimalFormat.ValueIgnoresLeadingZeros` | src/notebook_image_handling.py:75 | prefixing zeros to a digit string keeps it all digits and keeps its value |
| `DecimalFormat.Pad3Value` | src/notebook_image_handling.py:75 | the padded numeral still reads back as `n` |
| `DecimalFormat.Pad3Injective` | src/notebook_image_handling.py:75 | distinct numbers get distinct padded numerals |
| `DecimalFormat.DecimalLength` | src/notebook_image_handling.py:75 | the numeral has at most 2 digits exactly below 100 and at most 3 exactly below 1000 |
| `DecimalFormat.Pad3Length` | src/notebook_image_handling.py:75 | below 1000 the padded numeral has exactly 3 characters; from 1000 on it is the plain numeral, longer than 3, never truncated |
| `DecimalFormat.Pad3StripsToDecimal` | src/notebook_image_handling.py:75 | stripping leading zeros (keeping one digit) from the padded numeral gives the plain numeral |
| `Paths.JoinPath` | src/notebook_image_handling.py:58 | `os.path.join(a, b)` for two parts, used for the report directory (line 58) and each file path (line 75); its properties are `JoinPathShape` and `JoinRelativeInjective` |
| `Paths.JoinPathShape` | src/notebook_image_handling.py:58 | `os.path.join`: the result ends with the second component; for a relative second component it starts with the first and, after a non-empty first, a `/` separates them |
| `Paths.JoinRelativeInjective` | src/notebook_image_handling.py:75 | within one directory, distinct relative names join to distinct paths |
| `NotebookImageHandling.DefaultSuptitleKwargs` | src/notebook_image_handling.py:54 | the default title options `ha="left"`, `ma="left"`, `x=0`, `va="bottom"` |
| `NotebookImageHandling.MergeSuptitleKwargs` | src/notebook_image_handling.py:54-55 | the merged options hold the default keys `ha`, `ma`, `x`, `va` and the caller's keys; every caller key keeps the caller's value and every default key the caller did not give keeps its default |
| `NotebookImageHandling.ResetDirectory` | src/notebook_image_handling.py:57-63 | resetting succeeds exactly when the old tree is absent or removed and the directory can be created; it then leaves it empty; an absent directory causes no error; a tree that could not be removed makes creation fail |
| `NotebookImageHandling.FigureFileName` | src/notebook_image_handling.py:75 | `"figure_%03d.png" % n`; its properties are the lemmas below |
| `NotebookImageHandling.FigureNumberOfFileName` | src/notebook_image_handling.py:75 | the number read back from `figure_%03d.png` of `n` is `n` |
| `NotebookImageHandling.FigureFileNameInjective` | src/notebook_image_handling.py:75 | distinct numbers give distinct file names |
| `NotebookImageHandling.FigurePathInjective` | src/notebook_image_handling.py:74-75 | within one report directory, distinct numbers give distinct returned paths |
| `NotebookImageHandling.FigureFileNamesDistinct` | src/notebook_image_handling.py:74-77 | the names of the first N saves, `figure_001.png` … in call order, are pairwise distinct |
| `NotebookImageHandling.SaveKeepsDirectory` | src/notebook_image_handling.py:74-77 | when the listing is that of N saves and the files are exactly the listed names, the name of save N+1 is new, and after adding it the listing is that of N+1 saves and the files are again exactly the listed names |
| `NotebookImageHandling.FigureFileNameIsNew` | src/notebook_image_handling.py:74-77 | the name of save N+1 is not among the names of saves 1..N |
| `NotebookImageHandling.FigureDisplay.Valid` | src/notebook_image_handling.py:53-77 | the handler's invariant: the counter is at least 1, the directory listing is `figure_001.png` … `figure_{n-1}.png` in save order for counter `n`, the files are exactly the listed names, and every default title option is set |
| `NotebookImageHandling.FigureDisplay.SavedOnce` | src/notebook_image_handling.py:72-79 | the effect of one save: the title step under the line-72 guard, which may raise and then changes nothing else; otherwise the write, which on success returns the path for the old counter, adds exactly that file, advances the counter by 1 and closes the figure, and on failure leaves counter, files and closed flag as they were |
| `NotebookImageHandling.FigureDisplay.constructor` | src/notebook_image_handling.py:51-63 | after construction with a successful reset: the invariant holds, the counter is 1, the directory is `abspath(parent)` joined with the report name and is empty, the title options are the merged defaults, and nothing has been shown |
| `NotebookImageHandling.FigureDisplay.Create` | src/notebook_image_handling.py:29-63 | construction fails exactly when the directory reset fails, with the same error; on success it gives a fresh handler in the state the constructor describes |
| `NotebookImageHandling.FigureDisplay.FigSave` | src/notebook_image_handling.py:65-79 | keeps the invariant. The title is stamped with the merged options exactly when `show_title` holds and a title is given; otherwise the figure's title is untouched. If the title call raises, nothing is written, the counter stays and the figure stays open. A successful write returns the directory joined with `figure_%03d.png` of the old counter and adds exactly that one name, which was not there before, holding the figure as titled; it advances the counter by exactly 1 and closes the figure. A failed write raises, and the counter, the directory and the closed flag stay as they were |
| `NotebookImageHandling.FigureDisplay.FigDisp` | src/notebook_image_handling.py:81-84 | exactly the effect of one `figsave` with the same figure and title; when that save succeeds the image just written is appended to the notebook output, and otherwise nothing is shown |
| `NotebookImageHandling.FigureDisplay.Call` | src/notebook_image_handling.py:86-90 | `figdisp` on the given figure, or on the library's current figure when none is given |
| `Tarshim.InferFigureColumns` | src/tarshim.py:94-95 | a column is selected exactly when it is a column of the table whose second-level label is `'fig'`; the selection is no longer than the columns |
| `Tarshim.InferFigureColumnsAppend` | src/tarshim.py:95 | selection keeps the table's column order: selecting from `a + b` is selecting from `a`, then from `b` |
| `Tarshim.InferFigureColumnsIdempotent` | src/tarshim.py:95 | selecting from a selection changes nothing |
| `Tarshim.FirstMissing` | src/tarshim.py:96-98 | the checking loop passes exactly when every listed name is a column; otherwise it stops at the first listed name that is not a column, all earlier names being columns |
| `Tarshim.ResolveFigureColumns` | src/tarshim.py:92-98 | None selects nothing; `'infer'` selects the result of the comprehension, that is exactly the `'fig'` columns in table order; an explicit list is taken as given when every name is a column, and otherwise fails on a listed name that is not a column |
| `Tarshim.Formatters` | src/tarshim.py:99 | the formatter map's keys are exactly the selected columns, and every key maps to `cell_figure_mapping` |
| `Tarshim.HtmlFromDataFrame` | src/tarshim.py:91-102 | a failed column check fails before any HTML is produced; otherwise the table is rendered from a copy of the table, unescaped, with border 0 and formatters for exactly the selected columns; None gives an empty formatter map, `'infer'` the `'fig'` columns, and an explicit list succeeds exactly when all its names are columns |
| `Tarshim.CellFigureMapping` | src/tarshim.py:81-87 | the tag built around the already-encoded payload; its properties are `CellFigureMappingShape` and `CellFigureMappingRoundTrip` |
| `Tarshim.CellFigureMappingShape` | src/tarshim.py:86 | the tag is `<img src="data:image/png;base64,`, then the encoded text unchanged, then `" />` |
| `Tarshim.CellFigureMappingRoundTrip` | src/tarshim.py:85-87 | for base64 text (section 4 of RFC 4648) the tag's `src` attribute, read up to the closing quote, is exactly the PNG data URI, and the payload read back from that URI is the encoded text |
| `Tarshim.SeqMin` | src/tarshim.py:15 | `min` of a non-empty sequence is one of its elements and at most every element |
| `Tarshim.SeqMax` | src/tarshim.py:16 | `max` of a non-empty sequence is one of its elements and at least every element |
| `Tarshim.ObservedVsPredictedAxes` | src/tarshim.py:15-24 | fails exactly when either sequence is empty. Otherwise `mn <= mx`; every observation and prediction lies in `[mn, mx]`; `mn` and `mx` are attained by some value; the identity line is `[mn, mx]` against `[mn, mx]`; both axis limits are exactly `(mn, mx)`; the aspect ratio is 1 |

## Left out

- File-system effects (`shutil.rmtree`, `os.makedirs`, writing the PNG) are modelled as a ghost directory listing. The outcome of each step is a parameter. A partly removed tree or a partly written file is not modelled.
- Each handler is assumed to be the only writer of its report directory. A second handler built on the same directory wipes it in the source (lines 59-63), and any file deleted or overwritten from outside changes it too. The model does not capture either: it keeps each handler's directory as that handler's own ghost state, so `Valid()` and the freshness of each saved name hold only under that assumption.
- `os.path.abspath` is not modelled: the absolute parent directory is an input.
- The PNG bytes are not modelled. A written file is described by the figure, its title, its background colour and the tight bounding box.
- matplotlib drawing is not modelled: title layout, `savefig` rendering, `subplot2grid`, `tight_layout`, `despine`, labels and annotations. The same goes for seaborn's `regplot` and `kdeplot`, and `plot_residuals`, `plot_residual_kde` and `plot_observed_vs_predicted`. These are calls into plotting libraries and contain no bookkeeping of their own.
- NotebookImageHandling.FigureDisplay.FigDisp: returns the path of the image shown, not IPython's display handle. The handle is notebook UI and carries no state.
- NotebookImageHandling.FigureDisplay.FigSave: the title call can raise (an option the plotting library rejects, or a `t` option colliding with the title). That is the outcome parameter `titleSucceeds`, and a rejected call is assumed to leave the figure's title untouched. Why the call raises is not modelled.
- NotebookImageHandling.FigureDisplay.Call: the library's current figure (`plt.gcf()`) is the injected parameter `active`. Creating a new figure when none exists is the library's job.
- `show_title` is a boolean. A truthy non-boolean value compared with `== True` is not modelled.
- Caller title options named `report_name`, `show_title` or `parent_directory` bind to the parameters of those names in Python. The model does not exclude them from the option map.
- Base64 encoding, and saving the figure into a `BytesIO` buffer before encoding, are not modelled. `Tarshim.CellFigureMapping` takes the encoded text.
- The HTML rendering by `DataFrame.to_html` and the copy made by `df.copy()` are not modelled. `Tarshim.HtmlFromDataFrame` ends with the arguments of that call.
- Tarshim.ResolveFigureColumns: an explicit list of full two-level labels is matched exactly. pandas also accepts a first-level label alone as "in" a two-level column index, and that partial match is not modelled. A string other than `'infer'` given as the list is also not modelled.
- Tarshim.ResolveFigureColumns: the explicit-list check is a bare `assert` (line 98). The model assumes assertions are enabled. Under `python -O` the check is removed and a missing column is accepted, which is not modelled.
- Tarshim.ObservedVsPredictedAxes: observations and predictions are real numbers, not floats, so NaN and rounding are not modelled.
- The `savefig` helper of `src/tarshim.py` (lines 76-79) is not modelled: it forwards to the library and prints a message.

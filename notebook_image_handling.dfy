/** The figure-numbering helper of a notebook: every figure handed to it is
    saved as `figure_NNN.png` in a per-report directory, numbered in call
    order, and optionally shown inline.

    The plotting library and the file system are abstracted: a figure is an
    object holding only what the helper reads or changes (its title, its
    background colour, whether it is closed); the report directory is a
    ghost listing of the file names written and the image each holds; the
    outcome of each I/O step is a parameter. */
module NotebookImageHandling {
  import opened Wrappers
  import opened DecimalFormat
  import opened Paths

  /** A keyword argument value passed on to the title call. */
  datatype KwValue = StrValue(s: string) | IntValue(i: int) | RealValue(r: real) | BoolValue(b: bool)

  type Kwargs = map<string, KwValue>

  /** The title options every handler starts from: left-aligned, anchored at
      x = 0, bottom-aligned. */
  function DefaultSuptitleKwargs(): Kwargs
  {
    map["ha" := StrValue("left"), "ma" := StrValue("left"), "x" := IntValue(0), "va" := StrValue("bottom")]
  }

  /** The defaults updated in place by the caller's options (`dict.update`). */
  function MergeSuptitleKwargs(overrides: Kwargs): (merged: Kwargs)
    ensures merged.Keys == DefaultSuptitleKwargs().Keys + overrides.Keys
    ensures forall k :: k in overrides ==> merged[k] == overrides[k]
    ensures forall k :: k in DefaultSuptitleKwargs() && k !in overrides ==>
              merged[k] == DefaultSuptitleKwargs()[k]
  {
    DefaultSuptitleKwargs() + overrides
  }

  datatype Rgba = Rgba(red: real, green: real, blue: real, alpha: real)

  /** A title stamped on a figure, with the options it was drawn with. */
  datatype Suptitle = Suptitle(text: string, options: Kwargs)

  /** What a saved PNG file shows: the figure as it was when written, its
      title, the background colour used as fill, and whether the bounding box
      was trimmed tight. */
  datatype Image = Image(figure: Figure, suptitle: Option<Suptitle>, facecolor: Rgba, tightBBox: bool)

  /** The part of a plotting-library figure the helper touches. */
  class Figure {
    var suptitle: Option<Suptitle>
    var facecolor: Rgba
    var closed: bool
  }

  /** The state of the report directory before the handler claims it. */
  datatype DirectoryBefore = Absent | Present

  /** The errors construction and saving can raise. */
  datatype FigureError =
    | DirectoryExists(path: string)
    | CannotCreateDirectory(path: string)
    | TitleRejected(title: string)
    | WriteFailed(path: string)

  /** The directory step of construction, which takes the report directory
      over for this handler: remove the
      directory tree, swallowing any OSError, then create the directory;
      creation fails when the tree is still there. On success the directory
      is empty. */
  function ResetDirectory(path: string, before: DirectoryBefore, removeSucceeds: bool, createSucceeds: bool)
    : (r: Result<set<string>, FigureError>)
    ensures r.Success? <==> (before.Absent? || removeSucceeds) && createSucceeds
    ensures r.Success? ==> r.value == {}
    ensures before.Present? && !removeSucceeds ==> r == Failure(DirectoryExists(path))
    ensures before.Absent? && createSucceeds ==> r == Success({})
  {
    var stillThere := before.Present? && !removeSucceeds;
    if stillThere then Failure(DirectoryExists(path))
    else if createSucceeds then Success({})
    else Failure(CannotCreateDirectory(path))
  }

  /** `"figure_%03d.png" % n`. */
  function FigureFileName(n: nat): string
  {
    "figure_" + Pad3(n) + ".png"
  }

  /** Reads the sequence number back out of a figure file name. */
  function FigureNumber(name: string): Option<nat>
  {
    if |name| >= 11 && name[..7] == "figure_" && name[|name| - 4..] == ".png" && AllDigits(name[7..|name| - 4])
    then Some(Value(name[7..|name| - 4]))
    else None
  }

  /** The file name carries its number: reading it back gives `n`. */
  lemma FigureNumberOfFileName(n: nat)
    ensures FigureNumber(FigureFileName(n)) == Some(n)
  {
    var name := FigureFileName(n);
    assert name[..7] == "figure_";
    assert name[|name| - 4..] == ".png";
    assert name[7..|name| - 4] == Pad3(n);
    Pad3Value(n);
  }

  lemma FigureFileNameInjective(m: nat, n: nat)
    ensures FigureFileName(m) == FigureFileName(n) ==> m == n
  {
    FigureNumberOfFileName(m);
    FigureNumberOfFileName(n);
  }

  /** Within one report directory, distinct numbers give distinct paths. */
  lemma FigurePathInjective(dir: string, m: nat, n: nat)
    ensures JoinPath(dir, FigureFileName(m)) == JoinPath(dir, FigureFileName(n)) ==> m == n
  {
    JoinRelativeInjective(dir, FigureFileName(m), FigureFileName(n));
    FigureFileNameInjective(m, n);
  }

  /** The names of the first `count` saves, in call order. */
  function FigureFileNames(count: nat): (names: seq<string>)
    ensures |names| == count
    ensures forall i :: 0 <= i < count ==> names[i] == FigureFileName(i + 1)
  {
    seq(count, i requires 0 <= i => FigureFileName(i + 1))
  }

  /** The first `count` saves never reuse a name. */
  lemma FigureFileNamesDistinct(count: nat)
    ensures forall i, j :: 0 <= i < j < count ==> FigureFileNames(count)[i] != FigureFileNames(count)[j]
  {
    forall i, j | 0 <= i < j < count
      ensures FigureFileNames(count)[i] != FigureFileNames(count)[j]
    {
      FigureFileNameInjective(i + 1, j + 1);
    }
  }

  /** One more save appends the next name. */
  lemma FigureFileNamesSnoc(count: nat)
    ensures FigureFileNames(count + 1) == FigureFileNames(count) + [FigureFileName(count + 1)]
  {
  }

  /** One successful save keeps the directory in step with the numbering:
      the new name was not there, and afterwards the listing and the files
      are those of `count` saves. */
  lemma SaveKeepsDirectory<V>(listing: seq<string>, files: map<string, V>, count: nat, v: V)
    requires count >= 1 && listing == FigureFileNames(count - 1)
    requires forall name :: name in files <==> name in listing
    ensures FigureFileName(count) !in files
    ensures listing + [FigureFileName(count)] == FigureFileNames(count)
    ensures forall name :: name in files[FigureFileName(count) := v] <==> name in listing + [FigureFileName(count)]
  {
    FigureFileNameIsNew(count - 1);
    FigureFileNamesSnoc(count - 1);
  }

  /** The name of the next save is not among those of the earlier ones. */
  lemma FigureFileNameIsNew(count: nat)
    ensures FigureFileName(count + 1) !in FigureFileNames(count)
  {
    if FigureFileName(count + 1) in FigureFileNames(count) {
      var i :| 0 <= i < count && FigureFileNames(count)[i] == FigureFileName(count + 1);
      FigureFileNameInjective(i + 1, count + 1);
    }
  }

  /** The figure a call acts on: the one given, or else the library's
      current figure. */
  function ChosenFigure(fig: Option<Figure>, active: Figure): Figure
  {
    if fig.Some? then fig.value else active
  }

  class FigureDisplay {
    const reportName: string
    const showTitle: bool
    const dirName: string
    var currentNumber: nat
    var suptitleKwargs: Kwargs
    /** The file names written into `dirName`, in the order written. */
    ghost var listing: seq<string>
    /** The contents of `dirName`: each file name and the image it holds. */
    ghost var files: map<string, Image>
    /** The images rendered into the notebook output, in order. */
    ghost var shown: seq<Image>

    /** The counter is one past the number of saves, the directory holds
        exactly the files `figure_001.png` … of those saves, written in
        numbering order, and every default title option is set. */
    ghost predicate Valid()
      reads this
    {
      currentNumber >= 1 &&
      listing == FigureFileNames(currentNumber - 1) &&
      (forall name :: name in files <==> name in listing) &&
      DefaultSuptitleKwargs().Keys <= suptitleKwargs.Keys
    }

    /** The field set-up of `__init__` followed by a successful directory
        reset: the directory is `absParentDirectory/reportName` and empty. */
    constructor (reportName: string, showTitle: bool, absParentDirectory: string, suptitleKwargs: Kwargs)
      ensures Valid()
      ensures this.reportName == reportName && this.showTitle == showTitle
      ensures dirName == JoinPath(absParentDirectory, reportName)
      ensures currentNumber == 1
      ensures this.suptitleKwargs == MergeSuptitleKwargs(suptitleKwargs)
      ensures listing == [] && files == map[] && shown == []
    {
      this.reportName := reportName;
      this.showTitle := showTitle;
      currentNumber := 1;
      this.suptitleKwargs := MergeSuptitleKwargs(suptitleKwargs);
      dirName := JoinPath(absParentDirectory, reportName);
      listing, files, shown := [], map[], [];
    }

    /** `FigureDisplay(...)` with its error path: construction raises exactly
        when resetting the directory does. */
    static method Create(reportName: string, showTitle: bool, absParentDirectory: string, suptitleKwargs: Kwargs,
                         before: DirectoryBefore, removeSucceeds: bool, createSucceeds: bool)
      returns (r: Result<FigureDisplay, FigureError>)
      ensures var reset := ResetDirectory(JoinPath(absParentDirectory, reportName), before, removeSucceeds, createSucceeds);
              (r.Success? <==> reset.Success?) && (r.Failure? ==> r.error == reset.error)
      ensures r.Success? ==>
                fresh(r.value) && r.value.Valid() &&
                r.value.reportName == reportName && r.value.showTitle == showTitle &&
                r.value.dirName == JoinPath(absParentDirectory, reportName) &&
                r.value.currentNumber == 1 &&
                r.value.suptitleKwargs == MergeSuptitleKwargs(suptitleKwargs) &&
                r.value.listing == [] && r.value.files == map[] && r.value.shown == []
    {
      var reset := ResetDirectory(JoinPath(absParentDirectory, reportName), before, removeSucceeds, createSucceeds);
      if reset.Failure? {
        return Failure(reset.error);
      }
      var handler := new FigureDisplay(reportName, showTitle, absParentDirectory, suptitleKwargs);
      r := Success(handler);
    }

    /** The effect of one `figsave(fig, title)`. The title step runs first,
        exactly when `showTitle` holds and a title is given; it may raise (the
        plotting library rejects an unknown title option), as
        `titleSucceeds` says, and then nothing is written, the counter stays
        and the figure keeps its old title and stays open. Otherwise the
        write succeeds or fails as `writeSucceeds` says. A successful write
        returns the path of `figure_NNN.png` for the counter's old value,
        adds that one file holding the figure as titled, advances the counter
        by one and closes the figure. A failed write raises before the
        counter moves or the figure is closed. */
    twostate predicate SavedOnce(fig: Figure, title: Option<string>, titleSucceeds: bool, writeSucceeds: bool,
                                 new r: Result<string, FigureError>)
      reads this`currentNumber, this`suptitleKwargs, this`listing, this`files, fig
    {
      var stamp := showTitle && title.Some?;
      var name := FigureFileName(old(currentNumber));
      var path := JoinPath(dirName, name);
      fig.suptitle == (if stamp && titleSucceeds then Some(Suptitle(title.value, suptitleKwargs)) else old(fig.suptitle)) &&
      fig.facecolor == old(fig.facecolor) &&
      suptitleKwargs == old(suptitleKwargs) &&
      if stamp && !titleSucceeds then
        r == Failure(TitleRejected(title.value)) &&
        currentNumber == old(currentNumber) &&
        listing == old(listing) &&
        files == old(files) &&
        fig.closed == old(fig.closed)
      else if writeSucceeds then
        r == Success(path) &&
        currentNumber == old(currentNumber) + 1 &&
        listing == old(listing) + [name] &&
        files == old(files)[name := Image(fig, fig.suptitle, fig.facecolor, true)] &&
        fig.closed
      else
        r == Failure(WriteFailed(path)) &&
        currentNumber == old(currentNumber) &&
        listing == old(listing) &&
        files == old(files) &&
        fig.closed == old(fig.closed)
    }

    /** Save the figure without displaying it. The name written is new to
        the directory. */
    method FigSave(fig: Figure, title: Option<string>, titleSucceeds: bool, writeSucceeds: bool)
      returns (r: Result<string, FigureError>)
      requires Valid()
      modifies this, fig
      ensures Valid()
      ensures SavedOnce(fig, title, titleSucceeds, writeSucceeds, r)
      ensures FigureFileName(old(currentNumber)) !in old(files)
      ensures shown == old(shown)
    {
      if showTitle && title.Some? {
        if !titleSucceeds {
          SaveKeepsDirectory(listing, files, currentNumber, Image(fig, fig.suptitle, fig.facecolor, true));
          return Failure(TitleRejected(title.value));
        }
        fig.suptitle := Some(Suptitle(title.value, suptitleKwargs));
      }
      var currentFigureNumber := currentNumber;
      var name := FigureFileName(currentFigureNumber);
      var fname := JoinPath(dirName, name);
      if !writeSucceeds {
        SaveKeepsDirectory(listing, files, currentFigureNumber, Image(fig, fig.suptitle, fig.facecolor, true));
        return Failure(WriteFailed(fname));
      }
      var image := Image(fig, fig.suptitle, fig.facecolor, true);
      SaveKeepsDirectory(listing, files, currentFigureNumber, image);
      files := files[name := image];
      listing := listing + [name];
      currentNumber := currentNumber + 1;
      fig.closed := true;
      r := Success(fname);
    }

    /** Save the figure, then show the file just written. */
    method FigDisp(fig: Figure, title: Option<string>, titleSucceeds: bool, writeSucceeds: bool)
      returns (r: Result<string, FigureError>)
      requires Valid()
      modifies this, fig
      ensures Valid()
      ensures SavedOnce(fig, title, titleSucceeds, writeSucceeds, r)
      ensures shown == if r.Success? then old(shown) + [files[FigureFileName(old(currentNumber))]] else old(shown)
    {
      r := FigSave(fig, title, titleSucceeds, writeSucceeds);
      if r.Success? {
        shown := shown + [files[FigureFileName(currentNumber - 1)]];
      }
    }

    /** Calling the handler: `FigDisp` on the given figure, or on the
        library's current figure `active` when none is given. */
    method Call(fig: Option<Figure>, active: Figure, title: Option<string>, titleSucceeds: bool, writeSucceeds: bool)
      returns (r: Result<string, FigureError>)
      requires Valid()
      modifies this, ChosenFigure(fig, active)
      ensures Valid()
      ensures SavedOnce(ChosenFigure(fig, active), title, titleSucceeds, writeSucceeds, r)
      ensures shown == if r.Success? then old(shown) + [files[FigureFileName(old(currentNumber))]] else old(shown)
    {
      var target := if fig.Some? then fig.value else active;
      r := FigDisp(target, title, titleSucceeds, writeSucceeds);
    }
  }
}

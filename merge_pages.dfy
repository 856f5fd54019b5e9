/** The merge page of the odML tables wizard: the user picks two odML input
    files, a merge mode (strict or overwrite) and an output file, and the page
    loads both inputs, merges the second into the first and writes the result.

    Everything the page asks of the user (which browse button was pressed,
    what a file dialog returned, the answer to a question box) and everything
    the document model does (loading, merging, writing) arrives as a
    parameter. Each operation returns, besides its result, the list of
    interactions it had with the user and the document model, in order. */
module MergePages {
  import opened Wrappers
  import PosixPath

  /** The extension the page expects for its output file. */
  const ExpectedExtension: string := ".odml"

  datatype Mode = Strict | Overwrite

  /** The widget whose `clicked` signal ran `Browse2Open`. */
  datatype Sender = BrowseButton1 | BrowseButton2 | OtherWidget

  /** The button the user pressed in the "exit without saving?" question. */
  datatype Reply = YesButton | NoButton | OtherButton

  /** What the document model's merge does when the page calls it. */
  datatype MergeOutcome = MergeReturns | MergeRaisesValueError | MergeRaisesOther

  /** Whether loading an input or writing the output raises. */
  datatype IoOutcome = NoIoError | FirstLoadRaises | SecondLoadRaises | WriteRaises

  datatype Exception =
    | ValueError(message: string)
    | LoadError(path: string)
    | WriteError(path: string)
    | AttributeError(name: string)
    | TypeError(call: string)

  /** How a Python call ends: it returns a value or raises. */
  datatype Outcome<+T> = Return(value: T) | Raise(exception: Exception)

  /** The warning boxes the page shows. */
  datatype Warning =
    | NotEnoughInputFiles
    | NoMergeModeSelected
    | NoOutputFileSelected
    | WrongFileFormat(expected: string, selected: string)
    | MergeValueError
    | UnexpectedError

  /** One interaction with the user or the document model. */
  datatype Effect =
    | OpenDialog
    | SaveDialog
    | Warn(warning: Warning)
    | Load(path: string)
    | Merge(mode: Option<Mode>)
    | Write(path: string)

  /** A call's outcome with the interactions it had on the way. */
  datatype Run<+T> = Run(outcome: Outcome<T>, effects: seq<Effect>)

  /** What `validatePage` returns (0 keeps the page open, 1 lets the wizard
      go on) and whether it asked the user first. */
  datatype PageExit = PageExit(code: int, asked: bool)

  /** The merge mode `convert` derives from the two radio buttons. The strict
      button wins when both are checked; with neither there is no mode. */
  function SelectedMode(strict: bool, overwrite: bool): (m: Option<Mode>)
    ensures m == Some(Strict) <==> strict
    ensures m == Some(Overwrite) <==> !strict && overwrite
    ensures m == None <==> !strict && !overwrite
  {
    if strict then Some(Strict)
    else if overwrite then Some(Overwrite)
    else None
  }

  /** An output path the page goes on to merge into: chosen, and with the
      expected extension or none. */
  predicate AcceptedOutput(p: string) {
    p != [] && PosixPath.ExtensionAccepted(p, ExpectedExtension)
  }

  /** Every path in `paths` is an accepted output path. */
  ghost predicate AllAccepted(paths: seq<string>) {
    paths == [] || (AllAccepted(paths[..|paths| - 1]) && AcceptedOutput(paths[|paths| - 1]))
  }

  /** Appending an accepted path keeps every path accepted. */
  lemma AllAcceptedAppend(paths: seq<string>, p: string)
    requires AllAccepted(paths) && AcceptedOutput(p)
    ensures AllAccepted(paths + [p])
  {
    assert (paths + [p])[..|paths|] == paths;
  }

  predicate LoadsSucceed(io: IoOutcome) {
    io == NoIoError || io == WriteRaises
  }

  /** `convert` on the page's inputs, mode and output path, when the
      document model behaves as `merge` and `io` say. */
  function ConvertRun(input1: string, input2: string, mode: Option<Mode>, output: string,
                      merge: MergeOutcome, io: IoOutcome): Run<bool>
  {
    var loads := [Load(input1), Load(input2)];
    match io
    case FirstLoadRaises => Run(Raise(LoadError(input1)), [Load(input1)])
    case SecondLoadRaises => Run(Raise(LoadError(input2)), loads)
    case _ =>
      var merged := loads + [Merge(mode)];
      match merge
      case MergeRaisesValueError => Run(Return(false), merged + [Warn(MergeValueError)])
      case MergeRaisesOther => Run(Return(false), merged + [Warn(UnexpectedError)])
      case MergeReturns =>
        var written := merged + [Write(output)];
        if io == WriteRaises then Run(Raise(WriteError(output)), written)
        else Run(Return(true), written)
  }

  /** What `convert` does: both loads come first and may raise; a merge
      that raises is reported and ends the call with false before anything
      is written; otherwise the result is written, which may raise in turn.
      It calls the merge only in the mode it is given, and does nothing
      else. */
  lemma ConvertRunSpec(input1: string, input2: string, mode: Option<Mode>, output: string,
                       merge: MergeOutcome, io: IoOutcome)
    ensures var t := ConvertRun(input1, input2, mode, output, merge, io);
      |t.effects| >= 1 && t.effects[0] == Load(input1) &&
      (t.outcome == Return(true) <==> merge == MergeReturns && io == NoIoError) &&
      (t.outcome == Return(false) <==> LoadsSucceed(io) && merge != MergeReturns) &&
      (t.outcome.Raise? ==>
        t.outcome.exception in {LoadError(input1), LoadError(input2), WriteError(output)}) &&
      (Merge(mode) in t.effects <==> LoadsSucceed(io)) &&
      (Write(output) in t.effects <==> LoadsSucceed(io) && merge == MergeReturns) &&
      (Warn(MergeValueError) in t.effects <==> LoadsSucceed(io) && merge == MergeRaisesValueError) &&
      (Warn(UnexpectedError) in t.effects <==> LoadsSucceed(io) && merge == MergeRaisesOther) &&
      (forall e :: e in t.effects ==>
        e in {Load(input1), Load(input2), Merge(mode), Write(output), Warn(MergeValueError), Warn(UnexpectedError)})
  {
  }

  /** The two `except` handlers of `convert` as written, run under Python 3
      with PyQt5: the first formats its message with `e.message`, which a
      Python 3 exception does not have; the second passes the exception's
      class, not a string, as the text of the warning box. Either raises
      before any warning is shown. */
  function MergeHandlerAsWritten(merge: MergeOutcome): (t: Run<bool>)
    requires merge != MergeReturns
    ensures t.outcome.Raise? && t.effects == []
  {
    match merge
    case MergeRaisesValueError => Run(Raise(AttributeError("message")), [])
    case MergeRaisesOther => Run(Raise(TypeError("QMessageBox.warning")), [])
  }

  /** `convert` as written: past the loads, a merge that raises reaches a
      handler that raises in turn, right after the merge call. */
  function ConvertRunAsWritten(input1: string, input2: string, mode: Option<Mode>, output: string,
                               merge: MergeOutcome, io: IoOutcome): Run<bool>
  {
    if LoadsSucceed(io) && merge != MergeReturns then
      Run(MergeHandlerAsWritten(merge).outcome, [Load(input1), Load(input2), Merge(mode)])
    else
      ConvertRun(input1, input2, mode, output, merge, io)
  }

  /** Where the merge raises, `convert` as written raises after loading
      both inputs and calling the merge, with no warning shown, and the save
      button then raises too, leaving the page unsaved. The intended
      `convert` shows the warning after the same three steps and returns
      false, and the save ends normally, also unsaved. Neither writes. */
  lemma MergeFailureEscapesAsWritten(input1: string, input2: string, mode: Option<Mode>,
                                     output: string, merge: MergeOutcome, io: IoOutcome)
    requires LoadsSucceed(io) && merge != MergeReturns
    ensures var w := ConvertRunAsWritten(input1, input2, mode, output, merge, io);
      var t := ConvertRun(input1, input2, mode, output, merge, io);
      w.outcome.Raise? && w.effects == [Load(input1), Load(input2), Merge(mode)] &&
      t.outcome == Return(false) && |t.effects| == 4 && t.effects[..3] == w.effects &&
      t.effects[3] == Warn(if merge == MergeRaisesValueError then MergeValueError else UnexpectedError) &&
      Write(output) !in w.effects && Write(output) !in t.effects
    ensures var sw := SaveAfterConvert(ConvertRunAsWritten(input1, input2, mode, output, merge, io), output);
      var st := SaveAfterConvert(ConvertRun(input1, input2, mode, output, merge, io), output);
      sw.outcome.Raise? && !sw.saved && st.outcome == Return(()) && !st.saved
  {
    var t := ConvertRun(input1, input2, mode, output, merge, io);
    assert t.effects[..3] == [Load(input1), Load(input2), Merge(mode)];
  }

  /** What one press of the save button produces: its outcome, its
      interactions, the output path it leaves stored, and whether it saved. */
  datatype SaveStep = SaveStep(outcome: Outcome<()>, effects: seq<Effect>, output: string, saved: bool)

  /** `browse2save` on a page with the given inputs, mode flags and stored
      output path, when the save dialog returns `dialog` and the document
      model behaves as `merge` and `io` say. */
  function SaveRun(input1: string, input2: string, strict: bool, overwrite: bool, output: string,
                   dialog: Option<string>, merge: MergeOutcome, io: IoOutcome): (s: SaveStep)
    ensures |s.effects| >= 1
  {
    if input1 == [] || input2 == [] then
      SaveStep(Return(()), [Warn(NotEnoughInputFiles)], output, false)
    else if !strict && !overwrite then
      SaveStep(Return(()), [Warn(NoMergeModeSelected)], output, false)
    else
      var chosen := if dialog.Some? then dialog.value else [];
      if chosen == [] then
        SaveStep(Return(()), [SaveDialog, Warn(NoOutputFileSelected)], chosen, false)
      else
        var c := ChosenRun(input1, input2, strict, overwrite, chosen, merge, io);
        c.(effects := [SaveDialog] + c.effects)
  }

  /** The rest of `browse2save` once the dialog has returned the path
      `chosen`: the extension check, then `convert`. The effects are those
      after the dialog. */
  function ChosenRun(input1: string, input2: string, strict: bool, overwrite: bool, chosen: string,
                     merge: MergeOutcome, io: IoOutcome): (c: SaveStep)
    ensures c.output == chosen && |c.effects| >= 1
  {
    var ext := PosixPath.Ext(chosen);
    if ext != ExpectedExtension && ext != [] then
      SaveStep(Return(()), [Warn(WrongFileFormat(ExpectedExtension, ext))], chosen, false)
    else
      SaveAfterConvert(ConvertRun(input1, input2, SelectedMode(strict, overwrite), chosen, merge, io), chosen)
  }

  /** How the save ends once `convert` has run: its exception escapes, and
      the page counts as saved only when it returned true. */
  function SaveAfterConvert(t: Run<bool>, chosen: string): SaveStep {
    SaveStep(if t.outcome.Raise? then Raise(t.outcome.exception) else Return(()),
             t.effects, chosen, t.outcome == Return(true))
  }

  /** Both inputs chosen and a merge mode selected: the save dialog may open. */
  predicate ReadyForOutput(input1: string, input2: string, strict: bool, overwrite: bool) {
    input1 != [] && input2 != [] && (strict || overwrite)
  }

  /** A missing input stops the save with one warning, before the mode is
      looked at: no dialog, no merge, nothing changed. */
  lemma SaveNeedsBothInputs(input1: string, input2: string, strict: bool, overwrite: bool, output: string,
                            dialog: Option<string>, merge: MergeOutcome, io: IoOutcome)
    requires input1 == [] || input2 == []
    ensures SaveRun(input1, input2, strict, overwrite, output, dialog, merge, io) ==
      SaveStep(Return(()), [Warn(NotEnoughInputFiles)], output, false)
  {
  }

  /** With both inputs but no mode the save stops with one warning: no
      dialog, no merge, nothing changed. */
  lemma SaveNeedsMode(input1: string, input2: string, output: string,
                      dialog: Option<string>, merge: MergeOutcome, io: IoOutcome)
    requires input1 != [] && input2 != []
    ensures SaveRun(input1, input2, false, false, output, dialog, merge, io) ==
      SaveStep(Return(()), [Warn(NoMergeModeSelected)], output, false)
  {
  }

  /** Past both checks the stored output path is reset and replaced by the
      dialog's choice; a cancelled dialog ends the save with the path empty
      and nothing saved. */
  lemma SaveAsksForOutput(input1: string, input2: string, strict: bool, overwrite: bool, output: string,
                          dialog: Option<string>, merge: MergeOutcome, io: IoOutcome)
    requires ReadyForOutput(input1, input2, strict, overwrite)
    ensures var s := SaveRun(input1, input2, strict, overwrite, output, dialog, merge, io);
      s.effects[0] == SaveDialog &&
      s.output == (if dialog.Some? then dialog.value else []) &&
      (s.output == [] ==> s.effects == [SaveDialog, Warn(NoOutputFileSelected)] && !s.saved)
  {
  }

  /** A chosen path with any extension other than ".odml" or none is
      reported, kept as the stored output path, and nothing is merged. */
  lemma SaveRejectsWrongExtension(input1: string, input2: string, strict: bool, overwrite: bool,
                                  output: string, chosen: string, merge: MergeOutcome, io: IoOutcome)
    requires ReadyForOutput(input1, input2, strict, overwrite)
    requires chosen != [] && !PosixPath.ExtensionAccepted(chosen, ExpectedExtension)
    ensures SaveRun(input1, input2, strict, overwrite, output, Some(chosen), merge, io) ==
      SaveStep(Return(()), [SaveDialog, Warn(WrongFileFormat(ExpectedExtension, PosixPath.Ext(chosen)))],
               chosen, false)
  {
  }

  /** After the dialog, `convert` runs exactly when the chosen path is
      accepted, and its interactions are then all that follows. */
  lemma ChosenConvertsIff(input1: string, input2: string, strict: bool, overwrite: bool, chosen: string,
                          merge: MergeOutcome, io: IoOutcome)
    ensures var c := ChosenRun(input1, input2, strict, overwrite, chosen, merge, io);
      var t := ConvertRun(input1, input2, SelectedMode(strict, overwrite), chosen, merge, io);
      (Load(input1) in c.effects <==> PosixPath.ExtensionAccepted(chosen, ExpectedExtension)) &&
      (Load(input1) in c.effects ==>
        c.effects == t.effects &&
        c.outcome == (if t.outcome.Raise? then Raise(t.outcome.exception) else Return(())))
  {
    ConvertRunSpec(input1, input2, SelectedMode(strict, overwrite), chosen, merge, io);
  }

  /** `convert` runs, and so loads the first input, exactly when both
      inputs and a mode are chosen and the output path is accepted; it then
      runs in the mode the flags select and its interactions follow the
      dialog's. */
  lemma SaveConvertsIff(input1: string, input2: string, strict: bool, overwrite: bool, output: string,
                        dialog: Option<string>, merge: MergeOutcome, io: IoOutcome)
    ensures var s := SaveRun(input1, input2, strict, overwrite, output, dialog, merge, io);
      (Load(input1) in s.effects <==>
        ReadyForOutput(input1, input2, strict, overwrite) && AcceptedOutput(s.output)) &&
      (Load(input1) in s.effects ==>
        var t := ConvertRun(input1, input2, SelectedMode(strict, overwrite), s.output, merge, io);
        s.effects == [SaveDialog] + t.effects &&
        s.outcome == (if t.outcome.Raise? then Raise(t.outcome.exception) else Return(())))
  {
    var chosen := if dialog.Some? then dialog.value else [];
    if ReadyForOutput(input1, input2, strict, overwrite) && chosen != [] {
      ChosenConvertsIff(input1, input2, strict, overwrite, chosen, merge, io);
      var c := ChosenRun(input1, input2, strict, overwrite, chosen, merge, io);
      assert Load(input1) in [SaveDialog] + c.effects <==> Load(input1) in c.effects;
    }
  }

  /** The save marks the page saved exactly when convert returns true: all
      checks passed, the merge returned and the file was written. */
  lemma SavedOnlyThroughConvert(input1: string, input2: string, strict: bool, overwrite: bool,
                                output: string, dialog: Option<string>, merge: MergeOutcome, io: IoOutcome)
    ensures var s := SaveRun(input1, input2, strict, overwrite, output, dialog, merge, io);
      s.saved <==>
        ReadyForOutput(input1, input2, strict, overwrite) && AcceptedOutput(s.output) &&
        merge == MergeReturns && io == NoIoError
  {
  }

  /** The merge is never called without a mode: the mode check comes first. */
  lemma SaveNeverMergesWithoutMode(input1: string, input2: string, strict: bool, overwrite: bool,
                                   output: string, dialog: Option<string>, merge: MergeOutcome, io: IoOutcome)
    ensures Merge(None) !in SaveRun(input1, input2, strict, overwrite, output, dialog, merge, io).effects
  {
    var s := SaveRun(input1, input2, strict, overwrite, output, dialog, merge, io);
    if ReadyForOutput(input1, input2, strict, overwrite) && AcceptedOutput(s.output) {
      assert SelectedMode(strict, overwrite) != None;
    }
  }

  /** The merge page's own state, without its widgets. */
  class LoadFilePage {
    var inputFilename1: string
    var inputFilename2: string
    var rbStrict: bool
    var rbOverwrite: bool
    var outputFilename: string
    var isSaved: bool
    /** The output files this page has written, in order. */
    ghost var written: seq<string>

    /** The page is marked saved exactly when it has written a file, and it
        only ever writes to a chosen path with an accepted extension. */
    ghost predicate Valid()
      reads this
    {
      (isSaved <==> written != []) && AllAccepted(written)
    }

    /** The page as the wizard creates it, with up to two file names given
        on the command line. */
    constructor (filenames: seq<string>)
      ensures Valid()
      ensures inputFilename1 == (if |filenames| > 0 then filenames[0] else [])
      ensures inputFilename2 == (if |filenames| > 1 then filenames[1] else [])
      ensures rbStrict && !rbOverwrite
      ensures outputFilename == [] && !isSaved && written == []
    {
      inputFilename1 := [];
      inputFilename2 := [];
      if |filenames| > 0 {
        inputFilename1 := filenames[0];
      }
      if |filenames| > 1 {
        inputFilename2 := filenames[1];
      }
      rbStrict := true;
      rbOverwrite := false;
      outputFilename := [];
      isSaved := false;
      written := [];
    }

    /** A browse button was pressed: the open dialog's choice goes into that
        button's input slot. A cancelled dialog keeps the slot's file name,
        and the other slot is never touched. */
    method Browse2Open(sender: Sender, dialog: Option<string>) returns (r: Outcome<()>, effects: seq<Effect>)
      requires Valid()
      modifies this`inputFilename1, this`inputFilename2
      ensures Valid()
      ensures sender == OtherWidget ==> r == Raise(ValueError("Wrong browser.")) && effects == []
      ensures sender != OtherWidget ==> r == Return(()) && effects == [OpenDialog]
      ensures inputFilename1 ==
        if sender == BrowseButton1 && dialog.Some? then dialog.value else old(inputFilename1)
      ensures inputFilename2 ==
        if sender == BrowseButton2 && dialog.Some? then dialog.value else old(inputFilename2)
    {
      var slot;
      if sender == BrowseButton1 {
        slot := 1;
      } else if sender == BrowseButton2 {
        slot := 2;
      } else {
        return Raise(ValueError("Wrong browser.")), [];
      }
      effects := [OpenDialog];
      if dialog.Some? {
        if slot == 1 {
          inputFilename1 := dialog.value;
        } else {
          inputFilename2 := dialog.value;
        }
      }
      r := Return(());
    }

    /** Loads both inputs, merges the second into the first in the selected
        mode and writes the result to the output path. */
    method Convert(merge: MergeOutcome, io: IoOutcome) returns (r: Outcome<bool>, effects: seq<Effect>)
      ensures Run(r, effects) ==
        ConvertRun(inputFilename1, inputFilename2, SelectedMode(rbStrict, rbOverwrite),
                   outputFilename, merge, io)
    {
      effects := [Load(inputFilename1)];
      if io == FirstLoadRaises {
        return Raise(LoadError(inputFilename1)), effects;
      }
      effects := effects + [Load(inputFilename2)];
      if io == SecondLoadRaises {
        return Raise(LoadError(inputFilename2)), effects;
      }
      var mode := None;
      if rbStrict {
        mode := Some(Strict);
      } else if rbOverwrite {
        mode := Some(Overwrite);
      }
      effects := effects + [Merge(mode)];
      match merge {
        case MergeRaisesValueError =>
          return Return(false), effects + [Warn(MergeValueError)];
        case MergeRaisesOther =>
          return Return(false), effects + [Warn(UnexpectedError)];
        case MergeReturns =>
      }
      effects := effects + [Write(outputFilename)];
      if io == WriteRaises {
        return Raise(WriteError(outputFilename)), effects;
      }
      r := Return(true);
    }

    /** The save button: checks the inputs and the mode, asks for the output
        path, then hands over to `CheckAndConvert`. */
    method Browse2Save(dialog: Option<string>, merge: MergeOutcome, io: IoOutcome)
      returns (r: Outcome<()>, effects: seq<Effect>)
      requires Valid()
      modifies this`outputFilename, this`isSaved, this`written
      ensures Valid()
      ensures var s := SaveRun(inputFilename1, inputFilename2, rbStrict, rbOverwrite,
                               old(outputFilename), dialog, merge, io);
        r == s.outcome && effects == s.effects && outputFilename == s.output &&
        isSaved == (old(isSaved) || s.saved) &&
        written == if s.saved then old(written) + [s.output] else old(written)
    {
      if inputFilename1 == [] || inputFilename2 == [] {
        return Return(()), [Warn(NotEnoughInputFiles)];
      } else if !rbStrict && !rbOverwrite {
        return Return(()), [Warn(NoMergeModeSelected)];
      }
      outputFilename := [];
      if dialog.Some? {
        outputFilename := dialog.value;
      }
      if outputFilename == [] {
        return Return(()), [SaveDialog, Warn(NoOutputFileSelected)];
      }
      var after;
      r, after := CheckAndConvert(merge, io);
      effects := [SaveDialog] + after;
    }

    /** The save button after the dialog returned a path: a path with an
        extension other than the expected one is reported; otherwise the
        page converts and is marked saved when the conversion succeeds. */
    method CheckAndConvert(merge: MergeOutcome, io: IoOutcome) returns (r: Outcome<()>, effects: seq<Effect>)
      requires Valid() && outputFilename != []
      modifies this`isSaved, this`written
      ensures Valid()
      ensures var c := ChosenRun(inputFilename1, inputFilename2, rbStrict, rbOverwrite,
                                 outputFilename, merge, io);
        r == c.outcome && effects == c.effects &&
        isSaved == (old(isSaved) || c.saved) &&
        written == if c.saved then old(written) + [outputFilename] else old(written)
    {
      var ext := PosixPath.Ext(outputFilename);
      if ext != ExpectedExtension && ext != [] {
        return Return(()), [Warn(WrongFileFormat(ExpectedExtension, ext))];
      }
      var converted;
      converted, effects := Convert(merge, io);
      match converted {
        case Raise(e) =>
          return Raise(e), effects;
        case Return(success) =>
          if success {
            AllAcceptedAppend(written, outputFilename);
            isSaved := true;
            written := written + [outputFilename];
          }
      }
      r := Return(());
    }

    /** The wizard asks the page whether it may move on: a saved page may;
        otherwise the user is asked to confirm leaving without saving, and
        only a "No" keeps the page open. */
    function ValidatePage(reply: Reply): (r: PageExit)
      reads this
      ensures r.asked <==> !isSaved
      ensures r.code == 0 || r.code == 1
      ensures r.code == 0 <==> !isSaved && reply == NoButton
    {
      if !isSaved then
        if reply == NoButton then PageExit(0, true) else PageExit(1, true)
      else
        PageExit(1, false)
    }
  }

  /** A user picks inputs A.odml and B.odml and an output named out.csv:
      the page reports the format and keeps the name, and nothing is saved. */
  method WrongFormatScenario() {
    var page := new LoadFilePage(["A.odml", "B.odml"]);
    PosixPath.CsvNameExample();
    var r, effects := page.Browse2Save(Some("out.csv"), MergeReturns, NoIoError);
    assert effects == [SaveDialog, Warn(WrongFileFormat(".odml", ".csv"))];
    assert !page.isSaved && page.outputFilename == "out.csv";
  }

  /** With out.odml as output, a strict merge that raises a ValueError is
      reported, nothing is written, and leaving the page asks first; a "No"
      keeps the page open. */
  method MergeConflictScenario() {
    var page := new LoadFilePage(["A.odml", "B.odml"]);
    PosixPath.OdmlNameExample();
    var r, effects := page.Browse2Save(Some("out.odml"), MergeRaisesValueError, NoIoError);
    assert effects == [SaveDialog, Load("A.odml"), Load("B.odml"), Merge(Some(Strict)), Warn(MergeValueError)];
    assert !page.isSaved && r == Return(());
    var exit := page.ValidatePage(NoButton);
    assert exit == PageExit(0, true);
  }

  /** The save of the overwrite scenario, step by step. */
  lemma OverwriteSaveExample()
    ensures SaveRun("A.odml", "B.odml", false, true, [], Some("out.odml"), MergeReturns, NoIoError) ==
      SaveStep(Return(()), [SaveDialog, Load("A.odml"), Load("B.odml"), Merge(Some(Overwrite)), Write("out.odml")],
               "out.odml", true)
  {
    PosixPath.OdmlNameExample();
    var t := ConvertRun("A.odml", "B.odml", Some(Overwrite), "out.odml", MergeReturns, NoIoError);
    assert t.effects == [Load("A.odml"), Load("B.odml"), Merge(Some(Overwrite)), Write("out.odml")];
  }

  /** In overwrite mode the merge goes through, out.odml is written, and the
      page lets the wizard go on without asking. */
  method OverwriteScenario() {
    var page := new LoadFilePage(["A.odml", "B.odml"]);
    page.rbStrict, page.rbOverwrite := false, true;
    OverwriteSaveExample();
    assert page.inputFilename1 == "A.odml" && page.inputFilename2 == "B.odml" && page.outputFilename == [];
    var r, effects := page.Browse2Save(Some("out.odml"), MergeReturns, NoIoError);
    assert effects == [SaveDialog, Load("A.odml"), Load("B.odml"), Merge(Some(Overwrite)), Write("out.odml")];
    assert page.isSaved && page.written == ["out.odml"];
    var exit := page.ValidatePage(NoButton);
    assert exit == PageExit(1, false);
  }
}

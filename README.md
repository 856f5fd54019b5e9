# odML tables merge page, modelled in Dafny

The odML tables wizard has a merge page, `LoadFilePage`. On it the user:

- picks two odML input files, each with its own browse button;
- picks a merge mode with two radio buttons, "strict" or "overwrite";
- picks an output file with a save dialog.

The page then loads both inputs, merges the second into the first and writes the result. This project models that workflow as a Dafny class, without its Qt widgets.

- **State.** `MergePages.LoadFilePage` holds the page's state: the two input file names, the two radio flags, the output file name and the "saved" flag. A ghost field `written` lists the files the page has written. The invariant `Valid` says two things:
  - the page is saved exactly when it has written something;
  - every written path is a chosen path with an accepted extension.
- **Parameters.** Anything the page asks of the user or of the document model arrives as a parameter:
  - which button fired the open dialog;
  - what each file dialog returned, or that it was cancelled;
  - the answer to the "exit without saving?" question;
  - whether a load, the merge or the write raises.
- **Effects.** Each method returns, with its result, the ordered list of interactions it had: dialogs opened, warnings shown, files loaded, the merge called (with its mode), files written. So "no dialog", "no merge" and "nothing written" are stated in the contracts, not implied.
- **Specification functions.** The methods are proved against pure functions: `ConvertRun`, `SaveRun` and `ChosenRun`. The workflow's rules are lemmas about those functions.
- **Extension check.** The output-file check uses Python's `os.path.splitext` for POSIX paths. `PosixPath` models it exactly:
  - it splits at the last dot after the last `/`;
  - a last component whose only dots lead it (`.odml`, `..`) has no extension.

  Its results are tied to an independent description (`HasDottedName`) and to a constructive round trip (`SplitExtOfNamed`).

Modules: `Wrappers` (`Option`), `PosixPath` (the extension check), `MergePages` (the page).

## Model

| member | source | states |
|---|---|---|
| PosixPath.RFind | odmltables/gui/mergepages.py:241-243 | the index `splitext` searches from is -1 or a position of the path |
| PosixPath.LastBeforeSpec | odmltables/gui/mergepages.py:241-243 | the backward scan stops at an occurrence of the character and skips none (proved by induction on the scan) |
| PosixPath.RFindSpec | odmltables/gui/mergepages.py:241-243 | `rfind` finds the last occurrence: the character is there and nowhere after it |
| PosixPath.RFindUnique | odmltables/gui/mergepages.py:241-243 | any index meeting `rfind`'s description is `rfind`'s answer |
| PosixPath.Basename | odmltables/gui/mergepages.py:241-243 | the last component is a suffix of the path |
| PosixPath.BasenameNoSep | odmltables/gui/mergepages.py:241-243 | the last component holds no separator |
| PosixPath.BasenameAfterSep | odmltables/gui/mergepages.py:241-243 | the last component starts right after the last separator, or at the start of a path with none |
| PosixPath.SplitExt | odmltables/gui/mergepages.py:241-243 | root and extension concatenate back to the path |
| PosixPath.ExtensionTail | odmltables/gui/mergepages.py:241-243 | from a last dot lying after the last separator, the rest holds no separator and no further dot |
| PosixPath.ExtShape | odmltables/gui/mergepages.py:241-243 | an extension is empty or a dot followed by characters that are neither dots nor separators |
| PosixPath.SplitExtOfNamed | odmltables/gui/mergepages.py:241-243 | a directory, a stem that is not all dots and an extension joined together split back into root `dir + stem` and that extension |
| PosixPath.NoDotNoExt | odmltables/gui/mergepages.py:241-243 | a path whose last component has no dot has no extension |
| PosixPath.AcceptedNamed | odmltables/gui/mergepages.py:241-243 | for a named file, the page's check accepts exactly the expected extension |
| PosixPath.ExtIff | odmltables/gui/mergepages.py:241-243 | a path has an extension if and only if its last component has a dot preceded by some character other than a dot |
| PosixPath.ExtNonEmpty | odmltables/gui/mergepages.py:241-243 | a non-empty extension means the last dot is after the last separator and not everything between them is a dot |
| PosixPath.ExtHasDottedName | odmltables/gui/mergepages.py:241-243 | a path with an extension has a dotted last component |
| PosixPath.DottedNameHasExt | odmltables/gui/mergepages.py:241-243 | a dotted last component puts the last dot after the last separator, with a character other than a dot before it |
| PosixPath.OdmlNameExample | odmltables/gui/mergepages.py:241-243 | `out.odml` has extension `.odml` |
| PosixPath.CsvNameExample | odmltables/gui/mergepages.py:241-243 | `out.csv` has extension `.csv`, so the page refuses it |
| PosixPath.PlainNameExample | odmltables/gui/mergepages.py:241-243 | `out` has no extension, so the page accepts it |
| PosixPath.DottedDirectoryExample | odmltables/gui/mergepages.py:241-243 | a dot in a directory name (`merged.d/out`) is not an extension |
| PosixPath.HiddenNameExample | odmltables/gui/mergepages.py:241-243 | a hidden name `.odml` has no extension |
| MergePages.SelectedMode | odmltables/gui/mergepages.py:289-293 | strict wins when its flag is set, overwrite applies only without strict, and there is no mode with neither flag (each an if-and-only-if) |
| MergePages.ConvertRunSpec | odmltables/gui/mergepages.py:278-314 | `convert` loads the first input first. It returns true iff the merge returns and nothing raises, and false iff the loads succeed and the merge raises. The only exceptions that escape are a load or the write raising. It merges iff both loads succeed, in the mode given. It writes the output iff the loads succeed and the merge returns. Each warning appears iff its kind of merge failure happened. Nothing else happens. |
| MergePages.AllAcceptedAppend | odmltables/gui/mergepages.py:241-255 | adding an accepted path to the written list keeps every written path accepted |
| MergePages.MergeHandlerAsWritten | odmltables/gui/mergepages.py:298-310 | as written, both handlers raise before any warning is shown |
| MergePages.MergeFailureEscapesAsWritten | odmltables/gui/mergepages.py:278-314 | where the merge raises, `convert` as written raises after loading both inputs and calling the merge, with no warning, and the save then raises with the page unsaved; the intended `convert` shows the matching warning after the same three steps and returns false, and the save ends normally, unsaved; neither writes |
| MergePages.SaveRun | odmltables/gui/mergepages.py:197-257 | every press of the save button has at least one interaction |
| MergePages.ChosenRun | odmltables/gui/mergepages.py:241-257 | the rest of the save keeps the chosen path as the stored output path |
| MergePages.SaveNeedsBothInputs | odmltables/gui/mergepages.py:199-203 | a missing input stops the save with one warning before the mode is checked: no dialog, no merge, output path unchanged, not saved |
| MergePages.SaveNeedsMode | odmltables/gui/mergepages.py:204-209 | with no mode selected the save stops with one warning: no dialog, no merge, output path unchanged, not saved |
| MergePages.SaveAsksForOutput | odmltables/gui/mergepages.py:211-232 | once both checks pass the dialog opens and the stored path becomes its choice or empty; an empty choice ends with one warning and nothing saved |
| MergePages.SaveRejectsWrongExtension | odmltables/gui/mergepages.py:241-249 | a chosen path with an extension other than `.odml` or none is reported with the expected and the selected extension and kept as the stored output path, and there is no merge |
| MergePages.ChosenConvertsIff | odmltables/gui/mergepages.py:241-252 | after the dialog, `convert` runs iff the extension is accepted, and its interactions and outcome are then all the save's |
| MergePages.SaveConvertsIff | odmltables/gui/mergepages.py:197-257 | `convert` runs iff both inputs and a mode are chosen and the output path is chosen and accepted. It then runs in the selected mode, its interactions follow the dialog's and its exceptions escape the save |
| MergePages.SavedOnlyThroughConvert | odmltables/gui/mergepages.py:251-255 | a save marks the page saved iff all checks pass, the merge returns and nothing raises |
| MergePages.SaveNeverMergesWithoutMode | odmltables/gui/mergepages.py:204-209 | the merge is never called without a mode |
| MergePages.OverwriteSaveExample | odmltables/gui/mergepages.py:197-314 | with inputs A.odml, B.odml, overwrite mode and out.odml, the save loads both, merges in overwrite mode, writes out.odml and marks the page saved |
| MergePages.LoadFilePage.constructor | odmltables/gui/mergepages.py:16-25 | input 1 is the first given name and input 2 the second, when given, otherwise empty; strict is selected, there is no output path, nothing is saved (lines 101, 124 and 142 too) |
| MergePages.LoadFilePage.Browse2Open | odmltables/gui/mergepages.py:155-187 | buttons 1 and 2 open a dialog for their own slot and any other sender raises `ValueError('Wrong browser.')`. The dialog's choice goes into that slot, a cancel keeps it, and the other slot is untouched. `Valid` is kept |
| MergePages.LoadFilePage.Convert | odmltables/gui/mergepages.py:278-314 | the load, merge, write procedure does what `ConvertRun` says, whose properties `ConvertRunSpec` states |
| MergePages.LoadFilePage.Browse2Save | odmltables/gui/mergepages.py:197-257 | result, interactions and stored output path are `SaveRun`'s. The saved flag is set only by a successful save and never cleared, and the written list grows by the output path exactly then. `Valid` is kept |
| MergePages.LoadFilePage.CheckAndConvert | odmltables/gui/mergepages.py:241-257 | the extension check and conversion after the dialog do what `ChosenRun` says, set the saved flag on success and keep `Valid` |
| MergePages.LoadFilePage.ValidatePage | odmltables/gui/mergepages.py:268-276 | the user is asked iff the page is not saved; the answer is 0 or 1, and 0 iff the page is not saved and the answer is No |

## Left out

- Qt plumbing has no behaviour to verify: layouts, labels, icons, `generate_toolbutton`, file-dialog configuration, message-box texts, `shorten_path`, label updates, enabling the save and show buttons (including line 194, which tests the label widget `inputfile1` rather than the name `inputfilename1`), and `print('Complete!')`.
- The open dialog's initial directory, taken from the settings (lines 172-179), and the save dialog's (line 218) are not modelled; the dialog's result is a parameter.
- `show_file` launches an external viewer through the operating system and is not modelled.
- Settings persistence (`settings.register`, `settings.get_object`) is not modelled: `Convert` reads the page's own fields, which the settings registry mirrors.
- The radio buttons' mutual exclusion is Qt's and is not modelled: the two flags are independent booleans, so the model also covers both set or both clear. The overwrite flag starts clear, as a new Qt radio button does; restoring it from saved settings is not modelled.
- The document model (`OdmlTable.load_from_file`, `merge`, `write2odml`) is not part of this model. Its outcome is a parameter: returns, raises `ValueError`, or raises something else, for the merge; and which load or write raises. The strict and overwrite conflict rules inside `merge` are not modelled. The exceptions of the loads and of the write escape `convert` and the save button, as they do in the source.
- `MergePages.ChosenRun`, `MergePages.LoadFilePage.CheckAndConvert`: after the wrong-format warning the source calls `self.handlebuttonbrowse()` (line 249). That method is not defined in `mergepages.py`, and the base class `QIWizardPage` is not part of this model. The model ends the save after the warning.
- `MergePages.LoadFilePage.CheckAndConvert` is the second half of `browse2save` (lines 241-257), split out as its own method so that each half is proved separately; `Browse2Save` calls it and is specified as one operation.
- The text of the merge warnings is not modelled: they are two distinct warnings, one for a `ValueError` and one for any other exception.
- odmltables/wizard/compsectionwiz.py only wires wizard pages together and is not part of this model.
- The stored output path can keep a wrong extension: line 226 stores the dialog's choice before the check at lines 241-243, and a refused path stays stored (`SaveRejectsWrongExtension`). `Valid` guarantees an accepted extension only for the paths actually written.

## Findings

| source | as written | input that shows it | evidently intended | confidence | as-written member | corrected member |
|---|---|---|---|---|---|---|
| odmltables/gui/mergepages.py:298-307 | the `ValueError` handler builds its message from `e.message`, which a Python 3 exception does not have, so the handler itself raises `AttributeError` before any warning is shown | a strict merge whose `merge` raises `ValueError` (e.g. a conflict between A.odml and B.odml) | show the "Error while merging files" warning and return False | medium, not executed | MergePages.MergeFailureEscapesAsWritten | MergePages.ConvertRunSpec |
| odmltables/gui/mergepages.py:308-310 | the catch-all handler passes `sys.exc_info()[0]`, an exception class, as the warning box's text, which must be a string, so the call raises `TypeError` | a merge raising any exception other than `ValueError` | show the "Unexpected error" warning and return False | medium, not executed | MergePages.MergeHandlerAsWritten | MergePages.LoadFilePage.Convert |

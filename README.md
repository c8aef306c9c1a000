# subtitle-extract: the action library and the corpus scan, in Dafny

This project models two sequential parts of subtitle-extract, a batch tool that extracts subtitle
tracks from media files and post-processes the resulting subtitle documents.

**The action library (`actions.py`).** A subtitle document (`Actions.SubtitleFile`) holds three things:
- an info dict;
- a styles dict (name → style);
- an ordered event list.

The library's selectors, the event flag filter, and the actions that change the document in place
are modelled as follows.
- Styles and events are datatypes with an explicit `id`. The id stands for the object's identity
  (Python's `is`), apart from its value.
- An action that changes a style or an event object is split in two:
  - a function from the object's old value to its new one (module `EntityActions`);
  - a method of the document class that writes the new value into every slot holding an object
    with that id. This models aliasing of the mutated object.
- The dict's key order is kept as a sequence `styleNames` beside the map `styles`.
- Python exceptions are `Err` results of a `Result` type: `ZeroDivision`, `MaxOfEmpty`
  (`max` of an empty collection), `NotInList` (`list.remove`), `DictChangedSize` (`RuntimeError`
  from resizing a dict during iteration) and `PositionRewrite` (a failure of the position step).
  `WrongType` is not a Python exception: it is the model's own refusal of a wrongly typed
  attribute, where the source stores the value.

**The corpus scan (`main.py`).** This covers `get_filelist` and the pattern strings it is called
with. Three things are inputs:
- the directory walk, a sequence of paths;
- the directory test, a boolean;
- the regular-expression search, a function parameter.

The walk is named for the global `args.path` it starts from, which is not the `path` parameter.
The exclusion file's text is split into lines as Python's `str.splitlines` does.

Modules:
- `Wrappers`: Option and Result.
- `Seqs`: first index, count, first occurrences (filter with deduplication), removal at an index.
- `Document`: values, styles, events, errors.
- `StyleUsage`: per-style event counts and what the most-used style is.
- `EntityActions`: the per-object actions.
- `Actions`: the document, its selectors and actions.
- `FileList`: `main.py`'s scan.

## Model

| member | source | states |
|---|---|---|
| Actions.SubtitleFile.SelectCurrentInfo | actions.py:6-7 | the selection is a one-element list holding the info dict itself |
| Actions.SubtitleFile.SaveInfo | actions.py:10-11 | the saved copy equals the info dict at the time of saving |
| Actions.SaveThenUpdate | actions.py:10-17 | a copy saved before an update keeps the old info, while the updated dict holds every supplied key |
| Actions.SubtitleFile.UpdateInfo | actions.py:14-17 | afterwards every supplied key maps to its supplied value and every other key keeps its value; the key set is the union; the same dict is returned; styles and events are unchanged |
| Actions.AllStyles | actions.py:20-21 | one style per key, position i holding the entry of the i-th key in the dict's order |
| Actions.AllStylesIsTable | actions.py:20-21 | the selection has as many elements as the dict has entries; every value of the dict is in it and nothing else is |
| Actions.SubtitleFile.SelectAllStyles | actions.py:20-21 | the selection is the styles' values in key order |
| Actions.CountStyles | actions.py:26-32 | the counts dict's keys are the style names in order of first use; each count is the number of events naming that style; it is empty exactly when there are no events |
| Actions.MaxCount | actions.py:34 | the result is one of the counts and no count exceeds it |
| Actions.FirstWithCount | actions.py:35 | the first key, in the dict's order, whose count equals the value |
| Actions.FirstMaxIsTop | actions.py:26-35 | the first key holding the largest count is the top style: used most, and on a tie used first |
| Actions.SubtitleFile.SelectTop | actions.py:24-37 | fails with MaxOfEmpty exactly when there are no events; otherwise returns `[styles.get(name)]` for the top style name, which is None when that name has no entry |
| StyleUsage.TopStyleUnique | actions.py:24-37 | at most one style name is top, so the selection is determined |
| StyleUsage.MajorityStyleIsTop | actions.py:26-37 | with two events of style A and one of B, A is the top style |
| EntityActions.RoundDiv | actions.py:45-48 | the nearest integer to n/d, ties going to the even integer as Python's `round` does |
| EntityActions.Scale | actions.py:45-48 | the result is within half a unit of v times the ratio num/den |
| EntityActions.ScaleByOne | actions.py:42-48 | scaling by a ratio of one returns the value unchanged |
| EntityActions.ScaledStyle | actions.py:40-50 | fails with ZeroDivision exactly when an old dimension is 0; otherwise the font size and vertical margin are the nearest integers under the height ratio, the side margins under the width ratio, and nothing else changes |
| EntityActions.ScaledStyleAxes | actions.py:42-48 | font size and vertical margin depend on the height ratio alone, side margins on the width ratio alone |
| EntityActions.ScaledStyleUnitRatio | actions.py:40-50 | scaling to the same dimensions leaves the style as it was |
| Actions.SubtitleFile.ScaleStyleMargins | actions.py:40-50 | the candidate is the object the document holds; every key holding it sees the scaled style, which is then the object held; on failure nothing changes; info, key order and events are untouched |
| Actions.SubtitleFile.ScaleStyle | actions.py:53-54 | the same result and new state as scaling the margins |
| Actions.ScaleTwice | actions.py:40-50 | scaling a style and then the object left in the document scales it twice under every key holding it, as two calls on one shared object do |
| EntityActions.ScaledEventMargins | actions.py:73-82 | fails with ZeroDivision exactly when an old dimension is 0; otherwise the vertical margin follows the height ratio, the side margins the width ratio, and nothing else changes |
| EntityActions.ScaledEventMarginsUnitRatio | actions.py:73-82 | scaling to the same dimensions leaves the event as it was |
| Actions.SubtitleFile.ScaleEventMargins | actions.py:73-82 | the candidate is the event the document holds; the event list holds the scaled event wherever it held the event; on failure nothing changes |
| Actions.SubtitleFile.ScaleEvent | actions.py:85-88 | the margins are scaled before the position rewrite; a zero dimension changes nothing; a failed rewrite leaves the scaled margins in place |
| EntityActions.StyleWithProperties | actions.py:91-94 | each supplied attribute takes the supplied value and each other attribute keeps its value; unknown keys are added as extra attributes; the identity is kept |
| EntityActions.StyleWithNoProperties | actions.py:91-94 | an update without arguments changes nothing |
| EntityActions.StylePropertiesLastWriteWins | actions.py:91-94 | two updates in a row equal one update with the merged arguments, the later value winning |
| Actions.SubtitleFile.UpdateStyleProperties | actions.py:91-94 | the candidate is the object the document holds; every key holding it sees the updated style, which is then the object held; nothing else changes |
| Actions.FirstKeyWithId | actions.py:98-99 | the position of the first key, in the dict's order, whose entry is the given object; no earlier key holds it |
| Actions.RemoveStyleOutcome | actions.py:97-102 | the call returns normally exactly when no key holds the style, and then nothing changes; otherwise only the first key holding it is deleted, both from the dict and from the key order, and the call raises DictChangedSize |
| Actions.SubtitleFile.RemoveStyle | actions.py:97-102 | the loop over the keys ends in the state and result RemoveStyleOutcome gives; info and events are untouched |
| Actions.AliasedStyleSurvivesRemoval | actions.py:97-102 | a style held under two keys keeps the second key after a removal, and the call raises |
| Actions.RemoveStyleEverywhereOutcome | actions.py:97-102 | no remaining key holds the style; every other entry is kept unchanged; no key is added; the remaining keys keep their order; the style is returned |
| Actions.SubtitleFile.RemoveStyleEverywhere | actions.py:97-102 | the document ends in the state RemoveStyleEverywhereOutcome gives; info and events are untouched |
| Actions.SubtitleFile.SelectAllEvents | actions.py:105-106 | the selection is the event list itself |
| EntityActions.FilterProperties | actions.py:113-123 | true exactly when each supplied flag key equals the event's flag under Python's `==` |
| EntityActions.FilterWithoutFlagsKeepsAll | actions.py:113-123 | with neither flag key supplied every event passes |
| EntityActions.FilterIgnoresOtherKeys | actions.py:113-123 | keys other than the two flags do not change the verdict |
| EntityActions.FilterOnComment | actions.py:117-118 | asking for comments drops a dialogue event; `1` and `1.0` ask the same as `True`; `None` keeps nothing |
| EntityActions.EventWithProperties | actions.py:139-141 | each supplied attribute takes the supplied value and each other attribute keeps its value; unknown keys, and keys naming the computed flags, are added as extra attributes; the flags and the identity are kept |
| EntityActions.UpdateKeepsFilterVerdict | actions.py:139-141 | an update that sets neither `type` nor `text` never changes whether the flag filter keeps the event |
| EntityActions.EventPropertiesLastWriteWins | actions.py:139-141 | two updates in a row equal one update with the merged arguments, the later value winning |
| Actions.SubtitleFile.UpdateEventProperties | actions.py:139-141 | the candidate is the event the document holds; the event list holds the updated event wherever it held the event; nothing else changes |
| Actions.SubtitleFile.DeleteEvent | actions.py:134-136 | fails with NotInList exactly when no event equals the argument, changing nothing; otherwise the first equal event is removed and the rest keep their order |
| Seqs.RemoveAtShape | actions.py:135 | removing one element shortens the list by one, keeps the order of the others and removes exactly that element from the multiset |
| FileList.GetFileList | main.py:23-37 | for a non-directory the result is exactly `[path]`; for a directory it is the walk's paths that match and are not excluded, each once, in order of first appearance |
| Seqs.FirstOccurrencesOrder | main.py:28-30 | the kept elements appear in the order of their first appearance in the input |
| FileList.AllLanguagesPattern | main.py:43-46 | with 'all' among the languages the subtitle pattern is the format pattern, whatever the other languages are |
| FileList.SpecificLanguagesPattern | main.py:43-46 | without 'all' the subtitle pattern puts the language group in front of the format group |
| FileList.SplitJoin | main.py:44-46 | the `|`-joined alternatives, split again, give back the given list when no alternative contains `|` |
| FileList.MediaPatternExtensions | main.py:60 | the media pattern is the extension pattern of mkv, mp4, webm, ts and ogg |
| FileList.SplitLines | main.py:50 | no line contains a line break, and the text is empty exactly when it has no lines |
| FileList.SplitLinesUnlines | main.py:49-50 | a file of newline-terminated paths reads back as exactly those paths |
| FileList.SplitLinesJoin | main.py:105-107 | one `"\n".join` of non-empty paths written to an empty file reads back as exactly those paths |
| FileList.SecondAppendGluesPaths | main.py:105-107 | after appending ["a", "b"] and then ["c", "d"] the file reads back as ["a", "bc", "d"] |
| FileList.TerminatedAppendsKeepPaths | main.py:105-107 | two appends of newline-terminated paths read back as both lists, in order |
| FileList.ExcludedPaths | main.py:48-52 | no exclusion file excludes nothing; otherwise the file's lines are excluded |
| FileList.GetSubtitlesFileList | main.py:40-54 | for a directory, a path is in the result exactly when it is walked, matches the subtitle pattern and is not excluded; each once, in order of first appearance |
| FileList.GetMediaFileList | main.py:57-68 | for a directory, a path is in the result exactly when it is walked, matches the media pattern and is not excluded; each once, in order of first appearance |

## Left out

- `run` (main.py:71-93) is not modelled. It is a process pool with callbacks and a progress bar; its point is concurrency.
- `main` (main.py:96-135), the rescan loop, argument parsing and logging are not modelled. They are I/O and process control. Only the text an append to an exclusion file adds is modelled (`FileList.AppendPaths`).
- The extractor and post-processing modules are not part of this model.
- The directory walk (`glob.iglob`), `os.path.isdir` and reading the exclusion file are not modelled; they are inputs. The model takes whatever sequence the walk yields, including any effect of gluing `**/**` onto a path without a trailing separator.
- Python's regular-expression engine is not modelled; matching is a function parameter. For the same reason `events_filter_regex` and `events_action_regex_substitution` (actions.py:109-131) are left out.
- `events_action_scale_position` (actions.py:57-70) is not modelled: it parses and formats floats over regular-expression matches. `Actions.SubtitleFile.ScaleEvent` takes it as a parameter that returns the new text or fails.
- `events_misc_remove_miscellaneous_events` (actions.py:144-145) is not modelled; it only delegates to the subtitle library.
- EntityActions.Scale: floating point is not modelled. The ratio is taken exactly and rounded half to even, so results near a tie may differ from the float computation. Font sizes and margins are integers.
- EntityActions.ScaledStyle: a missing dimension argument (a `KeyError` in the source) is not modelled, nor are non-numeric ones.
- EntityActions.ScaledEventMargins: same as ScaledStyle.
- EntityActions.StyleWithProperties: a value of the wrong type for a typed attribute is refused with WrongType. The source stores it as it is.
- EntityActions.EventWithProperties: same as StyleWithProperties.
- Actions.SubtitleFile.ScaleEvent: when the position rewrite fails part-way, the source keeps the replacements already made; the model keeps the old text.
- Actions.SubtitleFile.DeleteEvent: event equality is value equality, including the id. The subtitle library's own `__eq__` is not part of this model.
- Selections are value snapshots, not the live list or the live objects. The actions therefore require their candidate to be the value the document holds for that id, and return the new value. A client applying an action to each element of a selection must take each next candidate from the document, as `Actions.ScaleTwice` does; the model does not capture a selected list that changes when the document does.
- EntityActions.EventWithProperties: the flags `is_comment` and `is_drawing` are stored fields here, while the subtitle library computes them from the event's type and text. So an update of `type` or `text` never changes the flags in the model, as it may in the library.
- EntityActions.UpdateKeepsFilterVerdict: stated only for updates that set neither `type` nor `text`. In the library an update of `type` (to or from "Comment") or of `text` (adding or removing a drawing) can change a flag and so the filter's verdict; the model stores the flags and does not compute them.
- Values are ints, bools, strings, floats (as exact reals) and None. Other Python values (lists, dicts, objects) cannot be passed as keyword arguments or stored in the info dict.
- EntityActions.StyleWithProperties: the font size is an integer here, so a float font size such as `20.5` is refused with WrongType, while the library stores it.

## Findings

| source | as written | input that shows it | evidently intended | confidence | as-written member | corrected member |
|---|---|---|---|---|---|---|
| actions.py:97-102 | `styles_remove` deletes from the styles dict inside `for key in ssafile.styles.keys()`. The next step of the loop raises `RuntimeError`, so a found style is never returned, and any later key holding the same style object is kept. | the styles dict `{"Default": s, "Alias": s}` and `styles_remove(ssafile, s)` | every key holding the style is deleted and the style is returned | not executed | Actions.AliasedStyleSurvivesRemoval | Actions.RemoveStyleEverywhereOutcome |
| main.py:105-107 | each append to an exclusion file (here and again at main.py:133-135) writes the paths joined by `\n` with no newline after the last one | appending ["a", "b"] and then ["c", "d"] to an empty file: it reads back as ["a", "bc", "d"], so "b" and "c" are no longer excluded on the next scan | every appended path on its own line, e.g. each path followed by a newline | not executed | FileList.SecondAppendGluesPaths | FileList.TerminatedAppendsKeepPaths |

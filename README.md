# SmartAIKeyboard core, modelled in Dafny

This project models the logic of the SmartAIKeyboard Android keyboard (Kotlin) and proves properties of the model. It has four parts.

- **Pending-space engine** (`Engine`, from `SuggestionEngine`).
  - A space press commits nothing. It arms a pending space and a confirmation timer, and offers candidates (join, period, comma, space).
  - A chosen candidate edits the text around the caret. The timer commits the space itself if nothing was chosen.
  - A join can be undone once.
  - The input connection is a `TextSurface` object that holds the text before and after the caret. It is null when there is no connection. The Handler timer is an explicit posted callback, which `OnTimeout` runs.
- **Letter keyboard** (`KeyboardView`, from `DynamicKeyboardView`).
  - What a key commits and what its face shows under shift.
  - The long-press alternates, with the Russian ё/ъ special cases, and the hint drawn in a key's corner.
  - The column arithmetic that centres each letter row, and the rows `buildInto` lays out.
  - The touch handler of one key cell: down, long-press timer, move, and up or cancel.
- **Key popups** (`Popup`, from `KeyPopup`): the single preview bubble and the row of long-press options. It covers the nearest-option selection (`selectByTouchX`) and the `selectedIndex`/`optionViews` state that `showMulti`, `getSelected` and `hideAll` keep.
- **Layout loader** (`Layout`, from `KeyboardLayout`): `KeySpec`/`RowSpec`/`KeyboardSpec`, and the `load` loop that groups `<key>` elements into rows. The XML parser is replaced by the sequence of events it reports.

`Chars` holds the Kotlin string and character helpers the code relies on: `isWhitespace`, `isLetter`, `uppercase`, `lowercase`, `trim` and `split`. `Wrappers` holds `Option` (for Kotlin's nullable values) and `Min`/`Max`.

Objects whose fields the Kotlin code updates are classes whose methods state their whole new state: `TextSurface`, `SuggestionEngine`, `KeyPopup` and `KeyCell`. Pure computations are functions with lemmas. `buildOptions`, the argmin loop of `selectByTouchX`, the row loop of `buildInto` and the loader loop are methods proved against a specification function.

The scenario methods (`JoinUndoRoundTrip`, `JoinUndoAnyDocument`, `OneTerminalCommit`, `SpacePressedTwice`, `TimerThenCandidate`, `TwoCandidates`, `ShortPress`, `HeldPress`, `HeldAndSlid`) have two jobs. They drive fresh objects through an event sequence, and they state the end-to-end result.

### Where the code differs from what a user would expect

The model keeps each of these behaviours of the code.

- A JOIN does not check `pendingSpace`. It only needs `extractAround` to answer, which it does even when both words are empty.
- PERIOD, COMMA and SPACE leave `lastJoinContext` as it was. Only a space press and a successful undo clear it, so an undo stays available after a later period, and then rewrites the characters now before the caret.
- A connection with whitespace on both sides of the caret still yields period, comma and space. Only a missing connection, or a read that returns null, yields the space candidate alone.
- `applyCandidate` does not cancel the posted timer. It clears `pendingSpace`, so the callback commits nothing when it runs.
- PERIOD, COMMA and SPACE commit their text whether or not a space is pending. If the timer has already committed the space, choosing a period gives `" " + ". "`; two candidates chosen in one window are both committed (`TimerThenCandidate`, `TwoCandidates`).
- Undo after a join gives `L R`, with the caret after `R`. That is not the state before the join: then the space was only pending and the caret sat between `L` and `R`.
- ACTION_CANCEL commits the selected option or the label, as ACTION_UP does; a cancelled gesture would normally commit nothing.
- A long-press option is committed as listed, with no case change, even under shift.
- The hint is the first comma piece of `longPress`, not the first long-press option. Off the Russian layout, or for keys other than е/Е and ь/Ь, a blank first piece gives no hint, even when later pieces give options. On the Russian layout a non-blank piece wins over the ё/ъ fallback, so an е listing "x" hints x while its long press offers ё first.
- The ё/ъ fallback hint is always lower-case as computed. `refreshLabels`, which is not part of this model, redraws a one-letter hint through `displayMain`, so under shift the glyph shown is Ё or Ъ.
- ё is put first for е/Е even when `longPress` already lists it, so it is then offered twice.

## Model

| member | source | states |
|---|---|---|
| Layout.Load | app/src/main/java/com/github/dm17ryk/smartaikeyboard/layout/KeyboardLayout.kt:15-43 | the loop's rows are those of the row-grouping fold `Run` over the whole event sequence |
| Layout.Step | app/src/main/java/com/github/dm17ryk/smartaikeyboard/layout/KeyboardLayout.kt:22-39 | one turn of the loop never changes or drops emitted rows and adds at most one; `<row>` opens an empty row; `</row>` with an open row emits exactly that row and closes it, and with none changes nothing; other events change nothing |
| Layout.RunAppend | app/src/main/java/com/github/dm17ryk/smartaikeyboard/layout/KeyboardLayout.kt:21-41 | loading `a + b` is loading `a`, then continuing with `b` from the state it left |
| Layout.RowsOnlyGrow | app/src/main/java/com/github/dm17ryk/smartaikeyboard/layout/KeyboardLayout.kt:34-37 | rows already emitted are a prefix of the final rows: they are never changed or reordered |
| Layout.KeysAppend | app/src/main/java/com/github/dm17ryk/smartaikeyboard/layout/KeyboardLayout.kt:26-30 | inside an open row, key events append their keys in document order |
| Layout.KeysOutsideRowDropped | app/src/main/java/com/github/dm17ryk/smartaikeyboard/layout/KeyboardLayout.kt:29 | key events with no open row change nothing |
| Layout.RowRoundTrip | app/src/main/java/com/github/dm17ryk/smartaikeyboard/layout/KeyboardLayout.kt:25-37 | `<row>`, keys, `</row>` adds exactly one row holding those keys |
| Layout.LoadDocument | app/src/main/java/com/github/dm17ryk/smartaikeyboard/layout/KeyboardLayout.kt:15-43 | loading the document that describes a list of rows gives exactly those rows, in order |
| Layout.RestartDiscardsRow | app/src/main/java/com/github/dm17ryk/smartaikeyboard/layout/KeyboardLayout.kt:25 | a second `<row>` before `</row>` throws away the keys collected so far |
| Layout.OpenRowAtEndDropped | app/src/main/java/com/github/dm17ryk/smartaikeyboard/layout/KeyboardLayout.kt:21-41 | a row still open at the end of the document is not emitted |
| Layout.RowsOnlyOnEndRow | app/src/main/java/com/github/dm17ryk/smartaikeyboard/layout/KeyboardLayout.kt:33-37 | there are never more new rows than `</row>` events |
| Layout.OtherEventsIgnored | app/src/main/java/com/github/dm17ryk/smartaikeyboard/layout/KeyboardLayout.kt:22-39 | removing every event other than row and key tags leaves the result unchanged |
| Layout.MissingAttributes | app/src/main/java/com/github/dm17ryk/smartaikeyboard/layout/KeyboardLayout.kt:27-29 | a key without `l` and `lp` is recorded with the empty label and no long-press list |
| Chars.Split | app/src/main/java/com/github/dm17ryk/smartaikeyboard/ui/DynamicKeyboardView.kt:239 | `split` yields at least one piece, and no piece holds the separator |
| Chars.SplitJoin | app/src/main/java/com/github/dm17ryk/smartaikeyboard/ui/DynamicKeyboardView.kt:239 | splitting the separator-joined pieces gives those pieces back when none holds the separator |
| Chars.JoinSplit | app/src/main/java/com/github/dm17ryk/smartaikeyboard/ui/DynamicKeyboardView.kt:239 | joining the pieces of a split with the separator gives the string back |
| Chars.SplitPrefix | app/src/main/java/com/github/dm17ryk/smartaikeyboard/ui/DynamicKeyboardView.kt:239 | a separator-free prefix joins the first piece of the rest |
| Chars.TrimIsTrimmed | app/src/main/java/com/github/dm17ryk/smartaikeyboard/ui/DynamicKeyboardView.kt:239 | the result of `trim` starts and ends with a non-whitespace character, or is empty |
| Chars.TrimIsSlice | app/src/main/java/com/github/dm17ryk/smartaikeyboard/ui/DynamicKeyboardView.kt:239 | the result of `trim` is a contiguous piece of the input, starting after its leading whitespace |
| Chars.TrimCutsWhitespace | app/src/main/java/com/github/dm17ryk/smartaikeyboard/ui/DynamicKeyboardView.kt:239 | everything `trim` cuts on either side is whitespace |
| Chars.TrimAddsNothing | app/src/main/java/com/github/dm17ryk/smartaikeyboard/ui/DynamicKeyboardView.kt:239 | `trim` introduces no character that was not in its input |
| Chars.TrimOfTrimmed | app/src/main/java/com/github/dm17ryk/smartaikeyboard/ui/DynamicKeyboardView.kt:239 | a string with no whitespace at either end is its own `trim` |
| Chars.LowerFixedIff | app/src/main/java/com/github/dm17ryk/smartaikeyboard/ui/DynamicKeyboardView.kt:311 | lower-casing leaves a string unchanged if and only if it has no upper-case letter |
| Engine.LeadingWord | app/src/main/java/com/github/dm17ryk/smartaikeyboard/engine/SuggestionEngine.kt:126 | `takeWhile { !isWhitespace }` is a whitespace-free prefix that ends the string or stops at whitespace |
| Engine.TrailingWord | app/src/main/java/com/github/dm17ryk/smartaikeyboard/engine/SuggestionEngine.kt:125 | `takeLastWhile { !isWhitespace }` is a whitespace-free suffix that starts the string or follows whitespace |
| Engine.LeftWord | app/src/main/java/com/github/dm17ryk/smartaikeyboard/engine/SuggestionEngine.kt:121-125 | L is a whitespace-free suffix of the text before the caret, at most 40 long, and maximal within the 40-character window |
| Engine.RightWord | app/src/main/java/com/github/dm17ryk/smartaikeyboard/engine/SuggestionEngine.kt:122-126 | R is a whitespace-free prefix of the text after the caret, at most 40 long, and maximal within the 40-character window |
| Engine.TrailingWordIs | app/src/main/java/com/github/dm17ryk/smartaikeyboard/engine/SuggestionEngine.kt:125 | a whitespace-free suffix that starts the string or follows whitespace is the trailing word |
| Engine.LeadingWordIs | app/src/main/java/com/github/dm17ryk/smartaikeyboard/engine/SuggestionEngine.kt:126 | a whitespace-free prefix that ends the string or precedes whitespace is the leading word |
| Engine.LeftWordIs | app/src/main/java/com/github/dm17ryk/smartaikeyboard/engine/SuggestionEngine.kt:121-125 | a word of at most 40 characters after whitespace or the document start is extracted whole as L |
| Engine.RightWordIs | app/src/main/java/com/github/dm17ryk/smartaikeyboard/engine/SuggestionEngine.kt:122-126 | a word of at most 40 characters before whitespace or the document end is extracted whole as R |
| Engine.ExtractAround | app/src/main/java/com/github/dm17ryk/smartaikeyboard/engine/SuggestionEngine.kt:119-128 | null without a connection or when a read returns null; otherwise L and R as `ExtractAroundWords` states them |
| Engine.ExtractAroundWords | app/src/main/java/com/github/dm17ryk/smartaikeyboard/engine/SuggestionEngine.kt:121-126 | with a readable connection, L is a whitespace-free word of at most 40 characters ending at the caret and R one starting at it |
| Engine.GenerateCandidates | app/src/main/java/com/github/dm17ryk/smartaikeyboard/engine/SuggestionEngine.kt:100-116 | the candidate kinds are [Space] without context, [Join, Period, Comma, Space] inside a word, otherwise [Period, Comma, Space]; a join previews L + R |
| Engine.CandidateOrder | app/src/main/java/com/github/dm17ryk/smartaikeyboard/engine/SuggestionEngine.kt:100-116 | 1, 3 or 4 candidates in strictly increasing fixed order, space last, join only first, period and comma exactly when there is context |
| Engine.CatFishCandidates | app/src/main/java/com/github/dm17ryk/smartaikeyboard/engine/SuggestionEngine.kt:105-114 | "cat" and "fish" around the caret give join, period, comma, space |
| Engine.BlankSurroundings | app/src/main/java/com/github/dm17ryk/smartaikeyboard/engine/SuggestionEngine.kt:103-114 | empty words on both sides still give three candidates; no context gives the space candidate alone |
| Engine.ReplaceAroundPending | app/src/main/java/com/github/dm17ryk/smartaikeyboard/engine/SuggestionEngine.kt:131-138 | deletes up to `leftLen` characters before and `rightLen` after the caret, then inserts the new text before the caret |
| Engine.JoinSplice | app/src/main/java/com/github/dm17ryk/smartaikeyboard/engine/SuggestionEngine.kt:53-58 | with L ending the text before the caret and R starting the text after it, replacing them by L + R moves R across the caret and keeps the document text |
| Engine.ReplaceWords | app/src/main/java/com/github/dm17ryk/smartaikeyboard/engine/SuggestionEngine.kt:56-58 | the join's replacement leaves `before + R` and `after` without its first `|R|` characters, so the document text is unchanged and only the caret moves |
| Engine.UndoneAfterJoin | app/src/main/java/com/github/dm17ryk/smartaikeyboard/engine/SuggestionEngine.kt:85-90 | undoing right after a join restores `L + " " + R` before the caret |
| Engine.SuggestionEngine.constructor | app/src/main/java/com/github/dm17ryk/smartaikeyboard/engine/SuggestionEngine.kt:14-16 | a new engine has no pending space, no join context and no posted callback |
| Engine.SuggestionEngine.OnSpacePressed | app/src/main/java/com/github/dm17ryk/smartaikeyboard/engine/SuggestionEngine.kt:19-35 | with no connection nothing changes and no candidates are shown; otherwise the space is pending, the context cleared, one callback posted for this connection, the candidates are those of the current context, and the document is not touched |
| Engine.SuggestionEngine.OnTimeout | app/src/main/java/com/github/dm17ryk/smartaikeyboard/engine/SuggestionEngine.kt:29-34 | the posted callback is consumed; it commits one space exactly when it was posted and the space is still pending, and then clears the pending space; the join context and the connection's batch depth are kept |
| Engine.SuggestionEngine.OnCharCommitted | app/src/main/java/com/github/dm17ryk/smartaikeyboard/engine/SuggestionEngine.kt:38-45 | the refreshed candidates while pending, an empty list otherwise; no state changes |
| Engine.SuggestionEngine.ApplyCandidate | app/src/main/java/com/github/dm17ryk/smartaikeyboard/engine/SuggestionEngine.kt:48-79 | false and no change without a connection, or for a join without context; period, comma and space commit exactly ". ", ", " and " ", clear the pending space and keep the join context; a join keeps the document text, moves R before the caret and stores (L, R) |
| Engine.SuggestionEngine.ApplyJoin | app/src/main/java/com/github/dm17ryk/smartaikeyboard/engine/SuggestionEngine.kt:51-62 | succeeds exactly when context is extracted; then the text is unchanged, the caret moves after R, the pending space is cleared and (L, R) stored |
| Engine.SuggestionEngine.UndoJoin | app/src/main/java/com/github/dm17ryk/smartaikeyboard/engine/SuggestionEngine.kt:82-93 | succeeds exactly with a connection and a stored context; then the last \|L\|+\|R\| characters before the caret become `L + " " + R` and the context is cleared; otherwise nothing changes |
| Engine.JoinUndoRoundTrip | app/src/main/java/com/github/dm17ryk/smartaikeyboard/engine/SuggestionEngine.kt:19-93 | space, join, timer, undo, undo: the join gives `b + L + R + a` with the caret after R; the timer adds nothing; the undo gives `b + L + " " + R + a`; the second undo fails |
| Engine.JoinUndoText | app/src/main/java/com/github/dm17ryk/smartaikeyboard/engine/SuggestionEngine.kt:56-90 | with L ending the text before the caret and R starting the text after it, the join keeps the text and the undo turns it into the text with a space at the old caret |
| Engine.JoinUndoAnyDocument | app/src/main/java/com/github/dm17ryk/smartaikeyboard/engine/SuggestionEngine.kt:19-93 | on any readable document, space, join and undo: the join keeps the text, and the undo leaves the text with the space committed at the old caret and the caret after R |
| Engine.OneTerminalCommit | app/src/main/java/com/github/dm17ryk/smartaikeyboard/engine/SuggestionEngine.kt:19-77 | one armed window closed by a single period, comma or space, or by the timer alone, with the timer coming due again afterwards, puts exactly one terminal text in the document |
| Engine.SpacePressedTwice | app/src/main/java/com/github/dm17ryk/smartaikeyboard/engine/SuggestionEngine.kt:28-34 | a second space press replaces the first callback, so two presses and the timer commit a single space |
| Engine.TimerThenCandidate | app/src/main/java/com/github/dm17ryk/smartaikeyboard/engine/SuggestionEngine.kt:28-77 | the timer comes due and commits the space; a period, comma or space chosen afterwards is committed too, so the document gets `" "` and then that text |
| Engine.TwoCandidates | app/src/main/java/com/github/dm17ryk/smartaikeyboard/engine/SuggestionEngine.kt:48-77 | two period, comma or space candidates chosen in one window are both committed, in order |
| Popup.Clamp | app/src/main/java/com/github/dm17ryk/smartaikeyboard/ui/KeyPopup.kt:116 | `coerceIn` gives a value in [lo, hi]: the value itself inside, the nearer bound outside |
| Popup.Centre | app/src/main/java/com/github/dm17ryk/smartaikeyboard/ui/KeyPopup.kt:121 | the doubled centre of an option lies within its span and is equally far from both of its edges |
| Popup.Highlight | app/src/main/java/com/github/dm17ryk/smartaikeyboard/ui/KeyPopup.kt:125 | the option texts are kept and only the chosen option is at full alpha |
| Popup.NearestIndex | app/src/main/java/com/github/dm17ryk/smartaikeyboard/ui/KeyPopup.kt:118-124 | the fallback for no options; otherwise an index of minimal distance to x, with every earlier index strictly farther (the earliest wins a tie) |
| Popup.NearestExamples | app/src/main/java/com/github/dm17ryk/smartaikeyboard/ui/KeyPopup.kt:118-124 | options centred at 10, 30 and 50 (coordinates doubled): a touch at 28 selects index 1, and a touch at 20 (a tie) selects index 0 |
| Popup.KeyPopup.constructor | app/src/main/java/com/github/dm17ryk/smartaikeyboard/ui/KeyPopup.kt:62-65 | no preview is shown, the option list is empty and `selectedIndex` is 0 |
| Popup.KeyPopup.GetSelected | app/src/main/java/com/github/dm17ryk/smartaikeyboard/ui/KeyPopup.kt:130 | some text exactly when `selectedIndex` is within the options, and then it is that option's text |
| Popup.KeyPopup.HideAll | app/src/main/java/com/github/dm17ryk/smartaikeyboard/ui/KeyPopup.kt:132-135 | both previews hidden, the option list emptied, `selectedIndex` kept, so nothing is selected |
| Popup.KeyPopup.ShowSingle | app/src/main/java/com/github/dm17ryk/smartaikeyboard/ui/KeyPopup.kt:29-57 | hides everything, then shows only the bubble with the text |
| Popup.KeyPopup.UpdateSingle | app/src/main/java/com/github/dm17ryk/smartaikeyboard/ui/KeyPopup.kt:59 | the bubble's text changes only if the bubble is shown; nothing else changes |
| Popup.KeyPopup.ShowMulti | app/src/main/java/com/github/dm17ryk/smartaikeyboard/ui/KeyPopup.kt:67-88 | only the option row is shown, holding the options in order, with the clamped initial index selected and alone highlighted |
| Popup.KeyPopup.SelectByTouchX | app/src/main/java/com/github/dm17ryk/smartaikeyboard/ui/KeyPopup.kt:113-128 | without a row, returns `selectedIndex` and changes nothing; otherwise selects, highlights alone and returns the option nearest the touch clamped into the row (the earliest on a tie), options unchanged |
| KeyboardView.OutputFor | app/src/main/java/com/github/dm17ryk/smartaikeyboard/ui/DynamicKeyboardView.kt:345 | under shift no lower-case letter remains and other characters are kept; without shift the label as written |
| KeyboardView.DisplayMain | app/src/main/java/com/github/dm17ryk/smartaikeyboard/ui/DynamicKeyboardView.kt:311 | under shift no lower-case letter remains, without shift no upper-case letter remains; characters of the other class are kept |
| KeyboardView.FaceShowsOutput | app/src/main/java/com/github/dm17ryk/smartaikeyboard/ui/DynamicKeyboardView.kt:311 | the face shows what a short press commits if and only if shift is on or the label has no upper-case letter |
| KeyboardView.TrimAll | app/src/main/java/com/github/dm17ryk/smartaikeyboard/ui/DynamicKeyboardView.kt:239 | `map { it.trim() }`: one trimmed piece per input piece, in order |
| KeyboardView.NonEmpty | app/src/main/java/com/github/dm17ryk/smartaikeyboard/ui/DynamicKeyboardView.kt:239 | `filter { it.isNotEmpty() }`: no longer than the input, and every kept piece is non-empty and was in the input |
| KeyboardView.CleanPieces | app/src/main/java/com/github/dm17ryk/smartaikeyboard/ui/DynamicKeyboardView.kt:239 | the cleaned pieces are no more than the pieces and none is empty |
| KeyboardView.LongPressOptions | app/src/main/java/com/github/dm17ryk/smartaikeyboard/ui/DynamicKeyboardView.kt:236-239 | no options without the attribute, and never more options than comma pieces; `LongPressOptionsClean` and `OptionsRoundTrip` state what they are |
| KeyboardView.TrimAllAppend | app/src/main/java/com/github/dm17ryk/smartaikeyboard/ui/DynamicKeyboardView.kt:239 | trimming works piece by piece: trimming `a + b` is trimming `a`, then `b` |
| KeyboardView.NonEmptyAppend | app/src/main/java/com/github/dm17ryk/smartaikeyboard/ui/DynamicKeyboardView.kt:239 | filtering distributes over concatenation, so order is kept |
| KeyboardView.CleanPiecesAppend | app/src/main/java/com/github/dm17ryk/smartaikeyboard/ui/DynamicKeyboardView.kt:239 | cleaning works piece by piece: cleaning `a + b` is cleaning `a`, then `b` |
| KeyboardView.CleanPiecesClean | app/src/main/java/com/github/dm17ryk/smartaikeyboard/ui/DynamicKeyboardView.kt:239 | every cleaned piece is trimmed, and holds no separator when no input piece did |
| KeyboardView.NonEmptyFixed | app/src/main/java/com/github/dm17ryk/smartaikeyboard/ui/DynamicKeyboardView.kt:239 | filtering keeps a list with no empty piece as it is |
| KeyboardView.CleanPiecesFixed | app/src/main/java/com/github/dm17ryk/smartaikeyboard/ui/DynamicKeyboardView.kt:239 | non-empty trimmed pieces come through cleaning unchanged |
| KeyboardView.OptionsRoundTrip | app/src/main/java/com/github/dm17ryk/smartaikeyboard/ui/DynamicKeyboardView.kt:239 | clean options written as a comma-separated attribute parse back to exactly those options |
| KeyboardView.LongPressOptionsClean | app/src/main/java/com/github/dm17ryk/smartaikeyboard/ui/DynamicKeyboardView.kt:239 | every listed option is non-empty, trimmed and free of commas |
| KeyboardView.BuildOptions | app/src/main/java/com/github/dm17ryk/smartaikeyboard/ui/DynamicKeyboardView.kt:232-245 | the list built step by step is the key's alternates: optional ё, the listed options, optional ъ |
| KeyboardView.Augment | app/src/main/java/com/github/dm17ryk/smartaikeyboard/ui/DynamicKeyboardView.kt:233-243 | the Russian ё/ъ additions to the listed options, as `AugmentRules` states them case by case |
| KeyboardView.Alternates | app/src/main/java/com/github/dm17ryk/smartaikeyboard/ui/DynamicKeyboardView.kt:232-245 | the options a long press offers: the listed options with the Russian additions, as `AugmentRules` and `BuildOptions` state |
| KeyboardView.AugmentRules | app/src/main/java/com/github/dm17ryk/smartaikeyboard/ui/DynamicKeyboardView.kt:233-243 | off the Russian layout, or for letters other than е/Е and ь/Ь, the listed options alone; for е/Е ё (Ё under shift) first; for ь/Ь ъ (Ъ under shift) is offered, and appended last exactly when it is not listed; cleanliness is kept |
| KeyboardView.YoOfferedTwice | app/src/main/java/com/github/dm17ryk/smartaikeyboard/ui/DynamicKeyboardView.kt:235-239 | е with `longPress` "ё" on the Russian layout offers ё twice |
| KeyboardView.AltHint | app/src/main/java/com/github/dm17ryk/smartaikeyboard/ui/DynamicKeyboardView.kt:332-343 | a hint is never empty, and there is none off the Russian layout without `longPress` |
| KeyboardView.HintIsFirstOption | app/src/main/java/com/github/dm17ryk/smartaikeyboard/ui/DynamicKeyboardView.kt:332-343 | with shift off: off the Russian layout a hint is the first long-press option; on it, an unlisted е hints the ё its long press puts first; on either layout a hint is one of the options a long press offers |
| KeyboardView.FirstPieceListed | app/src/main/java/com/github/dm17ryk/smartaikeyboard/ui/DynamicKeyboardView.kt:239 | a non-blank first comma piece is one of the parsed long-press options |
| KeyboardView.HintUnderShift | app/src/main/java/com/github/dm17ryk/smartaikeyboard/ui/DynamicKeyboardView.kt:233-243 | the hint is fixed when the key is built, the options at long-press time: a hint taken from the attribute is offered under either shift; the ё/ъ fallback is matched by the options only in the case shift gives, so with shift on an unlisted е hints ё but its long press offers only Ё |
| KeyboardView.AltHintRule | app/src/main/java/com/github/dm17ryk/smartaikeyboard/ui/DynamicKeyboardView.kt:332-343 | a non-blank first comma piece is the hint on either layout, ahead of the Russian fallback; without one, on the Russian layout е/Е hints ё and ь/Ь hints ъ in lower case, and every other key gets no hint |
| KeyboardView.HintAheadOfYo | app/src/main/java/com/github/dm17ryk/smartaikeyboard/ui/DynamicKeyboardView.kt:233-243 | on the Russian layout an е whose `longPress` is "x" hints x, while its long press offers ё first |
| KeyboardView.HintSkipsLaterPieces | app/src/main/java/com/github/dm17ryk/smartaikeyboard/ui/DynamicKeyboardView.kt:333 | `longPress` ",y" gives no hint, though its long press offers y |
| KeyboardView.IsRuLayout | app/src/main/java/com/github/dm17ryk/smartaikeyboard/ui/DynamicKeyboardView.kt:327-330 | true if and only if row 1 exists and holds more than ten keys |
| KeyboardView.TargetColumns | app/src/main/java/com/github/dm17ryk/smartaikeyboard/ui/DynamicKeyboardView.kt:76-82 | eleven columns in every Russian letter row, otherwise ten in the first letter row and nine in the others |
| KeyboardView.HalfTowardZero | app/src/main/java/com/github/dm17ryk/smartaikeyboard/ui/DynamicKeyboardView.kt:94 | Kotlin's `extra / 2`: within one of half, and never beyond half in the direction away from zero |
| KeyboardView.Padding | app/src/main/java/com/github/dm17ryk/smartaikeyboard/ui/DynamicKeyboardView.kt:92-96 | for extra ≥ 0 the pads add up to extra and the right one is the left one or one more; for extra ≤ 0 both are 0 |
| KeyboardView.RowWidth | app/src/main/java/com/github/dm17ryk/smartaikeyboard/ui/DynamicKeyboardView.kt:91-122 | a letter row is as wide as its target when its keys fit and otherwise just holds them, with two more columns in the third letter row |
| KeyboardView.RowKeys | app/src/main/java/com/github/dm17ryk/smartaikeyboard/ui/DynamicKeyboardView.kt:91-122 | the letter cells of a letter row are its keys, in order |
| KeyboardView.LetterRow | app/src/main/java/com/github/dm17ryk/smartaikeyboard/ui/DynamicKeyboardView.kt:91-126 | a letter row holds at least its keys, and the third letter row starts with shift and ends with delete; `RowWidth` and `RowKeys` give its width and its keys |
| KeyboardView.LetterRowsAt | app/src/main/java/com/github/dm17ryk/smartaikeyboard/ui/DynamicKeyboardView.kt:81-82 | letter row i is laid out with index i, the keys of layout row i + 1 and that index's target columns |
| KeyboardView.RowsOf | app/src/main/java/com/github/dm17ryk/smartaikeyboard/ui/DynamicKeyboardView.kt:45-144 | one keyboard row per layout row plus the bottom row |
| KeyboardView.RowsOfAt | app/src/main/java/com/github/dm17ryk/smartaikeyboard/ui/DynamicKeyboardView.kt:57-141 | row 0 is the number row without the Russian flag, rows 1 to n-1 are the letter rows, and the last is language, space and enter |
| KeyboardView.RowsOfShape | app/src/main/java/com/github/dm17ryk/smartaikeyboard/ui/DynamicKeyboardView.kt:57-141 | every keyboard row holds its layout row's keys in order, each letter row has its target width when its keys fit, and the last row is the bottom row |
| KeyboardView.BuildInto | app/src/main/java/com/github/dm17ryk/smartaikeyboard/ui/DynamicKeyboardView.kt:45-144 | the rows laid out by the loop are exactly `RowsOf` of the layout |
| KeyboardView.KeyCell.constructor | app/src/main/java/com/github/dm17ryk/smartaikeyboard/ui/DynamicKeyboardView.kt:186-189 | a fresh cell is not escalated, has no options, no posted timer and has sent nothing |
| KeyboardView.Emission | app/src/main/java/com/github/dm17ryk/smartaikeyboard/ui/DynamicKeyboardView.kt:214-222 | a release sends at most one text: the selected option after an escalation with options (nothing when none is selected), otherwise the shift-adjusted label |
| KeyboardView.KeyCell.Down | app/src/main/java/com/github/dm17ryk/smartaikeyboard/ui/DynamicKeyboardView.kt:204-208 | not escalated, the shift-adjusted label previewed alone with the option list emptied and the popup's `selectedIndex` kept, one more long-press timer posted, nothing sent |
| KeyboardView.KeyCell.RunLongPress | app/src/main/java/com/github/dm17ryk/smartaikeyboard/ui/DynamicKeyboardView.kt:191-200 | escalated with the key's alternates; the popup shows exactly those with the first selected, or is left alone when there are none |
| KeyboardView.KeyCell.LongPressFires | app/src/main/java/com/github/dm17ryk/smartaikeyboard/ui/DynamicKeyboardView.kt:191-207 | with no posted timer nothing changes; otherwise one is consumed and the runnable's effect follows |
| KeyboardView.KeyCell.Move | app/src/main/java/com/github/dm17ryk/smartaikeyboard/ui/DynamicKeyboardView.kt:209-213 | only after an escalation with options does the selection move, to the option nearest the touch; options and previews never change |
| KeyboardView.KeyCell.Release | app/src/main/java/com/github/dm17ryk/smartaikeyboard/ui/DynamicKeyboardView.kt:214-224 | every timer removed and both previews hidden; after an escalation with options the selected option is sent (none if nothing is selected), otherwise the shift-adjusted label; a valid press sends exactly one text, and an option it sends is one of the options |
| KeyboardView.KeyCell.OnTouch | app/src/main/java/com/github/dm17ryk/smartaikeyboard/ui/DynamicKeyboardView.kt:202-227 | down previews the shift-adjusted label alone, resets the escalation and posts one more timer; move changes only the selection, to the nearest option after an escalation with options; up and cancel alike clear the timers, hide both previews, end the press and send the release text; down and move send nothing |
| KeyboardView.ShortPress | app/src/main/java/com/github/dm17ryk/smartaikeyboard/ui/DynamicKeyboardView.kt:202-224 | down then up before the timer sends the shift-adjusted label once |
| KeyboardView.HeldPress | app/src/main/java/com/github/dm17ryk/smartaikeyboard/ui/DynamicKeyboardView.kt:186-224 | down, timer, then up or cancel sends the first alternate, or the label when the key has none |
| KeyboardView.HeldAndSlid | app/src/main/java/com/github/dm17ryk/smartaikeyboard/ui/DynamicKeyboardView.kt:186-224 | down, timer, move, up sends the alternate nearest the last touch, or the label when the key has none |

## Left out

- `LlmKeyboardService` (the IME service), which creates the views and wires the candidate bar, undo chip and Enter key to the engine: it is UI glue. `LlmKeyboardService.kt` is not part of this model.
- Rendering: views, styling, `dp` conversion, popup sizes and offsets, measuring, and `refreshLabels`. The model keeps what each row cell is (letter, spacer or special key) and what each preview shows, not how it is drawn.
- The special keys' click handlers (`addSpecialColumn`, `addSpecialFixed`, `addSpecialWeighted`) are left out. They only forward `onKey` with the special key; the model places these keys in the rows but does not press them.
- Real time: the 250 ms confirmation delay and the 300 ms long-press delay. Each timer is a posted flag or count, and its firing is an explicit method call (`OnTimeout`, `LongPressFires`). Cancelling a timer clears it.
- Chars.IsWhitespace, Chars.IsLetter and the case maps: these are concrete tables, not the full Unicode property tables. Whitespace is Java's `isWhitespace`/`isSpaceChar` set. Letters are the Basic Latin and Latin-1 letters and U+0400 to U+045F. Case mapping covers ASCII and U+0400 to U+045F. Case mappings that change a string's length are not modelled.
- Popup.KeyPopup.SelectByTouchX: the float coordinates are integers, doubled so that half-pixel centres stay exact. The option geometry the layout engine measured is a parameter.
- The XML pull parser and resource loading: the loader works on the sequence of events the parser reports.
- Engine.LeftWord, Engine.RightWord, Engine.TextSurface.DeleteSurroundingText: lengths and the 40-character window are counted in characters, not UTF-16 units. They differ when the text holds characters outside the Basic Multilingual Plane: the real window then holds fewer characters and can split a surrogate pair.
- Engine.TextSurface: the input connection keeps only the text before and after the caret, whether reads answer, and the batch-edit depth. Listeners never see the inside of a batch, and reads are assumed to return whole prefixes/suffixes.
- KeyboardView.BuildInto requires at least one layout row, because `rows.first()` throws on an empty layout. The model does not include the exception.
- Popup.KeyPopup.ShowMulti requires at least one option, because `coerceIn(0, -1)` throws; its caller calls it only with options.

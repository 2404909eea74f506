# Diogenes desktop client: main process and first-run page

Diogenes is a desktop application for reading and searching Greek and Latin
corpora. Its Electron client starts a local server, waits for the server to
write a lock file, and then loads either the first-run page or the server's
home page. On the first-run page the user picks where each database lives.
The main process also opens PDF pages of the *Thesaurus Linguae Latinae*
(TLL) and the *Oxford Latin Dictionary* (OLD) in windows of their own.

This project models that core in Dafny:

- `jstext.dfy` (`JsText`): the JavaScript building blocks the client relies
  on. These are the line terminators and white space of its regular
  expressions, `split` on one character, `toLowerCase` on ASCII letters,
  `replace(/\/$/, '')`, and the decimal text of a number.
- `prefs.dfy` (`Prefs`): the preferences file `diogenes.prefs`.
  - writeToSettings rewrites it.
  - getTLLpath, getOLDpath and the first-run page read it back.
  - checkDbSet tests it.
  Each regular expression is worked out by hand in `MatchAt`.
- `geometry.dfy` (`Geometry`): how createWindow places a new window, and the
  snapshot saveWindowState stores.
- `readiness.dfy` (`Readiness`): loadWhenLocked's watch callback and
  loadFirstPage, as a step function over filesystem events.
- `resolver.dfy` (`Resolver`): the pure part of showPDF, showTLL, showOLD
  and tllFileMapRead. This covers dispatching a pseudo-URL, reading the page
  number, parsing the TLL volume list and building the `file://` location.
- `session.dfy` (`Main`): the main process's mutable state as the class
  `Session`. It holds the window records, the global `windows` registry,
  the startup globals, the TLL volume map, `OLDwindow`, the files, and the
  dialogs and console lines. Its methods are the event handlers and IPC
  operations.
- `firstrun.dfy` (`FirstRun`): the first-run page as the class `Page`,
  whose fields are its DOM.

The main properties proved:

- Round trips through the preferences file.
  - A location written by writeToSettings is read back by getTLLpath and
    getOLDpath, and by the first-run page.
  - After any write, the next start goes to the home page.
- The start-up handshake loads the first page at most once: on the first
  event that parses the lock file while the first window is alive.
- The window registry stays well formed, with each live window registered
  exactly once. Closing by title removes exactly the windows that carry it
  and keeps the order of the rest.
- showPDF's whole effect, for each pseudo-URL: the windows closed (each
  saving its state as it closes), the new window and where it is placed,
  the volume map, `OLDwindow`, the dialogs and the console lines.
- The volume list maps each volume to its last entry.
- A volume written into a pseudo-URL is dispatched back to the TLL viewer.
- firstrunSetup's loop, modelled as a `while` loop over the page's field
  values, shows for each database the path the preferences file gives.

The list pattern `[\d\.o]+` accepts only digits, dots and `o`, so a volume
such as `IV.2.o` is never mapped; showTLL then checks for `<dir>/undefined`
(`Resolver.UnmappedPath`). A volume named like a member of `Object.prototype`,
such as `constructor`, finds that member in `tllFileMap` instead
(`Resolver.InheritedPath`). createWindow leaves a window without a stored
position to the platform, which the model places at `Main.Session.origin`
(`Main.PlacedAt`). createWindow tests the key `maximzed`, while
saveWindowState writes `maximized`. The model keeps that difference
(`Geometry.MaximizedIsForgotten`).

## Model

| member | source | states |
|---|---|---|
| JsText.LineEnd | client/main.js:889 | where `.*$` stops in multiline mode: the first line terminator at or after a position, or the end; nothing before it is a terminator |
| JsText.SpaceEnd | client/main.js:889 | how far a greedy `\s+` reaches: every character up to the end is white space and the next one is not |
| JsText.LineEndIs | client/main.js:889 | a position that closes a terminator-free stretch is the line end |
| JsText.SpaceEndIs | client/main.js:889 | a position that closes a run of white space is where `\s+` stops |
| JsText.IndexOf | client/main.js:364-365 | the first occurrence of a pattern at or after a position: it occurs there and nowhere earlier |
| JsText.LowerAscii | client/main.js:827 | `toLowerCase` on ASCII letters: same length, each upper-case letter lowered, every other character kept |
| JsText.StripTrailingSlash | client/main.js:1030 | `replace(/\/$/, '')` removes exactly one trailing slash, and only when there is one |
| JsText.Split | client/main.js:987 | `split` on one character: never empty, no piece holds the separator, and joining the pieces gives the text back |
| JsText.NatText | client/main.js:408 | the decimal text of a number: non-empty digits without a leading zero |
| JsText.NatTextValue | client/main.js:408 | the decimal text reads back as the number it writes |
| Prefs.StripQuotes | client/pages/firstrun.js:12-13 | the lazy group of `"?(.*?)"?$` is the rest of the line with at most one quote dropped from each end |
| Prefs.MatchAt | client/main.js:829 | a match at a position starts there with the key and ends at a line end |
| Prefs.FirstMatch | client/main.js:831-832 | the leftmost match: it is at a line start, and no earlier line start matches |
| Prefs.ExpandReplacement | client/main.js:832 | the text `replace` inserts for a pattern without groups: `$$`, `$&`, `` $` `` and `$'` expanded, every other character kept (see Prefs.ExpandLiteral) |
| Prefs.Rewrite | client/main.js:828-836 | writeToSettings' new text: the first line starting with the key, up to its line end, replaced by the expanded `<db>_dir "<path>"`, or that line appended after a line break (see Prefs.RewriteReplacesFirst and Prefs.RewriteAppends) |
| Prefs.WriteToSettings | client/main.js:818-837 | an undefined folder leaves the file as it was; any folder leaves a file |
| Prefs.GetDir | client/main.js:878-895 | unreadable exactly when there is no file; a path found is non-empty and lies on one line |
| Prefs.GetTllPath | client/main.js:878-895 | getTLLpath: Prefs.GetDir for the key `tll_pdf_dir` (see Prefs.TllKeyIs and Prefs.WriteTllThenGetTll) |
| Prefs.GetOldPath | client/main.js:1095-1112 | getOLDpath: Prefs.GetDir for the key `old_pdf_dir` (see Prefs.OldKeyIs and Prefs.WriteOldThenGetOld) |
| Prefs.CheckDbSet | client/main.js:357-369 | checkDbSet: the file can be read and contains `_dir ` (see Prefs.WriteSetsDb) |
| Prefs.FirstrunPath | client/pages/firstrun.js:11-15 | the path the first-run page reads never crosses a line end |
| Prefs.ExpandLiteral | client/main.js:832 | a replacement without `$` is inserted as it is |
| Prefs.PlainKey | client/main.js:827-829 | a plain database name gives a key without line breaks or `$` |
| Prefs.PlainLine | client/main.js:828 | a plain name and a writable path give a new line without `$` |
| Prefs.RewriteReplacesFirst | client/main.js:829-832 | with a line starting with the key, exactly the first such line, up to its line end, becomes `<db>_dir "<path>"` and everything else is kept |
| Prefs.RewriteAppends | client/main.js:833-834 | with no such line, a line break and the new line are appended |
| Prefs.NoKeyBefore | client/main.js:829-834 | text that agrees with the old text before a line start has no earlier line starting with the key |
| Prefs.FirstMatchIs | client/main.js:889 | the leftmost match is at the first line start where the key begins, when the pattern matches there |
| Prefs.StripQuotesOneLine | client/pages/firstrun.js:12-13 | stripping quotes keeps a one-line piece on one line |
| Prefs.LooseGroupOneLine | client/pages/firstrun.js:12-13 | the first-run page's group never crosses a line end |
| Prefs.QuotedAt | client/main.js:889 | once the white space run and the line end are known, `\s+"(.*)"$` captures what lies between the quotes |
| Prefs.LooseQuotedAt | client/pages/firstrun.js:12-13 | once the white space run and the line end are known, the loose pattern captures the rest of the line without its quotes |
| Prefs.QuotedGroupAt | client/main.js:1106 | the same as QuotedAt, with the captured group named |
| Prefs.LooseGroupAt | client/pages/firstrun.js:12-13 | the same as LooseQuotedAt, with the captured group named |
| Prefs.StripBothQuotes | client/pages/firstrun.js:12-13 | stripping the quotes from `"<path>"` gives the path |
| Prefs.QuotedOneLine | client/main.js:828 | a quoted one-line path lies on one line |
| Prefs.QuotedStretch | client/pages/firstrun.js:12-13 | the stretch `"<path>"` is stripped to the path |
| Prefs.SettingLineMatches | client/main.js:889 | a line `<key> "<path>"` reads back as the path under both quoted patterns |
| Prefs.SettingLineLayout | client/main.js:828-834 | the written line, placed between text before it and a line end, lies where the reading rules expect it |
| Prefs.WrittenLineFirst | client/main.js:829-836 | after writeToSettings, the new line starts a line, ends at a line end, and no earlier line starts with the key |
| Prefs.WriteThenGetDir | client/main.js:818-837 | round trip: after a non-empty writable path is written, the getTLLpath rule for that key returns it |
| Prefs.WriteThenFirstrun | client/pages/firstrun.js:11-15 | round trip: the first-run page shows any writable path as it was written, even an empty one |
| Prefs.TllKeyIs | client/main.js:889 | the key of `TLL_PDF` is `tll_pdf_dir` |
| Prefs.OldKeyIs | client/main.js:1106 | the key of `OLD_PDF` is `old_pdf_dir` |
| Prefs.WriteTllThenGetTll | client/main.js:878-895 | setting the TLL location and then asking getTLLpath gives it back |
| Prefs.WriteOldThenGetOld | client/main.js:1095-1112 | setting the OLD location and then asking getOLDpath gives it back |
| Prefs.DirSpaceAt | client/main.js:364 | a key followed by a space contains `_dir ` |
| Prefs.WriteSetsDb | client/main.js:357-369 | after any location is written, checkDbSet holds |
| Prefs.GetDirNeedsKeyLine | client/main.js:889-894 | with no line starting with the key, getTLLpath finds nothing |
| Prefs.EmptyQuotesNotSet | client/main.js:890-894 | a key line with empty quotes reads as unset |
| Geometry.ChooseBounds | client/main.js:73-114 | `x` and `y` are undefined together, exactly when there is no reset, no parent and no saved bounds, and the size is then 800 by 600 |
| Geometry.Snapshot | client/main.js:372-377 | `maximized` is recorded; bounds are recorded exactly when not maximized; the misspelt key is never written |
| Geometry.OpensMaximized | client/main.js:118-120 | a new window is maximized exactly when the stored state has a true `maximzed` key (see Geometry.MaximizedIsForgotten) |
| Geometry.ResetIgnoresState | client/main.js:76-83 | with the reset flag the window goes to (0, 0), 800 by 600, whatever else is given |
| Geometry.SizeFromSavedOnly | client/main.js:84-113 | the size is the saved size, else 800 by 600; the parent and offset never change it |
| Geometry.OffsetTranslates | client/main.js:84-113 | the offset moves the window by exactly that much and leaves its size alone |
| Geometry.ChildFollowsParent | client/main.js:99-105 | a child window sits at its parent's position plus the offset |
| Geometry.RestoreSavedBounds | client/main.js:86-90 | save then restore: an unmaximized window's bounds come back, moved by the offset, and the next window is not maximized |
| Geometry.MaximizedIsForgotten | client/main.js:118-120 | a snapshot taken while maximized never maximizes the next window, which then gets the default placement |
| Geometry.ChildExample | client/main.js:99-113 | a parent at (100, 100), offset 20 and a stored 800 by 600 give (120, 120), 800 by 600 |
| Readiness.FirstPage | client/main.js:404-410 | the setup page exactly when checkDbSet fails; otherwise the home page on the lock file's port |
| Readiness.PageLocation | client/main.js:404-410 | `pages/firstrun.html`, or `http://localhost:` and the port, which prints as `undefined` when the lock file had none (see Readiness.HomeNamesPort) |
| Readiness.Step | client/main.js:330-353 | once done or on another file nothing changes; the page loads exactly when waiting, the lock file parses and the window is alive; the settings and the quit request follow the lock file; reading fails exactly when waiting and the lock file is present but unreadable, and loading throws exactly when it parses but the window is destroyed |
| Readiness.Run | client/main.js:330 | one effect per event |
| Readiness.DoneIsFinal | client/main.js:331-333 | once startup is done, every later event is ignored and changes nothing |
| Readiness.WaitingRun | client/main.js:330-353 | while waiting, an event loads the page exactly when it fires and no earlier one did; startup ends exactly when some event fired |
| Readiness.LoadsAtMostOnce | client/main.js:327-354 | from the initial state at most one event loads the first page, and it is the first that parses the lock file while the window is alive |
| Readiness.ParseFailureRetries | client/main.js:343 | an unparsable lock file changes nothing, so the next good event still loads |
| Readiness.MissingFieldsStillLoad | client/main.js:345-352 | a lock file without a port asks to quit, yet loads the page and ends startup |
| Readiness.SetupLeadsHome | client/main.js:404-410 | once any database location has been written, the first page is the home page |
| Readiness.NoPrefsFirstRun | client/main.js:405-406 | without a preferences file the first page is `pages/firstrun.html` |
| Readiness.HomeNamesPort | client/main.js:408 | the home page's address names the port |
| Resolver.PdfFrom | client/main.js:1004 | the first `.pdf` at or after a position on the same line: where the lazy group stops |
| Resolver.Dispatch | client/main.js:1003-1016 | a TLL volume is framed by `tll-pdf/` and `.pdf` at the start of the URL, on one line, with no earlier `.pdf`; the OLD branch starts with `ox-lat-dict.pdf`; an unrecognised URL does not |
| Resolver.VolumeFraming | client/main.js:1004 | the prefix, the captured text and `.pdf` open the URL |
| Resolver.VolumeOneLine | client/main.js:1004 | the captured volume lies on the first line |
| Resolver.VolumeNoPdf | client/main.js:1004 | no `.pdf` starts inside the captured volume |
| Resolver.DispatchedVolume | client/main.js:1004-1007 | the volume the lazy group captures is framed, on one line and without an inner `.pdf` |
| Resolver.TrailingDigits | client/main.js:1044 | where the maximal run of digits that ends the URL begins |
| Resolver.TrailingDigitsIs | client/main.js:1044 | any position that starts a maximal final digit run is that position |
| Resolver.PageOf | client/main.js:1044-1048 | a page number is a non-empty run of digits |
| Resolver.VolumeEnd | client/main.js:988 | how far a greedy `[\d\.o]+` reaches |
| Resolver.ParseListLine | client/main.js:988-996 | an entry is a volume, a tab and a non-empty one-line name; an empty name is flagged |
| Resolver.Enter | client/main.js:989-996 | one line of the list: an entry sets or overrides its volume, any other line leaves the map alone |
| Resolver.Entries | client/main.js:987-998 | the map after the `forEach` over the lines (see Resolver.EntriesLookup) |
| Resolver.VolumeMap | client/main.js:982-1000 | the map read from the list file's text, split on line feeds (see Resolver.ExampleList) |
| Resolver.ProtoText | client/main.js:1032-1034 | the text an inherited member of `Object.prototype` gives when joined into the path |
| Resolver.Named | client/main.js:1032-1033 | `tllFileMap[vol]` is defined: an own entry or an inherited member |
| Resolver.FileFor | client/main.js:1032-1034 | the file name joined into the path: the entry when there is one; `undefined` exactly when the volume has neither an entry nor an inherited member |
| Resolver.TllPath | client/main.js:1030-1034 | `<dir>/<file>` with one trailing slash of the directory dropped (see Resolver.SlashNotDoubled) |
| Resolver.TllUrl | client/main.js:1044-1050 | `file://`, the TLL path and `#page=` with the page (see Resolver.TllExample) |
| Resolver.OldUrl | client/main.js:1078-1085 | `file://`, the OLD location without one trailing slash and `#page=` with the page |
| Resolver.DispatchTll | client/main.js:1004-1007 | a volume written into a pseudo-URL is dispatched back as that volume |
| Resolver.DispatchOld | client/main.js:1009-1010 | every URL starting with `ox-lat-dict.pdf` goes to the OLD viewer |
| Resolver.VolumeDispatches | client/main.js:1004-1007 | every identifier the volume list accepts survives the round trip through a pseudo-URL |
| Resolver.PageOfIff | client/main.js:1044 | the page is exactly the non-empty digit run that ends the URL right after `page=` |
| Resolver.ListLineRoundTrip | client/main.js:988-996 | a line written as volume, tab, name parses back to that entry, or is flagged when the name is empty |
| Resolver.VolumeEndIs | client/main.js:988 | the end of a maximal run of volume characters is where `[\d\.o]+` stops |
| Resolver.VolumeEndFrom | client/main.js:988 | the same from any starting position |
| Resolver.EntriesLookup | client/main.js:987-998 | after the list, each volume holds the file of its last entry; a volume no line names keeps its earlier value |
| Resolver.LastFileIs | client/main.js:987-998 | the last entry is the one after which no line names the volume |
| Resolver.LastEntryWins | client/main.js:992 | a later entry for a volume overrides an earlier one |
| Resolver.UnnamedUnchanged | client/main.js:987-998 | a volume no line names stays as it was |
| Resolver.UnmappedPath | client/main.js:1032-1034 | a volume with neither an entry nor an inherited member gives the path `<dir>/undefined` |
| Resolver.InheritedPath | client/main.js:1032-1034 | a volume named like a member of `Object.prototype` and without an entry counts as named and gives the member's text as the file name |
| Resolver.ConstructorVolume | client/main.js:1032-1034 | the volume `constructor` without an entry gives `function Object() { [native code] }` |
| Resolver.ListNeverNamesProto | client/main.js:988 | no volume the list pattern accepts is the name of an inherited member, so the list never overrides one |
| Resolver.SlashNotDoubled | client/main.js:1030-1034 | a directory without a trailing slash gives the same path as with one, and with one the file follows a single slash |
| Resolver.SplitTerminated | client/main.js:987 | a line ended by the separator splits into the line and an empty piece |
| Resolver.ExampleList | client/main.js:982-1000 | the list `4.1<TAB>tll-iv-1.pdf` maps 4.1 to that file and nothing else |
| Resolver.ExamplePage | client/main.js:1044-1045 | the page of `tll-pdf/4.1.pdf?page=45` is 45 |
| Resolver.TllExample | client/main.js:1030-1050 | with directory `/pdfs/` the location is `file:///pdfs/tll-iv-1.pdf#page=45` |
| Main.Position | client/main.js:208 | `indexOf`: the first position of the window, or -1 exactly when it is absent |
| Main.Unregister | client/main.js:206-209 | the 'closed' splice: the window's position removed, or the last one when it is absent (see Main.UnregisterRemovesOne and Main.UnregisterAbsentDropsLast) |
| Main.Kept | client/main.js:1052-1060 | the registered windows the title loop leaves open, in order (see Main.KeptIs) |
| Main.MarkClosed | client/main.js:1052-1060 | the window records after the title loop (see Main.MarkClosedIs) |
| Main.SavedAfter | client/main.js:129-135 | the stored state after the title loop, whose every `close()` saves the closed window (see Main.SavedAfterLast) |
| Main.CloseByTitle | client/main.js:1052-1060 | the registry, records and stored state after the title loop |
| Main.CloseOne | client/main.js:129-135 | one `close()`: the window's state saved, the window destroyed and spliced out |
| Main.CloseIfLive | client/main.js:1086-1089 | showOLD closes `OLDwindow` exactly when it is set and not destroyed; otherwise nothing changes |
| Main.UnregisterAt | client/main.js:206-209 | closing a window that sits between two parts removes it and joins the parts |
| Main.UnregisterRemovesOne | client/main.js:206-209 | in a registry without repeats, closing a registered window removes it and keeps every other one |
| Main.UnregisterAbsentDropsLast | client/main.js:208 | splicing at -1 would drop the last registered window |
| Main.KeptIs | client/main.js:1052-1060 | the windows kept are those without the title, and only they |
| Main.MarkClosedIs | client/main.js:1052-1060 | closing by title destroys exactly the listed windows that carry it |
| Main.PrefixStep | client/main.js:1052-1060 | one more window of the loop is kept or closed according to its title |
| Main.SavedStep | client/main.js:1052-1060 | one more window of the loop saves its state exactly when it carries the title |
| Main.SavedAfterUntitled | client/main.js:1052-1060 | when no window carries the title the stored state is unchanged |
| Main.SavedAfterLast | client/main.js:1052-1060 | otherwise the stored state is the snapshot of the last registered window that carries the title |
| Main.AddingKeepsWellFormed | client/main.js:204 | registering a new live window keeps the registry well formed |
| Main.KeptDistinct | client/main.js:1052-1060 | the windows kept have no repeats |
| Main.ClosingKeepsWellFormed | client/main.js:1052-1060 | closing by title keeps the registry well formed |
| Main.CloseEach | client/main.js:1052-1060 | the loop over all windows keeps those without the title, destroys the others and stores the state of the last one closed |
| Main.ListErrorLog | client/main.js:987-998 | one console line per list line whose file name is empty, in order |
| Main.FileLog | client/main.js:1033 | the `filename not found` line exactly when `tllFileMap[vol]` is undefined or empty |
| Main.PageLog | client/main.js:1044-1048 | the `No page number` line exactly when the URL has no page |
| Main.PlacedAt | client/main.js:115-116 | a window created without `x` and `y` is put at the platform's origin, given as `Session.origin` |
| Main.NewWindow | client/main.js:115-120 | createWindow's window: hidden, untitled, not destroyed, placed and maximized as given |
| Main.PdfWindow | client/main.js:1061-1063 | the window `createWindow(null, 20, 20)` makes on a stored state, loading the location |
| Main.Opening | client/main.js:1061-1063 | the new window is registered last and placed from the state stored once the closes are done; the stored state does not change |
| Main.ReopenFollowsClosed | client/main.js:1086-1090 | the window opened after closing an unmaximized one sits 20 pixels right of and below it with its size; after a maximized one it gets the platform's default placement, not maximized |
| Main.TllFileShown | client/main.js:1032-1063 | showTLL after the map is read: the log lines and the error dialog when `<dir>/<file>` is missing, with nothing else changed; otherwise same-titled windows closed (when the name is defined), a new window on `file://<dir>/<file>#page=<n>`, and the log lines |
| Main.TllShown | client/main.js:1019-1064 | showTLL: the dialogs and the log line without a directory; an exception with nothing changed when the list file is missing; otherwise the map read once with its log lines, then Main.TllFileShown |
| Main.OldShown | client/main.js:1068-1093 | showOLD: the dialogs and the log line without a location; otherwise a live `OLDwindow` closed, a new window on `file://<location>#page=<n>` that becomes `OLDwindow`, and the log lines |
| Main.Session.constructor | client/main.js:171-194 | one first window, registered, placed from the stored state; stale lock file removed; startup globals initial |
| Main.Session.ServerWritesLock | client/main.js:192-194 | the server started here writes its lock file; nothing else changes |
| Main.Session.CreateWindow | client/main.js:73-138 | a new hidden window under a fresh id, placed by ChooseBounds and maximized on `maximzed`, is appended to the registry; nothing else changes |
| Main.Session.MakeNewWin | client/main.js:428-436 | a window 20 pixels off the given one, or one at no offset when there is none |
| Main.Session.SaveWindowState | client/main.js:372-384 | the stored state becomes the window's snapshot; nothing else changes |
| Main.Session.OnReadyToShow | client/main.js:123-127 | the window is shown and focused, then its state is saved |
| Main.Session.OnBoundsChanged | client/main.js:129-135 | a resize or move records the new geometry and saves it |
| Main.Session.OnWindowChanged | client/main.js:275-276 | a minimize, restore or title change; nothing is saved |
| Main.Session.Close | client/main.js:129-135 | `close()`: the window's state is saved, the window destroyed and removed from the registry, the others keep their order and records; nothing else changes |
| Main.Session.SecondInstance | client/main.js:271-279 | with no window nothing happens; otherwise the first registered window is restored and focused |
| Main.Session.OnAllClosed | client/main.js:248-254 | the application quits, except on macOS |
| Main.Session.OnWatchEvent | client/main.js:327-354 | the globals move as Readiness.Step says; when it loads, the first window goes to the first page; a missing port or pid is logged; an unreadable lock file or a load into a destroyed window throws uncaught, which shows Electron's error box |
| Main.Session.WriteToSettings | client/main.js:818-837 | an undefined path writes nothing; otherwise the preferences file becomes Prefs.WriteToSettings of its old text |
| Main.Session.DbOpenDialog | client/main.js:808-816 | the chooser is shown, and its answer is written, logged and returned |
| Main.Session.TllFileMapRead | client/main.js:982-1000 | only while the map is empty, the list file is read (an exception when it is missing); the map becomes the list's volume map and each bad line is logged |
| Main.Session.CloseTitled | client/main.js:1052-1060 | the registry, records and stored state become Main.CloseByTitle of the old ones; nothing else changes |
| Main.Session.OpenAt | client/main.js:1061-1063 | the registry and records become Main.Opening of the old ones, and the load is logged; nothing else changes |
| Main.Session.ReplaceTitled | client/main.js:1052-1063 | Main.Opening after Main.CloseByTitle when asked to close, else after nothing: kept windows keep their records, the new window is placed from the state the last close saved, and the load is logged |
| Main.Session.ShowTllFile | client/main.js:1032-1063 | the whole new state is Main.TllFileShown of the old one; the files, startup globals and focus do not change |
| Main.Session.ShowTll | client/main.js:1019-1064 | the whole new state is Main.TllShown of the old one and the preferences text; the files, startup globals and focus do not change |
| Main.Session.ReplaceOld | client/main.js:1086-1092 | Main.Opening after Main.CloseIfLive of `OLDwindow`; the new window becomes `OLDwindow` and the load is logged; nothing else changes |
| Main.Session.ShowOld | client/main.js:1068-1093 | the whole new state is Main.OldShown of the old one and the preferences text; the files, startup globals and focus do not change |
| Main.Session.ShowPdf | client/main.js:1003-1016 | a TLL URL gives exactly Main.TllShown for its volume, an OLD URL exactly Main.OldShown, and an unrecognised one the log line and `false` with nothing else changed |
| FirstRun.Marked | client/pages/firstrun.js:53-68 | the mark is `valid` exactly when the location is accepted and `warn` exactly when not, with the tick or the warning text; other classes stay |
| FirstRun.DialogKind | client/pages/firstrun.js:40-45 | the chooser opens a file for `OLD_PDF` and a folder for every other database (see FirstRun.OnlyOldIsFile) |
| FirstRun.Accepted | client/pages/firstrun.js:58-59 | an authtab was found, or the database is one of the PDF and export locations (see FirstRun.AcceptedIff) |
| FirstRun.SetupPaths | client/pages/firstrun.js:5-17 | the path fields after the loop (see FirstRun.SetupPathsIs) |
| FirstRun.SetupChecks | client/pages/firstrun.js:5-17 | the marks after the loop (see FirstRun.SetupChecksIs) |
| FirstRun.Bindings | client/pages/firstrun.js:38-51 | one click handler per database, in order, each with its chooser mode |
| FirstRun.SetupLoop | client/pages/firstrun.js:5-17 | the loop binds every button and shows each path found in the preferences text, with its mark; no field is added |
| FirstRun.Page.constructor | client/pages/firstrun.js:1 | the page as loaded: six databases, empty fields and marks, nothing bound, done section hidden |
| FirstRun.Page.ShowPath | client/pages/firstrun.js:53-68 | the folder is shown and the mark set by the rule; nothing else changes |
| FirstRun.Page.ReadyDoneButton | client/pages/firstrun.js:25-36 | the done section is displayed when some path field is non-empty, and never hidden |
| FirstRun.Page.SetupEach | client/pages/firstrun.js:5-17 | the page's fields after the loop |
| FirstRun.Page.Setup | client/pages/firstrun.js:3-23 | every button bound, the paths from the preferences text shown, the done button pointed at the server, the done section readied |
| FirstRun.Page.Click | client/pages/firstrun.js:38-51 | a click on a bound button shows the chooser, logs and records the answer in the preferences file, and shows it (`undefined` when cancelled) with its mark; the main process's windows and globals do not change |
| FirstRun.DbsArePlain | client/pages/firstrun.js:1 | the six names need no escaping in a pattern |
| FirstRun.OnlyOldIsFile | client/pages/firstrun.js:40-45 | only the OLD PDF is chosen as a file; the five others are folders |
| FirstRun.AcceptedIff | client/pages/firstrun.js:58-59 | the PDF and export locations are always accepted; the text databases need an authtab |
| FirstRun.NeverBoth | client/pages/firstrun.js:60-67 | a set mark carries exactly one of `valid` and `warn` |
| FirstRun.MarkIdempotent | client/pages/firstrun.js:53-68 | marking again with the same answer changes nothing |
| FirstRun.ChosenReadsBack | client/pages/firstrun.js:11-15 | a location chosen in the chooser reads back on the page as that location |
| FirstRun.SetupPathsIs | client/pages/firstrun.js:5-17 | each field the loop fills shows the path found for its database, and the others keep their text |
| FirstRun.SetupChecksIs | client/pages/firstrun.js:5-17 | each mark the loop sets is set by the rule, even for a database listed twice |
| FirstRun.NoPrefsShowsNothing | client/pages/firstrun.js:8-10 | without a readable preferences text the loop shows nothing |
| FirstRun.SetupShowsChosen | client/pages/firstrun.js:5-17 | a location recorded by the chooser is shown for that database on the next load |
| FirstRun.ShownPathSets | client/pages/firstrun.js:27-32 | one non-empty path field is enough for the done section |
| FirstRun.EmptyNotSet | client/pages/firstrun.js:27-35 | with every field empty the done section stays as it was |
| FirstRun.CancelShowsUndefined | client/pages/firstrun.js:47-55 | a cancelled chooser fills the field with `undefined`, a non-empty text; the done section is not looked at again after a click (`FirstRun.Page.Click` keeps `doneVisible`) |

## Left out

- Starting the server (`startServer`, spawning a process, its output) is not
  modelled. The lock file it writes is `Main.Session.ServerWritesLock`, which
  the environment may call at any time; `Main.Session.OnWatchEvent` then sees
  it.
- The will-quit teardown is not modelled: killing the server and the unguarded
  `unlinkSync` of the lock file.
- Filesystem events are delivered one at a time, in the order given. The
  asynchrony of `fs.watch` is not modelled.
- Electron wiring with no state of its own is not modelled:
  - the Content Security Policy header;
  - the `will-navigate` guard;
  - the window-open handler and the context menu;
  - the `did-start-loading` handler;
  - IPC handler registration;
  - checkVersion;
  - the menus;
  - the font window.
- The find window and `sendKeybinding` are not modelled; they are part of the
  menus.
- These operations write other files or show other dialogs, none of which the
  core reads back: fonts and CSS configuration, `exportPathPick`, `saveFile`,
  `printToPDF` and `tllConfirm`.
- `authtabExists` probes the filesystem. Its answer is a parameter:
  `authtab` in `FirstRun.Page.Click` and `FirstRun.Page.ShowPath`, and the
  set `authtabDirs` in `FirstRun.Page.Setup`.
- JSON parsing is abstract. settingsFromFile and getWindowState deliver
  the parsed value, or the failure (`Readiness.LockRead`,
  `Main.Session.saved`).
- A failing `writeFileSync` (in writeToSettings and saveWindowState) is not
  modelled; writes always succeed.
- Main.Session.Close: a window's close is immediate. The `close` handler's
  save and the `closed` handler's splice both run before the caller goes on,
  so showTLL and showOLD place their new window from the state of the window
  they closed last.
- Main.Session.CloseTitled: `BrowserWindow.getAllWindows()` is iterated in
  registry order. Electron's own order is not modelled.
- The single-instance lock is not modelled. A second instance is only the
  `second-instance` event.
- The platform check in `window-all-closed` is the parameter `darwin`.
- JsText.LowerAscii lowers ASCII letters only, not full Unicode
  `toLowerCase`. The database names are ASCII.
- Prefs.WriteThenGetDir and the other round trips need a database name of
  letters, digits and underscores. They need a path without line breaks or
  `$`. Other names would put metacharacters into the regular expressions,
  which is not modelled.
- Main.Session.DbOpenDialog: the array that `showOpenDialogSync` returns is
  an `Option<string>`. A chosen path is written as one string.
- FirstRun.Page.Setup assumes that every `showPath` started in the loop
  completes before `readyDoneButton` runs. The interleaving of the page's
  IPC replies is not modelled.
- FirstRun.Page.SetupEach runs the loop on the values of the page's fields
  (`FirstRun.SetupLoop`) and assigns the fields once. DOM updates in place,
  element by element, are not modelled.
- FirstRun.Page.Click: `readyDoneButton` is not run again after a click, as
  in the code.
- FirstRun.Page.constructor assumes the initial `firstrun.html` has empty
  path and mark elements.
- Log lines record the kind of message and its data, not its exact text.
- Resolver.FileFor knows the inherited members of a plain `Object` in V8.
  Other engines, and members added to `Object.prototype` at run time, are not
  modelled.

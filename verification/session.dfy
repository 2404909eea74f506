/**
 * The main process's mutable state (client/main.js): the windows it has
 * created and the global `windows` registry, the readiness globals, the
 * TLL volume map, the `OLDwindow` slot, and the files it reads and writes.
 *
 * Electron windows are records kept in `wins`, keyed by an id the session
 * hands out; a closed window stays there, marked destroyed, because the
 * code may still hold a reference to it (the first window, `OLDwindow`).
 * The filesystem is `fs`, a map from path to text. Dialog boxes and console
 * lines are appended to `dialogs` and `log`.
 */
module Main {
  import opened JsText
  import Prefs
  import Geometry
  import Readiness
  import Resolver

  /** `diogenes.prefs`, the lock file and the TLL list, as keys of `fs`. */
  const PrefsFile := "diogenes.prefs"
  const LockFile := Readiness.LockName
  const ListFile := "dependencies/data/tll-pdf-list.txt"

  datatype Win = Win(
    id: nat,
    title: string,
    minimized: bool,
    maximized: bool,
    bounds: Geometry.Rect,
    destroyed: bool,
    shown: bool,
    location: Option<Readiness.Location>)

  /** The `properties` of the folder chooser dbOpenDialog shows. */
  datatype Property = OpenFile | OpenDirectory

  datatype Dialog =
    | SettingsUnreadable            // "Settings file cannot be read"
    | DirNotSet(family: string)     // "Location for TLL PDFs / OLD PDF has not yet been set"
    | PdfNotFound(path: string)     // "TLL PDF not found: <path>"
    | Chooser(db: string, property: Property)
    | UncaughtError                 // Electron's "A JavaScript error occurred in the main process" box

  datatype LogLine =
    | NoPortOrPid
    | LocationSet(db: string, path: Option<string>)
    | BadListLine(line: string)
    | BadPdfUrl(url: string)
    | TllDirNotSet
    | OldDirNotSet
    | FilenameNotFound(vol: string)
    | TllPdfMissing
    | NoPageNumber(url: string)
    | Loading(url: string)

  /** What showPDF, showTLL and showOLD give back: `false`, an exception, or the load of a new window. */
  datatype Outcome = Declined | Threw | Opened(id: nat)

  // ---------------------------------------------------------------------------------------------
  // The registry as a sequence of window ids

  predicate Distinct(reg: seq<nat>) {
    forall i, j :: 0 <= i < j < |reg| ==> reg[i] != reg[j]
  }

  /** `windows.indexOf(w)`: the first position of `w`, or -1. */
  function Position(reg: seq<nat>, w: nat): (i: int)
    ensures -1 <= i < |reg|
    ensures i >= 0 ==> reg[i] == w && w !in reg[..i]
    ensures i == -1 <==> w !in reg
  {
    if reg == [] then -1
    else if reg[0] == w then 0
    else
      var i := Position(reg[1..], w);
      if i == -1 then -1
      else
        assert reg[1..][..i] == reg[1..i + 1];
        assert reg[..i + 1] == [reg[0]] + reg[1..i + 1];
        i + 1
  }

  /** The 'closed' handler: `windows.splice(windows.indexOf(w), 1)`; with -1 the splice removes the last element. */
  function Unregister(reg: seq<nat>, w: nat): seq<nat> {
    var i := Position(reg, w);
    if i >= 0 then reg[..i] + reg[i + 1..]
    else if |reg| > 0 then reg[..|reg| - 1]
    else reg
  }

  /** The ids of `ids` whose window does not carry `title`, in order. */
  function Kept(ids: seq<nat>, m: map<nat, Win>, title: string): seq<nat>
    decreases |ids|
  {
    if ids == [] then []
    else
      var r := Kept(ids[..|ids| - 1], m, title);
      var w := ids[|ids| - 1];
      if w in m && m[w].title == title then r else r + [w]
  }

  /** `m` after closing, in order, each window of `ids` that carries `title`. */
  function MarkClosed(m: map<nat, Win>, ids: seq<nat>, title: string): map<nat, Win>
    decreases |ids|
  {
    if ids == [] then m
    else
      var r := MarkClosed(m, ids[..|ids| - 1], title);
      var w := ids[|ids| - 1];
      if w in r && r[w].title == title then r[w := r[w].(destroyed := true)] else r
  }

  /** Whether `w` is a window titled `title`. */
  predicate Titled(m: map<nat, Win>, w: nat, title: string) {
    w in m && m[w].title == title
  }

  /**
   * The stored window state after closing, in order, each window of `ids` that carries `title`: the 'close'
   * handler of each saves that window's snapshot, so the last one closed wins.
   */
  function SavedAfter(s: Option<Geometry.SavedState>, m: map<nat, Win>, ids: seq<nat>, title: string): Option<Geometry.SavedState>
    decreases |ids|
  {
    if ids == [] then s
    else
      var w := ids[|ids| - 1];
      if Titled(m, w, title) then Some(Geometry.Snapshot(m[w].maximized, m[w].bounds))
      else SavedAfter(s, m, ids[..|ids| - 1], title)
  }

  /** The part of the main process's state that closing and opening windows changes: the registry, the window
      records and the stored window state. */
  datatype Windows = Windows(reg: seq<nat>, wins: map<nat, Win>, saved: Option<Geometry.SavedState>)

  /** showTLL's loop over all windows: each registered window titled `title` is closed in turn. */
  function CloseByTitle(ws: Windows, title: string): Windows {
    Windows(Kept(ws.reg, ws.wins, title), MarkClosed(ws.wins, ws.reg, title), SavedAfter(ws.saved, ws.wins, ws.reg, title))
  }

  /** `win.close()`: the 'close' handler saves the window's state, then 'closed' splices it out of the registry. */
  function CloseOne(ws: Windows, w: nat): Windows
    requires w in ws.wins
  {
    Windows(Unregister(ws.reg, w), ws.wins[w := ws.wins[w].(destroyed := true)],
            Some(Geometry.Snapshot(ws.wins[w].maximized, ws.wins[w].bounds)))
  }

  /** showOLD's close of `OLDwindow`, when it names a window that is not destroyed. */
  function CloseIfLive(ws: Windows, w: Option<nat>): Windows {
    if w.Some? && w.value in ws.wins && !ws.wins[w.value].destroyed then CloseOne(ws, w.value) else ws
  }

  /** Removing a window that is present takes out exactly that window and keeps the others in order. */
  lemma UnregisterAt(a: seq<nat>, w: nat, b: seq<nat>)
    requires w !in a
    ensures Unregister(a + [w] + b, w) == a + b
  {
    var reg := a + [w] + b;
    var i := Position(reg, w);
    assert reg[|a|] == w;
    assert reg[..|a|] == a && reg[|a| + 1..] == b;
  }

  /** In a registry without repeats, closing a registered window removes it and nothing else. */
  lemma UnregisterRemovesOne(reg: seq<nat>, w: nat)
    requires Distinct(reg) && w in reg
    ensures w !in Unregister(reg, w)
    ensures |Unregister(reg, w)| == |reg| - 1
    ensures forall x :: x != w ==> (x in Unregister(reg, w) <==> x in reg)
    ensures Distinct(Unregister(reg, w))
  {
    var i := Position(reg, w);
    var a, b := reg[..i], reg[i + 1..];
    assert reg == a + [w] + b;
    UnregisterAt(a, w, b);
    forall p, q | 0 <= p < q < |a + b| ensures (a + b)[p] != (a + b)[q] {
      var p' := if p < i then p else p + 1;
      var q' := if q < i then q else q + 1;
      assert (a + b)[p] == reg[p'] && (a + b)[q] == reg[q'];
    }
    forall k | 0 <= k < |b| ensures b[k] != w {
      assert b[k] == reg[i + 1 + k];
    }
  }

  /** A closed window that was somehow not registered would take the LAST registered window with it. */
  lemma UnregisterAbsentDropsLast(reg: seq<nat>, w: nat)
    requires w !in reg && |reg| > 0
    ensures Unregister(reg, w) == reg[..|reg| - 1]
  {
  }

  /** The kept ids are the ids whose window does not carry the title, and no others. */
  lemma {:induction false} KeptIs(ids: seq<nat>, m: map<nat, Win>, title: string)
    ensures forall x :: x in Kept(ids, m, title) <==> x in ids && !(x in m && m[x].title == title)
    ensures |Kept(ids, m, title)| <= |ids|
    decreases |ids|
  {
    if ids != [] {
      var init := ids[..|ids| - 1];
      KeptIs(init, m, title);
      assert ids == init + [ids[|ids| - 1]];
    }
  }

  /** Closing by title destroys exactly the listed windows that carry it, and changes nothing else. */
  lemma {:induction false} MarkClosedIs(m: map<nat, Win>, ids: seq<nat>, title: string)
    ensures MarkClosed(m, ids, title).Keys == m.Keys
    ensures forall x :: x in m ==>
              MarkClosed(m, ids, title)[x] == if x in ids && m[x].title == title then m[x].(destroyed := true) else m[x]
    decreases |ids|
  {
    if ids != [] {
      var init := ids[..|ids| - 1];
      MarkClosedIs(m, init, title);
      assert ids == init + [ids[|ids| - 1]];
    }
  }

  /** One more id of a registry without repeats: kept or closed according to its title. */
  lemma PrefixStep(ids: seq<nat>, i: nat, m: map<nat, Win>, title: string)
    requires i < |ids| && ids[i] !in ids[..i] && ids[i] in m
    ensures ids[i] !in Kept(ids[..i], m, title)
    ensures ids[i] in MarkClosed(m, ids[..i], title) && MarkClosed(m, ids[..i], title)[ids[i]] == m[ids[i]]
    ensures Kept(ids[..i + 1], m, title) ==
      if m[ids[i]].title == title then Kept(ids[..i], m, title) else Kept(ids[..i], m, title) + [ids[i]]
    ensures MarkClosed(m, ids[..i + 1], title) ==
      if m[ids[i]].title == title then MarkClosed(m, ids[..i], title)[ids[i] := m[ids[i]].(destroyed := true)]
      else MarkClosed(m, ids[..i], title)
  {
    assert ids[..i + 1][..i] == ids[..i];
    KeptIs(ids[..i], m, title);
    MarkClosedIs(m, ids[..i], title);
  }

  /** One more id for SavedAfter. */
  lemma SavedStep(s: Option<Geometry.SavedState>, ids: seq<nat>, i: nat, m: map<nat, Win>, title: string)
    requires i < |ids|
    ensures SavedAfter(s, m, ids[..i + 1], title) ==
      if Titled(m, ids[i], title) then Some(Geometry.Snapshot(m[ids[i]].maximized, m[ids[i]].bounds))
      else SavedAfter(s, m, ids[..i], title)
  {
    assert ids[..i + 1][..i] == ids[..i];
  }

  /** When no window of `ids` carries the title, closing by title leaves the stored state as it was. */
  lemma {:induction false} SavedAfterUntitled(s: Option<Geometry.SavedState>, m: map<nat, Win>, ids: seq<nat>, title: string)
    requires forall k :: 0 <= k < |ids| ==> !Titled(m, ids[k], title)
    ensures SavedAfter(s, m, ids, title) == s
    decreases |ids|
  {
    if ids != [] {
      var init := ids[..|ids| - 1];
      assert forall k :: 0 <= k < |init| ==> init[k] == ids[k];
      SavedAfterUntitled(s, m, init, title);
    }
  }

  /** Otherwise the stored state is the snapshot of the last window of `ids` that carries the title. */
  lemma {:induction false} SavedAfterLast(s: Option<Geometry.SavedState>, m: map<nat, Win>, ids: seq<nat>, title: string, k: nat)
    requires k < |ids| && Titled(m, ids[k], title)
    requires forall j :: k < j < |ids| ==> !Titled(m, ids[j], title)
    ensures SavedAfter(s, m, ids, title) == Some(Geometry.Snapshot(m[ids[k]].maximized, m[ids[k]].bounds))
    decreases |ids|
  {
    if k < |ids| - 1 {
      var init := ids[..|ids| - 1];
      assert !Titled(m, ids[|ids| - 1], title);
      assert forall j :: 0 <= j < |init| ==> init[j] == ids[j];
      SavedAfterLast(s, m, init, title, k);
    }
  }

  lemma SplitAt(a: seq<nat>, ids: seq<nat>, i: nat)
    requires i < |ids|
    ensures a + ids[i..] == a + [ids[i]] + ids[i + 1..]
    ensures (a + ids[i..])[|a|] == ids[i]
  {
    assert ids[i..] == [ids[i]] + ids[i + 1..];
  }

  /**
   * The registry holds each live window exactly once and nothing else, and every window has an id below
   * `next` that it carries itself.
   */
  predicate WellFormed(reg: seq<nat>, m: map<nat, Win>, next: nat) {
    && Distinct(reg)
    && (forall i :: 0 <= i < |reg| ==> reg[i] in m && !m[reg[i]].destroyed)
    && (forall id {:trigger m[id]} :: id in m ==> id < next && m[id].id == id && (m[id].destroyed || id in reg))
  }

  /** A new live window under the next id, appended to the registry, keeps it well formed. */
  lemma AddingKeepsWellFormed(reg: seq<nat>, m: map<nat, Win>, next: nat, w: Win)
    requires WellFormed(reg, m, next) && w.id == next && !w.destroyed
    ensures WellFormed(reg + [next], m[next := w], next + 1)
  {
    var r := reg + [next];
    assert next !in reg;
    forall i | 0 <= i < |r| ensures r[i] in m[next := w] && !m[next := w][r[i]].destroyed {
      if i < |reg| { assert r[i] == reg[i]; }
    }
  }

  /** Keeping the windows without the title and destroying those with it keeps the registry well formed. */
  lemma {:induction false} KeptDistinct(ids: seq<nat>, m: map<nat, Win>, title: string)
    requires Distinct(ids)
    ensures Distinct(Kept(ids, m, title))
    decreases |ids|
  {
    if ids != [] {
      var init := ids[..|ids| - 1];
      var last := ids[|ids| - 1];
      assert Distinct(init);
      KeptDistinct(init, m, title);
      KeptIs(init, m, title);
      assert last !in init;
    }
  }

  lemma ClosingKeepsWellFormed(reg: seq<nat>, m: map<nat, Win>, next: nat, title: string)
    requires WellFormed(reg, m, next)
    ensures WellFormed(Kept(reg, m, title), MarkClosed(m, reg, title), next)
  {
    var k := Kept(reg, m, title);
    var c := MarkClosed(m, reg, title);
    KeptDistinct(reg, m, title);
    KeptIs(reg, m, title);
    MarkClosedIs(m, reg, title);
    forall i | 0 <= i < |k| ensures k[i] in c && !c[k[i]].destroyed {
      assert k[i] in k;
    }
    forall id | id in c ensures id < next && c[id].id == id && (c[id].destroyed || id in k) {
      assert id in m && m[id] == m[id];
    }
  }

  /**
   * The loop of showTLL over all windows, on the registry `snapshot` and the windows `w0`: each window
   * titled `title` is closed in turn: its 'close' handler saves its state into `s`, and it is destroyed and
   * spliced out of the registry.
   */
  method CloseEach(snapshot: seq<nat>, w0: map<nat, Win>, s0: Option<Geometry.SavedState>, title: string)
    returns (reg: seq<nat>, m: map<nat, Win>, s: Option<Geometry.SavedState>)
    requires Distinct(snapshot) && forall k :: 0 <= k < |snapshot| ==> snapshot[k] in w0
    ensures reg == Kept(snapshot, w0, title)
    ensures m == MarkClosed(w0, snapshot, title)
    ensures s == SavedAfter(s0, w0, snapshot, title)
  {
    reg, m, s := snapshot, w0, s0;
    var i := 0;
    while i < |snapshot|
      invariant 0 <= i <= |snapshot|
      invariant reg == Kept(snapshot[..i], w0, title) + snapshot[i..]
      invariant m == MarkClosed(w0, snapshot[..i], title)
      invariant s == SavedAfter(s0, w0, snapshot[..i], title)
    {
      var w := snapshot[i];
      assert w !in snapshot[..i];
      PrefixStep(snapshot, i, w0, title);
      SavedStep(s0, snapshot, i, w0, title);
      var kept := Kept(snapshot[..i], w0, title);
      SplitAt(kept, snapshot, i);
      if w0[w].title == title {
        UnregisterAt(kept, w, snapshot[i + 1..]);
        reg := Unregister(reg, w);
        s := Some(Geometry.Snapshot(m[w].maximized, m[w].bounds));
        m := m[w := m[w].(destroyed := true)];
      }
      i := i + 1;
    }
    assert snapshot[..|snapshot|] == snapshot;
  }

  /** The console lines tllFileMapRead writes for `lines`: one per line whose file name is empty. */
  function ListErrorLog(lines: seq<string>): seq<LogLine>
    decreases |lines|
  {
    if lines == [] then []
    else
      var last := lines[|lines| - 1];
      ListErrorLog(lines[..|lines| - 1]) + (if Resolver.ParseListLine(last).EmptyName? then [BadListLine(last)] else [])
  }

  /** What showTLL logs when `tllFileMap[vol]` is falsy: undefined, or an empty file name. */
  function FileLog(m: map<string, string>, vol: string): seq<LogLine> {
    if Resolver.Named(m, vol) && Resolver.FileFor(m, vol) != "" then [] else [FilenameNotFound(vol)]
  }

  /** The page number showTLL and showOLD log as missing. */
  function PageLog(url: string): seq<LogLine> {
    if Resolver.PageOf(url).None? then [NoPageNumber(url)] else []
  }

  /** A window that is placed nowhere in particular is placed at `origin` by the platform. */
  function PlacedAt(p: Geometry.Placement, origin: (int, int)): Geometry.Rect {
    Geometry.Rect(if p.x.Some? then p.x.value else origin.0, if p.y.Some? then p.y.value else origin.1, p.width, p.height)
  }

  /** The window record createWindow makes: hidden, untitled, maximized only on the misspelt key. */
  function NewWindow(origin: (int, int), id: nat, p: Geometry.Placement, maximized: bool): Win {
    Win(id, "", false, maximized, PlacedAt(p, origin), false, false, None)
  }

  /** The window createWindow(null, 20, 20) makes on the stored state `s`, once loadURL has been given `url`. */
  function PdfWindow(origin: (int, int), id: nat, s: Option<Geometry.SavedState>, url: string): Win {
    NewWindow(origin, id, Geometry.ChooseBounds(false, None, s, 20, 20), Geometry.OpensMaximized(s)).(location := Some(Readiness.Url(url)))
  }

  /** `ws` once the window `id` has been opened on `url`: registered last, placed from the state stored in `ws`. */
  function Opening(origin: (int, int), ws: Windows, id: nat, url: string): Windows {
    Windows(ws.reg + [id], ws.wins[id := PdfWindow(origin, id, ws.saved, url)], ws.saved)
  }

  /**
   * A PDF window opened right after closing an unmaximized window sits 20 pixels right of and below it, with
   * its size; after closing a maximized one, the platform places it at its default size and not maximized.
   */
  lemma ReopenFollowsClosed(origin: (int, int), ws: Windows, w: nat, id: nat, url: string)
    requires w in ws.wins
    ensures var prev := ws.wins[w];
      var reopened := Opening(origin, CloseOne(ws, w), id, url).wins[id];
      && reopened.location == Some(Readiness.Url(url)) && !reopened.maximized
      && (!prev.maximized ==>
            reopened.bounds == Geometry.Rect(prev.bounds.x + 20, prev.bounds.y + 20, prev.bounds.width, prev.bounds.height))
      && (prev.maximized ==>
            reopened.bounds == Geometry.Rect(origin.0, origin.1, Geometry.DefaultWidth, Geometry.DefaultHeight))
  {
    var snap := Geometry.Snapshot(ws.wins[w].maximized, ws.wins[w].bounds);
    assert CloseOne(ws, w).saved == Some(snap);
  }

  /** What showPDF may change: the windows, the next id, the volume map, `OLDwindow`, the console and the dialogs. */
  datatype View = View(ws: Windows, next: nat, tllMap: map<string, string>, oldWin: Option<nat>,
                       log: seq<LogLine>, dialogs: seq<Dialog>)

  /**
   * What showTLL does to `v` once the volume map is read, with the files `fs`, giving `out` and `v'`: the PDF
   * `<dir>/<file>` must exist; then the windows titled with the file name are closed (when the name is
   * defined) and a new one opened on `file://<dir>/<file>#page=<n>`.
   */
  predicate TllFileShown(origin: (int, int), fs: map<string, string>, dir: string, vol: string, url: string,
                         out: Outcome, v: View, v': View)
  {
    var file := Resolver.FileFor(v.tllMap, vol);
    var path := Resolver.TllPath(dir, file);
    var lg := v.log + FileLog(v.tllMap, vol);
    if path !in fs then
      out == Declined && v' == v.(log := lg + [TllPdfMissing], dialogs := v.dialogs + [PdfNotFound(path)])
    else
      var u := Resolver.TllUrl(dir, file, url);
      var ws := if Resolver.Named(v.tllMap, vol) then CloseByTitle(v.ws, file) else v.ws;
      && out == Opened(v.next)
      && v' == v.(ws := Opening(origin, ws, v.next, u), next := v.next + 1, log := lg + PageLog(url) + [Loading(u)])
  }

  /**
   * showTLL on `v` with the preferences text `prefs`: without the TLL directory, the error dialog; with the map
   * empty and the list file missing, an exception that leaves everything as it was; otherwise the map is read
   * (when empty) and TllFileShown follows.
   */
  predicate TllShown(origin: (int, int), fs: map<string, string>, prefs: Option<string>, vol: string, url: string,
                     out: Outcome, v: View, v': View)
  {
    var lookup := Prefs.GetTllPath(prefs);
    if !lookup.Found? then
      && out == Declined
      && v' == v.(log := v.log + [TllDirNotSet],
                  dialogs := v.dialogs + (if lookup.Unreadable? then [SettingsUnreadable] else []) + [DirNotSet("TLL")])
    else if |v.tllMap| == 0 && ListFile !in fs then
      out == Threw && v' == v
    else if |v.tllMap| == 0 then
      TllFileShown(origin, fs, lookup.path, vol, url, out,
                   v.(tllMap := Resolver.VolumeMap(fs[ListFile]), log := v.log + ListErrorLog(Split(fs[ListFile], '\n'))), v')
    else
      TllFileShown(origin, fs, lookup.path, vol, url, out, v, v')
  }

  /**
   * showOLD on `v` with the preferences text `prefs`: without the OLD location, the error dialog; otherwise a
   * live `OLDwindow` is closed and a new window, which takes its place, is opened on
   * `file://<location>#page=<n>`. No existence check is made.
   */
  predicate OldShown(origin: (int, int), prefs: Option<string>, url: string, out: Outcome, v: View, v': View) {
    var lookup := Prefs.GetOldPath(prefs);
    if !lookup.Found? then
      && out == Declined
      && v' == v.(log := v.log + [OldDirNotSet],
                  dialogs := v.dialogs + (if lookup.Unreadable? then [SettingsUnreadable] else []) + [DirNotSet("OLD")])
    else
      var u := Resolver.OldUrl(lookup.path, url);
      && out == Opened(v.next)
      && v' == v.(ws := Opening(origin, CloseIfLive(v.ws, v.oldWin), v.next, u), next := v.next + 1,
                  oldWin := Some(v.next), log := v.log + PageLog(url) + [Loading(u)])
  }

  class Session {
    /** Where the platform puts a window created without `x` and `y`. */
    const origin: (int, int)

    var fs: map<string, string>
    /** What getWindowState returns: the parsed `windowstate.json`, or None when it cannot be read or parsed. */
    var saved: Option<Geometry.SavedState>
    var wins: map<nat, Win>
    /** The global `windows` array. */
    var windows: seq<nat>
    var nextId: nat
    var focused: Option<nat>
    /** The window createFirstWindow made, which the watch callback loads. */
    var firstWindow: Option<nat>
    /** `startupDone`, `dioSettings` and whether `app.quit()` has been called. */
    var ready: Readiness.Ready
    var tllFileMap: map<string, string>
    var oldWindow: Option<nat>
    var dialogs: seq<Dialog>
    var log: seq<LogLine>

    /**
     * The registry holds each live window exactly once, and nothing else; every window ever created has
     * an id below `nextId`; the references the code keeps name windows that were created.
     */
    ghost predicate Valid()
      reads this
    {
      && WellFormed(windows, wins, nextId)
      && (firstWindow.Some? ==> firstWindow.value in wins)
      && (oldWindow.Some? ==> oldWindow.value in wins)
      && (focused.Some? ==> focused.value in wins)
    }

    predicate Live(id: nat)
      reads this
    {
      id in wins && !wins[id].destroyed
    }

    /** The text of the preferences file, when there is one. */
    function PrefsText(): Option<string>
      reads this
    {
      if PrefsFile in fs then Some(fs[PrefsFile]) else None
    }

    /**
     * createFirstWindow: the first window (no parent, no offset), and any stale lock file removed. The
     * server is started here too; it is the environment of this model, which writes its lock file through
     * ServerWritesLock, and OnWatchEvent then sees it.
     */
    constructor (files: map<string, string>, state: Option<Geometry.SavedState>, at: (int, int))
      ensures Valid()
      ensures origin == at && saved == state
      ensures fs == files - {LockFile}
      ensures firstWindow == Some(0) && windows == [0] && nextId == 1
      ensures wins == map[0 := NewWindow(at, 0, Geometry.ChooseBounds(false, None, state, 0, 0), Geometry.OpensMaximized(state))]
      ensures ready == Readiness.Initial && tllFileMap == map[] && oldWindow.None? && focused.None?
      ensures dialogs == [] && log == []
    {
      origin := at;
      fs := files;
      saved := state;
      wins := map[];
      windows := [];
      nextId := 0;
      focused := None;
      firstWindow := None;
      ready := Readiness.Initial;
      tllFileMap := map[];
      oldWindow := None;
      dialogs := [];
      log := [];
      new;
      var id := CreateWindow(None, 0, 0, false);
      firstWindow := Some(id);
      fs := fs - {LockFile};
    }

    /** The position `oldWin.getPosition()` gives. */
    function ParentPos(parent: Option<nat>): Option<(int, int)>
      requires parent.Some? ==> parent.value in wins
      reads this
    {
      if parent.Some? then Some((wins[parent.value].bounds.x, wins[parent.value].bounds.y)) else None
    }

    /**
     * createWindow together with the 'browser-window-created' handler: a new window placed by
     * Geometry.ChooseBounds from the stored state, maximized on `maximzed`, appended to the registry.
     */
    method CreateWindow(parent: Option<nat>, dx: int, dy: int, reset: bool) returns (id: nat)
      requires Valid()
      requires parent.Some? ==> Live(parent.value)
      modifies this
      ensures Valid()
      ensures id == old(nextId) && id !in old(wins) && nextId == id + 1
      ensures windows == old(windows) + [id]
      ensures wins == old(wins)[id := NewWindow(origin, id, Geometry.ChooseBounds(reset, old(ParentPos(parent)), saved, dx, dy), Geometry.OpensMaximized(saved))]
      ensures fs == old(fs) && saved == old(saved) && focused == old(focused) && firstWindow == old(firstWindow)
      ensures ready == old(ready) && tllFileMap == old(tllFileMap) && oldWindow == old(oldWindow)
      ensures dialogs == old(dialogs) && log == old(log)
    {
      var p := Geometry.ChooseBounds(reset, ParentPos(parent), saved, dx, dy);
      AddingKeepsWellFormed(windows, wins, nextId, NewWindow(origin, nextId, p, Geometry.OpensMaximized(saved)));
      id := nextId;
      wins := wins[id := NewWindow(origin, id, p, Geometry.OpensMaximized(saved))];
      windows := windows + [id];
      nextId := nextId + 1;
    }

    /** makeNewWin: an additional window 20 pixels off the given one, or, with no window, one at no offset. */
    method MakeNewWin(win: Option<nat>, reset: bool) returns (id: nat)
      requires Valid()
      requires win.Some? ==> Live(win.value)
      modifies this
      ensures Valid()
      ensures id == old(nextId) && windows == old(windows) + [id]
      ensures var off := if win.Some? then 20 else 0;
        wins == old(wins)[id := NewWindow(origin, id, Geometry.ChooseBounds(reset, old(ParentPos(win)), saved, off, off), Geometry.OpensMaximized(saved))]
      ensures fs == old(fs) && saved == old(saved) && focused == old(focused) && firstWindow == old(firstWindow)
      ensures ready == old(ready) && tllFileMap == old(tllFileMap) && oldWindow == old(oldWindow)
      ensures dialogs == old(dialogs) && log == old(log)
    {
      if win.None? {
        id := CreateWindow(None, 0, 0, reset);
      } else {
        id := CreateWindow(win, 20, 20, reset);
      }
    }

    /** saveWindowState: the snapshot of the window replaces the stored state. */
    method SaveWindowState(id: nat)
      requires Valid() && id in wins
      modifies this
      ensures Valid()
      ensures fs == old(fs) && wins == old(wins) && windows == old(windows) && nextId == old(nextId)
      ensures saved == Some(Geometry.Snapshot(wins[id].maximized, wins[id].bounds))
      ensures focused == old(focused) && firstWindow == old(firstWindow) && ready == old(ready)
      ensures tllFileMap == old(tllFileMap) && oldWindow == old(oldWindow) && dialogs == old(dialogs) && log == old(log)
    {
      saved := Some(Geometry.Snapshot(wins[id].maximized, wins[id].bounds));
    }

    /** 'ready-to-show': the window is shown and focused, then its state is saved. */
    method OnReadyToShow(id: nat)
      requires Valid() && Live(id)
      modifies this
      ensures Valid()
      ensures wins == old(wins)[id := old(wins)[id].(shown := true)] && focused == Some(id)
      ensures saved == Some(Geometry.Snapshot(wins[id].maximized, wins[id].bounds))
      ensures fs == old(fs) && windows == old(windows) && nextId == old(nextId) && firstWindow == old(firstWindow)
      ensures ready == old(ready) && tllFileMap == old(tllFileMap) && oldWindow == old(oldWindow)
      ensures dialogs == old(dialogs) && log == old(log)
    {
      wins := wins[id := wins[id].(shown := true)];
      focused := Some(id);
      SaveWindowState(id);
    }

    /** 'resize' and 'move' (the user also maximizes through them): the new geometry, then a save. */
    method OnBoundsChanged(id: nat, bounds: Geometry.Rect, maximized: bool)
      requires Valid() && Live(id)
      modifies this
      ensures Valid()
      ensures wins == old(wins)[id := old(wins)[id].(bounds := bounds, maximized := maximized)]
      ensures saved == Some(Geometry.Snapshot(maximized, bounds))
      ensures fs == old(fs) && windows == old(windows) && nextId == old(nextId) && focused == old(focused)
      ensures firstWindow == old(firstWindow) && ready == old(ready) && tllFileMap == old(tllFileMap)
      ensures oldWindow == old(oldWindow) && dialogs == old(dialogs) && log == old(log)
    {
      wins := wins[id := wins[id].(bounds := bounds, maximized := maximized)];
      SaveWindowState(id);
    }

    /** The window manager minimizes or restores a window, or its page sets its title; nothing is saved. */
    method OnWindowChanged(id: nat, minimized: bool, title: string)
      requires Valid() && Live(id)
      modifies this
      ensures Valid()
      ensures wins == old(wins)[id := old(wins)[id].(minimized := minimized, title := title)]
      ensures fs == old(fs) && saved == old(saved) && windows == old(windows) && nextId == old(nextId)
      ensures focused == old(focused) && firstWindow == old(firstWindow) && ready == old(ready)
      ensures tllFileMap == old(tllFileMap) && oldWindow == old(oldWindow) && dialogs == old(dialogs) && log == old(log)
    {
      wins := wins[id := wins[id].(minimized := minimized, title := title)];
    }

    /**
     * `win.close()`: the 'close' handler saves the window's state, then on 'closed' the window is destroyed
     * and leaves the registry; the other windows keep their order.
     */
    method Close(id: nat)
      requires Valid() && Live(id)
      modifies this
      ensures Valid()
      ensures Current() == CloseOne(old(Current()), id)
      ensures fs == old(fs) && nextId == old(nextId) && focused == old(focused)
      ensures firstWindow == old(firstWindow) && ready == old(ready) && tllFileMap == old(tllFileMap)
      ensures oldWindow == old(oldWindow) && dialogs == old(dialogs) && log == old(log)
    {
      assert id in windows;
      UnregisterRemovesOne(windows, id);
      SaveWindowState(id);
      windows := Unregister(windows, id);
      wins := wins[id := wins[id].(destroyed := true)];
    }

    /** The server, started by createFirstWindow, writes its lock file. */
    method ServerWritesLock(text: string)
      requires Valid()
      modifies this
      ensures Valid()
      ensures fs == old(fs)[LockFile := text]
      ensures saved == old(saved) && wins == old(wins) && windows == old(windows) && nextId == old(nextId)
      ensures focused == old(focused) && firstWindow == old(firstWindow) && ready == old(ready)
      ensures tllFileMap == old(tllFileMap) && oldWindow == old(oldWindow) && dialogs == old(dialogs) && log == old(log)
    {
      fs := fs[LockFile := text];
    }

    /** 'second-instance': with no window, nothing; otherwise the first registered window is restored if
        minimized, and focused. */
    method SecondInstance() returns (handled: bool)
      requires Valid()
      modifies this
      ensures Valid()
      ensures windows == old(windows) && fs == old(fs) && saved == old(saved) && nextId == old(nextId)
      ensures handled <==> |windows| > 0
      ensures !handled ==> wins == old(wins) && focused == old(focused)
      ensures handled ==> wins == old(wins)[windows[0] := old(wins)[windows[0]].(minimized := false)] && focused == Some(windows[0])
      ensures firstWindow == old(firstWindow) && ready == old(ready) && tllFileMap == old(tllFileMap)
      ensures oldWindow == old(oldWindow) && dialogs == old(dialogs) && log == old(log)
    {
      if |windows| == 0 {
        return false;
      }
      var w := windows[0];
      if wins[w].minimized {
        wins := wins[w := wins[w].(minimized := false)];
      }
      focused := Some(w);
      handled := true;
    }

    /** 'window-all-closed': quit, except on macOS. */
    method OnAllClosed(darwin: bool)
      requires Valid()
      modifies this
      ensures Valid()
      ensures ready == old(ready).(quitRequested := old(ready).quitRequested || !darwin)
      ensures fs == old(fs) && saved == old(saved) && wins == old(wins) && windows == old(windows)
      ensures nextId == old(nextId) && focused == old(focused) && firstWindow == old(firstWindow)
      ensures tllFileMap == old(tllFileMap) && oldWindow == old(oldWindow) && dialogs == old(dialogs) && log == old(log)
    {
      if !darwin {
        ready := ready.(quitRequested := true);
      }
    }

    /** Whether the first window can still be loaded. */
    predicate FirstAlive()
      reads this
    {
      firstWindow.Some? && Live(firstWindow.value)
    }

    /** What the watch callback sees for an event naming `filename` with the lock file parsing to `read`. */
    function Observe(filename: string, read: Readiness.LockRead): Readiness.Observation
      reads this
    {
      Readiness.Observation(Readiness.WatchEvent(filename, LockFile in fs, read), PrefsText(), FirstAlive())
    }

    /**
     * loadWhenLocked's callback: the globals move as Readiness.Step says, and when it loads, the first
     * window is sent to the first page. Reading the lock file and loading into a destroyed window throw
     * inside the callback; nothing catches them, so Electron shows its uncaught-exception box.
     */
    method OnWatchEvent(filename: string, read: Readiness.LockRead)
      requires Valid()
      modifies this
      ensures Valid()
      ensures fs == old(fs) && saved == old(saved) && windows == old(windows) && nextId == old(nextId)
      ensures focused == old(focused) && firstWindow == old(firstWindow) && tllFileMap == old(tllFileMap)
      ensures oldWindow == old(oldWindow)
      ensures var out := Readiness.Step(old(ready), old(Observe(filename, read)));
        dialogs == old(dialogs) + (if out.effect.ReadFailed? || out.effect.LoadThrew? then [UncaughtError] else [])
      ensures var out := Readiness.Step(old(ready), old(Observe(filename, read)));
        && ready == out.next
        && (out.effect.Loaded? ==> (firstWindow.Some? &&
              wins == old(wins)[firstWindow.value := old(wins)[firstWindow.value].(location := Some(Readiness.PageLocation(out.effect.page)))]))
        && (!out.effect.Loaded? ==> wins == old(wins))
        && log == old(log) + (if out.fieldsMissing then [NoPortOrPid] else [])
    {
      var out := Readiness.Step(ready, Observe(filename, read));
      if out.fieldsMissing {
        log := log + [NoPortOrPid];
      }
      if out.effect.ReadFailed? || out.effect.LoadThrew? {
        dialogs := dialogs + [UncaughtError];
      }
      if out.effect.Loaded? {
        var w := firstWindow.value;
        wins := wins[w := wins[w].(location := Some(Readiness.PageLocation(out.effect.page)))];
      }
      ready := out.next;
    }

    /** writeToSettings: an undefined path writes nothing; otherwise the preferences file becomes
        Prefs.WriteToSettings of its old text. */
    method WriteToSettings(db: string, path: Option<string>)
      requires Valid()
      modifies this
      ensures Valid()
      ensures path.None? ==> fs == old(fs)
      ensures path.Some? ==> fs == old(fs)[PrefsFile := Prefs.WriteToSettings(old(PrefsText()), db, path).value]
      ensures saved == old(saved) && wins == old(wins) && windows == old(windows) && nextId == old(nextId)
      ensures focused == old(focused) && firstWindow == old(firstWindow) && ready == old(ready)
      ensures tllFileMap == old(tllFileMap) && oldWindow == old(oldWindow) && dialogs == old(dialogs) && log == old(log)
    {
      if path.Some? {
        fs := fs[PrefsFile := Prefs.WriteToSettings(PrefsText(), db, path).value];
      }
    }

    /** dbOpenDialog: the chooser is shown, its answer (None when cancelled) is written and logged and returned. */
    method DbOpenDialog(property: Property, db: string, answer: Option<string>) returns (chosen: Option<string>)
      requires Valid()
      modifies this
      ensures Valid()
      ensures chosen == answer
      ensures dialogs == old(dialogs) + [Chooser(db, property)] && log == old(log) + [LocationSet(db, answer)]
      ensures answer.None? ==> fs == old(fs)
      ensures answer.Some? ==> fs == old(fs)[PrefsFile := Prefs.WriteToSettings(old(PrefsText()), db, answer).value]
      ensures saved == old(saved) && wins == old(wins) && windows == old(windows) && nextId == old(nextId)
      ensures focused == old(focused) && firstWindow == old(firstWindow) && ready == old(ready)
      ensures tllFileMap == old(tllFileMap) && oldWindow == old(oldWindow)
    {
      dialogs := dialogs + [Chooser(db, property)];
      WriteToSettings(db, answer);
      log := log + [LocationSet(db, answer)];
      chosen := answer;
    }

    /**
     * tllFileMapRead: only while the map is empty, read the list file (an exception when it is missing) and
     * fill the map line by line; a line with an empty file name is logged.
     */
    method TllFileMapRead() returns (ok: bool)
      requires Valid()
      modifies this
      ensures Valid()
      ensures fs == old(fs) && saved == old(saved) && wins == old(wins) && windows == old(windows) && nextId == old(nextId)
      ensures focused == old(focused) && firstWindow == old(firstWindow) && ready == old(ready)
      ensures oldWindow == old(oldWindow) && dialogs == old(dialogs)
      ensures ok <==> |old(tllFileMap)| > 0 || ListFile in fs
      ensures !(|old(tllFileMap)| == 0 && ok) ==> tllFileMap == old(tllFileMap) && log == old(log)
      ensures |old(tllFileMap)| == 0 && ok ==>
        && tllFileMap == Resolver.VolumeMap(fs[ListFile])
        && log == old(log) + ListErrorLog(Split(fs[ListFile], '\n'))
    {
      if |tllFileMap| != 0 {
        return true;
      }
      if ListFile !in fs {
        return false;
      }
      var lines := Split(fs[ListFile], '\n');
      var m: map<string, string> := map[];
      var errors: seq<LogLine> := [];
      var i := 0;
      while i < |lines|
        invariant 0 <= i <= |lines|
        invariant m == Resolver.Entries(lines[..i], map[])
        invariant errors == ListErrorLog(lines[..i])
      {
        assert lines[..i + 1][..i] == lines[..i];
        var parsed := Resolver.ParseListLine(lines[i]);
        if parsed.Entry? {
          m := m[parsed.vol := parsed.file];
        } else if parsed.EmptyName? {
          errors := errors + [BadListLine(lines[i])];
        }
        i := i + 1;
      }
      assert lines[..|lines|] == lines;
      tllFileMap := m;
      log := log + errors;
      ok := true;
    }

    /** The registry, the window records and the stored window state, as one value. */
    function Current(): Windows
      reads this
    {
      Windows(windows, wins, saved)
    }

    /** Everything showPDF may change. */
    function Viewed(): View
      reads this
    {
      View(Current(), nextId, tllFileMap, oldWindow, log, dialogs)
    }

    /**
     * The loop of showTLL over all windows: every live window titled `title` is closed, in registry order,
     * each saving its state as it goes; the remaining windows keep their order.
     */
    method CloseTitled(title: string)
      requires Valid()
      modifies this
      ensures Valid()
      ensures Current() == CloseByTitle(old(Current()), title)
      ensures fs == old(fs) && nextId == old(nextId) && focused == old(focused)
      ensures firstWindow == old(firstWindow) && ready == old(ready) && tllFileMap == old(tllFileMap)
      ensures oldWindow == old(oldWindow) && dialogs == old(dialogs) && log == old(log)
    {
      ClosingKeepsWellFormed(windows, wins, nextId, title);
      MarkClosedIs(wins, windows, title);
      var reg, m, st := CloseEach(windows, wins, saved, title);
      windows := reg;
      wins := m;
      saved := st;
    }

    /** createWindow(null, 20, 20) followed by loadURL: a new window, 20 pixels off the stored position, on `url`. */
    method OpenAt(url: string) returns (id: nat)
      requires Valid()
      modifies this
      ensures Valid()
      ensures id == old(nextId) && id !in old(wins) && nextId == id + 1
      ensures Current() == Opening(origin, old(Current()), id, url)
      ensures log == old(log) + [Loading(url)]
      ensures fs == old(fs) && focused == old(focused) && firstWindow == old(firstWindow)
      ensures ready == old(ready) && tllFileMap == old(tllFileMap) && oldWindow == old(oldWindow) && dialogs == old(dialogs)
    {
      id := CreateWindow(None, 20, 20, false);
      wins := wins[id := wins[id].(location := Some(Readiness.Url(url)))];
      log := log + [Loading(url)];
    }

    /** Closes the windows titled `title` when `close` holds, then opens a new window on `url`. */
    method ReplaceTitled(title: string, close: bool, url: string) returns (id: nat)
      requires Valid()
      modifies this
      ensures Valid()
      ensures id == old(nextId) && nextId == id + 1
      ensures Current() == Opening(origin, if close then CloseByTitle(old(Current()), title) else old(Current()), id, url)
      ensures log == old(log) + [Loading(url)]
      ensures fs == old(fs) && firstWindow == old(firstWindow) && ready == old(ready)
      ensures oldWindow == old(oldWindow) && tllFileMap == old(tllFileMap) && focused == old(focused)
      ensures dialogs == old(dialogs)
    {
      if close {
        CloseTitled(title);
      }
      id := OpenAt(url);
    }

    /** The part of showTLL after the volume map is read. */
    method ShowTllFile(dir: string, vol: string, url: string) returns (out: Outcome)
      requires Valid()
      modifies this
      ensures Valid()
      ensures TllFileShown(origin, fs, dir, vol, url, out, old(Viewed()), Viewed())
      ensures fs == old(fs) && firstWindow == old(firstWindow) && ready == old(ready) && focused == old(focused)
    {
      var file := Resolver.FileFor(tllFileMap, vol);
      log := log + FileLog(tllFileMap, vol);
      var path := Resolver.TllPath(dir, file);
      if path !in fs {
        log := log + [TllPdfMissing];
        dialogs := dialogs + [PdfNotFound(path)];
        return Declined;
      }
      log := log + PageLog(url);
      assert Current() == old(Current()) && nextId == old(nextId);
      var id := ReplaceTitled(file, Resolver.Named(tllFileMap, vol), Resolver.TllUrl(dir, file, url));
      out := Opened(id);
    }

    /** showTLL. */
    method ShowTll(vol: string, url: string) returns (out: Outcome)
      requires Valid()
      modifies this
      ensures Valid()
      ensures TllShown(origin, fs, old(PrefsText()), vol, url, out, old(Viewed()), Viewed())
      ensures fs == old(fs) && firstWindow == old(firstWindow) && ready == old(ready) && focused == old(focused)
    {
      var lookup := Prefs.GetTllPath(PrefsText());
      if !lookup.Found? {
        log := log + [TllDirNotSet];
        dialogs := dialogs + (if lookup.Unreadable? then [SettingsUnreadable] else []) + [DirNotSet("TLL")];
        return Declined;
      }
      var ok := TllFileMapRead();
      if !ok {
        return Threw;
      }
      assert Current() == old(Current()) && oldWindow == old(oldWindow) && nextId == old(nextId) && dialogs == old(dialogs);
      out := ShowTllFile(lookup.path, vol, url);
    }

    /** Whether `OLDwindow` holds a window that is not destroyed. */
    predicate OldAlive()
      reads this
    {
      oldWindow.Some? && Live(oldWindow.value)
    }

    /** The end of showOLD: a live `OLDwindow` is closed, and a new window on `url` takes its place. */
    method ReplaceOld(url: string) returns (id: nat)
      requires Valid()
      modifies this
      ensures Valid()
      ensures id == old(nextId) && nextId == id + 1 && oldWindow == Some(id)
      ensures Current() == Opening(origin, CloseIfLive(old(Current()), old(oldWindow)), id, url)
      ensures log == old(log) + [Loading(url)]
      ensures fs == old(fs) && firstWindow == old(firstWindow) && ready == old(ready)
      ensures tllFileMap == old(tllFileMap) && focused == old(focused) && dialogs == old(dialogs)
    {
      if OldAlive() {
        Close(oldWindow.value);
      }
      id := OpenAt(url);
      oldWindow := Some(id);
    }

    /** showOLD. */
    method ShowOld(url: string) returns (out: Outcome)
      requires Valid()
      modifies this
      ensures Valid()
      ensures OldShown(origin, old(PrefsText()), url, out, old(Viewed()), Viewed())
      ensures fs == old(fs) && firstWindow == old(firstWindow) && ready == old(ready) && focused == old(focused)
    {
      var lookup := Prefs.GetOldPath(PrefsText());
      if !lookup.Found? {
        log := log + [OldDirNotSet];
        dialogs := dialogs + (if lookup.Unreadable? then [SettingsUnreadable] else []) + [DirNotSet("OLD")];
        return Declined;
      }
      log := log + PageLog(url);
      assert Current() == old(Current()) && oldWindow == old(oldWindow) && nextId == old(nextId);
      var id := ReplaceOld(Resolver.OldUrl(lookup.path, url));
      out := Opened(id);
    }

    /**
     * showPDF: a `tll-pdf/<vol>.pdf` pseudo-URL goes to showTLL, an `ox-lat-dict.pdf` one to showOLD, and
     * anything else is logged and declined.
     */
    method ShowPdf(url: string) returns (out: Outcome)
      requires Valid()
      modifies this
      ensures Valid()
      ensures Resolver.Dispatch(url).TllVolume? ==>
        TllShown(origin, fs, old(PrefsText()), Resolver.Dispatch(url).vol, url, out, old(Viewed()), Viewed())
      ensures Resolver.Dispatch(url).OxfordDict? ==> OldShown(origin, old(PrefsText()), url, out, old(Viewed()), Viewed())
      ensures Resolver.Dispatch(url).Unrecognised? ==>
        out == Declined && Viewed() == old(Viewed()).(log := old(log) + [BadPdfUrl(url)])
      ensures fs == old(fs) && firstWindow == old(firstWindow) && ready == old(ready) && focused == old(focused)
    {
      match Resolver.Dispatch(url)
      case TllVolume(vol) =>
        out := ShowTll(vol, url);
      case OxfordDict =>
        out := ShowOld(url);
      case Unrecognised =>
        log := log + [BadPdfUrl(url)];
        out := Declined;
    }
  }
}

/**
 * The first-run page (client/pages/firstrun.js): for each of the six
 * databases a button that opens the location chooser, a field showing the
 * chosen path, and a check mark; below them the "done" section.
 *
 * The page's DOM is modelled by the fields of `Page`: the text of each
 * `<db>path` element, the text and class list of each `<db>ok` element, the
 * click handlers bound so far, whether the done section is displayed and where
 * the done button leads. The main process answers the page's requests:
 * `firstrunSetupMain` with the preferences text (None when it cannot be read),
 * `getport` with the server's port, and `authtabExists` by probing for
 * `<folder>/authtab.dir` or `<folder>/AUTHTAB.DIR`; the outcome of that probe is
 * a parameter here.
 */
module FirstRun {
  import opened JsText
  import Prefs
  import Readiness
  import Main

  /** The text and the class list of a `<db>ok` element. */
  datatype Check = Check(text: string, classes: set<string>)

  const Tick := "✓"
  const WarnText := "✕ No authtab.dir found; this doesn't look like a correct database location"

  /** bindClickEvent's chooser mode: a file for the OLD PDF, a folder for every other database. */
  function DialogKind(db: string): Main.Property {
    if db == "OLD_PDF" then Main.OpenFile else Main.OpenDirectory
  }

  /** showPath's rule: the location is accepted when an authtab was found or the database has none. */
  predicate Accepted(db: string, authtab: bool) {
    authtab || db == "TLL_PDF" || db == "OLD_PDF" || db == "XML_EXPORT"
  }

  /** The check mark after showPath: a tick and `valid`, or the warning and `warn`; other classes stay. */
  function Marked(c: Check, db: string, authtab: bool): (r: Check)
    ensures "valid" in r.classes <==> Accepted(db, authtab)
    ensures "warn" in r.classes <==> !Accepted(db, authtab)
    ensures forall k :: k != "valid" && k != "warn" ==> (k in r.classes <==> k in c.classes)
    ensures r.text == if Accepted(db, authtab) then Tick else WarnText
  {
    if Accepted(db, authtab) then Check(Tick, c.classes - {"warn"} + {"valid"})
    else Check(WarnText, c.classes - {"valid"} + {"warn"})
  }

  /** What `innerHTML = folderPath` shows for the chooser's answer: a cancelled chooser prints `undefined`. */
  function Shown(answer: Option<string>): string {
    if answer.Some? then answer.value else "undefined"
  }

  /** The path firstrunSetup shows for `db`, if any: none without a preferences text or without a matching line. */
  function SetupPath(data: Option<string>, db: string): Option<string> {
    if data.None? then None else Prefs.FirstrunPath(data.value, db)
  }

  /** SetupPath for each database, as one lookup. */
  function Finder(data: Option<string>): string -> Option<string> {
    db => SetupPath(data, db)
  }

  /** Some field of `dbs` shows a non-empty path. */
  predicate AnySet(dbs: seq<string>, paths: map<string, string>) {
    exists i :: 0 <= i < |dbs| && dbs[i] in paths && |paths[dbs[i]]| > 0
  }

  /** The click handlers bound for `dbs`, in order, each with its chooser mode. */
  function Bindings(dbs: seq<string>): (b: seq<(string, Main.Property)>)
    ensures |b| == |dbs|
    ensures forall i :: 0 <= i < |dbs| ==> b[i] == (dbs[i], DialogKind(dbs[i]))
  {
    if dbs == [] then [] else Bindings(dbs[..|dbs| - 1]) + [(dbs[|dbs| - 1], DialogKind(dbs[|dbs| - 1]))]
  }

  /** The path fields after firstrunSetup's loop has handled `dbs`, each database's path found by `look`. */
  function SetupPaths(paths: map<string, string>, look: string -> Option<string>, dbs: seq<string>): map<string, string>
  {
    if dbs == [] then paths
    else
      var r := SetupPaths(paths, look, dbs[..|dbs| - 1]);
      var p := look(dbs[|dbs| - 1]);
      if p.Some? then r[dbs[|dbs| - 1] := p.value] else r
  }

  /** The check marks after firstrunSetup's loop has handled `dbs`. */
  function SetupChecks(checks: map<string, Check>, look: string -> Option<string>, authtabDirs: set<string>, dbs: seq<string>): map<string, Check>
  {
    if dbs == [] then checks
    else
      var r := SetupChecks(checks, look, authtabDirs, dbs[..|dbs| - 1]);
      var db := dbs[|dbs| - 1];
      var p := look(db);
      if p.Some? && db in r then r[db := Marked(r[db], db, p.value in authtabDirs)] else r
  }

  /** One more database for the functions that describe firstrunSetup's loop. */
  lemma SetupStep(paths: map<string, string>, checks: map<string, Check>, look: string -> Option<string>, authtabDirs: set<string>, dbs: seq<string>, i: nat)
    requires i < |dbs|
    ensures Bindings(dbs[..i + 1]) == Bindings(dbs[..i]) + [(dbs[i], DialogKind(dbs[i]))]
    ensures var p := look(dbs[i]); var r := SetupPaths(paths, look, dbs[..i]);
      SetupPaths(paths, look, dbs[..i + 1]) == if p.Some? then r[dbs[i] := p.value] else r
    ensures var p := look(dbs[i]); var r := SetupChecks(checks, look, authtabDirs, dbs[..i]);
      SetupChecks(checks, look, authtabDirs, dbs[..i + 1]) == if p.Some? && dbs[i] in r then r[dbs[i] := Marked(r[dbs[i]], dbs[i], p.value in authtabDirs)] else r
  {
    assert dbs[..i + 1][..i] == dbs[..i];
  }

  /**
   * firstrunSetup's loop, on the values of the page's fields: each database's button gets its click handler
   * (bindClickEvent, with the chooser mode for that database), and each path the preferences text gives is
   * shown with its check mark (showPath).
   */
  method SetupLoop(dbs: seq<string>, handlers0: seq<(string, Main.Property)>, paths0: map<string, string>, checks0: map<string, Check>,
                   data: Option<string>, authtabDirs: set<string>)
    returns (handlers: seq<(string, Main.Property)>, paths: map<string, string>, checks: map<string, Check>)
    requires forall db :: db in dbs ==> db in paths0 && db in checks0
    ensures handlers == handlers0 + Bindings(dbs)
    ensures paths == SetupPaths(paths0, Finder(data), dbs)
    ensures checks == SetupChecks(checks0, Finder(data), authtabDirs, dbs)
    ensures paths.Keys == paths0.Keys && checks.Keys == checks0.Keys
  {
    handlers, paths, checks := handlers0, paths0, checks0;
    var i := 0;
    while i < |dbs|
      invariant 0 <= i <= |dbs|
      invariant handlers == handlers0 + Bindings(dbs[..i])
      invariant paths == SetupPaths(paths0, Finder(data), dbs[..i])
      invariant checks == SetupChecks(checks0, Finder(data), authtabDirs, dbs[..i])
      invariant paths.Keys == paths0.Keys && checks.Keys == checks0.Keys
    {
      SetupStep(paths0, checks0, Finder(data), authtabDirs, dbs, i);
      var db := dbs[i];
      assert db in dbs;
      handlers := handlers + [(db, DialogKind(db))];
      var found := SetupPath(data, db);
      if found.Some? {
        paths := paths[db := found.value];
        checks := checks[db := Marked(checks[db], db, found.value in authtabDirs)];
      }
      i := i + 1;
    }
    assert dbs[..i] == dbs;
  }

  class Page {
    /** The page's `dbs`: Prefs.Dbs, the six databases in the order of their buttons. */
    const dbs: seq<string>
    /** The text of each `<db>path` element. */
    var paths: map<string, string>
    /** Each `<db>ok` element. */
    var checks: map<string, Check>
    /** The click handlers bound to the database buttons, in the order they were bound. */
    var handlers: seq<(string, Main.Property)>
    /** Whether `donesection` is displayed. */
    var doneVisible: bool
    /** Where the done button's click handler sends the page, once it is bound. */
    var doneTarget: Option<Readiness.Location>

    /** Every database has its path field and its check mark. */
    ghost predicate Valid()
      reads this
    {
      forall db :: db in dbs ==> db in paths && db in checks
    }

    /** The page as loaded: empty fields and marks, nothing bound, the done section hidden. */
    constructor()
      ensures Valid() && dbs == Prefs.Dbs
      ensures forall db :: db in dbs ==> paths[db] == "" && checks[db] == Check("", {})
      ensures handlers == [] && !doneVisible && doneTarget.None?
    {
      dbs := Prefs.Dbs;
      paths := map db | db in Prefs.Dbs :: "";
      checks := map db | db in Prefs.Dbs :: Check("", {});
      handlers := [];
      doneVisible := false;
      doneTarget := None;
    }

    /**
     * showPath, once the main process has answered whether `folder` holds an authtab: the folder is shown,
     * and the check mark becomes a tick with class `valid` or a warning with class `warn`.
     */
    method ShowPath(db: string, folder: string, authtab: bool)
      requires db in paths && db in checks
      modifies this
      ensures paths == old(paths)[db := folder]
      ensures checks == old(checks)[db := Marked(old(checks)[db], db, authtab)]
      ensures handlers == old(handlers) && doneVisible == old(doneVisible) && doneTarget == old(doneTarget)
    {
      paths := paths[db := folder];
      checks := checks[db := Marked(checks[db], db, authtab)];
    }

    /** readyDoneButton: the done section is displayed when some path field is not empty; it is never hidden. */
    method ReadyDoneButton()
      requires Valid()
      modifies this
      ensures Valid()
      ensures doneVisible <==> old(doneVisible) || AnySet(dbs, paths)
      ensures paths == old(paths) && checks == old(checks) && handlers == old(handlers) && doneTarget == old(doneTarget)
    {
      var anyset := false;
      var i := 0;
      while i < |dbs|
        invariant 0 <= i <= |dbs|
        invariant anyset <==> exists k :: 0 <= k < i && |paths[dbs[k]]| > 0
        modifies {}
      {
        assert dbs[i] in dbs;
        if |paths[dbs[i]]| > 0 {
          anyset := true;
        }
        i := i + 1;
      }
      if anyset {
        doneVisible := true;
      }
    }

    /** firstrunSetup's loop over the databases: bind each button, and show each path found in the preferences text. */
    method SetupEach(data: Option<string>, authtabDirs: set<string>)
      requires Valid()
      modifies this
      ensures Valid()
      ensures handlers == old(handlers) + Bindings(dbs)
      ensures paths == SetupPaths(old(paths), Finder(data), dbs)
      ensures checks == SetupChecks(old(checks), Finder(data), authtabDirs, dbs)
      ensures paths.Keys == old(paths).Keys && checks.Keys == old(checks).Keys
      ensures doneVisible == old(doneVisible) && doneTarget == old(doneTarget)
    {
      handlers, paths, checks := SetupLoop(dbs, handlers, paths, checks, data, authtabDirs);
    }

    /**
     * firstrunSetup: every database button is bound; when the preferences text could be read, each
     * database's path found in it is shown, with the probe's answer for that path from `authtabDirs`; then
     * the done button is pointed at the server and the done section readied.
     */
    method Setup(data: Option<string>, authtabDirs: set<string>, port: Option<int>)
      requires Valid()
      modifies this
      ensures Valid()
      ensures handlers == old(handlers) + Bindings(dbs)
      ensures paths == SetupPaths(old(paths), Finder(data), dbs)
      ensures checks == SetupChecks(old(checks), Finder(data), authtabDirs, dbs)
      ensures doneTarget == Some(Readiness.PageLocation(Readiness.Home(port)))
      ensures doneVisible <==> old(doneVisible) || AnySet(dbs, paths)
    {
      SetupEach(data, authtabDirs);
      doneTarget := Some(Readiness.PageLocation(Readiness.Home(port)));
      ReadyDoneButton();
    }

    /**
     * A click on `db`'s button, once its handler is bound: the main process's dbOpenDialog shows the chooser,
     * logs and records the answer in the preferences file, and the page shows the answer (`undefined` when
     * cancelled), with the probe's answer `authtab` for it.
     */
    method Click(db: string, answer: Option<string>, authtab: bool, session: Main.Session)
      requires Valid() && db in dbs && session.Valid()
      requires (db, DialogKind(db)) in handlers
      modifies this, session
      ensures Valid() && session.Valid()
      ensures session.dialogs == old(session.dialogs) + [Main.Chooser(db, DialogKind(db))]
      ensures session.log == old(session.log) + [Main.LocationSet(db, answer)]
      ensures answer.Some? ==> session.fs == old(session.fs)[Main.PrefsFile := Prefs.WriteToSettings(old(session.PrefsText()), db, answer).value]
      ensures answer.None? ==> session.fs == old(session.fs)
      ensures paths == old(paths)[db := Shown(answer)]
      ensures checks == old(checks)[db := Marked(old(checks)[db], db, authtab)]
      ensures handlers == old(handlers) && doneVisible == old(doneVisible) && doneTarget == old(doneTarget)
      ensures session.saved == old(session.saved) && session.wins == old(session.wins) && session.windows == old(session.windows)
      ensures session.nextId == old(session.nextId) && session.focused == old(session.focused)
      ensures session.firstWindow == old(session.firstWindow) && session.ready == old(session.ready)
      ensures session.tllFileMap == old(session.tllFileMap) && session.oldWindow == old(session.oldWindow)
    {
      var chosen := session.DbOpenDialog(DialogKind(db), db, answer);
      ShowPath(db, Shown(chosen), authtab);
    }
  }

  // ---------------------------------------------------------------------------------------------
  // Properties

  /** The six database names are plain: their keys need no escaping in a pattern. */
  lemma DbsArePlain()
    ensures forall db :: db in Prefs.Dbs ==> Prefs.PlainName(db)
  {
    assert Prefs.Dbs == ["PHI", "TLG", "DDP", "TLL_PDF", "OLD_PDF", "XML_EXPORT"];
  }

  /** Only the OLD PDF, a single file, is chosen as a file; the five others are folders. */
  lemma OnlyOldIsFile()
    ensures forall i :: 0 <= i < |Prefs.Dbs| ==> (DialogKind(Prefs.Dbs[i]) == Main.OpenFile <==> i == 4)
  {
  }

  /** The three PDF and export locations are always accepted; the three text databases need an authtab. */
  lemma AcceptedIff(db: string, authtab: bool)
    requires db in Prefs.Dbs
    ensures Accepted(db, authtab) <==> authtab || db !in ["PHI", "TLG", "DDP"]
  {
  }

  /** A check mark never carries both `valid` and `warn` once showPath has set it. */
  lemma NeverBoth(c: Check, db: string, authtab: bool)
    ensures !("valid" in Marked(c, db, authtab).classes && "warn" in Marked(c, db, authtab).classes)
    ensures "valid" in Marked(c, db, authtab).classes || "warn" in Marked(c, db, authtab).classes
  {
  }

  /** Marking again with the same answer changes nothing. */
  lemma MarkIdempotent(c: Check, db: string, authtab: bool)
    ensures Marked(Marked(c, db, authtab), db, authtab) == Marked(c, db, authtab)
  {
    var once := Marked(c, db, authtab);
    assert once.classes == Marked(once, db, authtab).classes;
  }

  /** A location chosen in the chooser reads back on the first-run page as that location. */
  lemma ChosenReadsBack(prefs: Option<string>, db: string, path: string)
    requires db in Prefs.Dbs && Prefs.Writable(path)
    ensures SetupPath(Prefs.WriteToSettings(prefs, db, Some(path)), db) == Some(path)
  {
    DbsArePlain();
    Prefs.WriteThenFirstrun(prefs, db, path);
  }

  /** Each field firstrunSetup fills shows the path found for its database; the others keep their text. */
  lemma {:induction false} SetupPathsIs(paths: map<string, string>, look: string -> Option<string>, dbs: seq<string>)
    ensures forall db :: db in SetupPaths(paths, look, dbs) <==> db in paths || (db in dbs && look(db).Some?)
    ensures forall db :: db in SetupPaths(paths, look, dbs) ==>
      SetupPaths(paths, look, dbs)[db] == if db in dbs && look(db).Some? then look(db).value else paths[db]
  {
    if dbs != [] {
      var init := dbs[..|dbs| - 1];
      SetupPathsIs(paths, look, init);
      assert dbs == init + [dbs[|dbs| - 1]];
    }
  }

  /** Each check mark firstrunSetup sets is marked by the rule once, even for a database listed twice. */
  lemma {:induction false} SetupChecksIs(checks: map<string, Check>, look: string -> Option<string>, authtabDirs: set<string>, dbs: seq<string>)
    ensures SetupChecks(checks, look, authtabDirs, dbs).Keys == checks.Keys
    ensures forall db :: db in checks ==>
      SetupChecks(checks, look, authtabDirs, dbs)[db] ==
        if db in dbs && look(db).Some? then Marked(checks[db], db, look(db).value in authtabDirs) else checks[db]
  {
    if dbs != [] {
      var init := dbs[..|dbs| - 1];
      var last := dbs[|dbs| - 1];
      SetupChecksIs(checks, look, authtabDirs, init);
      assert dbs == init + [last];
      var p := look(last);
      if p.Some? && last in checks {
        MarkIdempotent(checks[last], last, p.value in authtabDirs);
      }
    }
  }

  /** Without a readable preferences text, firstrunSetup shows nothing. */
  lemma NoPrefsShowsNothing(paths: map<string, string>, checks: map<string, Check>, authtabDirs: set<string>, dbs: seq<string>)
    ensures SetupPaths(paths, Finder(None), dbs) == paths
    ensures SetupChecks(checks, Finder(None), authtabDirs, dbs) == checks
  {
    SetupPathsIs(paths, Finder(None), dbs);
    SetupChecksIs(checks, Finder(None), authtabDirs, dbs);
  }

  /** A location recorded by the chooser is what the first-run page shows for that database on its next load. */
  lemma SetupShowsChosen(dbs: seq<string>, paths: map<string, string>, prefs: Option<string>, db: string, path: string)
    requires db in dbs && db in Prefs.Dbs && Prefs.Writable(path)
    ensures db in SetupPaths(paths, Finder(Prefs.WriteToSettings(prefs, db, Some(path))), dbs)
    ensures SetupPaths(paths, Finder(Prefs.WriteToSettings(prefs, db, Some(path))), dbs)[db] == path
  {
    ChosenReadsBack(prefs, db, path);
    SetupPathsIs(paths, Finder(Prefs.WriteToSettings(prefs, db, Some(path))), dbs);
  }

  /** One non-empty path field is enough for the done section. */
  lemma ShownPathSets(dbs: seq<string>, paths: map<string, string>, db: string, folder: string)
    requires db in dbs && folder != ""
    ensures AnySet(dbs, paths[db := folder])
  {
    var i :| 0 <= i < |dbs| && dbs[i] == db;
    assert dbs[i] in paths[db := folder];
  }

  /** With every field empty, the done section stays as it was. */
  lemma EmptyNotSet(dbs: seq<string>, paths: map<string, string>)
    requires forall db :: db in dbs && db in paths ==> paths[db] == ""
    ensures !AnySet(dbs, paths)
  {
  }

  /**
   * A cancelled chooser still fills the field, with `undefined`: a click then leaves the field non-empty,
   * although the done section is not looked at again after a click.
   */
  lemma CancelShowsUndefined(dbs: seq<string>, paths: map<string, string>, db: string)
    requires db in dbs
    ensures paths[db := Shown(None)][db] == "undefined"
    ensures AnySet(dbs, paths[db := Shown(None)])
  {
    ShownPathSets(dbs, paths, db, Shown(None));
  }
}

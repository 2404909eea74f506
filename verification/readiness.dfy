/**
 * The readiness handshake of loadWhenLocked (client/main.js): the watch
 * callback on the settings directory, one call per filesystem event.
 *
 * The callback's view of the world at each event is an `Observation`: the
 * file name the event names, whether the lock file is present, what reading and
 * parsing it gives (`Unreadable` when readFileSync or JSON.parse throws), the
 * preferences file and whether the first window is still alive. `Step` is the
 * callback; `Run` folds it over a sequence of events.
 */
module Readiness {
  import opened JsText
  import Prefs

  /** The base name of the lock file the server writes. */
  const LockName := "diogenes-lock.json"

  /** The two keys read from the lock file; None stands for an undefined key. */
  datatype Lock = Lock(port: Option<int>, pid: Option<int>)

  datatype LockRead = Unreadable | Parsed(lock: Lock)

  datatype WatchEvent = WatchEvent(filename: string, present: bool, read: LockRead)

  datatype Observation = Observation(ev: WatchEvent, prefs: Option<string>, windowAlive: bool)

  /** The first page: the setup page, or the server's home page. */
  datatype Page = FirstRun | Home(port: Option<int>)

  /** What a window is told to load: a file of the application (`loadFile`) or a URL (`loadURL`). */
  datatype Location = AppFile(path: string) | Url(url: string)

  /** The globals `startupDone` and `dioSettings`, and whether `app.quit()` has been called. */
  datatype Ready = Ready(startupDone: bool, settings: Lock, quitRequested: bool)

  /** Before the first event: `startupDone = false`, `dioSettings = {}`. */
  const Initial := Ready(false, Lock(None, None), false)

  /**
   * What one call of the callback did: returned early (Ignored); threw while reading or parsing the lock
   * file (ReadFailed); loaded the first page (Loaded); or threw in loadFirstPage because the first window
   * had been destroyed (LoadThrew).
   */
  datatype Effect = Ignored | ReadFailed | Loaded(page: Page) | LoadThrew

  /** The new state, the effect, and whether the "no port or pid" error was logged. */
  datatype Outcome = Outcome(next: Ready, effect: Effect, fieldsMissing: bool)

  /** loadFirstPage's choice: the setup page unless the preferences file can be read and names some `_dir ` entry. */
  function FirstPage(prefs: Option<string>, port: Option<int>): (p: Page)
    ensures p.FirstRun? <==> !Prefs.CheckDbSet(prefs)
    ensures p.Home? ==> p.port == port
  {
    if prefs.None? || !Prefs.CheckDbSet(prefs) then FirstRun else Home(port)
  }

  /** `'http://localhost:' + dioSettings.port`, where an undefined port prints as `undefined`. */
  function PageLocation(p: Page): Location {
    match p
    case FirstRun => AppFile("pages/firstrun.html")
    case Home(port) => Url("http://localhost:" + (if port.Some? then IntText(port.value) else "undefined"))
  }

  /** An event the callback acts on, provided startup is not yet done. */
  predicate Qualifies(o: Observation) {
    o.ev.filename == LockName && o.ev.present && o.ev.read.Parsed?
  }

  /** An event whose call loads the first page, provided startup is not yet done. */
  predicate Fires(o: Observation) {
    Qualifies(o) && o.windowAlive
  }

  /** One call of the watch callback. */
  function Step(r: Ready, o: Observation): (out: Outcome)
    ensures r.startupDone || !Qualifies(o) ==> out.next == r && !out.fieldsMissing
    ensures out.effect.Loaded? <==> !r.startupDone && Fires(o)
    ensures out.next.startupDone <==> r.startupDone || out.effect.Loaded?
    ensures out.effect.ReadFailed? <==> !r.startupDone && o.ev.filename == LockName && o.ev.present && o.ev.read.Unreadable?
    ensures out.effect.LoadThrew? <==> !r.startupDone && Qualifies(o) && !o.windowAlive
    ensures out.effect.Loaded? ==> out.effect.page == FirstPage(o.prefs, o.ev.read.lock.port)
    ensures !r.startupDone && Qualifies(o) ==>
      && out.next.settings == o.ev.read.lock
      && out.fieldsMissing == (o.ev.read.lock.port.None? || o.ev.read.lock.pid.None?)
      && out.next.quitRequested == (r.quitRequested || out.fieldsMissing)
  {
    if r.startupDone || o.ev.filename != LockName || !o.ev.present then Outcome(r, Ignored, false)
    else
      match o.ev.read
      case Unreadable => Outcome(r, ReadFailed, false)
      case Parsed(l) =>
        var missing := l.port.None? || l.pid.None?;
        var r1 := r.(settings := l, quitRequested := r.quitRequested || missing);
        if o.windowAlive then Outcome(r1.(startupDone := true), Loaded(FirstPage(o.prefs, l.port)), missing)
        else Outcome(r1, LoadThrew, missing)
  }

  /** The effects of a sequence of events, one per event. */
  function Run(r: Ready, obs: seq<Observation>): (effs: seq<Effect>)
    ensures |effs| == |obs|
    decreases |obs|
  {
    if obs == [] then [] else [Step(r, obs[0]).effect] + Run(Step(r, obs[0]).next, obs[1..])
  }

  /** The state after a sequence of events. */
  function Final(r: Ready, obs: seq<Observation>): Ready
    decreases |obs|
  {
    if obs == [] then r else Final(Step(r, obs[0]).next, obs[1..])
  }

  // ---------------------------------------------------------------------------------------------
  // Properties

  /** Once startup is done, every later event changes nothing and does nothing. */
  lemma {:induction false} DoneIsFinal(r: Ready, obs: seq<Observation>)
    requires r.startupDone
    ensures Final(r, obs) == r
    ensures forall i :: 0 <= i < |obs| ==> Run(r, obs)[i].Ignored?
    decreases |obs|
  {
    if obs != [] {
      DoneIsFinal(r, obs[1..]);
    }
  }

  /** From any state still waiting: the i-th event loads the first page exactly when it fires and no earlier one did,
      and startup ends up done exactly when some event fired. */
  lemma {:induction false} WaitingRun(r: Ready, obs: seq<Observation>)
    requires !r.startupDone
    ensures forall i :: 0 <= i < |obs| ==>
      (Run(r, obs)[i].Loaded? <==> Fires(obs[i]) && forall k :: 0 <= k < i ==> !Fires(obs[k]))
    ensures Final(r, obs).startupDone <==> exists k :: 0 <= k < |obs| && Fires(obs[k])
    decreases |obs|
  {
    if obs != [] {
      var out := Step(r, obs[0]);
      var effs := Run(r, obs);
      assert effs == [out.effect] + Run(out.next, obs[1..]);
      if out.next.startupDone {
        DoneIsFinal(out.next, obs[1..]);
        assert Fires(obs[0]);
      } else {
        WaitingRun(out.next, obs[1..]);
        assert !Fires(obs[0]);
        forall i | 1 <= i < |obs|
          ensures effs[i].Loaded? <==> Fires(obs[i]) && forall k :: 0 <= k < i ==> !Fires(obs[k])
        {
          assert effs[i] == Run(out.next, obs[1..])[i - 1];
          assert obs[i] == obs[1..][i - 1];
          assert (forall k :: 0 <= k < i ==> !Fires(obs[k])) <==> (forall k :: 0 <= k < i - 1 ==> !Fires(obs[1..][k]));
        }
        if exists k :: 0 <= k < |obs| && Fires(obs[k]) {
          var k :| 0 <= k < |obs| && Fires(obs[k]);
          assert obs[1..][k - 1] == obs[k];
        }
      }
    }
  }

  /**
   * The one-shot property from the initial state: at most one event loads the first page, it is the first
   * event that parses the lock file while the window is alive, and none loads before a lock file was parsed.
   */
  lemma LoadsAtMostOnce(obs: seq<Observation>)
    ensures forall i, j :: 0 <= i < j < |obs| && Run(Initial, obs)[i].Loaded? ==> !Run(Initial, obs)[j].Loaded?
    ensures forall i :: 0 <= i < |obs| && Run(Initial, obs)[i].Loaded? ==>
      obs[i].ev.filename == LockName && obs[i].ev.read.Parsed? && forall k :: 0 <= k < i ==> !Fires(obs[k])
    ensures Final(Initial, obs).startupDone <==> exists k :: 0 <= k < |obs| && Fires(obs[k])
  {
    WaitingRun(Initial, obs);
  }

  /** A lock file that fails to parse leaves everything as it was, so the next good event still loads the page. */
  lemma ParseFailureRetries(r: Ready, bad: Observation, good: Observation)
    requires !r.startupDone && bad.ev.read.Unreadable? && Fires(good)
    ensures Step(r, bad).next == r
    ensures Step(Step(r, bad).next, good).effect.Loaded?
  {
  }

  /** A lock file without port or pid asks the application to quit, yet the page is loaded and startup is done. */
  lemma MissingFieldsStillLoad(r: Ready, o: Observation)
    requires !r.startupDone && Fires(o) && o.ev.read.lock.port.None?
    ensures Step(r, o).next.quitRequested && Step(r, o).next.startupDone
    ensures Step(r, o).effect == Loaded(FirstPage(o.prefs, None))
    ensures PageLocation(Step(r, o).effect.page) == AppFile("pages/firstrun.html")
         || PageLocation(Step(r, o).effect.page) == Url("http://localhost:undefined")
  {
  }

  /** Once any database location has been set, the first page is the server's home page. */
  lemma SetupLeadsHome(prefs: Option<string>, db: string, path: string, port: Option<int>)
    requires Prefs.PlainName(db) && Prefs.Writable(path)
    ensures FirstPage(Prefs.WriteToSettings(prefs, db, Some(path)), port) == Home(port)
  {
    Prefs.WriteSetsDb(prefs, db, path);
  }

  /** Without a preferences file the first page is the setup page. */
  lemma NoPrefsFirstRun(port: Option<int>)
    ensures PageLocation(FirstPage(None, port)) == AppFile("pages/firstrun.html")
  {
  }

  /** The home page's address names the port. */
  lemma HomeNamesPort(port: nat)
    ensures PageLocation(Home(Some(port))) == Url("http://localhost:" + NatText(port))
  {
  }
}

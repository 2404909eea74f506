/**
 * The preferences file `diogenes.prefs`, a text file of lines `<db>_dir "<path>"`.
 *
 * Four rules read or write it: writeToSettings replaces the first line that
 * begins with `<db>_dir` or appends one; getTLLpath and getOLDpath read a
 * quoted directory back; checkDbSet asks whether any `_dir ` entry exists;
 * and the first-run page reads each database's path with a looser pattern.
 * Each regular expression is written out here by hand; the analysis of how
 * the JavaScript engine matches it is in the comment on `MatchAt`.
 */
module Prefs {
  import opened JsText

  /** The text writeToSettings starts from when the file cannot be read. */
  const CreatedHeader := "# Created by Diogenes"

  const TllKey := "tll_pdf_dir"
  const OldKey := "old_pdf_dir"

  /** The six database names the first-run page offers, in its order. */
  const Dbs: seq<string> := ["PHI", "TLG", "DDP", "TLL_PDF", "OLD_PDF", "XML_EXPORT"]

  /** `<db lowercased>_dir`, the key every rule looks for at the start of a line. */
  function DirKey(db: string): string {
    LowerAscii(db) + "_dir"
  }

  /** The line writeToSettings writes for `db`. */
  function SettingLine(db: string, path: string): string {
    DirKey(db) + " \"" + path + "\""
  }

  /** A database name made of ASCII letters, digits and underscores: the regular expressions built from
      it then contain no metacharacter, so matching it literally is what the engine does. */
  predicate PlainName(db: string) {
    forall k :: 0 <= k < |db| ==> 'A' <= db[k] <= 'Z' || 'a' <= db[k] <= 'z' || '0' <= db[k] <= '9' || db[k] == '_'
  }

  /** A path that survives being written into one line and read back: no line break, and no `$`, which
      `String.prototype.replace` would read as a substitution pattern. */
  predicate Writable(path: string) {
    NoLineTerminator(path) && '$' !in path
  }

  /** The three multiline patterns, all anchored by `^<key>` at a line start. */
  datatype Pattern =
    | WholeLine    // ^key.*$             writeToSettings
    | Quoted       // ^key\s+"(.*)"$      getTLLpath, getOLDpath
    | LooseQuoted  // ^key\s+"?(.*?)"?$   the first-run page

  /** Where a match begins and ends, and its first group (for WholeLine: the matched text). */
  datatype Match = Match(start: nat, end: nat, group: string)

  /** The first group of `"?(.*?)"?$` on the rest `r` of a line: one leading and one trailing quote dropped. */
  function StripQuotes(r: string): (c: string)
    ensures r == c || r == "\"" + c || r == c + "\"" || r == "\"" + c + "\""
  {
    var a := if |r| > 0 && r[0] == '"' then r[1..] else r;
    if |a| > 0 && a[|a| - 1] == '"' then a[..|a| - 1] else a
  }

  /**
   * The pattern tried at position `i`. After the key:
   * - `.*$` takes the rest of the line;
   * - `\s+"` needs the longest run of white space (which may cross line breaks, since `\s` includes
   *   them) to be non-empty and followed by a quote; giving back white space cannot help, as no white
   *   space character is a quote. Then `(.*)"$` needs the rest of that line to end in a second quote,
   *   and the group is what lies between;
   * - `\s+"?(.*?)"?$` always succeeds once the run of white space is non-empty: with the longest run,
   *   the lazy group grows until an optional quote and a line end follow, which strips one quote from
   *   each end of the rest of the line.
   */
  function MatchAt(p: Pattern, s: string, key: string, i: nat): (m: Option<Match>)
    requires i <= |s|
    ensures m.Some? ==> m.value.start == i && i + |key| <= m.value.end <= |s| && StartsAt(s, i, key)
    ensures m.Some? ==> m.value.end == |s| || IsLineTerminator(s[m.value.end])
  {
    if !StartsAt(s, i, key) then None
    else
      var j := i + |key|;
      match p
      case WholeLine =>
        var e := LineEnd(s, j);
        Some(Match(i, e, s[i..e]))
      case Quoted =>
        var w := SpaceEnd(s, j);
        if w == j || w == |s| || s[w] != '"' then None
        else
          var e := LineEnd(s, w);
          if e - w >= 2 && s[e - 1] == '"' then Some(Match(i, e, s[w + 1..e - 1])) else None
      case LooseQuoted =>
        var w := SpaceEnd(s, j);
        if w == j then None
        else
          var e := LineEnd(s, w);
          Some(Match(i, e, StripQuotes(s[w..e])))
  }

  /** The leftmost match at or after `from` (`exec`, `match`, `test`, `replace` without the g flag):
      `^` makes only line starts candidates, and they are tried in order. */
  function FirstMatch(p: Pattern, s: string, key: string, from: nat): (m: Option<Match>)
    requires from <= |s|
    ensures m.Some? ==> from <= m.value.start && IsLineStart(s, m.value.start) && MatchAt(p, s, key, m.value.start) == m
    ensures forall j :: from <= j <= |s| && (m.None? || j < m.value.start) && IsLineStart(s, j) ==> MatchAt(p, s, key, j).None?
    decreases |s| - from
  {
    if IsLineStart(s, from) && MatchAt(p, s, key, from).Some? then MatchAt(p, s, key, from)
    else if from == |s| then None
    else FirstMatch(p, s, key, from + 1)
  }

  /**
   * The replacement text `String.prototype.replace` inserts for the pattern `r` when the regular
   * expression has no capturing group: `$$` is a dollar sign, `$&` the match, `` $` `` the text before it,
   * `$'` the text after it; any other `$` (including `$1` and `$<`, as there is no group) stays as it is.
   */
  function ExpandReplacement(r: string, matched: string, before: string, after: string): string
    decreases |r|
  {
    if r == [] then []
    else if r[0] == '$' && |r| >= 2 && r[1] == '$' then "$" + ExpandReplacement(r[2..], matched, before, after)
    else if r[0] == '$' && |r| >= 2 && r[1] == '&' then matched + ExpandReplacement(r[2..], matched, before, after)
    else if r[0] == '$' && |r| >= 2 && r[1] == '`' then before + ExpandReplacement(r[2..], matched, before, after)
    else if r[0] == '$' && |r| >= 2 && r[1] == '\'' then after + ExpandReplacement(r[2..], matched, before, after)
    else [r[0]] + ExpandReplacement(r[1..], matched, before, after)
  }

  /** The new file text writeToSettings computes from `data`. */
  function Rewrite(data: string, db: string, path: string): string {
    var key := DirKey(db);
    var line := SettingLine(db, path);
    match FirstMatch(WholeLine, data, key, 0)
    case Some(m) => data[..m.start] + ExpandReplacement(line, m.group, data[..m.start], data[m.end..]) + data[m.end..]
    case None => data + "\n" + line
  }

  /** The preferences file after writeToSettings(db, path) (None: there is no file); an undefined path writes nothing. */
  function WriteToSettings(prefs: Option<string>, db: string, path: Option<string>): (r: Option<string>)
    ensures path.None? ==> r == prefs
    ensures path.Some? ==> r.Some?
  {
    if path.None? then prefs
    else Some(Rewrite(if prefs.Some? then prefs.value else CreatedHeader, db, path.value))
  }

  /** What getTLLpath and getOLDpath can return: `false` after a dialog (Unreadable), `false` (NotSet), or a path. */
  datatype Lookup = Unreadable | NotSet | Found(path: string)

  /** The body of getTLLpath / getOLDpath for `key`: the first group of the leftmost match, when it is not empty. */
  function GetDir(prefs: Option<string>, key: string): (r: Lookup)
    ensures r.Unreadable? <==> prefs.None?
    ensures r.Found? ==> r.path != "" && NoLineTerminator(r.path)
  {
    if prefs.None? then Unreadable
    else
      match FirstMatch(Quoted, prefs.value, key, 0)
      case Some(m) =>
        var s := prefs.value;
        var w := SpaceEnd(s, m.start + |key|);
        var e := LineEnd(s, w);
        NoLineTerminatorSlice(s[w..e], 1, e - w - 1);
        assert m.group == s[w..e][1..e - w - 1];
        if m.group != "" then Found(m.group) else NotSet
      case None => NotSet
  }

  function GetTllPath(prefs: Option<string>): Lookup {
    GetDir(prefs, TllKey)
  }

  function GetOldPath(prefs: Option<string>): Lookup {
    GetDir(prefs, OldKey)
  }

  /** checkDbSet: the file can be read and the pattern `_dir .*` finds `_dir ` somewhere in it. */
  predicate CheckDbSet(prefs: Option<string>) {
    prefs.Some? && Contains(prefs.value, "_dir ")
  }

  /** The first-run page's reading of `db`'s path from the file text: the first group of `^<db>_dir\s+"?(.*?)"?$`. */
  function FirstrunPath(data: string, db: string): (r: Option<string>)
    ensures r.Some? ==> NoLineTerminator(r.value)
  {
    match FirstMatch(LooseQuoted, data, DirKey(db), 0)
    case Some(m) =>
      LooseGroupOneLine(data, DirKey(db), m.start);
      Some(m.group)
    case None => None
  }

  // ---------------------------------------------------------------------------------------------
  // Properties

  /** A replacement pattern without `$` is inserted as it is. */
  lemma {:induction false} ExpandLiteral(r: string, matched: string, before: string, after: string)
    requires '$' !in r
    ensures ExpandReplacement(r, matched, before, after) == r
    decreases |r|
  {
    if r != [] {
      ExpandLiteral(r[1..], matched, before, after);
    }
  }

  lemma PlainKey(db: string)
    requires PlainName(db)
    ensures NoLineTerminator(DirKey(db)) && '$' !in DirKey(db)
  {
    var key := DirKey(db);
    forall k | 0 <= k < |key| ensures !IsLineTerminator(key[k]) && key[k] != '$' {
      if k < |db| {
        assert key[k] == LowerAscii(db)[k];
      } else {
        assert key[k] == "_dir"[k - |db|];
      }
    }
  }

  lemma PlainLine(db: string, path: string)
    requires PlainName(db) && Writable(path)
    ensures '$' !in SettingLine(db, path)
  {
    PlainKey(db);
    var key := DirKey(db);
    assert SettingLine(db, path) == key + " \"" + path + "\"";
    assert forall c :: c in key + " \"" + path + "\"" ==> c in key || c in " \"" || c in path;
  }

  /**
   * writeToSettings: when some line begins with `<db>_dir`, exactly the first such line (up to its line
   * break) becomes `<db>_dir "<path>"` and every other character is kept.
   */
  lemma RewriteReplacesFirst(data: string, db: string, path: string)
    requires PlainName(db) && Writable(path)
    requires FirstMatch(WholeLine, data, DirKey(db), 0).Some?
    ensures var key := DirKey(db); var m := FirstMatch(WholeLine, data, key, 0).value;
      && IsLineStart(data, m.start) && StartsAt(data, m.start, key)
      && (forall j :: 0 <= j < m.start && IsLineStart(data, j) ==> !StartsAt(data, j, key))
      && m.end == LineEnd(data, m.start + |key|)
      && Rewrite(data, db, path) == data[..m.start] + SettingLine(db, path) + data[m.end..]
  {
    var key := DirKey(db);
    var m := FirstMatch(WholeLine, data, key, 0).value;
    PlainLine(db, path);
    ExpandLiteral(SettingLine(db, path), m.group, data[..m.start], data[m.end..]);
    forall j | 0 <= j < m.start && IsLineStart(data, j) ensures !StartsAt(data, j, key) {
      assert MatchAt(WholeLine, data, key, j).None?;
    }
  }

  /** writeToSettings: when no line begins with `<db>_dir`, a line break and the new line are appended. */
  lemma RewriteAppends(data: string, db: string, path: string)
    requires FirstMatch(WholeLine, data, DirKey(db), 0).None?
    ensures forall j :: 0 <= j <= |data| && IsLineStart(data, j) ==> !StartsAt(data, j, DirKey(db))
    ensures Rewrite(data, db, path) == data + "\n" + SettingLine(db, path)
  {
    var key := DirKey(db);
    forall j | 0 <= j <= |data| && IsLineStart(data, j) ensures !StartsAt(data, j, key) {
      assert MatchAt(WholeLine, data, key, j).None?;
    }
  }

  /** Text that agrees with `s` before a line start `i` of `t` has no line starting with a terminator-free
      key before `i`, when `s` had none. */
  lemma NoKeyBefore(s: string, t: string, key: string, i: nat)
    requires NoLineTerminator(key)
    requires i <= |t| && i <= |s| + 1 && IsLineStart(t, i)
    requires forall k :: 0 <= k < i && k < |s| ==> t[k] == s[k]
    requires forall j :: 0 <= j < i && j <= |s| && IsLineStart(s, j) ==> !StartsAt(s, j, key)
    ensures forall j :: 0 <= j < i && IsLineStart(t, j) ==> !StartsAt(t, j, key)
  {
    forall j | 0 <= j < i && IsLineStart(t, j) ensures !StartsAt(t, j, key) {
      assert IsLineStart(s, j);
      if j + |key| <= i - 1 {
        assert s[j..j + |key|] == t[j..j + |key|];
      } else if j + |key| <= |t| {
        assert t[i - 1] == t[j..j + |key|][i - 1 - j];
      }
    }
  }

  /** The leftmost match is at the first line start where the key begins, when the pattern matches there. */
  lemma FirstMatchIs(p: Pattern, t: string, key: string, i: nat)
    requires i <= |t| && IsLineStart(t, i) && MatchAt(p, t, key, i).Some?
    requires forall j :: 0 <= j < i && IsLineStart(t, j) ==> !StartsAt(t, j, key)
    ensures FirstMatch(p, t, key, 0) == MatchAt(p, t, key, i)
  {
  }

  /** Stripping the quotes keeps a piece of one line within that line. */
  lemma StripQuotesOneLine(r: string)
    requires NoLineTerminator(r)
    ensures NoLineTerminator(StripQuotes(r))
  {
    var a := if |r| > 0 && r[0] == '"' then 1 else 0;
    var b := if |r| - a > 0 && r[|r| - 1] == '"' then |r| - 1 else |r|;
    NoLineTerminatorSlice(r, a, b);
    assert StripQuotes(r) == r[a..b];
  }

  /** The first-run page's group never crosses a line end. */
  lemma LooseGroupOneLine(s: string, key: string, i: nat)
    requires i <= |s| && MatchAt(LooseQuoted, s, key, i).Some?
    ensures NoLineTerminator(MatchAt(LooseQuoted, s, key, i).value.group)
  {
    var w := SpaceEnd(s, i + |key|);
    StripQuotesOneLine(s[w..LineEnd(s, w)]);
  }

  /** The quoted patterns at `i`, once the run of white space and the end of the line are known. */
  lemma QuotedAt(s: string, key: string, i: nat, w: nat, e: nat)
    requires i + |key| < w < e <= |s| && StartsAt(s, i, key)
    requires SpaceEnd(s, i + |key|) == w && LineEnd(s, w) == e && s[w] == '"' && s[e - 1] == '"' && e - w >= 2
    ensures MatchAt(Quoted, s, key, i) == Some(Match(i, e, s[w + 1..e - 1]))
  {
  }

  lemma LooseQuotedAt(s: string, key: string, i: nat, w: nat, e: nat)
    requires i + |key| < w <= e <= |s| && StartsAt(s, i, key)
    requires SpaceEnd(s, i + |key|) == w && LineEnd(s, w) == e
    ensures MatchAt(LooseQuoted, s, key, i) == Some(Match(i, e, StripQuotes(s[w..e])))
  {
  }

  /** The same, with the group named: kept apart from the unfolding of `MatchAt`, which is costly beside it. */
  lemma QuotedGroupAt(s: string, key: string, i: nat, w: nat, e: nat, group: string)
    requires i + |key| < w < e <= |s| && StartsAt(s, i, key)
    requires SpaceEnd(s, i + |key|) == w && LineEnd(s, w) == e && s[w] == '"' && s[e - 1] == '"' && e - w >= 2
    requires s[w + 1..e - 1] == group
    ensures MatchAt(Quoted, s, key, i) == Some(Match(i, e, group))
  {
    QuotedAt(s, key, i, w, e);
  }

  lemma LooseGroupAt(s: string, key: string, i: nat, w: nat, e: nat, group: string)
    requires i + |key| < w <= e <= |s| && StartsAt(s, i, key)
    requires SpaceEnd(s, i + |key|) == w && LineEnd(s, w) == e && StripQuotes(s[w..e]) == group
    ensures MatchAt(LooseQuoted, s, key, i) == Some(Match(i, e, group))
  {
    LooseQuotedAt(s, key, i, w, e);
  }

  /** Stripping the first-run page's quotes from `"<path>"` gives the path back. */
  lemma StripBothQuotes(r: string, path: string)
    requires |r| >= 2 && r[0] == '"' && r[|r| - 1] == '"' && r[1..|r| - 1] == path
    ensures StripQuotes(r) == path
  {
    assert r[1..][..|r[1..]| - 1] == r[1..|r| - 1];
  }

  /** A stretch `"<path>"` of the text, with `path` on one line, lies on one line. */
  lemma QuotedOneLine(t: string, w: nat, e: nat, path: string)
    requires w + 2 <= e <= |t| && t[w] == '"' && t[e - 1] == '"' && t[w + 1..e - 1] == path && NoLineTerminator(path)
    ensures NoLineTerminator(t[w..e])
  {
    forall k | 0 <= k < e - w ensures !IsLineTerminator(t[w..e][k]) {
      if 0 < k < e - w - 1 {
        assert t[w..e][k] == t[w + 1..e - 1][k - 1];
      }
    }
  }

  /** The slice `t[w..e]` as it is seen by `StripQuotes`. */
  lemma QuotedStretch(t: string, w: nat, e: nat, path: string)
    requires w + 2 <= e <= |t| && t[w] == '"' && t[e - 1] == '"' && t[w + 1..e - 1] == path
    ensures StripQuotes(t[w..e]) == path
  {
    var r := t[w..e];
    assert r[1..|r| - 1] == path by { SliceOfSlice(t, w, e, 1, |r| - 1); }
    StripBothQuotes(r, path);
  }

  /** The text `<key> "<path>"` lies at position `i` of `t`, followed by a line end. */
  predicate SettingAt(t: string, i: nat, key: string, path: string) {
    var j := i + |key|;
    var e := j + |path| + 3;
    && e <= |t| && StartsAt(t, i, key)
    && t[j] == ' ' && t[j + 1] == '"' && t[e - 1] == '"' && t[j + 2..e - 1] == path
    && (e == |t| || IsLineTerminator(t[e]))
  }

  /** Such a line, with `path` on one line, reads back as `path` under both quoted patterns. */
  lemma SettingLineMatches(t: string, key: string, path: string, i: nat)
    requires NoLineTerminator(path) && SettingAt(t, i, key, path)
    ensures var e := i + |key| + |path| + 3;
      && MatchAt(Quoted, t, key, i) == Some(Match(i, e, path))
      && MatchAt(LooseQuoted, t, key, i) == Some(Match(i, e, path))
  {
    var j := i + |key|;
    var w := j + 1;
    var e := j + |path| + 3;
    SpaceEndIs(t, j, w);
    QuotedOneLine(t, w, e, path);
    LineEndIs(t, w, e);
    QuotedStretch(t, w, e, path);
    QuotedGroupAt(t, key, i, w, e, path);
    LooseGroupAt(t, key, i, w, e, path);
  }

  /** Where the pieces of `<key> "<path>"` fall once the line is placed after `a` and before `b`. */
  lemma SettingLineLayout(t: string, a: string, key: string, path: string, b: string)
    requires t == a + (key + " \"" + path + "\"") + b
    requires b == [] || IsLineTerminator(b[0])
    ensures SettingAt(t, |a|, key, path)
  {
    var mid := key + " \"" + path + "\"";
    var i := |a|;
    var j := i + |key|;
    var e := j + |path| + 3;
    Middle(a, mid, b);
    assert t[i..e] == mid;
    assert mid[..|key|] == key;
    assert t[i..j] == key by { SliceOfSlice(t, i, e, 0, |key|); }
    assert mid[|key| + 2..|mid| - 1] == path;
    assert t[j + 2..e - 1] == path by { SliceOfSlice(t, i, e, |key| + 2, |mid| - 1); }
    assert t[j] == mid[|key|] && t[j + 1] == mid[|key| + 1] && t[e - 1] == mid[|mid| - 1];
  }

  /** Where writeToSettings's line sits in the new text: after a line start, before a line end, with no
      earlier line starting with the key. */
  lemma WrittenLineFirst(data: string, db: string, path: string) returns (i: nat)
    requires PlainName(db) && Writable(path)
    ensures var t := Rewrite(data, db, path);
      && i <= |t| && IsLineStart(t, i) && SettingAt(t, i, DirKey(db), path)
      && forall j :: 0 <= j < i && IsLineStart(t, j) ==> !StartsAt(t, j, DirKey(db))
  {
    var key := DirKey(db);
    var line := SettingLine(db, path);
    var t := Rewrite(data, db, path);
    var a, b;
    PlainKey(db);
    if FirstMatch(WholeLine, data, key, 0).Some? {
      RewriteReplacesFirst(data, db, path);
      var m := FirstMatch(WholeLine, data, key, 0).value;
      a, b := data[..m.start], data[m.end..];
      assert t == a + line + b;
      if m.start > 0 {
        assert t[m.start - 1] == data[m.start - 1];
      }
      NoKeyBefore(data, t, key, m.start);
    } else {
      RewriteAppends(data, db, path);
      a, b := data + "\n", [];
      assert t == a + line + b;
      assert t[|a| - 1] == '\n';
      NoKeyBefore(data, t, key, |a|);
    }
    SettingLineLayout(t, a, key, path, b);
    i := |a|;
  }

  /** Round trip: once writeToSettings(db, path) has written a non-empty path, the getTLLpath rule for db's key reads it back. */
  lemma WriteThenGetDir(prefs: Option<string>, db: string, path: string)
    requires PlainName(db) && Writable(path) && path != ""
    ensures GetDir(WriteToSettings(prefs, db, Some(path)), DirKey(db)) == Found(path)
  {
    var data := if prefs.Some? then prefs.value else CreatedHeader;
    var key := DirKey(db);
    var i := WrittenLineFirst(data, db, path);
    SettingLineMatches(Rewrite(data, db, path), key, path, i);
    FirstMatchIs(Quoted, Rewrite(data, db, path), key, i);
  }

  /** Round trip through the first-run page: any writable path, even an empty one, is shown as written. */
  lemma WriteThenFirstrun(prefs: Option<string>, db: string, path: string)
    requires PlainName(db) && Writable(path)
    ensures FirstrunPath(WriteToSettings(prefs, db, Some(path)).value, db) == Some(path)
  {
    var data := if prefs.Some? then prefs.value else CreatedHeader;
    var key := DirKey(db);
    var i := WrittenLineFirst(data, db, path);
    SettingLineMatches(Rewrite(data, db, path), key, path, i);
    FirstMatchIs(LooseQuoted, Rewrite(data, db, path), key, i);
  }

  lemma TllKeyIs()
    ensures DirKey("TLL_PDF") == TllKey && PlainName("TLL_PDF")
  {
    assert LowerAscii("TLL_PDF") == "tll_pdf";
  }

  lemma OldKeyIs()
    ensures DirKey("OLD_PDF") == OldKey && PlainName("OLD_PDF")
  {
    assert LowerAscii("OLD_PDF") == "old_pdf";
  }

  /** Setting the TLL location and then asking getTLLpath for it gives the path back. */
  lemma WriteTllThenGetTll(prefs: Option<string>, path: string)
    requires Writable(path) && path != ""
    ensures GetTllPath(WriteToSettings(prefs, "TLL_PDF", Some(path))) == Found(path)
  {
    TllKeyIs();
    WriteThenGetDir(prefs, "TLL_PDF", path);
  }

  /** Setting the OLD location and then asking getOLDpath for it gives the path back. */
  lemma WriteOldThenGetOld(prefs: Option<string>, path: string)
    requires Writable(path) && path != ""
    ensures GetOldPath(WriteToSettings(prefs, "OLD_PDF", Some(path))) == Found(path)
  {
    OldKeyIs();
    WriteThenGetDir(prefs, "OLD_PDF", path);
  }

  /** A key followed by a space holds `_dir `. */
  lemma DirSpaceAt(t: string, i: nat, db: string)
    requires StartsAt(t, i, DirKey(db)) && i + |DirKey(db)| < |t| && t[i + |DirKey(db)|] == ' '
    ensures StartsAt(t, i + |LowerAscii(db)|, "_dir ")
  {
    var low := LowerAscii(db);
    var at := i + |low|;
    assert t[at..at + 4] == t[i..i + |DirKey(db)|][|low|..] == "_dir";
    assert t[at..at + 5] == t[at..at + 4] + [t[at + 4]];
  }

  /** After any database location is written, checkDbSet holds, so the next start goes to the server's home page. */
  lemma WriteSetsDb(prefs: Option<string>, db: string, path: string)
    requires PlainName(db) && Writable(path)
    ensures CheckDbSet(WriteToSettings(prefs, db, Some(path)))
  {
    var data := if prefs.Some? then prefs.value else CreatedHeader;
    var i := WrittenLineFirst(data, db, path);
    DirSpaceAt(Rewrite(data, db, path), i, db);
  }

  /** getTLLpath finds nothing in a file where no line starts with the key. */
  lemma GetDirNeedsKeyLine(prefs: Option<string>, key: string)
    requires prefs.Some?
    requires forall j :: 0 <= j <= |prefs.value| && IsLineStart(prefs.value, j) ==> !StartsAt(prefs.value, j, key)
    ensures GetDir(prefs, key) == NotSet
  {
  }

  /** A key line whose quotes enclose nothing reads as unset, as the group is empty. */
  lemma EmptyQuotesNotSet(key: string)
    ensures GetDir(Some(key + " \"\""), key) == NotSet
  {
    assert [] + (key + " \"" + "" + "\"") + [] == key + " \"\"";
    SettingLineLayout(key + " \"\"", [], key, "", []);
    SettingLineMatches(key + " \"\"", key, "", 0);
    FirstMatchIs(Quoted, key + " \"\"", key, 0);
  }
}

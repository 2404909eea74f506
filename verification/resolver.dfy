/**
 * The pure part of opening a PDF from a pseudo-URL (client/main.js): which
 * viewer showPDF dispatches to, the page number showTLL and showOLD read
 * from the URL, the TLL volume list that tllFileMapRead parses, and the
 * `file://` locations the PDF windows are told to load.
 */
module Resolver {
  import opened JsText

  const TllPrefix := "tll-pdf/"
  const OldPrefix := "ox-lat-dict.pdf"
  const PdfSuffix := ".pdf"

  /** The three branches of showPDF. */
  datatype Target = TllVolume(vol: string) | OxfordDict | Unrecognised

  /** No ".pdf" begins inside `vol` in `vol + ".pdf"`: the lazy group then stops right after `vol`. */
  predicate NoPdfBefore(vol: string) {
    forall j :: 0 <= j < |vol| ==> !StartsAt(vol + PdfSuffix, j, PdfSuffix)
  }

  /** The first ".pdf" at or after `n` and not past the end of that line: where a lazy `(.*?)\.pdf` stops. */
  function PdfFrom(s: string, n: nat): (r: Option<nat>)
    requires n <= |s|
    ensures r.Some? ==> n <= r.value <= LineEnd(s, n) && StartsAt(s, r.value, PdfSuffix)
    ensures forall j :: n <= j <= LineEnd(s, n) && (r.None? || j < r.value) ==> !StartsAt(s, j, PdfSuffix)
    decreases |s| - n
  {
    if StartsAt(s, n, PdfSuffix) then Some(n)
    else if n == |s| || IsLineTerminator(s[n]) then None
    else PdfFrom(s, n + 1)
  }

  /** showPDF: `^tll-pdf\/(.*?)\.pdf` first, then `^ox-lat-dict\.pdf`, both anchored at the start of the URL. */
  function Dispatch(url: string): (t: Target)
    ensures t.TllVolume? ==> StartsAt(url, 0, TllPrefix + t.vol + PdfSuffix) && NoLineTerminator(t.vol) && NoPdfBefore(t.vol)
    ensures t.OxfordDict? ==> StartsAt(url, 0, OldPrefix)
    ensures t.Unrecognised? ==> !StartsAt(url, 0, OldPrefix)
  {
    var n := |TllPrefix|;
    if StartsAt(url, 0, TllPrefix) && PdfFrom(url, n).Some? then
      var e := PdfFrom(url, n).value;
      DispatchedVolume(url, e);
      TllVolume(url[n..e])
    else if StartsAt(url, 0, OldPrefix) then OxfordDict
    else Unrecognised
  }

  /** The text the lazy group stops at, with the prefix and the suffix around it, opens the URL. */
  lemma VolumeFraming(url: string, e: nat)
    requires StartsAt(url, 0, TllPrefix) && |TllPrefix| <= e && StartsAt(url, e, PdfSuffix)
    ensures StartsAt(url, 0, TllPrefix + url[|TllPrefix|..e] + PdfSuffix)
  {
    var n := |TllPrefix|;
    assert url[..e + 4] == url[..n] + url[n..e] + url[e..e + 4];
  }

  /** The volume lies on the first line. */
  lemma VolumeOneLine(url: string, e: nat)
    requires |TllPrefix| <= e <= |url| && e <= LineEnd(url, |TllPrefix|)
    ensures NoLineTerminator(url[|TllPrefix|..e])
  {
    var n := |TllPrefix|;
    var vol := url[n..e];
    forall k | 0 <= k < |vol| ensures !IsLineTerminator(vol[k]) {
      assert vol[k] == url[n..LineEnd(url, n)][k];
    }
  }

  /** No ".pdf" starts inside the volume when none starts in the URL between the prefix and `e`. */
  lemma VolumeNoPdf(url: string, e: nat)
    requires |TllPrefix| <= e && StartsAt(url, e, PdfSuffix)
    requires forall j :: |TllPrefix| <= j < e ==> !StartsAt(url, j, PdfSuffix)
    ensures NoPdfBefore(url[|TllPrefix|..e])
  {
    var n := |TllPrefix|;
    var vol := url[n..e];
    assert vol + PdfSuffix == url[n..e + 4];
    forall j | 0 <= j < |vol| ensures !StartsAt(vol + PdfSuffix, j, PdfSuffix) {
      assert (vol + PdfSuffix)[j..j + 4] == url[n + j..n + j + 4];
      assert !StartsAt(url, n + j, PdfSuffix);
    }
  }

  lemma DispatchedVolume(url: string, e: nat)
    requires StartsAt(url, 0, TllPrefix) && PdfFrom(url, |TllPrefix|) == Some(e)
    ensures StartsAt(url, 0, TllPrefix + url[|TllPrefix|..e] + PdfSuffix)
    ensures NoLineTerminator(url[|TllPrefix|..e]) && NoPdfBefore(url[|TllPrefix|..e])
  {
    VolumeFraming(url, e);
    VolumeOneLine(url, e);
    VolumeNoPdf(url, e);
  }

  /** `page=(\d+)$` without the multiline flag: where the maximal run of digits that ends the text begins. */
  function TrailingDigits(s: string): (k: nat)
    ensures k <= |s| && AllDigits(s[k..])
    ensures k == 0 || !IsDigit(s[k - 1])
    decreases |s|
  {
    if s == [] || !IsDigit(s[|s| - 1]) then |s|
    else
      var k := TrailingDigits(s[..|s| - 1]);
      assert s[k..] == s[..|s| - 1][k..] + [s[|s| - 1]];
      k
  }

  lemma {:induction false} TrailingDigitsIs(s: string, k: nat)
    requires k <= |s| && AllDigits(s[k..])
    requires k == 0 || !IsDigit(s[k - 1])
    ensures TrailingDigits(s) == k
    decreases |s|
  {
    if k < |s| {
      assert IsDigit(s[k..][|s| - 1 - k]);
      var t := s[..|s| - 1];
      assert t[k..] == s[k..][..|s| - 1 - k];
      TrailingDigitsIs(t, k);
    }
  }

  /** The page number of a pseudo-URL: the digits after a final `page=`, when the URL ends so. */
  function PageOf(url: string): (r: Option<string>)
    ensures r.Some? ==> |r.value| > 0 && AllDigits(r.value)
  {
    var k := TrailingDigits(url);
    if 5 <= k < |url| && url[k - 5..k] == "page=" then Some(url[k..]) else None
  }

  /** The fragment showTLL and showOLD append; an absent page number prints as `undefined`. */
  function PageFragment(url: string): string {
    "#page=" + (if PageOf(url).Some? then PageOf(url).value else "undefined")
  }

  /** A character of the class `[\d\.o]` that volume identifiers are made of. */
  predicate IsVolumeChar(c: char) {
    IsDigit(c) || c == '.' || c == 'o'
  }

  predicate IsVolume(v: string) {
    |v| > 0 && forall k :: 0 <= k < |v| ==> IsVolumeChar(v[k])
  }

  /** The end of the run of volume characters starting at `i`: how far a greedy `[\d\.o]+` reaches. */
  function VolumeEnd(s: string, i: nat): (e: nat)
    requires i <= |s|
    ensures i <= e <= |s|
    ensures e == |s| || !IsVolumeChar(s[e])
    ensures forall k :: i <= k < e ==> IsVolumeChar(s[k])
    decreases |s| - i
  {
    if i == |s| || !IsVolumeChar(s[i]) then i else VolumeEnd(s, i + 1)
  }

  /** One line of the volume list under `^([\d\.o]+)\t(.*)$` (no multiline flag): an entry, a line whose file name
      is empty (logged as an error), or a line that does not match (skipped silently). */
  datatype ListLine = Entry(vol: string, file: string) | EmptyName | NoMatch

  function ParseListLine(line: string): (r: ListLine)
    ensures r.Entry? ==> line == r.vol + "\t" + r.file && IsVolume(r.vol) && |r.file| > 0 && NoLineTerminator(r.file)
    ensures r.EmptyName? ==> |line| > 0 && IsVolume(line[..|line| - 1]) && line[|line| - 1] == '\t'
  {
    var e := VolumeEnd(line, 0);
    if 0 < e < |line| && line[e] == '\t' && NoLineTerminator(line[e + 1..]) then
      assert line == line[..e] + "\t" + line[e + 1..];
      if e + 1 == |line| then EmptyName else Entry(line[..e], line[e + 1..])
    else NoMatch
  }

  /** The map after one line: an entry sets (or overrides) its volume. */
  function Enter(m: map<string, string>, l: ListLine): map<string, string> {
    if l.Entry? then m[l.vol := l.file] else m
  }

  /** The map after the `forEach` over `lines`, starting from `m`. */
  function Entries(lines: seq<string>, m: map<string, string>): map<string, string>
    decreases |lines|
  {
    if lines == [] then m else Enter(Entries(lines[..|lines| - 1], m), ParseListLine(lines[|lines| - 1]))
  }

  /** The volume map read from the text of `tll-pdf-list.txt`. */
  function VolumeMap(list: string): map<string, string> {
    Entries(Split(list, '\n'), map[])
  }

  predicate EntryFor(line: string, vol: string) {
    ParseListLine(line).Entry? && ParseListLine(line).vol == vol
  }

  /** The members every plain JavaScript object inherits from `Object.prototype`: `tllFileMap[vol]` finds them
      when the map has no entry of its own for `vol`. */
  const ProtoNames: set<string> := {
    "constructor", "__proto__", "hasOwnProperty", "isPrototypeOf", "propertyIsEnumerable", "toString",
    "valueOf", "toLocaleString", "__defineGetter__", "__defineSetter__", "__lookupGetter__", "__lookupSetter__"}

  /** The text an inherited member gives when it is joined into a string: the prototype object itself for
      `__proto__`, otherwise the source text V8 prints for a built-in function. */
  function ProtoText(name: string): string {
    if name == "__proto__" then "[object Object]"
    else if name == "constructor" then "function Object() { [native code] }"
    else "function " + name + "() { [native code] }"
  }

  /** Whether `tllFileMap[vol]` is defined: an own entry, or an inherited member. */
  predicate Named(m: map<string, string>, vol: string) {
    vol in m || vol in ProtoNames
  }

  /** showTLL's file name for a volume: the entry, else an inherited member's text, else `undefined`, which
      then prints as such. */
  function FileFor(m: map<string, string>, vol: string): (f: string)
    ensures !Named(m, vol) <==> f == "undefined" && vol !in m
    ensures vol in m ==> f == m[vol]
  {
    if vol in m then m[vol] else if vol in ProtoNames then ProtoText(vol) else "undefined"
  }

  /** The path showTLL checks: the directory without one trailing slash, then `/`, then the file name. */
  function TllPath(dir: string, file: string): string {
    StripTrailingSlash(dir) + "/" + file
  }

  function TllUrl(dir: string, file: string, url: string): string {
    "file://" + TllPath(dir, file) + PageFragment(url)
  }

  /** The OLD setting names the PDF file itself, so only a trailing slash is dropped. */
  function OldUrl(dir: string, url: string): string {
    "file://" + StripTrailingSlash(dir) + PageFragment(url)
  }

  // ---------------------------------------------------------------------------------------------
  // Properties

  /** A volume written into a pseudo-URL is dispatched back to the TLL viewer with that volume. */
  lemma DispatchTll(vol: string, rest: string)
    requires NoLineTerminator(vol) && NoPdfBefore(vol)
    ensures Dispatch(TllPrefix + vol + PdfSuffix + rest) == TllVolume(vol)
  {
    var url := TllPrefix + vol + PdfSuffix + rest;
    var n := |TllPrefix|;
    var e := n + |vol|;
    assert StartsAt(url, 0, TllPrefix);
    assert url[n..e] == vol;
    assert StartsAt(url, e, PdfSuffix) by {
      assert url[e..e + 4] == PdfSuffix;
    }
    assert url[n..e + 4] == vol + PdfSuffix;
    forall j | n <= j < e ensures !StartsAt(url, j, PdfSuffix) {
      assert url[j..j + 4] == url[n..e + 4][j - n..j - n + 4];
      assert !StartsAt(vol + PdfSuffix, j - n, PdfSuffix);
    }
  }

  /** Every pseudo-URL beginning with the Oxford Latin Dictionary prefix goes to that viewer. */
  lemma DispatchOld(rest: string)
    ensures Dispatch(OldPrefix + rest) == OxfordDict
  {
    var url := OldPrefix + rest;
    assert url[..|OldPrefix|] == OldPrefix;
    assert url[0] != TllPrefix[0];
  }

  /** Identifiers from the volume list never contain "p", so any of them survives the round trip through a pseudo-URL. */
  lemma VolumeDispatches(vol: string, rest: string)
    requires IsVolume(vol)
    ensures Dispatch(TllPrefix + vol + PdfSuffix + rest) == TllVolume(vol)
  {
    forall j | 0 <= j < |vol| ensures !StartsAt(vol + PdfSuffix, j, PdfSuffix) {
      assert j + 1 < |vol| ==> (vol + PdfSuffix)[j + 1] == vol[j + 1] && IsVolumeChar(vol[j + 1]);
      assert j + 1 == |vol| ==> (vol + PdfSuffix)[j + 1] == '.';
      assert (vol + PdfSuffix)[j..j + 4][1] == (vol + PdfSuffix)[j + 1];
    }
    forall k | 0 <= k < |vol| ensures !IsLineTerminator(vol[k]) {
      assert IsVolumeChar(vol[k]);
    }
    DispatchTll(vol, rest);
  }

  /** The page number is exactly the non-empty digit run that ends the URL right after `page=`. */
  lemma PageOfIff(url: string, d: string)
    ensures PageOf(url) == Some(d) <==>
      |d| > 0 && AllDigits(d) && |url| >= |d| + 5 && url[|url| - |d| - 5..] == "page=" + d
  {
    var k := TrailingDigits(url);
    if PageOf(url) == Some(d) {
      assert url[k - 5..] == url[k - 5..k] + url[k..];
    }
    if |d| > 0 && AllDigits(d) && |url| >= |d| + 5 && url[|url| - |d| - 5..] == "page=" + d {
      var j := |url| - |d|;
      assert url[j..] == ("page=" + d)[5..];
      assert url[j - 1] == ("page=" + d)[4];
      TrailingDigitsIs(url, j);
      assert url[j - 5..j] == ("page=" + d)[..5];
    }
  }

  /** A line written as volume, tab, file name is read back as that entry; one with an empty name is flagged. */
  lemma ListLineRoundTrip(vol: string, file: string)
    requires IsVolume(vol) && NoLineTerminator(file)
    ensures ParseListLine(vol + "\t" + file) == if file == "" then EmptyName else Entry(vol, file)
  {
    var line := vol + "\t" + file;
    assert VolumeEnd(line, 0) == |vol| by {
      VolumeEndIs(line, |vol|);
    }
    assert line[|vol| + 1..] == file;
    assert line[..|vol|] == vol;
  }

  lemma VolumeEndIs(s: string, e: nat)
    requires e <= |s|
    requires forall k :: 0 <= k < e ==> IsVolumeChar(s[k])
    requires e == |s| || !IsVolumeChar(s[e])
    ensures VolumeEnd(s, 0) == e
  {
    VolumeEndFrom(s, 0, e);
  }

  lemma {:induction false} VolumeEndFrom(s: string, i: nat, e: nat)
    requires i <= e <= |s|
    requires forall k :: i <= k < e ==> IsVolumeChar(s[k])
    requires e == |s| || !IsVolumeChar(s[e])
    ensures VolumeEnd(s, i) == e
    decreases e - i
  {
    if i < e {
      VolumeEndFrom(s, i + 1, e);
    }
  }

  /** The file of the last line of `lines` that is an entry for `vol`. */
  function LastFile(lines: seq<string>, vol: string): Option<string>
    decreases |lines|
  {
    if lines == [] then None
    else if EntryFor(lines[|lines| - 1], vol) then Some(ParseListLine(lines[|lines| - 1]).file)
    else LastFile(lines[..|lines| - 1], vol)
  }

  /** The map after the list holds each volume's last entry, and the earlier value of a volume no line names. */
  lemma {:induction false} EntriesLookup(lines: seq<string>, m: map<string, string>, vol: string)
    ensures LastFile(lines, vol).Some? ==> vol in Entries(lines, m) && Entries(lines, m)[vol] == LastFile(lines, vol).value
    ensures LastFile(lines, vol).None? ==> (vol in Entries(lines, m) <==> vol in m)
    ensures LastFile(lines, vol).None? && vol in m ==> Entries(lines, m)[vol] == m[vol]
    decreases |lines|
  {
    if lines != [] {
      EntriesLookup(lines[..|lines| - 1], m, vol);
    }
  }

  /** LastFile is the entry of the line after which no line names the volume. */
  lemma {:induction false} LastFileIs(lines: seq<string>, vol: string)
    ensures LastFile(lines, vol).None? <==> forall i :: 0 <= i < |lines| ==> !EntryFor(lines[i], vol)
    ensures forall i | 0 <= i < |lines| && EntryFor(lines[i], vol) && (forall j :: i < j < |lines| ==> !EntryFor(lines[j], vol)) ::
              LastFile(lines, vol) == Some(ParseListLine(lines[i]).file)
    decreases |lines|
  {
    if lines != [] {
      var init := lines[..|lines| - 1];
      LastFileIs(init, vol);
      assert forall i :: 0 <= i < |init| ==> init[i] == lines[i];
    }
  }

  /** For each volume, the map holds the file of the LAST line that names it, and volumes no line names keep
      their earlier value. */
  lemma LastEntryWins(lines: seq<string>, m: map<string, string>, vol: string, i: nat)
    requires i < |lines| && EntryFor(lines[i], vol)
    requires forall j :: i < j < |lines| ==> !EntryFor(lines[j], vol)
    ensures vol in Entries(lines, m) && Entries(lines, m)[vol] == ParseListLine(lines[i]).file
  {
    LastFileIs(lines, vol);
    EntriesLookup(lines, m, vol);
  }

  /** A volume that no line names keeps its earlier value, or stays unmapped. */
  lemma UnnamedUnchanged(lines: seq<string>, m: map<string, string>, vol: string)
    requires forall i :: 0 <= i < |lines| ==> !EntryFor(lines[i], vol)
    ensures vol in Entries(lines, m) <==> vol in m
    ensures vol in m ==> Entries(lines, m)[vol] == m[vol]
  {
    LastFileIs(lines, vol);
    EntriesLookup(lines, m, vol);
  }

  /** A volume that is neither mapped nor an inherited member yields the path `<dir>/undefined`. */
  lemma UnmappedPath(dir: string, m: map<string, string>, vol: string)
    requires vol !in m && vol !in ProtoNames
    ensures TllPath(dir, FileFor(m, vol)) == StripTrailingSlash(dir) + "/undefined"
  {
  }

  /** An unmapped volume named like an inherited member yields a path ending in that member's text, and counts
      as named: showTLL logs nothing about it. */
  lemma InheritedPath(dir: string, m: map<string, string>, vol: string)
    requires vol !in m && vol in ProtoNames
    ensures Named(m, vol)
    ensures TllPath(dir, FileFor(m, vol)) == StripTrailingSlash(dir) + "/" + ProtoText(vol)
  {
  }

  /** The volume list never maps an inherited name: its volumes are made of digits, dots and `o`. */
  lemma ListNeverNamesProto(v: string)
    requires IsVolume(v)
    ensures v !in ProtoNames
  {
    assert IsVolumeChar(v[0]);
  }

  /** Without a list entry, the file name of the volume `constructor` (from `tll-pdf/constructor.pdf`) is the
      text of `Object`. */
  lemma ConstructorVolume(m: map<string, string>)
    requires "constructor" !in m
    ensures FileFor(m, "constructor") == "function Object() { [native code] }"
  {
  }

  /** A trailing slash on the configured directory is not doubled. */
  lemma SlashNotDoubled(dir: string, file: string)
    ensures (|dir| == 0 || dir[|dir| - 1] != '/') ==> TllPath(dir + "/", file) == TllPath(dir, file)
    ensures TllPath(dir + "/", file) == dir + "/" + file
  {
  }

  /** A single line ended by the separator splits into that line and an empty last piece. */
  lemma SplitTerminated(line: string, sep: char)
    requires sep !in line
    ensures Split(line + [sep], sep) == [line, ""]
  {
    var s := line + [sep];
    assert StartsAt(s, |line|, [sep]);
    forall j | 0 <= j < |line| ensures !StartsAt(s, j, [sep]) {
      assert s[j..j + 1] == [line[j]];
    }
    assert IndexOf(s, [sep], 0) == Some(|line|);
    assert s[..|line|] == line && s[|line| + 1..] == "";
    assert IndexOf("", [sep], 0) == None;
  }

  /** The list text `4.1<TAB>tll-iv-1.pdf` with a final newline maps volume 4.1 to `tll-iv-1.pdf` and nothing else. */
  lemma ExampleList()
    ensures VolumeMap("4.1" + "\t" + "tll-iv-1.pdf" + "\n") == map["4.1" := "tll-iv-1.pdf"]
  {
    var line := "4.1" + "\t" + "tll-iv-1.pdf";
    assert '\n' !in "4.1" && '\n' !in "\t" && '\n' !in "tll-iv-1.pdf";
    SplitTerminated(line, '\n');
    ListLineRoundTrip("4.1", "tll-iv-1.pdf");
    assert ParseListLine("") == NoMatch;
    assert [line, ""][..1] == [line];
    assert [line][..0] == [];
    assert Entries([line], map[]) == map["4.1" := "tll-iv-1.pdf"];
    assert Entries([line, ""], map[]) == Entries([line], map[]);
  }

  /** The page number of the pseudo-URL `tll-pdf/4.1.pdf?page=45` is 45. */
  lemma ExamplePage()
    ensures PageOf("tll-pdf/4.1.pdf?page=45") == Some("45")
  {
    PageOfIff("tll-pdf/4.1.pdf?page=45", "45");
  }

  /** The pseudo-URL `tll-pdf/4.1.pdf?page=45`, the map read from the list above and the directory `/pdfs/` give the location
      `file:///pdfs/tll-iv-1.pdf#page=45`. */
  lemma TllExample()
    ensures TllUrl("/pdfs/", FileFor(map["4.1" := "tll-iv-1.pdf"], "4.1"), "tll-pdf/4.1.pdf?page=45")
         == "file:///pdfs/tll-iv-1.pdf#page=45"
  {
    ExamplePage();
    assert StripTrailingSlash("/pdfs/") == "/pdfs";
  }
}

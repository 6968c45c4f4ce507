/** The settings file: read line by line, written whole. One reading and writing brings any text at all
    into a normal form that further rewrites no longer change. */
module AppConfig {

  datatype Config = Config(
    gamesDir: string, launcherMusic: bool, unknownLines: seq<string>,
    guestArgs: string, guestArgsByTitle: map<string, string>)

  const DEFAULTS: Config := Config("", true, [], "", map[])

  // --- keys ----------------------------------------------------------------------------------------

  /** A key a line can carry and give back. */
  predicate PlainKey(key: string) {
    Trimmed(key) && key != "" && key[0] != '#' && '=' !in key && '\n' !in key
  }

  function GamesDir(): (key: string)
    ensures PlainKey(key)
  {
    "games_dir"
  }

  function LauncherMusic(): (key: string)
    ensures PlainKey(key)
  {
    "launcher_music"
  }

  function GuestArgs(): (key: string)
    ensures PlainKey(key)
  {
    "guest_args"
  }

  function TitlePrefix(): (key: string)
    ensures PlainKey(key)
  {
    "guest_args."
  }

  lemma KeysDiffer()
    ensures GamesDir() != LauncherMusic() && GamesDir() != GuestArgs() && LauncherMusic() != GuestArgs()
    ensures forall key :: NamesTitle(key) ==> key != GamesDir() && key != LauncherMusic() && key != GuestArgs()
  {
    assert GamesDir()[0] == 'g' && LauncherMusic()[0] == 'l' && GuestArgs()[0] == 'g' && TitlePrefix()[0] == 'g';
    assert |GamesDir()| == 9 && |GuestArgs()| == 10 && |TitlePrefix()| == 11;
  }

  // --- trimming ------------------------------------------------------------------------------------

  predicate Blank(c: char) {
    c == ' ' || c == '\t'
  }

  /** A carriage return is cut from the end of a line, but not from its beginning. */
  predicate BlankAtEnd(c: char) {
    Blank(c) || c == '\r'
  }

  function TrimFront(s: string): (r: string)
    ensures r != "" ==> !Blank(r[0])
  {
    if s != "" && Blank(s[0]) then TrimFront(s[1..]) else s
  }

  function TrimBack(s: string): (r: string)
    ensures r <= s
    ensures r != "" ==> !BlankAtEnd(r[|r| - 1])
  {
    if s != "" && BlankAtEnd(s[|s| - 1]) then TrimBack(s[..|s| - 1]) else s
  }

  function Trim(s: string): (r: string)
    ensures Trimmed(r)
  {
    TrimBack(TrimFront(s))
  }

  predicate Trimmed(s: string) {
    s != "" ==> !Blank(s[0]) && !BlankAtEnd(s[|s| - 1])
  }

  method ConfigTrim(s: string) returns (r: string)
    ensures r == Trim(s)
  {
    hide TrimFront, TrimBack;
    var b, e := 0, |s|;
    assert s[b..] == s;
    while b < e && Blank(s[b])
      invariant 0 <= b <= e == |s|
      invariant TrimFront(s[b..]) == TrimFront(s)
    {
      TrimFrontStep(s, b);
      b := b + 1;
    }
    TrimFrontStep(s, b);
    assert s[b..e] == s[b..];
    while e > b && BlankAtEnd(s[e - 1])
      invariant b <= e <= |s|
      invariant TrimBack(s[b..e]) == Trim(s)
    {
      TrimBackStep(s, b, e);
      e := e - 1;
    }
    TrimBackStep(s, b, e);
    r := s[b..e];
  }

  lemma TrimFrontStep(s: string, b: nat)
    requires b <= |s|
    ensures TrimFront(s[b..]) == if b < |s| && Blank(s[b]) then TrimFront(s[b + 1..]) else s[b..]
  {
    assert b < |s| ==> s[b..][1..] == s[b + 1..];
  }

  lemma TrimBackStep(s: string, b: nat, e: nat)
    requires b <= e <= |s|
    ensures TrimBack(s[b..e]) == if b < e && BlankAtEnd(s[e - 1]) then TrimBack(s[b..e - 1]) else s[b..e]
  {
    assert b < e ==> s[b..e][..e - 1 - b] == s[b..e - 1];
  }

  // --- reading -------------------------------------------------------------------------------------

  /** The first place of `c` at or after `from`, or the length. */
  function Find(s: string, c: char, from: nat): (at: nat)
    requires from <= |s|
    ensures from <= at <= |s|
    ensures forall i :: from <= i < at ==> s[i] != c
    ensures at < |s| ==> s[at] == c
    decreases |s| - from
  {
    if from == |s| || s[from] == c then from else Find(s, c, from + 1)
  }

  datatype Reading = Ignored | Setting(key: string, value: string, line: string)

  function ReadLine(raw: string): Reading {
    var line := Trim(raw);
    var eq := Find(line, '=', 0);
    if line == "" || line[0] == '#' || eq == |line| then Ignored
    else Setting(Trim(line[..eq]), Trim(line[eq + 1..]), line)
  }

  predicate MeansOff(value: string) {
    value == "0" || value == "false" || value == "off" || value == "no"
  }

  predicate NamesTitle(key: string) {
    TitlePrefix() <= key
  }

  function Apply(cfg: Config, raw: string): Config {
    match ReadLine(raw)
    case Ignored => cfg
    case Setting(key, value, line) =>
      if key == GamesDir() then cfg.(gamesDir := value)
      else if key == LauncherMusic() then cfg.(launcherMusic := !MeansOff(value))
      else if key == GuestArgs() then cfg.(guestArgs := value)
      else if NamesTitle(key) then cfg.(guestArgsByTitle := cfg.guestArgsByTitle[key[|TitlePrefix()|..] := value])
      else cfg.(unknownLines := cfg.unknownLines + [line])
  }

  /** The text cut at its line feeds; there is one line more than line feeds. */
  function Lines(text: string): seq<string> {
    var nl := Find(text, '\n', 0);
    if nl == |text| then [text] else [text[..nl]] + Lines(text[nl + 1..])
  }

  function ApplyAll(cfg: Config, lines: seq<string>): Config
    decreases |lines|
  {
    if lines == [] then cfg else ApplyAll(Apply(cfg, lines[0]), lines[1..])
  }

  function Parse(text: string): Config {
    ReadAll(DEFAULTS, text)
  }

  method FindFrom(s: string, c: char, from: nat) returns (at: nat)
    requires from <= |s|
    ensures at == Find(s, c, from)
  {
    at := from;
    while at < |s| && s[at] != c
      invariant from <= at <= |s| && Find(s, c, at) == Find(s, c, from)
    {
      at := at + 1;
    }
  }

  method ReadSetting(cfg: Config, raw: string) returns (next: Config)
    ensures next == Apply(cfg, raw)
  {
    hide Find, GamesDir, LauncherMusic, GuestArgs, TitlePrefix, MeansOff;
    next := cfg;
    var line := ConfigTrim(raw);
    if line == "" || line[0] == '#' {
      return;
    }
    var eq := FindFrom(line, '=', 0);
    if eq == |line| {
      return;
    }
    var key := ConfigTrim(line[..eq]);
    var value := ConfigTrim(line[eq + 1..]);
    if key == GamesDir() {
      next := cfg.(gamesDir := value);
    } else if key == LauncherMusic() {
      next := cfg.(launcherMusic := !MeansOff(value));
    } else if key == GuestArgs() {
      next := cfg.(guestArgs := value);
    } else if NamesTitle(key) {
      next := cfg.(guestArgsByTitle := cfg.guestArgsByTitle[key[|TitlePrefix()|..] := value]);
    } else {
      next := cfg.(unknownLines := cfg.unknownLines + [line]);
    }
  }

  lemma FindInRest(text: string, c: char, pos: nat)
    requires pos <= |text|
    ensures Find(text, c, pos) == pos + Find(text[pos..], c, 0)
  {
    var rest := text[pos..];
    assert forall i :: pos <= i < |text| ==> text[i] == rest[i - pos];
    FindIs(text, c, pos, pos + Find(rest, c, 0));
  }

  /** What becomes of `cfg` by the lines of `text`. */
  function ReadAll(cfg: Config, text: string): Config {
    ApplyAll(cfg, Lines(text))
  }

  function ReadOn(cfg: Config, text: string, pos: nat): Config {
    if pos > |text| then cfg else ReadAll(cfg, text[pos..])
  }

  lemma ReadsLine(cfg: Config, text: string, k: nat, line: string, more: string)
    requires Find(text, '\n', 0) == k < |text| && line == text[..k] && more == text[k + 1..]
    ensures ReadAll(cfg, text) == ReadAll(Apply(cfg, line), more)
  {
    hide Apply;
    LinesBegin(text, k, line, more);
    ReadsFirst(cfg, line, Lines(more));
  }

  lemma ReadsLast(cfg: Config, text: string)
    requires Find(text, '\n', 0) == |text|
    ensures ReadAll(cfg, text) == Apply(cfg, text)
  {
    hide Apply;
    assert Lines(text) == [text] + [];
    ReadsFirst(cfg, text, []);
  }

  lemma SlicesOfRest(text: string, pos: nat, nl: nat)
    requires pos <= nl <= |text|
    ensures text[pos..nl] == text[pos..][..nl - pos]
    ensures nl < |text| ==> text[nl + 1..] == text[pos..][nl - pos + 1..]
    ensures nl == |text| ==> text[pos..nl] == text[pos..]
  {
  }

  lemma ReadOnStep(cfg: Config, text: string, pos: nat)
    requires pos <= |text|
    ensures var nl := Find(text, '\n', pos);
            ReadOn(cfg, text, pos) == ReadOn(Apply(cfg, text[pos..nl]), text, nl + 1)
  {
    hide Apply, ReadAll;
    var rest, nl := text[pos..], Find(text, '\n', pos);
    FindInRest(text, '\n', pos);
    SlicesOfRest(text, pos, nl);
    if nl < |text| {
      ReadsLine(cfg, rest, nl - pos, text[pos..nl], text[nl + 1..]);
    } else {
      ReadsLast(cfg, rest);
    }
  }

  lemma ReadOnEnds(cfg: Config, text: string)
    ensures ReadOn(DEFAULTS, text, 0) == Parse(text) && ReadOn(cfg, text, |text| + 1) == cfg
  {
    assert text[0..] == text;
  }

  lemma ReadsFirst(cfg: Config, line: string, more: seq<string>)
    ensures ApplyAll(cfg, [line] + more) == ApplyAll(Apply(cfg, line), more)
  {
    assert ([line] + more)[1..] == more;
  }

  method ParseAppConfig(text: string) returns (cfg: Config)
    ensures cfg == Parse(text)
  {
    hide Apply, ReadOn, Parse;
    cfg := DEFAULTS;
    ReadOnEnds(cfg, text);
    var pos := 0;
    while pos <= |text|
      invariant 0 <= pos <= |text| + 1
      invariant ReadOn(cfg, text, pos) == Parse(text)
      decreases |text| + 1 - pos
    {
      var nl := FindFrom(text, '\n', pos);
      ReadOnStep(cfg, text, pos);
      cfg := ReadSetting(cfg, text[pos..nl]);
      pos := nl + 1;
    }
    ReadOnEnds(cfg, text);
  }

  // --- writing -------------------------------------------------------------------------------------

  predicate IsComment(line: string) {
    Trimmed(line) && '\n' !in line && line != "" && line[0] == '#'
  }

  function Sentence(a: string, b: string): (line: string)
    requires IsComment(a) && Trimmed(b) && b != "" && '\n' !in b
    ensures IsComment(line)
  {
    a + " " + b
  }

  function Authorship(): (line: string)
    ensures IsComment(line)
  {
    Sentence("# prosper-app settings.", "Written by the app.")
  }

  function Precedence(): (line: string)
    ensures IsComment(line)
  {
    Sentence(Sentence("# A --games-dir argument or", "PROSPER_GAMES_DIR in the"), "environment overrides games_dir.")
  }

  function Rewriting(): (line: string)
    ensures IsComment(line)
  {
    Sentence(Sentence("# Editing by hand is fine;", "the app rewrites this file,"), "so comments are not preserved.")
  }

  function Comments(): (lines: seq<string>)
    ensures |lines| == 3 && IsComment(lines[0]) && IsComment(lines[1]) && IsComment(lines[2])
  {
    [Authorship(), Precedence(), Rewriting()]
  }

  function OnOff(on: bool): (value: string)
    ensures Trimmed(value) && '\n' !in value && MeansOff(value) == !on
  {
    if on then "1" else "0"
  }

  function Entry(key: string, value: string): string {
    key + " = " + value
  }

  function EntryUnlessEmpty(key: string, value: string): seq<string> {
    if value == "" then [] else [Entry(key, value)]
  }

  function TitleLines(titles: seq<string>, args: map<string, string>): seq<string>
    requires forall t :: t in titles ==> t in args
  {
    if titles == [] then []
    else TitleLines(titles[..|titles| - 1], args) + [Entry(TitlePrefix() + titles[|titles| - 1], args[titles[|titles| - 1]])]
  }

  /** `titles` is the order in which the map's entries are visited. */
  ghost predicate Visits(titles: seq<string>, args: map<string, string>) {
    && (forall t :: t in titles <==> t in args)
    && (forall i, j :: 0 <= i < j < |titles| ==> titles[i] != titles[j])
  }

  /** The comments and the settings this build knows, apart from guest arguments. */
  function Head(cfg: Config): seq<string> {
    Comments() + EntryUnlessEmpty(GamesDir(), cfg.gamesDir) + [Entry(LauncherMusic(), OnOff(cfg.launcherMusic))]
  }

  function Written(cfg: Config, titles: seq<string>): seq<string>
    requires Visits(titles, cfg.guestArgsByTitle)
  {
    Head(cfg)
    + cfg.unknownLines
    + TitleLines(titles, cfg.guestArgsByTitle)
    + EntryUnlessEmpty(GuestArgs(), cfg.guestArgs)
  }

  function Text(lines: seq<string>): string {
    if lines == [] then "" else Text(lines[..|lines| - 1]) + lines[|lines| - 1] + "\n"
  }

  function Serialize(cfg: Config, titles: seq<string>): string
    requires Visits(titles, cfg.guestArgsByTitle)
  {
    Text(Written(cfg, titles))
  }

  method AppendLine(out: string, line: string, ghost lines: seq<string>) returns (r: string, ghost longer: seq<string>)
    requires out == Text(lines)
    ensures longer == lines + [line] && r == Text(longer)
  {
    longer := lines + [line];
    r := out + line + "\n";
    assert longer[..|longer| - 1] == lines;
  }

  method SerializeAppConfig(cfg: Config, titles: seq<string>) returns (out: string)
    requires Visits(titles, cfg.guestArgsByTitle)
    ensures out == Serialize(cfg, titles)
  {
    hide Comments, GamesDir, LauncherMusic, GuestArgs, TitlePrefix, OnOff, Entry, Text, TitleLines;
    out := Text(Comments());
    ghost var lines := Comments();
    if cfg.gamesDir != "" {
      out, lines := AppendLine(out, Entry(GamesDir(), cfg.gamesDir), lines);
    }
    out, lines := AppendLine(out, Entry(LauncherMusic(), OnOff(cfg.launcherMusic)), lines);
    out, lines := AppendUnknown(out, cfg.unknownLines, lines);
    out, lines := AppendTitles(out, titles, cfg.guestArgsByTitle, lines);
    if cfg.guestArgs != "" {
      out, lines := AppendLine(out, Entry(GuestArgs(), cfg.guestArgs), lines);
    }
    assert lines == Written(cfg, titles);
  }

  method AppendUnknown(out: string, unknown: seq<string>, ghost lines: seq<string>) returns (r: string, ghost longer: seq<string>)
    requires out == Text(lines)
    ensures longer == lines + unknown && r == Text(longer)
  {
    r, longer := out, lines;
    var i := 0;
    while i < |unknown|
      invariant i <= |unknown|
      invariant r == Text(longer) && longer == lines + unknown[..i]
    {
      r, longer := AppendLine(r, unknown[i], longer);
      i := i + 1;
    }
    assert unknown[..i] == unknown;
  }

  method AppendTitles(out: string, titles: seq<string>, args: map<string, string>, ghost lines: seq<string>)
    returns (r: string, ghost longer: seq<string>)
    requires out == Text(lines) && forall t :: t in titles ==> t in args
    ensures longer == lines + TitleLines(titles, args) && r == Text(longer)
  {
    hide TitlePrefix, Entry, Text;
    r, longer := out, lines;
    var i := 0;
    while i < |titles|
      invariant i <= |titles|
      invariant r == Text(longer) && longer == lines + TitleLines(titles[..i], args)
    {
      assert titles[..i + 1][..i] == titles[..i];
      r, longer := AppendLine(r, Entry(TitlePrefix() + titles[i], args[titles[i]]), longer);
      i := i + 1;
    }
    assert titles[..i] == titles;
  }

  // --- one rewrite is enough -----------------------------------------------------------------------

  /** A value a line can carry and give back. */
  predicate Carried(value: string) {
    Trimmed(value) && '\n' !in value
  }

  predicate OwnKey(key: string) {
    key == GamesDir() || key == LauncherMusic() || key == GuestArgs() || NamesTitle(key)
  }

  predicate Foreign(line: string) {
    Carried(line) && ReadLine(line).Setting? && !OwnKey(ReadLine(line).key)
  }

  predicate TitleCarried(title: string) {
    '\n' !in title && '=' !in title && Trimmed(TitlePrefix() + title)
  }

  /** What every configuration that was read from a file is. */
  predicate Clean(cfg: Config) {
    && Carried(cfg.gamesDir) && Carried(cfg.guestArgs)
    && (forall line :: line in cfg.unknownLines ==> Foreign(line))
    && (forall t :: t in cfg.guestArgsByTitle ==> TitleCarried(t) && Carried(cfg.guestArgsByTitle[t]))
  }

  lemma {:induction false} TrimFrontOnlyCuts(s: string)
    ensures forall c :: c in TrimFront(s) ==> c in s
  {
    if s != "" && Blank(s[0]) {
      TrimFrontOnlyCuts(s[1..]);
    }
  }

  lemma TrimOnlyCuts(s: string)
    ensures forall c :: c in Trim(s) ==> c in s
  {
    TrimFrontOnlyCuts(s);
  }

  lemma TrimmedStays(s: string)
    requires Trimmed(s)
    ensures Trim(s) == s
  {
  }

  lemma ReadingIsClean(raw: string)
    requires '\n' !in raw && ReadLine(raw).Setting?
    ensures var r := ReadLine(raw);
            && r.line != "" && Carried(r.line) && ReadLine(r.line) == r
            && Carried(r.key) && '=' !in r.key && Carried(r.value)
  {
    var line := Trim(raw);
    TrimmedStays(line);
    var eq := Find(line, '=', 0);
    var key, value := line[..eq], line[eq + 1..];
    assert ReadLine(raw) == Setting(Trim(key), Trim(value), line) && ReadLine(line) == ReadLine(raw);
    hide ReadLine, Trim, TrimFront, TrimBack, Find;
    TrimOnlyCuts(raw);
    TrimOnlyCuts(key);
    TrimOnlyCuts(value);
    assert forall c :: c in key ==> c in line;
    assert forall c :: c in value ==> c in line;
  }

  lemma ApplyKeepsClean(cfg: Config, raw: string)
    requires Clean(cfg) && '\n' !in raw
    ensures Clean(Apply(cfg, raw))
  {
    hide GamesDir, LauncherMusic, GuestArgs, TitlePrefix, ReadLine;
    if ReadLine(raw).Setting? {
      ReadingIsClean(raw);
      var key := ReadLine(raw).key;
      if NamesTitle(key) {
        var title := key[|TitlePrefix()|..];
        assert TitlePrefix() + title == key;
        assert forall c :: c in title ==> c in key;
      }
    }
  }

  lemma {:induction false} ApplyingAllKeepsClean(cfg: Config, lines: seq<string>)
    requires Clean(cfg) && forall i :: 0 <= i < |lines| ==> '\n' !in lines[i]
    ensures Clean(ApplyAll(cfg, lines))
    decreases |lines|
  {
    if lines != [] {
      ApplyKeepsClean(cfg, lines[0]);
      ApplyingAllKeepsClean(Apply(cfg, lines[0]), lines[1..]);
    }
  }

  lemma {:induction false} LinesHoldNoLineFeed(text: string)
    ensures forall i :: 0 <= i < |Lines(text)| ==> '\n' !in Lines(text)[i]
  {
    var nl := Find(text, '\n', 0);
    assert '\n' !in text[..nl];
    if nl < |text| {
      LinesHoldNoLineFeed(text[nl + 1..]);
    }
  }

  lemma ParsedIsClean(text: string)
    ensures Clean(Parse(text))
  {
    LinesHoldNoLineFeed(text);
    ApplyingAllKeepsClean(DEFAULTS, Lines(text));
  }

  // --- a written line reads as what was written ----------------------------------------------------

  lemma FindIs(s: string, c: char, from: nat, at: nat)
    requires from <= at <= |s| && (at < |s| ==> s[at] == c)
    requires forall i :: from <= i < at ==> s[i] != c
    ensures Find(s, c, from) == at
  {
  }

  lemma TrimBackBlank(s: string)
    requires s == "" || !BlankAtEnd(s[|s| - 1])
    ensures TrimBack(s + " ") == s && TrimBack(s) == s
  {
    assert (s + " ")[..|s|] == s;
  }

  lemma EntryReads(key: string, value: string)
    requires PlainKey(key) && Trimmed(value)
    ensures var r := ReadLine(Entry(key, value)); r.Setting? && r.key == key && r.value == value
  {
    var line := if value == "" then key + " =" else Entry(key, value);
    var eq := |key| + 1;
    EntryTrims(key, value);
    EqualsAt(key, value, line);
    FindIs(line, '=', 0, eq);
    PartsTrim(key, value);
    hide Trim, Find, Entry;
    assert line[..eq] == key + " ";
    assert line[eq + 1..] == if value == "" then "" else " " + value;
  }

  lemma EqualsAt(key: string, value: string, line: string)
    requires PlainKey(key) && line == if value == "" then key + " =" else Entry(key, value)
    ensures |key| + 1 < |line| && line[|key| + 1] == '=' && forall i :: 0 <= i < |key| + 1 ==> line[i] != '='
    ensures line[0] != '#'
    ensures line[..|key| + 1] == key + " " && line[|key| + 2..] == if value == "" then "" else " " + value
  {
    assert forall i :: 0 <= i < |key| ==> line[i] == key[i];
    if value == "" {
      assert line[..|key| + 1] == key + " ";
    } else {
      assert line == key + " = " + value;
      assert line[..|key| + 1] == key + " ";
      assert line[|key| + 2..] == " " + value;
    }
  }

  lemma PartsTrim(key: string, value: string)
    requires PlainKey(key) && Trimmed(value)
    ensures Trim(key + " ") == key && Trim("") == ""
    ensures value != "" ==> Trim(" " + value) == value
  {
    TrimBackBlank(key);
    var spaced := " " + value;
    assert spaced[0] == ' ' && spaced[1..] == value;
    assert TrimFront(spaced) == TrimFront(spaced[1..]);
    assert TrimFront(value) == value && TrimBack(value) == value;
  }

  lemma EntryTrims(key: string, value: string)
    requires PlainKey(key) && Trimmed(value)
    ensures Trim(Entry(key, value)) == if value == "" then key + " =" else Entry(key, value)
  {
    var raw := Entry(key, value);
    assert raw[0] == key[0];
    if value == "" {
      assert raw == key + " =" + " ";
      TrimBackBlank(key + " =");
    } else {
      assert raw[|raw| - 1] == value[|value| - 1];
    }
  }

  predicate OneLine(line: string) {
    '\n' !in line
  }

  lemma FirstLine(line: string, rest: string)
    requires OneLine(line)
    ensures Lines(line + "\n" + rest) == [line] + Lines(rest)
  {
    var text := line + "\n" + rest;
    assert text[..|line|] == line && text[|line| + 1..] == rest && text[|line|] == '\n';
    assert forall i :: 0 <= i < |line| ==> text[i] == line[i];
    FindIs(text, '\n', 0, |line|);
  }

  lemma Regrouped(a: string, b: string, c: string, d: string)
    ensures a + b + c + d == a + (b + c + d)
  {
  }

  lemma {:induction false} WrittenLinesRead(lines: seq<string>, rest: string)
    requires forall i :: 0 <= i < |lines| ==> OneLine(lines[i])
    ensures Lines(Text(lines) + rest) == lines + Lines(rest)
    decreases |lines|
  {
    hide Lines, OneLine;
    if lines == [] {
      assert Text(lines) + rest == rest;
    } else {
      var init, last := lines[..|lines| - 1], lines[|lines| - 1];
      WrittenLinesRead(init, last + "\n" + rest);
      Regrouped(Text(init), last, "\n", rest);
      FirstLine(last, rest);
      assert init + ([last] + Lines(rest)) == init + [last] + Lines(rest);
      assert init + [last] == lines;
    }
  }

  // --- section by section --------------------------------------------------------------------------

  lemma {:induction false} ApplyAllSplits(cfg: Config, a: seq<string>, b: seq<string>)
    ensures ApplyAll(cfg, a + b) == ApplyAll(ApplyAll(cfg, a), b)
    decreases |a|
  {
    if a == [] {
      assert a + b == b;
    } else {
      assert (a + b)[0] == a[0] && (a + b)[1..] == a[1..] + b;
      ApplyAllSplits(Apply(cfg, a[0]), a[1..], b);
    }
  }

  lemma ApplyOne(cfg: Config, line: string)
    ensures ApplyAll(cfg, [line]) == Apply(cfg, line)
  {
    assert [line][1..] == [];
  }

  lemma OptionalEntryApplies(cfg: Config, key: string, value: string)
    requires Trimmed(value) && (key == GamesDir() || key == GuestArgs())
    ensures ApplyAll(cfg, EntryUnlessEmpty(key, value))
         == if value == "" then cfg else if key == GamesDir() then cfg.(gamesDir := value) else cfg.(guestArgs := value)
  {
    hide GamesDir, LauncherMusic, GuestArgs, TitlePrefix, ReadLine, Entry;
    KeysDiffer();
    if value != "" {
      EntryReads(key, value);
      ApplyOne(cfg, Entry(key, value));
    }
  }

  lemma MusicApplies(cfg: Config, on: bool)
    ensures ApplyAll(cfg, [Entry(LauncherMusic(), OnOff(on))]) == cfg.(launcherMusic := on)
  {
    hide GamesDir, LauncherMusic, GuestArgs, TitlePrefix, ReadLine, Entry, OnOff, MeansOff;
    KeysDiffer();
    EntryReads(LauncherMusic(), OnOff(on));
    ApplyOne(cfg, Entry(LauncherMusic(), OnOff(on)));
  }

  lemma TitleEntryApplies(cfg: Config, title: string, value: string)
    requires TitleCarried(title) && Carried(value)
    ensures Apply(cfg, Entry(TitlePrefix() + title, value)) == cfg.(guestArgsByTitle := cfg.guestArgsByTitle[title := value])
  {
    hide GamesDir, LauncherMusic, GuestArgs, TitlePrefix, ReadLine, Entry;
    KeysDiffer();
    var key := TitlePrefix() + title;
    assert key[0] == TitlePrefix()[0];
    assert NamesTitle(key);
    EntryReads(key, value);
    assert key[|TitlePrefix()|..] == title;
  }

  lemma ForeignLineApplies(cfg: Config, line: string)
    requires Foreign(line)
    ensures Apply(cfg, line) == cfg.(unknownLines := cfg.unknownLines + [line])
  {
    hide GamesDir, LauncherMusic, GuestArgs, TitlePrefix;
    TrimmedStays(line);
  }

  lemma {:induction false} ForeignLinesApply(cfg: Config, lines: seq<string>)
    requires forall line :: line in lines ==> Foreign(line)
    ensures ApplyAll(cfg, lines) == cfg.(unknownLines := cfg.unknownLines + lines)
    decreases |lines|
  {
    hide Apply, Foreign;
    if lines == [] {
      assert cfg.unknownLines + lines == cfg.unknownLines;
    } else {
      var first, rest := lines[0], lines[1..];
      ForeignLineApplies(cfg, first);
      ForeignLinesApply(Apply(cfg, first), rest);
      assert [first] + rest == lines;
      assert cfg.unknownLines + [first] + rest == cfg.unknownLines + ([first] + rest);
    }
  }

  function Entries(titles: seq<string>, args: map<string, string>): map<string, string>
    requires forall t :: t in titles ==> t in args
  {
    map t | t in titles :: args[t]
  }

  lemma {:induction false} TitleLinesApply(cfg: Config, titles: seq<string>, args: map<string, string>)
    requires forall t :: t in titles ==> t in args && TitleCarried(t) && Carried(args[t])
    ensures ApplyAll(cfg, TitleLines(titles, args))
         == cfg.(guestArgsByTitle := cfg.guestArgsByTitle + Entries(titles, args))
    decreases |titles|
  {
    if titles == [] {
      assert cfg.guestArgsByTitle + Entries(titles, args) == cfg.guestArgsByTitle;
    } else {
      var init, last := titles[..|titles| - 1], titles[|titles| - 1];
      TitleLinesApply(cfg, init, args);
      var line := Entry(TitlePrefix() + last, args[last]);
      ApplyAllSplits(cfg, TitleLines(init, args), [line]);
      var mid := ApplyAll(cfg, TitleLines(init, args));
      ApplyOne(mid, line);
      TitleEntryApplies(mid, last, args[last]);
      assert TitleLines(titles, args) == TitleLines(init, args) + [line];
      hide Apply, ApplyAll, TitlePrefix, Entry, TitleCarried, Carried, Entries, TitleLines;
      EntriesGrow(cfg.guestArgsByTitle, titles, args);
    }
  }

  lemma EntriesGrow(before: map<string, string>, titles: seq<string>, args: map<string, string>)
    requires titles != [] && forall t :: t in titles ==> t in args
    ensures var init, last := titles[..|titles| - 1], titles[|titles| - 1];
            (before + Entries(init, args))[last := args[last]] == before + Entries(titles, args)
  {
    var init, last := titles[..|titles| - 1], titles[|titles| - 1];
    assert titles == init + [last];
  }

  lemma CommentApplies(cfg: Config, line: string)
    requires IsComment(line)
    ensures Apply(cfg, line) == cfg
  {
    TrimmedStays(line);
  }

  lemma CommentsApply(cfg: Config)
    ensures ApplyAll(cfg, Comments()) == cfg
  {
    hide Comments, Apply, IsComment;
    var lines := Comments();
    assert lines[1..] == [lines[1], lines[2]] && lines[1..][1..] == [lines[2]];
    CommentApplies(cfg, lines[0]);
    CommentApplies(cfg, lines[1]);
    CommentApplies(cfg, lines[2]);
    ApplyOne(cfg, lines[2]);
  }

  lemma EntryIsOneLine(key: string, value: string)
    requires '\n' !in key && '\n' !in value
    ensures OneLine(Entry(key, value))
  {
  }

  lemma WrittenAreLines(cfg: Config, titles: seq<string>)
    requires Clean(cfg) && Visits(titles, cfg.guestArgsByTitle)
    ensures forall i :: 0 <= i < |Written(cfg, titles)| ==> OneLine(Written(cfg, titles)[i])
  {
    TitleLinesAreLines(titles, cfg.guestArgsByTitle);
    EntryIsOneLine(GamesDir(), cfg.gamesDir);
    EntryIsOneLine(LauncherMusic(), OnOff(cfg.launcherMusic));
    EntryIsOneLine(GuestArgs(), cfg.guestArgs);
    assert forall line :: line in cfg.unknownLines ==> OneLine(line);
    assert OneLine(Comments()[0]) && OneLine(Comments()[1]) && OneLine(Comments()[2]);
    hide Comments, GamesDir, LauncherMusic, GuestArgs, TitlePrefix, OnOff, Entry, Foreign, OneLine;
  }

  lemma {:induction false} TitleLinesAreLines(titles: seq<string>, args: map<string, string>)
    requires forall t :: t in titles ==> t in args && TitleCarried(t) && Carried(args[t])
    ensures forall line :: line in TitleLines(titles, args) ==> OneLine(line)
    decreases |titles|
  {
    hide TitlePrefix, Entry;
    if titles != [] {
      var last := titles[|titles| - 1];
      TitleLinesAreLines(titles[..|titles| - 1], args);
      EntryIsOneLine(TitlePrefix() + last, args[last]);
    }
  }

  /** Whatever was read from a file is read again unchanged from what is written of it, in whatever
      order the per-title entries are visited. */
  lemma WrittenReadsBack(cfg: Config, titles: seq<string>)
    requires Clean(cfg) && Visits(titles, cfg.guestArgsByTitle)
    ensures Parse(Serialize(cfg, titles)) == cfg
  {
    var lines := Written(cfg, titles);
    WrittenAreLines(cfg, titles);
    hide Written, Text;
    WrittenLinesRead(lines, "");
    assert Text(lines) + "" == Text(lines);
    assert Lines("") == [""];
    ApplyAllSplits(DEFAULTS, lines, [""]);
    var c := ApplyAll(DEFAULTS, lines);
    ApplyOne(c, "");
    WrittenApplies(cfg, titles);
  }

  lemma WrittenApplies(cfg: Config, titles: seq<string>)
    requires Clean(cfg) && Visits(titles, cfg.guestArgsByTitle)
    ensures ApplyAll(DEFAULTS, Written(cfg, titles)) == cfg
  {
    var args, lines := cfg.guestArgsByTitle, cfg.unknownLines;
    var byTitle, guest := TitleLines(titles, args), EntryUnlessEmpty(GuestArgs(), cfg.guestArgs);
    var c1 := HeadRead(cfg);
    var c2 := c1.(unknownLines := lines);
    var c3 := c2.(guestArgsByTitle := args);
    HeadApplies(cfg);
    UnknownApply(c1, lines);
    TitlesApply(c2, titles, args);
    OptionalEntryApplies(c3, GuestArgs(), cfg.guestArgs);
    hide ApplyAll, Head, EntryUnlessEmpty, TitleLines, GuestArgs, Clean, Visits;
    SectionApplies(DEFAULTS, Head(cfg), lines, c1, c2);
    SectionApplies(DEFAULTS, Head(cfg) + lines, byTitle, c2, c3);
    SectionApplies(DEFAULTS, Head(cfg) + lines + byTitle, guest, c3, cfg);
  }

  /** What the head alone says. */
  function HeadRead(cfg: Config): Config {
    DEFAULTS.(gamesDir := cfg.gamesDir, launcherMusic := cfg.launcherMusic)
  }

  lemma SectionApplies(start: Config, written: seq<string>, section: seq<string>, before: Config, after: Config)
    requires ApplyAll(start, written) == before && ApplyAll(before, section) == after
    ensures ApplyAll(start, written + section) == after
  {
    ApplyAllSplits(start, written, section);
  }

  lemma HeadApplies(cfg: Config)
    requires Trimmed(cfg.gamesDir)
    ensures ApplyAll(DEFAULTS, Head(cfg)) == HeadRead(cfg)
  {
    var games := EntryUnlessEmpty(GamesDir(), cfg.gamesDir);
    var music := [Entry(LauncherMusic(), OnOff(cfg.launcherMusic))];
    var c := DEFAULTS.(gamesDir := cfg.gamesDir);
    hide ApplyAll, Comments, EntryUnlessEmpty, Entry, GamesDir, LauncherMusic, OnOff;
    CommentsApply(DEFAULTS);
    OptionalEntryApplies(DEFAULTS, GamesDir(), cfg.gamesDir);
    SectionApplies(DEFAULTS, Comments(), games, DEFAULTS, c);
    MusicApplies(c, cfg.launcherMusic);
    SectionApplies(DEFAULTS, Comments() + games, music, c, HeadRead(cfg));
  }

  lemma UnknownApply(cfg: Config, lines: seq<string>)
    requires cfg.unknownLines == [] && forall line :: line in lines ==> Foreign(line)
    ensures ApplyAll(cfg, lines) == cfg.(unknownLines := lines)
  {
    ForeignLinesApply(cfg, lines);
    assert [] + lines == lines;
  }

  lemma TitlesApply(cfg: Config, titles: seq<string>, args: map<string, string>)
    requires cfg.guestArgsByTitle == map[] && Visits(titles, args)
    requires forall t :: t in args ==> TitleCarried(t) && Carried(args[t])
    ensures ApplyAll(cfg, TitleLines(titles, args)) == cfg.(guestArgsByTitle := args)
  {
    TitleLinesApply(cfg, titles, args);
    hide ApplyAll, TitleLines, TitleCarried, Carried;
    AllEntries(titles, args);
  }

  lemma AllEntries(titles: seq<string>, args: map<string, string>)
    requires Visits(titles, args)
    ensures map[] + Entries(titles, args) == args
  {
  }

  /** For every text: what is read from it survives the rewrite, and a second rewrite in the same order
      leaves the file as it is. */
  lemma NormalFormInOneStep(text: string, titles: seq<string>)
    requires Visits(titles, Parse(text).guestArgsByTitle)
    ensures Parse(Serialize(Parse(text), titles)) == Parse(text)
    ensures Serialize(Parse(Serialize(Parse(text), titles)), titles) == Serialize(Parse(text), titles)
  {
    ParsedIsClean(text);
    WrittenReadsBack(Parse(text), titles);
  }

  // --- what a file says ----------------------------------------------------------------------------

  /** The lines are the text cut at its line feeds, nothing more and nothing less. */
  function JoinedLines(lines: seq<string>): string
    requires lines != []
    decreases |lines|
  {
    if |lines| == 1 then lines[0] else lines[0] + "\n" + JoinedLines(lines[1..])
  }

  lemma {:induction false} LinesAreTheText(text: string)
    ensures Lines(text) != [] && JoinedLines(Lines(text)) == text
    ensures forall i :: 0 <= i < |Lines(text)| ==> '\n' !in Lines(text)[i]
  {
    LinesHoldNoLineFeed(text);
    var nl := Find(text, '\n', 0);
    if nl < |text| {
      var more := Lines(text[nl + 1..]);
      LinesAreTheText(text[nl + 1..]);
      assert Lines(text) == [text[..nl]] + more && ([text[..nl]] + more)[1..] == more;
      assert text == text[..nl] + "\n" + text[nl + 1..];
    }
  }

  lemma StringsAssociate(a: string, b: string, c: string)
    ensures a + b + c == a + (b + c)
  {
  }

  /** Trimming takes off blanks in front, and blanks and carriage returns behind, and nothing else. */
  lemma {:induction false} TrimTakesPadding(s: string) returns (front: string, back: string)
    ensures s == front + Trim(s) + back
    ensures var t := Trim(s);
            t != "" ==> t[0] !in [' ', '\t'] && t[|t| - 1] !in [' ', '\t', '\r']
    ensures forall i :: 0 <= i < |front| ==> front[i] == ' ' || front[i] == '\t'
    ensures forall i :: 0 <= i < |back| ==> back[i] == ' ' || back[i] == '\t' || back[i] == '\r'
  {
    front := FrontPadding(s);
    back := BackPadding(TrimFront(s));
    StringsAssociate(front, Trim(s), back);
  }

  lemma {:induction false} FrontPadding(s: string) returns (front: string)
    ensures s == front + TrimFront(s)
    ensures forall i :: 0 <= i < |front| ==> front[i] == ' ' || front[i] == '\t'
  {
    front := "";
    if s != "" && Blank(s[0]) {
      var more := FrontPadding(s[1..]);
      front := [s[0]] + more;
      assert s == [s[0]] + s[1..];
    }
  }

  lemma {:induction false} BackPadding(s: string) returns (back: string)
    ensures s == TrimBack(s) + back
    ensures forall i :: 0 <= i < |back| ==> back[i] == ' ' || back[i] == '\t' || back[i] == '\r'
  {
    back := "";
    if s != "" && BlankAtEnd(s[|s| - 1]) {
      var more := BackPadding(s[..|s| - 1]);
      back := more + [s[|s| - 1]];
      assert s == s[..|s| - 1] + [s[|s| - 1]];
    }
  }

  /** A line added at the end is read last, so it has the last word. */
  lemma LastLineReads(text: string, line: string)
    requires OneLine(line)
    ensures Parse(text + "\n" + line) == Apply(Parse(text), line)
  {
    AppendedLines(text, line);
    assert text + ("\n" + line) == text + "\n" + line;
    ApplyAllSplits(DEFAULTS, Lines(text), [line]);
    hide Lines, Apply;
    ApplyOne(Parse(text), line);
  }

  lemma LinesBegin(text: string, k: nat, line: string, more: string)
    requires Find(text, '\n', 0) == k < |text| && line == text[..k] && more == text[k + 1..]
    ensures Lines(text) == [line] + Lines(more)
  {
  }

  lemma LastLineAlone(line: string)
    requires OneLine(line)
    ensures Lines(line) == [line]
  {
    FindIs(line, '\n', 0, |line|);
  }

  lemma FoundInFront(text: string, tail: string)
    requires Find(text, '\n', 0) < |text|
    ensures var k := Find(text, '\n', 0);
            && Find(text + tail, '\n', 0) == k
            && (text + tail)[..k] == text[..k] && (text + tail)[k + 1..] == text[k + 1..] + tail
  {
    var whole := text + tail;
    assert forall i :: 0 <= i < |text| ==> whole[i] == text[i];
    FindIs(whole, '\n', 0, Find(text, '\n', 0));
  }

  lemma {:induction false} AppendedLines(text: string, line: string)
    requires OneLine(line)
    ensures Lines(text + ("\n" + line)) == Lines(text) + [line]
  {
    var tail := "\n" + line;
    var nl := Find(text, '\n', 0);
    if nl == |text| {
      assert text + tail == text + "\n" + line;
      FirstLine(text, line);
      LastLineAlone(line);
    } else {
      FoundInFront(text, tail);
      var more := text[nl + 1..];
      LinesBegin(text + tail, nl, text[..nl], more + tail);
      LinesBegin(text, nl, text[..nl], more);
      AppendedLines(more, line);
    }
  }

  /** An empty line, a comment and a line without an equals sign say nothing, and no other line does. */
  lemma SilentLines(cfg: Config, line: string)
    requires Trimmed(line)
    ensures Apply(cfg, line) != cfg ==> line != "" && line[0] != '#' && '=' in line
    ensures ReadLine(line).Ignored? <==> line == "" || line[0] == '#' || '=' !in line
  {
    TrimmedStays(line);
    hide GamesDir, LauncherMusic, GuestArgs, TitlePrefix, MeansOff;
    var eq := Find(line, '=', 0);
    assert eq < |line| <==> '=' in line;
  }

  /** Every setting has its line in the file: the music switch always, a directory and default arguments
      when they are not empty. Lines that set nothing known are kept as they are. */
  lemma SettingsAreWritten(cfg: Config, titles: seq<string>, title: string)
    requires Visits(titles, cfg.guestArgsByTitle)
    ensures var lines := Written(cfg, titles);
            && (if cfg.launcherMusic then "launcher_music" + " = " + "1" else "launcher_music" + " = " + "0") in lines
            && (cfg.gamesDir != "" ==> "games_dir" + " = " + cfg.gamesDir in lines)
            && (cfg.guestArgs != "" ==> "guest_args" + " = " + cfg.guestArgs in lines)
            && (title in cfg.guestArgsByTitle ==> "guest_args." + title + " = " + cfg.guestArgsByTitle[title] in lines)
            && (forall i :: 0 <= i < |cfg.unknownLines| ==> cfg.unknownLines[i] in lines)
  {
    if title in cfg.guestArgsByTitle {
      TitleIsWritten(titles, cfg.guestArgsByTitle, title);
    }
  }

  lemma {:induction false} TitleIsWritten(titles: seq<string>, args: map<string, string>, title: string)
    requires (forall t :: t in titles ==> t in args) && title in titles
    ensures "guest_args." + title + " = " + args[title] in TitleLines(titles, args)
  {
    if titles[|titles| - 1] != title {
      TitleIsWritten(titles[..|titles| - 1], args, title);
    }
  }

  /** The four settings under the names a user writes them by, over whatever the file said before. Music
      is off for the four words below and on for everything else. */
  lemma SettingsAreRead(cfg: Config, value: string, title: string)
    requires Trimmed(value) && '\n' !in value && '\n' !in title && '=' !in title && Trimmed("guest_args." + title)
    ensures Apply(cfg, "games_dir" + " = " + value) == cfg.(gamesDir := value)
    ensures Apply(cfg, "guest_args" + " = " + value) == cfg.(guestArgs := value)
    ensures Apply(cfg, "guest_args." + title + " = " + value) == cfg.(guestArgsByTitle := cfg.guestArgsByTitle[title := value])
    ensures Apply(cfg, "launcher_music" + " = " + value)
         == cfg.(launcherMusic := value != "0" && value != "false" && value != "off" && value != "no")
  {
    assert GamesDir() == "games_dir" && GuestArgs() == "guest_args" && TitlePrefix() == "guest_args." && LauncherMusic() == "launcher_music";
    SettingsAreReadByKey(cfg, value, title);
    hide GamesDir, GuestArgs, TitlePrefix, LauncherMusic, Apply;
  }

  lemma SettingsAreReadByKey(cfg: Config, value: string, title: string)
    requires Trimmed(value) && '\n' !in value && '\n' !in title && '=' !in title && Trimmed(TitlePrefix() + title)
    ensures Apply(cfg, GamesDir() + " = " + value) == cfg.(gamesDir := value)
    ensures Apply(cfg, GuestArgs() + " = " + value) == cfg.(guestArgs := value)
    ensures Apply(cfg, TitlePrefix() + title + " = " + value) == cfg.(guestArgsByTitle := cfg.guestArgsByTitle[title := value])
    ensures Apply(cfg, LauncherMusic() + " = " + value) == cfg.(launcherMusic := !MeansOff(value))
  {
    hide GamesDir, LauncherMusic, GuestArgs, TitlePrefix, ReadLine, MeansOff;
    KeysDiffer();
    EntryReads(GamesDir(), value);
    EntryReads(GuestArgs(), value);
    EntryReads(LauncherMusic(), value);
    TitleEntryApplies(cfg, title, value);
  }

  /** The lines kept are the foreign ones, trimmed, in the order of the file. */
  function ForeignLines(lines: seq<string>): seq<string> {
    if lines == [] then []
    else (if Foreign(Trim(lines[0])) then [Trim(lines[0])] else []) + ForeignLines(lines[1..])
  }

  lemma ApplyKeepsForeign(cfg: Config, raw: string)
    requires '\n' !in raw
    ensures Apply(cfg, raw).unknownLines == cfg.unknownLines + (if Foreign(Trim(raw)) then [Trim(raw)] else [])
  {
    TrimOnlyCuts(raw);
    TrimmedStays(Trim(raw));
    hide GamesDir, LauncherMusic, GuestArgs, TitlePrefix, Trim, Find;
    assert ReadLine(Trim(raw)) == ReadLine(raw);
    assert cfg.unknownLines + [] == cfg.unknownLines;
  }

  lemma LinesAssociate(a: seq<string>, b: seq<string>, c: seq<string>)
    ensures a + b + c == a + (b + c)
  {
  }

  lemma {:induction false} ForeignLinesAreKept(cfg: Config, lines: seq<string>)
    requires forall i :: 0 <= i < |lines| ==> '\n' !in lines[i]
    ensures ApplyAll(cfg, lines).unknownLines == cfg.unknownLines + ForeignLines(lines)
    decreases |lines|
  {
    if lines == [] {
      assert cfg.unknownLines + [] == cfg.unknownLines;
    } else {
      hide Apply, Foreign, Trim;
      ApplyKeepsForeign(cfg, lines[0]);
      ForeignLinesAreKept(Apply(cfg, lines[0]), lines[1..]);
      var kept := if Foreign(Trim(lines[0])) then [Trim(lines[0])] else [];
      LinesAssociate(cfg.unknownLines, kept, ForeignLines(lines[1..]));
    }
  }

  lemma UnknownLinesInOrder(text: string)
    ensures Parse(text).unknownLines == ForeignLines(Lines(text))
  {
    LinesHoldNoLineFeed(text);
    ForeignLinesAreKept(DEFAULTS, Lines(text));
  }
}

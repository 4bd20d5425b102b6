/** `AppConfigReader`: reads `name value` lines into a map of strings, with
    `//` comments, and answers lookups by name. The lines of the file are given
    as a value (`None` for a file that cannot be opened), as `getline` would
    deliver them. */
module AppConfig {

  datatype Option<T> = None | Some(value: T)

  // ---------------------------------------------------------------------------
  // Cleaning a line

  /** The characters `find_last_not_of(" \n\r\t")` skips. */
  predicate IsTrailing(c: char) {
    c == ' ' || c == '\n' || c == '\r' || c == '\t'
  }

  /** `line.erase(line.find_last_not_of(" \n\r\t") + 1)`: the line without its
      trailing blanks; a line of blanks only becomes empty, as `npos + 1` is 0. */
  function TrimEnd(line: string): (r: string)
    ensures r <= line
    ensures r == [] || !IsTrailing(r[|r| - 1])
    ensures forall k :: |r| <= k < |line| ==> IsTrailing(line[k])
  {
    if |line| > 0 && IsTrailing(line[|line| - 1]) then TrimEnd(line[..|line| - 1]) else line
  }

  /** `line.find("//") != npos`. */
  predicate HasComment(line: string) {
    exists k :: 0 <= k < |line| - 1 && line[k] == '/' && line[k + 1] == '/'
  }

  /** `line.find_first_of("//")`: the first `'/'`, or `|line|` for none. */
  function FirstSlash(line: string): (r: nat)
    ensures r <= |line|
    ensures forall k :: 0 <= k < r ==> line[k] != '/'
    ensures r < |line| ==> line[r] == '/'
  {
    if line == [] || line[0] == '/' then 0 else 1 + FirstSlash(line[1..])
  }

  /** The comment cut: a line that contains `//` is cut at its first `'/'`, which
      may come before the `//`; a line without `//` is kept whole. */
  function CutComment(line: string): (r: string)
    ensures r <= line
    ensures HasComment(line) ==> '/' !in r
    ensures !HasComment(line) ==> r == line
  {
    if HasComment(line) then line[..FirstSlash(line)] else line
  }

  /** What is left of a line for the tokenizer. */
  function Kept(line: string): string {
    CutComment(TrimEnd(line))
  }

  // ---------------------------------------------------------------------------
  // Tokens, as `std::istringstream >> std::string` reads them

  /** The blanks `>>` skips in the classic locale. */
  predicate IsSpace(c: char) {
    c == ' ' || c == '\t' || c == '\n' || c == '\r' || c as int == 0x0B || c as int == 0x0C
  }

  /** A word read by `>>` and the text after it. */
  datatype Token = Token(word: string, rest: string)

  /** The number of leading blanks. */
  function SpaceLength(s: string): (n: nat)
    ensures n <= |s|
    ensures forall k :: 0 <= k < n ==> IsSpace(s[k])
    ensures n < |s| ==> !IsSpace(s[n])
  {
    if s != [] && IsSpace(s[0]) then 1 + SpaceLength(s[1..]) else 0
  }

  /** The length of the leading run of non-blanks. */
  function WordLength(s: string): (n: nat)
    ensures n <= |s|
    ensures forall k :: 0 <= k < n ==> !IsSpace(s[k])
    ensures n < |s| ==> IsSpace(s[n])
  {
    if s != [] && !IsSpace(s[0]) then 1 + WordLength(s[1..]) else 0
  }

  /** One `>>` into a string: skip blanks, then take the non-blanks that follow;
      nothing is read from a string of blanks. */
  function NextToken(s: string): (r: Option<Token>)
    ensures r.None? <==> forall k :: 0 <= k < |s| ==> IsSpace(s[k])
    ensures r.Some? ==> |r.value.word| > 0 && (forall k :: 0 <= k < |r.value.word| ==> !IsSpace(r.value.word[k]))
    ensures r.Some? ==> r.value.rest == [] || IsSpace(r.value.rest[0])
  {
    var n := SpaceLength(s);
    if n == |s| then None
    else
      var t := s[n..];
      var w := WordLength(t);
      Some(Token(t[..w], t[w..]))
  }

  // ---------------------------------------------------------------------------
  // The loop of loadConfig as a value

  /** The map and the two strings `paramName`, `paramValue`, which live outside
      the loop. */
  datatype Scan = Scan(configs: map<string, string>, name: string, value: string)

  /** `iss >> paramName >> paramValue`: a word read replaces the variable; when
      `>>` finds nothing the variable keeps the previous line's word, and once the
      first read fails the second fails too. */
  function Words(st: Scan, kept: string): (r: (string, string))
  {
    match NextToken(kept)
    case None => (st.name, st.value)
    case Some(first) =>
      match NextToken(first.rest)
      case None => (first.word, st.value)
      case Some(second) => (first.word, second.word)
  }

  /** One turn of the `getline` loop. */
  function ReadLine(st: Scan, line: string): (r: Scan)
  {
    var kept := Kept(line);
    if kept == [] then st
    else
      var (name, value) := Words(st, kept);
      Scan(st.configs[name := value], name, value)
  }

  /** The whole loop over the lines, from a given state. */
  function ReadLines(st: Scan, lines: seq<string>): (r: Scan)
  {
    if lines == [] then st else ReadLine(ReadLines(st, lines[..|lines| - 1]), lines[|lines| - 1])
  }

  /** The state the loop starts from: an empty map and empty strings. */
  const Start := Scan(map[], "", "")

  // ---------------------------------------------------------------------------
  // What the loop does

  /** A line left empty by the trim and the cut changes nothing. */
  lemma SkippedLine(st: Scan, line: string)
    requires Kept(line) == []
    ensures ReadLine(st, line) == st
  {
  }

  /** A line with two words maps the first to the second, whatever came before. */
  lemma PairAssigned(st: Scan, line: string, t1: Token, t2: Token)
    requires NextToken(Kept(line)) == Some(t1) && NextToken(t1.rest) == Some(t2)
    ensures ReadLine(st, line).configs == st.configs[t1.word := t2.word]
  {
    var kept := Kept(line);
    assert kept != [];
    assert Words(st, kept) == (t1.word, t2.word);
  }

  /** A line with one word maps it to the value of the previous pair. */
  lemma ValueCarried(st: Scan, line: string, t1: Token)
    requires NextToken(Kept(line)) == Some(t1) && NextToken(t1.rest) == None
    ensures ReadLine(st, line).configs == st.configs[t1.word := st.value]
  {
    var kept := Kept(line);
    assert kept != [];
    assert Words(st, kept) == (t1.word, st.value);
  }

  /** A line whose kept text is blanks only still reaches the tokenizer and
      stores the previous pair once more. */
  lemma BlankRemnant(st: Scan, line: string)
    requires Kept(line) != [] && forall k :: 0 <= k < |Kept(line)| ==> IsSpace(Kept(line)[k])
    ensures ReadLine(st, line) == Scan(st.configs[st.name := st.value], st.name, st.value)
  {
  }

  /** The first word of a line, if the line reaches the tokenizer and has one. */
  function FirstWord(line: string): Option<string> {
    var kept := Kept(line);
    if kept == [] then None
    else match NextToken(kept)
      case None => None
      case Some(t) => Some(t.word)
  }

  /** The names the lines define: the first word of every line that has one. */
  function Names(lines: seq<string>): set<string> {
    if lines == [] then {}
    else
      var last := FirstWord(lines[|lines| - 1]);
      Names(lines[..|lines| - 1]) + if last.Some? then {last.value} else {}
  }

  /** Every key of the map after the loop is the first word of some line, or the
      empty name the loop starts with (stored by a first line of blanks). */
  lemma {:induction false} KeysAreNames(lines: seq<string>)
    ensures ReadLines(Start, lines).configs.Keys <= Names(lines) + {""}
    ensures ReadLines(Start, lines).name in Names(lines) + {""}
  {
    if lines != [] {
      var init := lines[..|lines| - 1];
      var line := lines[|lines| - 1];
      KeysAreNames(init);
      var st := ReadLines(Start, init);
      assert ReadLines(Start, lines) == ReadLine(st, line);
      var kept := Kept(line);
      if kept != [] {
        var first := NextToken(kept);
        if first.Some? {
          assert FirstWord(line) == Some(first.value.word);
          assert Words(st, kept).0 == first.value.word;
        } else {
          assert Words(st, kept).0 == st.name;
        }
      }
    }
  }

  /** Conversely, the first word of every line becomes a key, and a later line
      does not remove it. */
  lemma {:induction false} NamesAreKeys(lines: seq<string>, st: Scan)
    ensures Names(lines) <= ReadLines(st, lines).configs.Keys
    ensures st.configs.Keys <= ReadLines(st, lines).configs.Keys
  {
    if lines != [] {
      var init := lines[..|lines| - 1];
      NamesAreKeys(init, st);
      var s0 := ReadLines(st, init);
      var line := lines[|lines| - 1];
      assert ReadLines(st, lines) == ReadLine(s0, line);
      LineKeepsKeys(s0, line);
    }
  }

  /** A line keeps the keys there are and adds its first word, if it has one. */
  lemma LineKeepsKeys(st: Scan, line: string)
    ensures st.configs.Keys <= ReadLine(st, line).configs.Keys
    ensures FirstWord(line).Some? ==> FirstWord(line).value in ReadLine(st, line).configs
  {
    var kept := Kept(line);
    if kept != [] {
      var first := NextToken(kept);
      if first.Some? {
        assert Words(st, kept).0 == first.value.word;
      }
    }
  }

  /** The last line that names a key decides its value: after a line with the
      two words `key value`, lines that do not start with `key` leave it at
      `value`. */
  lemma LastPairWins(st: Scan, lines: seq<string>, line: string, t1: Token, t2: Token, later: seq<string>)
    requires NextToken(Kept(line)) == Some(t1) && NextToken(t1.rest) == Some(t2)
    requires t1.word !in Names(later)
    ensures var r := ReadLines(st, lines + [line] + later).configs;
      t1.word in r && r[t1.word] == t2.word
  {
    var s1 := ReadLines(st, lines + [line]);
    assert (lines + [line])[..|lines|] == lines;
    assert s1 == ReadLine(ReadLines(st, lines), line);
    PairAssigned(ReadLines(st, lines), line, t1, t2);
    assert s1.name == t1.word && s1.value == t2.word;
    KeyUntouched(s1, later, t1.word);
    ReadLinesAppend(st, lines + [line], later);
  }

  /** Lines none of which starts with `key` keep the value of `key`, and keep
      `paramValue` equal to it while `paramName` is `key`. */
  lemma {:induction false} KeyUntouched(st: Scan, later: seq<string>, key: string)
    requires key in st.configs && (st.name == key ==> st.value == st.configs[key])
    requires key !in Names(later)
    ensures var r := ReadLines(st, later);
      key in r.configs && r.configs[key] == st.configs[key] && (r.name == key ==> r.value == st.configs[key])
  {
    if later != [] {
      var init := later[..|later| - 1];
      KeyUntouched(st, init, key);
      var line := later[|later| - 1];
      assert FirstWord(line) != Some(key);
    }
  }

  /** The cut happens at the first `'/'` even when that is not part of the
      `//`: of `a/b 1 // note` only `a` is left. */
  lemma SlashBeforeComment()
    ensures Kept("a/b 1 // note") == "a"
  {
    var line := "a/b 1 // note";
    assert TrimEnd(line) == line;
    assert line[6] == '/' && line[7] == '/';
    assert HasComment(line);
    assert line[0] != '/' && line[1..][0] == '/';
    assert FirstSlash(line[1..]) == 0;
    assert FirstSlash(line) == 1;
  }

  /** So `a` is read alone and takes the value of the previous pair. */
  lemma SlashedNameTakesPreviousValue(st: Scan)
    ensures ReadLine(st, "a/b 1 // note") == Scan(st.configs["a" := st.value], "a", st.value)
  {
    SlashBeforeComment();
    var a := "a";
    assert SpaceLength(a) == 0;
    assert a[0..] == a && a[1..] == [] && a[..1] == a;
    assert WordLength(a) == 1;
    assert NextToken(a) == Some(Token(a, ""));
  }

  /** A first line that is only a comment after blanks stores the empty name with
      the empty value. */
  lemma BlankFirstLine()
    ensures ReadLines(Start, ["  // note"]).configs == map["" := ""]
  {
    var line := "  // note";
    assert line[2] == '/' && line[3] == '/';
    assert HasComment(TrimEnd(line));
    assert FirstSlash(line) == 2;
    assert Kept(line) == "  ";
    assert SpaceLength("  ") == 2;
    assert NextToken("  ") == None;
    assert ReadLines(Start, [line]) == ReadLine(Start, line);
  }

  /** One more line of the loop. */
  lemma ReadLinesSnoc(st: Scan, lines: seq<string>, n: nat)
    requires n < |lines|
    ensures ReadLines(st, lines[..n + 1]) == ReadLine(ReadLines(st, lines[..n]), lines[n])
  {
    assert lines[..n + 1][..n] == lines[..n];
  }

  /** The loop over `a + b` is the loop over `b` after the loop over `a`. */
  lemma {:induction false} ReadLinesAppend(st: Scan, a: seq<string>, b: seq<string>)
    ensures ReadLines(st, a + b) == ReadLines(ReadLines(st, a), b)
    decreases |b|
  {
    if b == [] {
      assert a + b == a;
    } else {
      ReadLinesAppend(st, a, b[..|b| - 1]);
      assert (a + b)[..|a + b| - 1] == a + b[..|b| - 1];
    }
  }

  // ---------------------------------------------------------------------------
  // The reader

  class AppConfigReader {
    /** `m_AppConfigs` */
    var configs: map<string, string>
    /** `m_bFileLoaded` */
    var fileLoaded: bool

    /** `AppConfigReader(fileName)`: starts empty and not loaded, then loads. */
    constructor (file: Option<seq<string>>)
      ensures fileLoaded == file.Some?
      ensures configs == if file.Some? then ReadLines(Start, file.value).configs else map[]
    {
      configs := map[];
      fileLoaded := false;
      new;
      LoadConfig(file);
    }

    /** `loadConfig`: a file that cannot be opened changes nothing; otherwise each
        line is trimmed, cut at its comment and, unless empty, read for a name
        and a value that are stored in the map; the file counts as loaded only
        after its last line. */
    method LoadConfig(file: Option<seq<string>>)
      modifies this
      ensures file.None? ==> configs == old(configs) && fileLoaded == old(fileLoaded)
      ensures file.Some? ==> configs == ReadLines(Scan(old(configs), "", ""), file.value).configs && fileLoaded
    {
      if file.None? {
        return;
      }
      var lines := file.value;
      var paramName, paramValue := "", "";
      ghost var st0 := Scan(configs, "", "");
      var n := 0;
      while n < |lines|
        invariant 0 <= n <= |lines|
        invariant Scan(configs, paramName, paramValue) == ReadLines(st0, lines[..n])
      {
        ReadLinesSnoc(st0, lines, n);
        paramName, paramValue := ReadOne(lines[n], paramName, paramValue);
        n := n + 1;
      }
      assert lines[..n] == lines;
      fileLoaded := true;
    }

    /** The body of the `getline` loop of `loadConfig`: trim the line in place,
        cut its comment, and unless it is empty read `paramName`, `paramValue`
        from it and store them. */
    method ReadOne(line0: string, paramName0: string, paramValue0: string) returns (paramName: string, paramValue: string)
      modifies this
      ensures Scan(configs, paramName, paramValue) == ReadLine(Scan(old(configs), paramName0, paramValue0), line0)
      ensures fileLoaded == old(fileLoaded)
    {
      paramName, paramValue := paramName0, paramValue0;
      var line := TrimEnd(line0);
      if HasComment(line) {
        line := line[..FirstSlash(line)];
      }
      assert line == Kept(line0);
      if line != [] {
        var first := NextToken(line);
        if first.Some? {
          paramName := first.value.word;
          var second := NextToken(first.value.rest);
          if second.Some? {
            paramValue := second.value.word;
          }
        }
        assert (paramName, paramValue) == Words(Scan(configs, paramName0, paramValue0), line);
        configs := configs[paramName := paramValue];
      }
    }

    /** `isFileLoaded()` */
    function IsFileLoaded(): (r: bool)
      reads this
      ensures r == fileLoaded
    {
      fileLoaded
    }

    /** `hasParam(paramName)`: whether the name is a key of the map. */
    function HasParam(paramName: string): (r: bool)
      reads this
      ensures r <==> paramName in configs
    {
      paramName in configs
    }

    /** `getStringValue(paramName)`: the stored string, or `""` for a name that is
        not there. */
    function GetStringValue(paramName: string): (r: string)
      reads this
      ensures paramName in configs ==> r == configs[paramName]
      ensures paramName !in configs ==> r == ""
    {
      if HasParam(paramName) then configs[paramName] else ""
    }

    /** `getIntValue(paramName)`: the stored string read by `stoi`, or 0 for a name
        that is not there. */
    function GetIntValue(paramName: string, stoi: string -> int): (r: int)
      reads this
      ensures paramName in configs ==> r == stoi(configs[paramName])
      ensures paramName !in configs ==> r == 0
    {
      if HasParam(paramName) then stoi(configs[paramName]) else 0
    }

    /** `getDoubleValue(paramName)`: the stored string read by `stod`, or 0 for a
        name that is not there. */
    function GetDoubleValue(paramName: string, stod: string -> real): (r: real)
      reads this
      ensures paramName in configs ==> r == stod(configs[paramName])
      ensures paramName !in configs ==> r == 0.0
    {
      if HasParam(paramName) then stod(configs[paramName]) else 0.0
    }
  }

  /** A reader built from lines answers `hasParam` with `true` exactly for the
      first words of the lines, plus the empty name when a line of blanks came
      before any word. */
  lemma LoadedParams(r: AppConfigReader, lines: seq<string>, name: string)
    requires r.configs == ReadLines(Start, lines).configs
    ensures name in Names(lines) ==> r.HasParam(name)
    ensures r.HasParam(name) ==> name == "" || name in Names(lines)
  {
    KeysAreNames(lines);
    NamesAreKeys(lines, Start);
  }
}

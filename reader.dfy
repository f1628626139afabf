/** DelimitedJSONReader: turns a split of newline-delimited JSON (one file, or
    every file of a directory) into (key, line) records, one physical line per
    call of NextKeyValue. */
module ContentPump {
  import opened JsonValue
  import opened UriLookup
  import opened Text
  import opened Ids

  /** Long.MAX_VALUE, the value totalBytes has before initialize. */
  const LONG_MAX: int := 0x7fff_ffff_ffff_ffff

  /** nextKeyValue either returns a boolean or lets an exception escape. */
  datatype Result<T> = Ok(value: T) | Err(failure: Failure)

  // ---- Line classification (lines 148-159) ---------------------------------

  /** The shape of a physical line, tested in the reader's order: the blank
      test (`trim()` is empty) comes before the leading-space test. */
  datatype Shape = Blank | Indented | Content

  function Classify(line: string): Shape {
    if Trim(line) == [] then Blank
    else if |line| > 0 && line[0] == ' ' then Indented
    else Content
  }

  /** Blank means every char is at or below U+0020 (spaces, tabs, control
      chars); Indented means a leading space on a line that is not blank;
      Content is everything else, including a line that starts with a tab. */
  lemma ClassifyMeaning(line: string)
    ensures Classify(line) == Blank <==> AllTrimmable(line)
    ensures Classify(line) == Indented <==> !AllTrimmable(line) && line[0] == ' '
    ensures Classify(line) == Content <==> !AllTrimmable(line) && line[0] != ' '
  {
    TrimEmptyIffAllTrimmable(line);
  }

  // ---- Key resolution (lines 159-175) ----------------------------------------

  /** How a pulled line is keyed: a raw key to set (it is then encoded), a
      skipped line (null key, returns true, no bytes counted), or an exception
      that escapes nextKeyValue. */
  datatype LineKey = Keyed(raw: string) | Skipped | Raised(failure: Failure)

  /** `nextId` is what the id generator would hand out next, and `found` what
      findUriInJSON gives for the trimmed line (consulted in field mode only);
      of its exceptions, only JsonParseException is caught. */
  function KeyOfLine(line: string, generateId: bool, nextId: string, found: Lookup): LineKey
  {
    if Classify(line) != Content then Skipped
    else if generateId then Keyed(nextId)
    else
      match found
      case Uri(u) => Keyed(u)
      case Throws(f) => if f == JsonParse then Skipped else Raised(f)
      case _ => Skipped
  }

  /** A blank or whitespace-only line is skipped whatever the mode. */
  lemma WhitespaceLineSkipped(line: string, generateId: bool, nextId: string, found: Lookup)
    requires AllTrimmable(line)
    ensures KeyOfLine(line, generateId, nextId, found) == Skipped
  {
    ClassifyMeaning(line);
  }

  /** A line with a leading space is skipped whatever it holds, valid JSON or not. */
  lemma IndentedLineSkipped(line: string, generateId: bool, nextId: string, found: Lookup)
    requires |line| > 0 && line[0] == ' '
    ensures KeyOfLine(line, generateId, nextId, found) == Skipped
  {
    ClassifyMeaning(line);
  }

  /** In generated-id mode every content line takes the next id, and what the
      line holds plays no part. */
  lemma GeneratedKeyIgnoresContent(line: string, nextId: string, found: Lookup)
    requires !AllTrimmable(line) && line[0] != ' '
    ensures KeyOfLine(line, true, nextId, found) == Keyed(nextId)
  {
    ClassifyMeaning(line);
  }

  /** In field mode a content line gets a key exactly when the search finds a
      string or number; a search that finds no usable value, or a line that
      does not parse, is skipped; every other exception of the search escapes
      as it is, and the mapping exception happens exactly for a document that
      is neither an object nor null. */
  lemma FieldKeyOutcomes(line: string, parse: string -> Parse, uriName: Option<string>)
    requires !AllTrimmable(line) && line[0] != ' '
    ensures var p := parse(Trim(line));
            var found := FindUri(p, uriName);
            var k := KeyOfLine(line, false, "", found);
            && (k.Keyed? <==> found.Uri?)
            && (k.Keyed? ==> k.raw == found.text)
            && (!found.Uri? && !found.Throws? ==> k == Skipped)
            && (p.NotJson? ==> k == Skipped)
            && (found.Throws? && found.failure != JsonParse ==> k == Raised(found.failure))
            && (k.Raised? ==> k.failure != JsonParse)
            && (k == Raised(JsonMapping) <==> p.Parsed? && !p.doc.JObj? && !p.doc.JNull?)
  {
    ClassifyMeaning(line);
    FindUriFailures(parse(Trim(line)), uriName);
  }

  // ---- One pulled line (lines 148-195) ---------------------------------------

  /** What nextKeyValue reads from the reader besides the stream: the mode,
      the field name, the id generator's seed and the collaborators. */
  datatype Settings = Settings(generateId: bool, uriName: Option<string>, idSeed: string, env: Collaborators)

  /** The part of the reader one pulled line changes: the current key, the
      current value, the bytes read so far and the number of ids taken. */
  datatype Record = Record(key: Option<string>, value: string, bytesRead: int, idCount: nat)

  /** The effect of pulling `line`: what nextKeyValue returns and the record
      afterwards. A content line in generated-id mode takes an id whatever
      happens next; an escaping exception leaves key, value and bytes alone;
      only a keyed line sets the value and counts its bytes, and if the value
      holder does not take Text its key is dropped again. */
  function Step(line: string, s: Settings, before: Record, found: Lookup): (Result<bool>, Record) {
    var count := if s.generateId && Classify(line) == Content then before.idCount + 1 else before.idCount;
    match KeyOfLine(line, s.generateId, GeneratedId(s.idSeed, before.idCount + 1), found)
    case Skipped => (Ok(true), before.(key := None, idCount := count))
    case Raised(f) => (Err(f), before.(idCount := count))
    case Keyed(raw) =>
      (Ok(true), Record(
        if s.env.valueIsText then Some(s.env.encodeUri(raw)) else None,
        if s.env.valueIsText then line else before.value,
        before.bytesRead + s.env.byteLength(line),
        count))
  }

  /** Bytes are counted exactly for the lines that reach the end of
      nextKeyValue, and then by the line's own byte length; a skipped line and
      an escaping exception count nothing. */
  lemma StepCountsBytesOnce(line: string, s: Settings, before: Record, found: Lookup)
    ensures var (r, after) := Step(line, s, before, found);
            var k := KeyOfLine(line, s.generateId, GeneratedId(s.idSeed, before.idCount + 1), found);
            && after.bytesRead == (if k.Keyed? then before.bytesRead + s.env.byteLength(line) else before.bytesRead)
            && (r.Err? <==> k.Raised?)
            && (after.bytesRead != before.bytesRead ==> r == Ok(true) && Classify(line) == Content)
  {
  }

  /** Whitespace-only and indented lines return true with a null key, and
      change nothing else. */
  lemma StepSkipsNonContent(line: string, s: Settings, before: Record, found: Lookup)
    requires AllTrimmable(line) || (|line| > 0 && line[0] == ' ')
    ensures Step(line, s, before, found) == (Ok(true), before.(key := None))
  {
    ClassifyMeaning(line);
  }

  /** A key left after a pull is always the uri-encoded form of a raw key: in
      generated-id mode the id taken by this line, in field mode the value
      the search found. */
  lemma StepKeyIsEncoded(line: string, s: Settings, before: Record, found: Lookup)
    requires Step(line, s, before, found).0 == Ok(true) && Step(line, s, before, found).1.key.Some?
    ensures s.env.valueIsText && Classify(line) == Content
    ensures s.generateId ==>
              Step(line, s, before, found).1.key == Some(s.env.encodeUri(GeneratedId(s.idSeed, before.idCount + 1)))
    ensures !s.generateId ==>
              found.Uri? && Step(line, s, before, found).1.key == Some(s.env.encodeUri(found.text))
  {
  }

  /** In generated-id mode a line takes one id exactly when it is a content
      line, that line is always keyed with it, and no exception escapes. */
  lemma StepTakesOneIdPerContentLine(line: string, s: Settings, before: Record, found: Lookup)
    requires s.generateId
    ensures var (r, after) := Step(line, s, before, found);
            && r == Ok(true)
            && (Classify(line) == Content ==>
                  after.idCount == before.idCount + 1 && after.bytesRead == before.bytesRead + s.env.byteLength(line))
            && (Classify(line) != Content ==>
                  after.idCount == before.idCount && after.bytesRead == before.bytesRead)
  {
  }

  /** In field mode no id is taken; a line whose text is not JSON, or whose
      search finds no string or number under the field, is skipped like a
      blank line; one whose document is neither an object nor null raises the
      mapping exception, and a cast or null failure of the search escapes;
      an escaping exception leaves the record untouched. */
  lemma StepFieldModeFailures(line: string, s: Settings, before: Record)
    requires !s.generateId && Classify(line) == Content
    ensures var p := s.env.parse(Trim(line));
            var found := FindUri(p, s.uriName);
            var (r, after) := Step(line, s, before, found);
            && after.idCount == before.idCount
            && (p.NotJson? ==> (r, after) == (Ok(true), before.(key := None)))
            && (found in {NoField, NotStringOrNumber} ==> (r, after) == (Ok(true), before.(key := None)))
            && (found.Throws? && found.failure != JsonParse ==> (r, after) == (Err(found.failure), before))
            && (r == Err(JsonMapping) <==> p.Parsed? && !p.doc.JObj? && !p.doc.JNull?)
            && (r.Err? ==> after == before)
  {
    FindUriFailures(s.env.parse(Trim(line)), s.uriName);
  }

  /** A field-mode content line whose document is an object with maps only in
      its lists, and which holds the field nowhere, returns true with a null
      key and changes nothing else: the search ends with no field found. */
  lemma StepFieldAbsentSkips(line: string, s: Settings, before: Record)
    requires !s.generateId && Classify(line) == Content
    requires s.env.parse(Trim(line)).Parsed?
    requires ListsHoldMaps(s.env.parse(Trim(line)).doc) && !Occurs(s.env.parse(Trim(line)).doc, s.uriName)
    ensures Step(line, s, before, FindUri(s.env.parse(Trim(line)), s.uriName)) == (Ok(true), before.(key := None))
  {
    NoFieldIffAbsent(s.env.parse(Trim(line)).doc, s.uriName);
  }

  /** Content lines of a run, and their total byte length. */
  function ContentCount(lines: seq<string>): nat {
    if lines == [] then 0
    else (if Classify(lines[0]) == Content then 1 else 0) + ContentCount(lines[1..])
  }

  function ContentBytes(lines: seq<string>, byteLength: string -> nat): nat {
    if lines == [] then 0
    else (if Classify(lines[0]) == Content then byteLength(lines[0]) else 0) + ContentBytes(lines[1..], byteLength)
  }

  /** The record after a caller pulls `lines` one after another, stopping at
      the first exception that escapes. */
  function Run(lines: seq<string>, s: Settings, before: Record): Record {
    if lines == [] then before
    else
      var (r, after) := Step(lines[0], s, before, FindUri(s.env.parse(Trim(lines[0])), s.uriName));
      if r.Err? then after else Run(lines[1..], s, after)
  }

  /** In generated-id mode a run never stops early, takes one id per content
      line and counts exactly the content lines' bytes: progress accounting
      and id numbering both track the content lines and nothing else. */
  lemma {:induction false} RunInGeneratedMode(lines: seq<string>, s: Settings, before: Record)
    requires s.generateId
    ensures Run(lines, s, before).idCount == before.idCount + ContentCount(lines)
    ensures Run(lines, s, before).bytesRead == before.bytesRead + ContentBytes(lines, s.env.byteLength)
  {
    if lines != [] {
      var after := Step(lines[0], s, before, FindUri(s.env.parse(Trim(lines[0])), s.uriName)).1;
      StepTakesOneIdPerContentLine(lines[0], s, before, FindUri(s.env.parse(Trim(lines[0])), s.uriName));
      RunInGeneratedMode(lines[1..], s, after);
    }
  }

  // ---- The virtual stream over the files of a split --------------------------

  /** A line position: file index, line index. */
  datatype Pos = Pos(file: nat, line: nat)

  /** The next line to pull from position (f, l): the current file's next line,
      or, in a directory split whose iterator has more entries, the first line
      of the following files; none when everything is read. */
  function NextLine(files: seq<seq<string>>, isDirectory: bool, f: nat, l: nat): (r: Option<Pos>)
    requires f < |files| && l <= |files[f]|
    ensures r.Some? ==> f <= r.value.file < |files| && r.value.line < |files[r.value.file]|
    ensures r.None? ==> l == |files[f]|
    decreases |files| - f
  {
    if l < |files[f]| then Some(Pos(f, l))
    else if isDirectory && f + 1 < |files| then NextLine(files, isDirectory, f + 1, 0)
    else None
  }

  /** File boundaries are invisible: the next line is the current file's next
      one, or the first line of a later file with only empty files between;
      and nothing is left only when the remaining files are all empty. */
  lemma {:induction false} NextLineSkipsOnlyExhaustedFiles(files: seq<seq<string>>, isDirectory: bool, f: nat, l: nat)
    requires f < |files| && l <= |files[f]|
    ensures match NextLine(files, isDirectory, f, l)
      case Some(p) =>
        && f <= p.file < |files| && p.line < |files[p.file]|
        && (p.file == f ==> p.line == l)
        && (p.file > f ==> isDirectory && l == |files[f]| && p.line == 0
                           && forall g :: f < g < p.file ==> files[g] == [])
      case None =>
        && l == |files[f]|
        && (isDirectory ==> forall g :: f < g < |files| ==> files[g] == [])
    decreases |files| - f
  {
    if l == |files[f]| && isDirectory && f + 1 < |files| {
      NextLineSkipsOnlyExhaustedFiles(files, isDirectory, f + 1, 0);
    }
  }

  // ---- The reader ------------------------------------------------------------

  /** The split handed to initialize: its path, start offset and length, whether
      the path is a directory, and the lines of the file(s) it yields (for a
      directory, the files in the order the file iterator gives them). */
  datatype Split = Split(path: string, start: int, length: int, isDirectory: bool, files: seq<seq<string>>)

  /** The configuration read at initialize. */
  datatype Conf = Conf(generateId: bool, uriName: Option<string>)

  /** Collaborators whose code is not part of this model: the JSON parser, the
      uri encoding of the base reader, the byte length of a line in the
      platform charset, and whether the framework's value holder takes Text. */
  datatype Collaborators = Collaborators(
    parse: string -> Parse,
    encodeUri: string -> string,
    byteLength: string -> nat,
    valueIsText: bool)

  class DelimitedJsonReader {
    // set by initialize
    var files: seq<seq<string>>
    var isDirectory: bool
    var generateId: bool
    var uriName: Option<string>
    var idSeed: string
    var idCount: nat  // ids the generator has handed out
    var env: Collaborators

    // reading state
    var initialized: bool  // the line reader is not null
    var fileIdx: nat
    var lineIdx: nat
    var bytesRead: int
    var totalBytes: int
    var hasNext: bool
    var key: Option<string>
    var value: string

    ghost predicate Valid()
      reads this
    {
      initialized ==>
        && fileIdx < |files|
        && lineIdx <= |files[fileIdx]|
        && (!isDirectory ==> |files| == 1)
    }

    /** Where the next pull will read. */
    ghost function Pending(): Option<Pos>
      reads this
      requires Valid() && initialized
    {
      NextLine(files, isDirectory, fileIdx, lineIdx)
    }

    function Setup(): Settings
      reads this
    {
      Settings(generateId, uriName, idSeed, env)
    }

    function Snapshot(): Record
      reads this
    {
      Record(key, value, bytesRead, idCount)
    }

    /** The state of a freshly created reader, before initialize. */
    constructor (env: Collaborators)
      ensures Valid() && !initialized
      ensures hasNext && generateId && bytesRead == 0 && totalBytes == LONG_MAX && key == None
      ensures this.env == env
    {
      files, isDirectory := [], false;
      generateId, uriName := true, None;
      idSeed, idCount := "", 0;
      this.env := env;
      initialized := false;
      fileIdx, lineIdx := 0, 0;
      bytesRead, totalBytes := 0, LONG_MAX;
      hasNext := true;
      key, value := None, "";
    }

    /** Lines 84-110: read the configuration, seed the id generator with the
        split's own path and start (for a directory, the directory's), take the
        split's length as the total, and open the first file. */
    method Initialize(split: Split, conf: Conf)
      requires |split.files| >= 1 && (!split.isDirectory ==> |split.files| == 1)
      modifies this
      ensures Valid() && initialized
      ensures files == split.files && isDirectory == split.isDirectory && fileIdx == 0 && lineIdx == 0
      ensures Setup() == Settings(conf.generateId,
                                  if conf.generateId then old(uriName) else conf.uriName,
                                  if conf.generateId then Seed(split.path, split.start) else old(idSeed),
                                  old(env))
      ensures Snapshot() == Record(old(key), old(value), 0, if conf.generateId then 0 else old(idCount))
      ensures totalBytes == split.length && hasNext == old(hasNext)
    {
      ConfigureKeys(split, conf);
      bytesRead := 0;
      totalBytes := split.length;
      files, isDirectory := split.files, split.isDirectory;
      fileIdx, lineIdx := 0, 0;
      initialized := true;
    }

    /** Lines 91-98: in generated-id mode the id generator is seeded with the
        split's path, a dash and its start offset; otherwise the uri field
        name is read. */
    method ConfigureKeys(split: Split, conf: Conf)
      modifies this`generateId, this`uriName, this`idSeed, this`idCount
      ensures generateId == conf.generateId
      ensures conf.generateId ==> idSeed == Seed(split.path, split.start) && idCount == 0 && uriName == old(uriName)
      ensures !conf.generateId ==> uriName == conf.uriName && idSeed == old(idSeed) && idCount == old(idCount)
    {
      generateId := conf.generateId;
      if generateId {
        idSeed, idCount := Seed(split.path, split.start), 0;
      } else {
        uriName := conf.uriName;
      }
    }

    /** Lines 112-121: in a directory split whose iterator has more entries,
        close the current file and open the next; otherwise mark the reader
        as having nothing more. */
    method FindNextFileEntryAndInitReader() returns (more: bool)
      requires Valid() && initialized
      modifies this`fileIdx, this`lineIdx, this`hasNext
      ensures Valid()
      ensures more == (isDirectory && old(fileIdx) + 1 < |files|)
      ensures more ==> fileIdx == old(fileIdx) + 1 && lineIdx == 0 && hasNext == old(hasNext)
      ensures !more ==> fileIdx == old(fileIdx) && lineIdx == old(lineIdx) && !hasNext
    {
      if isDirectory && fileIdx + 1 < |files| {
        fileIdx, lineIdx := fileIdx + 1, 0;
        more := true;
      } else {
        hasNext := false;
        more := false;
      }
    }

    /** Lines 198-206: a null key stays null, any other key is uri-encoded. */
    method SetKey(val: Option<string>)
      modifies this`key
      ensures val.None? ==> key == None
      ensures val.Some? ==> key == Some(env.encodeUri(val.value))
    {
      if val.None? {
        key := None;
      } else {
        key := Some(env.encodeUri(val.value));
      }
    }

    /** Lines 208-243: parse the line and search it for the uri field. */
    method FindUriInJson(line: string) returns (r: Lookup)
      ensures r == FindUri(env.parse(line), uriName)
    {
      var p := env.parse(line);
      match p
      case NotJson =>
        r := Throws(JsonParse);
      case Parsed(doc) =>
        if doc.JObj? || doc.JNull? {
          r := BreadthFirstLookup(doc, uriName);
        } else {
          r := Throws(JsonMapping);
        }
    }

    /** Lines 148-195: classify and key a line that readLine returned. */
    method KeyLine(line: string) returns (r: Result<bool>)
      modifies this`key, this`value, this`bytesRead, this`idCount
      ensures (r, Snapshot()) == Step(line, Setup(), old(Snapshot()), FindUri(env.parse(Trim(line)), uriName))
    {
      var shape := Classify(line);
      if shape != Content {
        SetKey(None);
        return Ok(true);
      }
      if generateId {
        r := KeyByGeneratedId(line);
      } else {
        r := KeyByField(line);
      }
    }

    /** Lines 160-161: a content line takes the generator's next id. */
    method KeyByGeneratedId(line: string) returns (r: Result<bool>)
      requires generateId && Classify(line) == Content
      modifies this`key, this`value, this`bytesRead, this`idCount
      ensures (r, Snapshot()) == Step(line, Setup(), old(Snapshot()), FindUri(env.parse(Trim(line)), uriName))
    {
      var raw := GeneratedId(idSeed, idCount + 1);
      idCount := idCount + 1;
      StoreLine(line, raw);
      return Ok(true);
    }

    /** Lines 162-175: a content line is keyed by the uri field, when the
        search finds a string or number in it. */
    method KeyByField(line: string) returns (r: Result<bool>)
      requires !generateId && Classify(line) == Content
      modifies this`key, this`value, this`bytesRead, this`idCount
      ensures (r, Snapshot()) == Step(line, Setup(), old(Snapshot()), FindUri(env.parse(Trim(line)), uriName))
    {
      var found := FindUriInJson(Trim(line));
      if found.Throws? && found.failure != JsonParse {
        return Err(found.failure);
      }
      if !found.Uri? {
        SetKey(None);
        return Ok(true);
      }
      StoreLine(line, found.text);
      return Ok(true);
    }

    /** Lines 171-194 after a raw key is found: set and encode it, hand the line
        to the value holder (or drop the key when that holder does not take
        Text), and count the line's bytes. */
    method StoreLine(line: string, raw: string)
      modifies this`key, this`value, this`bytesRead
      ensures key == (if env.valueIsText then Some(env.encodeUri(raw)) else None)
      ensures value == (if env.valueIsText then line else old(value))
      ensures bytesRead == old(bytesRead) + env.byteLength(line)
    {
      SetKey(Some(raw));
      if env.valueIsText {
        value := line;
      } else {
        SetKey(None);
      }
      bytesRead := bytesRead + env.byteLength(line);
    }

    /** Lines 135-196: pull one physical line, moving on to the next file of a
        directory split at the end of a file, and key it. */
    method NextKeyValue() returns (r: Result<bool>)
      requires Valid()
      modifies this
      decreases if initialized then |files| - fileIdx else 0
      ensures Valid()
      ensures files == old(files) && isDirectory == old(isDirectory) && initialized == old(initialized)
      ensures Setup() == old(Setup()) && totalBytes == old(totalBytes)
      // no line reader: nothing more
      ensures !old(initialized) ==>
                && r == Ok(false) && !hasNext && Snapshot() == old(Snapshot())
                && fileIdx == old(fileIdx) && lineIdx == old(lineIdx)
      // every file is read to its end: progress is forced to 1
      ensures old(initialized) && old(Pending()).None? ==>
                && r == Ok(false) && !hasNext
                && Snapshot() == old(Snapshot()).(bytesRead := totalBytes)
                && fileIdx == |files| - 1 && lineIdx == |files[fileIdx]|
      // a line is pulled: the stream moves past it, and it is keyed
      ensures old(initialized) && old(Pending()).Some? ==>
                var p := old(Pending()).value;
                && fileIdx == p.file && lineIdx == p.line + 1 && hasNext == old(hasNext)
                && (r, Snapshot()) == Step(files[p.file][p.line], Setup(), old(Snapshot()),
                                           FindUri(env.parse(Trim(files[p.file][p.line])), uriName))
    {
      if !initialized {
        hasNext := false;
        return Ok(false);
      }
      if lineIdx == |files[fileIdx]| {
        // readLine() returned null
        var more := FindNextFileEntryAndInitReader();
        if more {
          r := NextKeyValue();
          return;
        }
        bytesRead := totalBytes;
        return Ok(false);
      }
      r := PullLine();
    }

    /** Lines 140 and 148-195 when readLine returns a line: the reader moves
        past it and the line is keyed. */
    method PullLine() returns (r: Result<bool>)
      requires Valid() && initialized && lineIdx < |files[fileIdx]|
      modifies this`lineIdx, this`key, this`value, this`bytesRead, this`idCount
      ensures Valid() && lineIdx == old(lineIdx) + 1
      ensures (r, Snapshot()) == Step(files[fileIdx][old(lineIdx)], Setup(), old(Snapshot()),
                                      FindUri(env.parse(Trim(files[fileIdx][old(lineIdx)])), uriName))
    {
      var line := files[fileIdx][lineIdx];
      lineIdx := lineIdx + 1;
      r := KeyLine(line);
    }
  }
}

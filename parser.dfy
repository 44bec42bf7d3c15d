/** The artifact parser (`parseArtifact` in src/lib/server/generator.ts): a
    single pass over the lines of an artifact spec that recovers a flat list
    of file records. A line starting with a tree marker (`├── ` or `└── `)
    opens a new entry, a line starting with four spaces adds a line of
    content to the open entry, and every other line is ignored. */
module Artifact {
  import opened Types
  import opened JsString

  const MidMarker: string := "├── "
  const LastMarker: string := "└── "
  const Indent: string := "    "

  /** The line opens a new entry. */
  predicate IsMarkerLine(line: string) {
    StartsWith(line, MidMarker) || StartsWith(line, LastMarker)
  }

  /** The line carries content for the open entry. */
  predicate IsContentLine(line: string) {
    StartsWith(line, Indent)
  }

  /** The path of a marker line: the first `├── ` removed, then the first
      `└── ` of what is left removed (two first-occurrence replacements, not
      a prefix strip). */
  function PathOf(line: string): string {
    RemoveFirst(RemoveFirst(line, MidMarker), LastMarker)
  }

  /** What one line means to the scanner. */
  datatype Line = Marker(path: string) | Content(text: string) | Other

  /** The meaning of a line: the marker test comes first, then the
      indentation test; a content line contributes what follows its first
      four characters. */
  function Classify(line: string): Line {
    if IsMarkerLine(line) then Marker(PathOf(line))
    else if IsContentLine(line) then Content(line[|Indent|..])
    else Other
  }

  /** The meaning of each line, in order. */
  function ClassifyAll(lines: seq<string>): (r: seq<Line>)
    ensures |r| == |lines|
    ensures forall k :: 0 <= k < |lines| ==> r[k] == Classify(lines[k])
  {
    if lines == [] then [] else [Classify(lines[0])] + ClassifyAll(lines[1..])
  }

  // ------------------------------------------------------------ the scanner

  /** The scanner's state: the records pushed so far, `currentPath` and the
      untrimmed `currentContent`. */
  datatype Scanner = Scanner(files: seq<FileRecord>, path: string, content: string)

  const Start: Scanner := Scanner([], "", "")

  /** One marker line with the raw content that follows it up to the next
      marker line. */
  datatype Block = Block(path: string, body: string)

  /** A block becomes a record when its path and its raw body are non-empty. */
  predicate Kept(b: Block) {
    b.path != "" && b.body != ""
  }

  /** The record a block contributes: none unless it is kept. */
  function Output(b: Block): seq<FileRecord> {
    if Kept(b) then [FileRecord(b.path, Trim(b.body))] else []
  }

  /** The records after flushing the open entry: it is pushed, with its
      content trimmed, only when both its path and its untrimmed content are
      non-empty. */
  function Flush(st: Scanner): seq<FileRecord> {
    st.files + Output(Block(st.path, st.content))
  }

  /** The effect of one line on the scanner. */
  function Step(st: Scanner, line: Line): Scanner {
    match line
    case Marker(p) => Scanner(Flush(st), p, "")
    case Content(t) => st.(content := st.content + t + "\n")
    case Other => st
  }

  /** The scanner after the lines `lines`, in order. */
  function Run(st: Scanner, lines: seq<Line>): Scanner
    decreases |lines|
  {
    if lines == [] then st else Run(Step(st, lines[0]), lines[1..])
  }

  /** Running over a first line and then the rest. */
  lemma RunCons(st: Scanner, line: Line, rest: seq<Line>)
    ensures Run(st, [line] + rest) == Run(Step(st, line), rest)
  {
    assert ([line] + rest)[1..] == rest;
  }

  /** The records recovered from a sequence of lines. */
  function ParseLines(lines: seq<string>): seq<FileRecord> {
    Flush(Run(Start, ClassifyAll(lines)))
  }

  /** The records recovered from an artifact spec. */
  function Parse(text: string): seq<FileRecord> {
    ParseLines(Split(text))
  }

  /** `parseArtifact`: the line loop over `content.split("\n")`. Nothing in
      it can throw, so the source's catch block is never reached and the
      parse is total. Every record it returns has a non-empty path and
      content that is its own trim. */
  method ParseArtifact(content: string) returns (files: seq<FileRecord>)
    ensures files == Parse(content)
    ensures forall k :: 0 <= k < |files| ==> WellFormed(files[k])
  {
    files := [];
    var lines := Split(content);
    ghost var meaning := ClassifyAll(lines);
    var currentPath := "";
    var currentContent := "";
    for i := 0 to |lines|
      invariant Run(Scanner(files, currentPath, currentContent), meaning[i..]) == Run(Start, meaning)
    {
      var line := lines[i];
      ghost var before := Scanner(files, currentPath, currentContent);
      assert meaning[i..] == [Classify(line)] + meaning[i + 1..];
      if StartsWith(line, MidMarker) || StartsWith(line, LastMarker) {
        if currentPath != "" && currentContent != "" {
          files := files + [FileRecord(currentPath, Trim(currentContent))];
        }
        assert files == Flush(before);
        currentPath := RemoveFirst(RemoveFirst(line, MidMarker), LastMarker);
        currentContent := "";
      } else if StartsWith(line, Indent) {
        currentContent := currentContent + line[4..] + "\n";
      }
      assert Scanner(files, currentPath, currentContent) == Step(before, Classify(line));
      RunCons(before, Classify(line), meaning[i + 1..]);
    }
    assert meaning[|lines|..] == [];
    ghost var last := Scanner(files, currentPath, currentContent);
    assert last == Run(Start, meaning);
    if currentPath != "" && currentContent != "" {
      files := files + [FileRecord(currentPath, Trim(currentContent))];
    }
    assert files == Flush(last);
    ParseWellFormed(lines);
  }

  // -------------------------------------------- a reference definition

  /** The raw content accumulated from `lines` before the next marker line:
      each content line contributes its text and a line feed. */
  function BodyOf(lines: seq<Line>): string {
    if lines == [] || lines[0].Marker? then ""
    else if lines[0].Content? then lines[0].text + "\n" + BodyOf(lines[1..])
    else BodyOf(lines[1..])
  }

  /** One block per marker line of `lines`, in order. */
  function Blocks(lines: seq<Line>): seq<Block> {
    if lines == [] then []
    else if lines[0].Marker? then [Block(lines[0].path, BodyOf(lines[1..]))] + Blocks(lines[1..])
    else Blocks(lines[1..])
  }

  /** The records of the kept blocks, in order, with trimmed content. */
  function Emit(blocks: seq<Block>): seq<FileRecord> {
    if blocks == [] then [] else Output(blocks[0]) + Emit(blocks[1..])
  }

  /** The number of marker lines in `lines`. */
  function MarkerCount(lines: seq<Line>): nat {
    if lines == [] then 0 else (if lines[0].Marker? then 1 else 0) + MarkerCount(lines[1..])
  }

  /** Emitting a block followed by more blocks. */
  lemma EmitCons(x: Block, rest: seq<Block>)
    ensures Emit([x] + rest) == Output(x) + Emit(rest)
  {
    assert ([x] + rest)[1..] == rest;
  }

  /** What scanning the rest of `lines` from `st` will emit: the records
      pushed so far, the open entry with everything the lines add to it
      before their first marker, and one candidate record per marker line. */
  function Pending(st: Scanner, lines: seq<Line>): seq<FileRecord> {
    st.files + Emit([Block(st.path, st.content + BodyOf(lines))] + Blocks(lines))
  }

  /** Scanning from any state emits what `Pending` predicts. */
  lemma {:induction false} RunByBlocks(st: Scanner, lines: seq<Line>)
    ensures Flush(Run(st, lines)) == Pending(st, lines)
    decreases |lines|
  {
    if lines == [] {
      assert st.content + BodyOf(lines) == st.content;
      EmitCons(Block(st.path, st.content), []);
    } else {
      RunByBlocks(Step(st, lines[0]), lines[1..]);
      match lines[0]
      case Marker(p) => MarkerKeepsPending(st, lines);
      case Content(t) => ContentKeepsPending(st, lines);
      case Other =>
    }
  }

  /** A marker line moves the open entry into the pushed records. */
  lemma MarkerKeepsPending(st: Scanner, lines: seq<Line>)
    requires lines != [] && lines[0].Marker?
    ensures Pending(Step(st, lines[0]), lines[1..]) == Pending(st, lines)
  {
    var rest := lines[1..];
    var head := Output(Block(st.path, st.content));
    var tail := [Block(lines[0].path, BodyOf(rest))] + Blocks(rest);
    assert "" + BodyOf(rest) == BodyOf(rest);
    assert Pending(Step(st, lines[0]), rest) == st.files + head + Emit(tail);
    assert BodyOf(lines) == "" && Blocks(lines) == tail;
    assert st.content + BodyOf(lines) == st.content;
    EmitCons(Block(st.path, st.content), tail);
    assert Pending(st, lines) == st.files + (head + Emit(tail));
    assert st.files + head + Emit(tail) == st.files + (head + Emit(tail));
  }

  /** A content line moves one line of text into the open entry. */
  lemma ContentKeepsPending(st: Scanner, lines: seq<Line>)
    requires lines != [] && lines[0].Content?
    ensures Pending(Step(st, lines[0]), lines[1..]) == Pending(st, lines)
  {
    AppendLine(st.content, lines[0].text, BodyOf(lines[1..]));
  }

  /** Appending a line and then more text is appending both at once. */
  lemma AppendLine(acc: string, line: string, more: string)
    ensures acc + line + "\n" + more == acc + (line + "\n" + more)
  {
  }

  /** The scanner agrees with the block-wise reference definition. */
  lemma ParseByBlocks(lines: seq<string>)
    ensures ParseLines(lines) == Emit(Blocks(ClassifyAll(lines)))
  {
    var meaning := ClassifyAll(lines);
    RunByBlocks(Start, meaning);
    EmitCons(Block("", BodyOf(meaning)), Blocks(meaning));
  }

  /** A record as the parser emits it: a non-empty path and content that
      neither starts nor ends with white space. */
  predicate WellFormed(r: FileRecord) {
    r.path != "" && Trimmed(r.content)
  }

  /** Every emitted record is well formed. */
  lemma {:induction false} EmitWellFormed(blocks: seq<Block>)
    ensures forall k :: 0 <= k < |Emit(blocks)| ==> WellFormed(Emit(blocks)[k])
  {
    if blocks != [] {
      var head := Output(blocks[0]);
      var tail := Emit(blocks[1..]);
      EmitWellFormed(blocks[1..]);
      if head != [] {
        TrimShape(blocks[0].body);
      }
      forall k | 0 <= k < |head + tail| ensures WellFormed((head + tail)[k]) {
        if k >= |head| {
          assert (head + tail)[k] == tail[k - |head|];
        }
      }
    }
  }


  /** Every parsed record has a non-empty path, and its content is its own
      trim (a whitespace-only body gives the empty content). */
  lemma ParseWellFormed(lines: seq<string>)
    ensures forall k :: 0 <= k < |ParseLines(lines)| ==> WellFormed(ParseLines(lines)[k])
  {
    ParseByBlocks(lines);
    EmitWellFormed(Blocks(ClassifyAll(lines)));
  }

  lemma {:induction false} BlocksCount(lines: seq<Line>)
    ensures |Blocks(lines)| == MarkerCount(lines)
  {
    if lines != [] { BlocksCount(lines[1..]); }
  }

  lemma {:induction false} EmitCount(blocks: seq<Block>)
    ensures |Emit(blocks)| <= |blocks|
  {
    if blocks != [] { EmitCount(blocks[1..]); }
  }

  /** At most one record per marker line. */
  lemma RecordCountBound(text: string)
    ensures |Parse(text)| <= MarkerCount(ClassifyAll(Split(text)))
  {
    var meaning := ClassifyAll(Split(text));
    ParseByBlocks(Split(text));
    BlocksCount(meaning);
    EmitCount(Blocks(meaning));
  }

  lemma {:induction false} BlocksSkipPrefix(prefix: seq<Line>, lines: seq<Line>)
    requires forall k :: 0 <= k < |prefix| ==> !prefix[k].Marker?
    ensures Blocks(prefix + lines) == Blocks(lines)
  {
    if prefix != [] {
      assert prefix + lines != [];
      assert (prefix + lines)[0] == prefix[0];
      assert (prefix + lines)[1..] == prefix[1..] + lines;
      assert forall k :: 0 <= k < |prefix[1..]| ==> prefix[1..][k] == prefix[k + 1];
      BlocksSkipPrefix(prefix[1..], lines);
      assert !(prefix + lines)[0].Marker?;
      assert Blocks(prefix + lines) == Blocks((prefix + lines)[1..]);
    } else {
      assert prefix + lines == lines;
    }
  }

  /** Lines before the first marker line have no effect on the output:
      content with no path to attach to is dropped. */
  lemma OrphanContentDropped(prefix: seq<string>, lines: seq<string>)
    requires forall k :: 0 <= k < |prefix| ==> !IsMarkerLine(prefix[k])
    ensures ParseLines(prefix + lines) == ParseLines(lines)
  {
    var all := ClassifyAll(prefix + lines);
    assert all == ClassifyAll(prefix) + ClassifyAll(lines);
    BlocksSkipPrefix(ClassifyAll(prefix), ClassifyAll(lines));
    ParseByBlocks(prefix + lines);
    ParseByBlocks(lines);
  }

  // --------------------------------------------------------- path quirks

  /** A pattern whose first character does not occur in `s` does not occur. */
  lemma AbsentLead(s: string, pat: string)
    requires pat != [] && pat[0] !in s
    ensures !Contains(s, pat)
  {
  }

  /** For a path containing neither marker, the path of `marker + path` is
      `path`: the two replacements then act as stripping the 4-character
      prefix. */
  lemma PathOfMarkerLine(marker: string, path: string)
    requires marker == MidMarker || marker == LastMarker
    requires !Contains(path, MidMarker) && !Contains(path, LastMarker)
    ensures PathOf(marker + path) == path
  {
    var line := marker + path;
    assert line[..4] == marker;
    assert line[4..] == path;
    if marker == MidMarker {
      RemoveFirstSpec(line, MidMarker);
      RemoveFirstSpec(path, LastMarker);
    } else {
      forall k | 0 <= k <= |line| ensures !OccursAt(line, MidMarker, k) {
        if k < 4 {
          assert line[k] == LastMarker[k];
        } else if OccursAt(line, MidMarker, k) {
          assert path[k - 4..k - 4 + |MidMarker|] == line[k..k + |MidMarker|];
          assert OccursAt(path, MidMarker, k - 4);
        }
      }
      RemoveFirstSpec(line, MidMarker);
      RemoveFirstSpec(line, LastMarker);
    }
  }

  /** A marker followed by a marker-free path is read as that path. */
  lemma ClassifyMarkerLine(marker: string, path: string)
    requires marker == MidMarker || marker == LastMarker
    requires !Contains(path, MidMarker) && !Contains(path, LastMarker)
    ensures Classify(marker + path) == Marker(path)
  {
    assert (marker + path)[..4] == marker;
    PathOfMarkerLine(marker, path);
  }

  /** Four spaces followed by any text are read as that text. */
  lemma ClassifyIndentedLine(text: string)
    ensures Classify(Indent + text) == Content(text)
  {
    var line := Indent + text;
    assert line[..4] == Indent;
    assert line[0] == ' ';
    assert line[|Indent|..] == text;
  }

  /** The empty line is neither a marker nor content. */
  lemma ClassifyEmptyLine()
    ensures Classify("") == Other
  {
  }

  /** The replacement is not a prefix strip: in `└── a├── b`, with no `├`
      in `a`, the FIRST `├── ` is the one inside the name and is removed,
      then the leading `└── `, so the path is `ab` (dropping the
      4-character prefix would have kept the inner `├── `). */
  lemma PathOfRemovesInnerMarker(a: string, b: string)
    requires '├' !in a
    ensures PathOf(LastMarker + a + MidMarker + b) == a + b
  {
    var line := LastMarker + a + MidMarker + b;
    var k := |LastMarker| + |a|;
    assert line[k..k + |MidMarker|] == MidMarker;
    assert OccursAt(line, MidMarker, k);
    forall j | 0 <= j < k ensures !OccursAt(line, MidMarker, j) {
      assert line[j] == (LastMarker + a)[j];
      assert line[j] != '├';
    }
    IndexOfFirst(line, MidMarker);
    assert IndexOf(line, MidMarker) == k;
    var removed := RemoveFirst(line, MidMarker);
    assert removed == line[..k] + line[k + |MidMarker|..];
    assert line[..k] == LastMarker + a;
    assert line[k + |MidMarker|..] == b;
    assert removed == LastMarker + (a + b);
    assert StartsWith(removed, LastMarker);
    RemoveFirstSpec(removed, LastMarker);
    assert removed[|LastMarker|..] == a + b;
  }

  // ------------------------------------------------------- worked inputs

  /** The empty spec is one empty line, which is not a marker: no records. */
  lemma ParseEmpty()
    ensures Parse("") == []
  {
    assert Split("") == [""];
    ClassifyEmptyLine();
    assert ClassifyAll([""]) == [Other];
  }

  /** A path that a marker line can carry unchanged: non-empty, on one
      line, and free of both markers. */
  predicate PlainPath(path: string) {
    path != "" && '\n' !in path && !Contains(path, MidMarker) && !Contains(path, LastMarker)
  }

  /** Two line-feed-free texts concatenated have no line feed. */
  lemma NoNewlineJoin(a: string, b: string)
    requires '\n' !in a && '\n' !in b
    ensures '\n' !in a + b
  {
    assert forall i :: 0 <= i < |a + b| ==> (a + b)[i] in a || (a + b)[i] in b;
  }

  /** A marker line with no content lines after it yields no record. */
  lemma EmptyEntryDropped(path: string)
    requires PlainPath(path)
    ensures Parse(MidMarker + path) == []
  {
    var l0 := MidMarker + path;
    NoNewlineJoin(MidMarker, path);
    SplitSingle(l0);
    ClassifyMarkerLine(MidMarker, path);
    var meaning := [Marker(path)];
    assert ClassifyAll([l0]) == meaning;
    assert meaning[1..] == [];
    var b := Block(path, "");
    assert Blocks(meaning) == [b];
    ParseByBlocks([l0]);
    EmitCons(b, []);
    assert [b] + [] == [b];
  }

  /** One marker line, one content line and the final empty line: one block,
      whose body is the content line's text and a line feed. */
  lemma SingleEntry(path: string, text: string)
    requires PlainPath(path) && '\n' !in text
    ensures ParseLines([MidMarker + path, Indent + text, ""]) == Output(Block(path, text + "\n"))
  {
    var lines := [MidMarker + path, Indent + text, ""];
    ClassifyMarkerLine(MidMarker, path);
    ClassifyIndentedLine(text);
    ClassifyEmptyLine();
    var m2 := [Other];
    var m1 := [Content(text)] + m2;
    var meaning := [Marker(path)] + m1;
    assert ClassifyAll(lines) == meaning;
    assert m2[1..] == [] && m1[1..] == m2 && meaning[1..] == m1;
    assert BodyOf(m1) == text + "\n";
    var b := Block(path, text + "\n");
    assert Blocks(m1) == [];
    assert Blocks(meaning) == [b];
    ParseByBlocks(lines);
    EmitCons(b, []);
    assert [b] + [] == [b];
  }

  /** The text of a marker line and a content line, each followed by a line
      feed, splits into those two lines and the final empty one. */
  lemma SplitEntry(path: string, text: string)
    requires PlainPath(path) && '\n' !in text
    ensures Split(MidMarker + path + "\n" + (Indent + text) + "\n") == [MidMarker + path, Indent + text, ""]
  {
    var l0 := MidMarker + path;
    var l1 := Indent + text;
    NoNewlineJoin(MidMarker, path);
    NoNewlineJoin(Indent, text);
    assert l0 + "\n" + l1 + "\n" == l0 + "\n" + (l1 + "\n" + "");
    SplitCons(l0, l1 + "\n" + "");
    SplitCons(l1, "");
    SplitSingle("");
  }

  /** Content lines that hold only white space still keep their entry: the
      push is decided on the untrimmed content, so the record is there, with
      empty content. */
  lemma BlankBodyKept(path: string, blank: string)
    requires PlainPath(path)
    requires '\n' !in blank && AllWhiteSpace(blank)
    ensures Parse(MidMarker + path + "\n" + (Indent + blank) + "\n") == [FileRecord(path, "")]
  {
    SplitEntry(path, blank);
    SingleEntry(path, blank);
    BlankTrimsAway(blank);
  }

  /** Content before the first marker is dropped and the entry after it is
      kept: `    x=1`, `├── a.txt`, `    body` and a final line feed parse to
      exactly the record `a.txt` with content `body` (the instance
      `orphan = "x=1"`, `path = "a.txt"`, `body = "body"`). */
  lemma OrphanThenEntry(orphan: string, path: string, body: string)
    requires '\n' !in orphan && PlainPath(path)
    requires '\n' !in body && body != "" && Trimmed(body)
    ensures Parse(Indent + orphan + "\n" + (MidMarker + path + "\n" + (Indent + body) + "\n")) ==
            [FileRecord(path, body)]
  {
    var l0 := Indent + orphan;
    var rest := MidMarker + path + "\n" + (Indent + body) + "\n";
    NoNewlineJoin(Indent, orphan);
    SplitCons(l0, rest);
    SplitEntry(path, body);
    var lines := [MidMarker + path, Indent + body, ""];
    assert l0[..4] == Indent;
    assert !IsMarkerLine(l0);
    OrphanContentDropped([l0], lines);
    SingleEntry(path, body);
    TrimDropsFinalNewline(body);
  }

  /** The example spec `    x=1`, `├── a.txt`, `    body` with a final line
      feed: the orphan line is dropped and the one entry is kept. */
  lemma ArtifactExample()
    ensures Parse("    x=1" + "\n" + ("├── a.txt" + "\n" + "    body" + "\n")) == [FileRecord("a.txt", "body")]
  {
    AbsentLead("a.txt", MidMarker);
    AbsentLead("a.txt", LastMarker);
    OrphanThenEntry("x=1", "a.txt", "body");
    assert Indent + "x=1" == "    x=1";
    assert MidMarker + "a.txt" == "├── a.txt";
    assert Indent + "body" == "    body";
  }

  /** White space and a final line feed trim to nothing. */
  lemma BlankTrimsAway(blank: string)
    requires AllWhiteSpace(blank)
    ensures Trim(blank + "\n") == ""
  {
    var body := blank + "\n";
    forall i | 0 <= i < |body| ensures IsWhiteSpace(body[i]) {
      if i < |blank| { assert body[i] == blank[i]; }
    }
    TrimShape(body);
  }

  // ------------------------------------------------------------ round trip

  /** Each content line indented by four spaces. */
  function Indented(segments: seq<string>): seq<string> {
    if segments == [] then [] else [Indent + segments[0]] + Indented(segments[1..])
  }

  /** The lines of a tree drawing of `records`: per record a marker line
      (`└── ` for the last record, `├── ` otherwise) followed by its content
      lines, each indented by four spaces. */
  function RenderLines(records: seq<FileRecord>): seq<string> {
    if records == [] then []
    else
      var marker := if |records| == 1 then LastMarker else MidMarker;
      [marker + records[0].path] + (Indented(Split(records[0].content)) + RenderLines(records[1..]))
  }

  /** The artifact spec that draws `records`. */
  function Render(records: seq<FileRecord>): string {
    Join(RenderLines(records))
  }

  /** A record that survives rendering and parsing: a non-empty, one-line
      path free of both markers, and non-empty content that is its own trim. */
  predicate Renderable(r: FileRecord) {
    r.path != "" && '\n' !in r.path && !Contains(r.path, MidMarker) && !Contains(r.path, LastMarker) &&
    r.content != "" && Trimmed(r.content)
  }

  /** Each segment with its line feed, concatenated. */
  function Terminated(segments: seq<string>): string {
    if segments == [] then "" else segments[0] + "\n" + Terminated(segments[1..])
  }

  lemma {:induction false} TerminatedJoin(segments: seq<string>)
    requires segments != []
    ensures Terminated(segments) == Join(segments) + "\n"
  {
    if |segments| > 1 {
      TerminatedJoin(segments[1..]);
    }
  }

  /** The meaning of the indented lines: one content line per segment. */
  function Contents(segments: seq<string>): seq<Line> {
    if segments == [] then [] else [Content(segments[0])] + Contents(segments[1..])
  }

  lemma {:induction false} ClassifyIndented(segments: seq<string>)
    ensures ClassifyAll(Indented(segments)) == Contents(segments)
  {
    if segments != [] {
      ClassifyIndentedLine(segments[0]);
      ClassifyIndented(segments[1..]);
      ClassifyAllAppend([Indent + segments[0]], Indented(segments[1..]));
    }
  }

  lemma {:induction false} IndentedNoNewline(segments: seq<string>)
    requires forall k :: 0 <= k < |segments| ==> '\n' !in segments[k]
    ensures |Indented(segments)| == |segments|
    ensures forall k :: 0 <= k < |segments| ==> '\n' !in Indented(segments)[k]
  {
    if segments != [] {
      IndentedNoNewline(segments[1..]);
      var line := Indent + segments[0];
      assert forall i :: 0 <= i < |line| ==> line[i] == ' ' || line[i] in segments[0];
    }
  }

  lemma {:induction false} ContentsBlocks(segments: seq<string>, rest: seq<Line>)
    requires rest == [] || rest[0].Marker?
    ensures BodyOf(Contents(segments) + rest) == Terminated(segments)
    ensures Blocks(Contents(segments) + rest) == Blocks(rest)
  {
    if segments != [] {
      var lines := Contents(segments) + rest;
      assert lines[0] == Content(segments[0]);
      assert lines[1..] == Contents(segments[1..]) + rest;
      ContentsBlocks(segments[1..], rest);
      assert Blocks(lines) == Blocks(lines[1..]);
    } else {
      assert Contents(segments) + rest == rest;
    }
  }

  lemma {:induction false} ClassifyAllAppend(a: seq<string>, b: seq<string>)
    ensures ClassifyAll(a + b) == ClassifyAll(a) + ClassifyAll(b)
  {
  }

  lemma {:induction false} RenderLinesShape(records: seq<FileRecord>)
    requires forall k :: 0 <= k < |records| ==> Renderable(records[k])
    ensures forall k :: 0 <= k < |RenderLines(records)| ==> '\n' !in RenderLines(records)[k]
    ensures records == [] <==> RenderLines(records) == []
  {
    if records != [] {
      var r := records[0];
      RenderLinesShape(records[1..]);
      var marker := if |records| == 1 then LastMarker else MidMarker;
      var head := marker + r.path;
      var ind := Indented(Split(r.content));
      var tail := RenderLines(records[1..]);
      IndentedNoNewline(Split(r.content));
      NoNewlineJoin(marker, r.path);
      var lines := [head] + (ind + tail);
      assert RenderLines(records) == lines;
      forall k | 0 <= k < |lines| ensures '\n' !in lines[k] {
        if k == 0 {
        } else if k <= |ind| {
          assert lines[k] == ind[k - 1];
        } else {
          assert lines[k] == tail[k - 1 - |ind|];
        }
      }
    }
  }

  /** What the lines of a rendering mean to the scanner. */
  function RenderMeaning(records: seq<FileRecord>): seq<Line> {
    if records == [] then []
    else [Marker(records[0].path)] + (Contents(Split(records[0].content)) + RenderMeaning(records[1..]))
  }

  /** Each rendered marker line reads as its record's path and each indented
      line as one line of its content. */
  lemma {:induction false} ClassifyRender(records: seq<FileRecord>)
    requires forall k :: 0 <= k < |records| ==> Renderable(records[k])
    ensures ClassifyAll(RenderLines(records)) == RenderMeaning(records)
  {
    if records != [] {
      var r := records[0];
      var marker := if |records| == 1 then LastMarker else MidMarker;
      var rest := RenderLines(records[1..]);
      assert RenderLines(records) == [marker + r.path] + (Indented(Split(r.content)) + rest);
      ClassifyRender(records[1..]);
      ClassifyRecord(marker, r, rest);
    }
  }

  /** The lines drawn for one record read as its marker and its content. */
  lemma ClassifyRecord(marker: string, r: FileRecord, rest: seq<string>)
    requires marker == MidMarker || marker == LastMarker
    requires Renderable(r)
    ensures ClassifyAll([marker + r.path] + (Indented(Split(r.content)) + rest)) ==
            [Marker(r.path)] + (Contents(Split(r.content)) + ClassifyAll(rest))
  {
    var segments := Split(r.content);
    ClassifyIndented(segments);
    ClassifyMarkerLine(marker, r.path);
    ClassifyAllAppend([marker + r.path], Indented(segments) + rest);
    ClassifyAllAppend(Indented(segments), rest);
  }

  /** A rendering's meaning starts with a marker, if it is not empty. */
  lemma RenderMeaningStart(records: seq<FileRecord>)
    ensures RenderMeaning(records) == [] || RenderMeaning(records)[0].Marker?
  {
  }

  /** The blocks of a rendering: one per record, its body the content plus
      the final line feed; emitting them gives the records back. */
  lemma {:induction false} BlocksOfRender(records: seq<FileRecord>)
    requires forall k :: 0 <= k < |records| ==> Renderable(records[k])
    ensures Emit(Blocks(RenderMeaning(records))) == records
  {
    if records != [] {
      var r := records[0];
      var restMeaning := RenderMeaning(records[1..]);
      var b := Block(r.path, r.content + "\n");
      RenderMeaningStart(records[1..]);
      RenderedBlock(r, restMeaning);
      BlocksOfRender(records[1..]);
      EmitCons(b, Blocks(restMeaning));
      assert records == [r] + records[1..];
    }
  }

  /** The first record of a rendering reads back as one block whose body is
      its content plus the final line feed, and that block emits the record. */
  lemma RenderedBlock(r: FileRecord, restMeaning: seq<Line>)
    requires Renderable(r)
    requires restMeaning == [] || restMeaning[0].Marker?
    ensures Blocks([Marker(r.path)] + (Contents(Split(r.content)) + restMeaning)) ==
            [Block(r.path, r.content + "\n")] + Blocks(restMeaning)
    ensures Output(Block(r.path, r.content + "\n")) == [r]
  {
    var segments := Split(r.content);
    var lines := [Marker(r.path)] + (Contents(segments) + restMeaning);
    ContentsBlocks(segments, restMeaning);
    TerminatedJoin(segments);
    JoinSplit(r.content);
    assert lines[1..] == Contents(segments) + restMeaning;
    TrimDropsFinalNewline(r.content);
  }

  /** Drawing records as a tree and parsing the drawing gives the same
      records back, in the same order. */
  lemma RoundTrip(records: seq<FileRecord>)
    requires forall k :: 0 <= k < |records| ==> Renderable(records[k])
    ensures Parse(Render(records)) == records
  {
    RenderLinesShape(records);
    if records == [] {
      ParseEmpty();
    } else {
      SplitJoin(RenderLines(records));
      ParseByBlocks(RenderLines(records));
      ClassifyRender(records);
      BlocksOfRender(records);
    }
  }
}

/** Reading a growing log file piece by piece. */
module FileParsing {
  import opened Options
  import opened Messages

  // What the parser's pattern makes of a line.
  type LineParser = string -> Option<Message>

  /** The first line break at or behind `i`; |s| if there is none. */
  function BreakFrom(s: string, i: nat): (r: nat)
    requires i <= |s|
    ensures i <= r <= |s|
    decreases |s| - i
  {
    if i == |s| || s[i] == '\n' then i else BreakFrom(s, i + 1)
  }

  function Break(s: string): (i: nat)
    ensures i <= |s|
  {
    BreakFrom(s, 0)
  }

  predicate BreaksAt(s: string, i: nat, r: nat) {
    && i <= r <= |s|
    && (r < |s| ==> s[r] == '\n')
    && forall j :: i <= j < r ==> s[j] != '\n'
  }

  lemma {:induction false} BreakMeans(s: string, i: nat, r: nat)
    requires i <= |s|
    ensures BreaksAt(s, i, r) <==> r == BreakFrom(s, i)
    decreases |s| - i
  {
    if i < |s| && s[i] != '\n' {
      BreakMeans(s, i + 1, r);
    }
  }

  /** The lines `getline` yields: pieces ending in a line break, and a last one without, if not empty. */
  function Lines(s: string): seq<string>
    decreases |s|
  {
    if s == "" then []
    else
      var i := Break(s);
      if i == |s| then [s] else [s[..i]] + Lines(s[i + 1..])
  }

  function ParseAll(parse: LineParser, lines: seq<string>): seq<Message> {
    if lines == [] then []
    else
      var m := parse(lines[|lines| - 1]);
      ParseAll(parse, lines[..|lines| - 1]) + if m.Some? then [m.value] else []
  }

  /** Nothing read yet, or the last thing read was a whole line. */
  predicate Whole(s: string) {
    s == "" || s[|s| - 1] == '\n'
  }

  // ----- Cutting a file in two -----

  lemma FirstLine(line: string, rest: string)
    requires '\n' !in line
    ensures Lines(line + "\n" + rest) == [line] + Lines(rest)
  {
    var s := line + "\n" + rest;
    BreakMeans(s, 0, |line|);
    assert s[..|line|] == line && s[|line| + 1..] == rest;
  }

  lemma OnlyLine(line: string)
    requires line != "" && '\n' !in line
    ensures Lines(line) == [line]
  {
    BreakMeans(line, 0, |line|);
  }

  lemma CutLine(s: string) returns (line: string, rest: string)
    requires '\n' in s
    ensures s == line + "\n" + rest && '\n' !in line
  {
    var r := Break(s);
    BreakMeans(s, 0, r);
    line, rest := s[..r], s[r + 1..];
  }

  lemma Associate(a: string, b: string, c: string, d: string)
    ensures a + (b + c + d) == (a + b) + c + d && (a + b + c) + d == a + b + (c + d)
  {
  }

  lemma WholeRest(line: string, rest: string)
    ensures Whole(line + "\n" + rest) <==> Whole(rest)
  {
  }

  /** The lines of two parts against those of both together: a cut inside a line tears it in two. */
  predicate Split(clean: bool, one: seq<string>, two: seq<string>, both: seq<string>) {
    if clean then both == one + two else |one| + |two| == |both| + 1
  }

  lemma SplitMore(line: string, clean: bool, one: seq<string>, two: seq<string>, both: seq<string>)
    requires Split(clean, one, two, both)
    ensures Split(clean, [line] + one, two, [line] + both)
  {
  }

  lemma SplitBehind(line: string, rest: string, b: string, clean: bool)
    requires '\n' !in line && Split(clean, Lines(rest), Lines(b), Lines(rest + b))
    ensures Split(clean, Lines(line + "\n" + rest), Lines(b), Lines(line + "\n" + rest + b))
  {
    SplitMore(line, clean, Lines(rest), Lines(b), Lines(rest + b));
    FirstLine(line, rest);
    FirstLine(line, rest + b);
    Associate(line, "\n", rest, b);
  }

  /** Reading in two goes yields the lines of one go, except that a cut inside a line tears it in two. */
  lemma {:induction false} LinesSplit(a: string, b: string)
    ensures Split(Whole(a) || b == "", Lines(a), Lines(b), Lines(a + b))
    decreases |a|
  {
    if a == "" {
      assert a + b == b;
    } else if '\n' in a {
      var line, rest := CutLine(a);
      LinesSplit(rest, b);
      WholeRest(line, rest);
      SplitBehind(line, rest, b, Whole(rest) || b == "");
    } else if b == "" {
      assert a + b == a;
    } else {
      TornLine(a, b);
    }
  }

  lemma TornLine(a: string, b: string)
    requires a != "" && '\n' !in a && b != ""
    ensures |Lines(a)| == 1 && |Lines(a + b)| == |Lines(b)|
  {
    OnlyLine(a);
    if '\n' in b {
      var line, rest := CutLine(b);
      FirstLine(line, rest);
      Associate(a, line, "\n", rest);
      FirstLine(a + line, rest);
    } else {
      OnlyLine(b);
      OnlyLine(a + b);
    }
  }

  lemma {:induction false} ParseConcat(parse: LineParser, a: seq<string>, b: seq<string>)
    ensures ParseAll(parse, a + b) == ParseAll(parse, a) + ParseAll(parse, b)
    decreases |b|
  {
    if b == [] {
      assert a + b == a;
    } else {
      assert (a + b)[..|a + b| - 1] == a + b[..|b| - 1];
      ParseConcat(parse, a, b[..|b| - 1]);
    }
  }

  lemma ParseLast(parse: LineParser, lines: seq<string>, line: string)
    ensures ParseAll(parse, lines + [line])
            == if parse(line).Some? then ParseAll(parse, lines) + [parse(line).value] else ParseAll(parse, lines)
  {
    assert (lines + [line])[..|lines|] == lines;
    assert ParseAll(parse, lines) + [] == ParseAll(parse, lines);
  }

  /** The messages are those of the lines at these places, in order; no other line parses. */
  ghost predicate ParsedAt(parse: LineParser, lines: seq<string>, places: seq<nat>, messages: seq<Message>) {
    && |places| == |messages|
    && (forall k :: 0 <= k < |messages| ==> places[k] < |lines| && parse(lines[places[k]]) == Some(messages[k]))
    && (forall i, k :: 0 <= i < k < |places| ==> places[i] < places[k])
    && (forall i: nat :: i < |lines| && i !in places ==> parse(lines[i]) == None)
  }

  lemma ParsedNext(parse: LineParser, lines: seq<string>, line: string, places: seq<nat>, messages: seq<Message>)
    requires ParsedAt(parse, lines, places, messages)
    ensures parse(line).None? ==> ParsedAt(parse, lines + [line], places, messages)
    ensures parse(line).Some? ==> ParsedAt(parse, lines + [line], places + [|lines|], messages + [parse(line).value])
  {
    forall i: nat | i < |lines| + 1 && i !in places
      ensures parse((lines + [line])[i]).None? || i in places + [|lines|]
      ensures i < |lines| ==> parse((lines + [line])[i]).None?
    {
      if i == |lines| {
        assert (places + [|lines|])[|places|] == i;
      }
    }
  }

  /** Each line is parsed once, in order, and the lines the pattern does not take are skipped. */
  lemma {:induction false} EachLineParsed(parse: LineParser, lines: seq<string>) returns (places: seq<nat>)
    ensures ParsedAt(parse, lines, places, ParseAll(parse, lines))
  {
    places := [];
    if lines != [] {
      var init, line := lines[..|lines| - 1], lines[|lines| - 1];
      places := EachLineParsed(parse, init);
      assert lines == init + [line];
      ParsedNext(parse, init, line, places, ParseAll(parse, init));
      ParseLast(parse, init, line);
      if parse(line).Some? {
        places := places + [|init|];
      }
    }
  }

  lemma TakeLine(done: seq<string>, line: string, after: seq<string>, before: seq<string>)
    requires before == [line] + after
    ensures (done + [line]) + after == done + before
  {
  }

  // ----- Polling -----

  /** The file at each poll, each version extending the one before. */
  predicate Growing(files: seq<string>) {
    forall i :: 0 < i < |files| ==> files[i - 1] <= files[i]
  }

  function Latest(files: seq<string>): string {
    if files == [] then "" else files[|files| - 1]
  }

  /** What a poll finds behind the cursor: nothing, if the file has become shorter than that. */
  function Behind(file: string, cursor: nat): string {
    if cursor <= |file| then file[cursor..] else ""
  }

  function NewPart(files: seq<string>): string
    requires files != []
  {
    Behind(Latest(files), |Latest(files[..|files| - 1])|)
  }

  /** What all polls together make of the text they find. */
  function Polled<T>(read: string -> seq<T>, files: seq<string>): seq<T> {
    if files == [] then []
    else Polled(read, files[..|files| - 1]) + read(NewPart(files))
  }

  /** The lines all polls together have read. */
  function PolledLines(files: seq<string>): seq<string> {
    Polled(Lines, files)
  }

  /** The polls that found the file ending inside a line which then grew. */
  function Torn(files: seq<string>): nat {
    if files == [] then 0
    else
      Torn(files[..|files| - 1])
      + if Whole(Latest(files[..|files| - 1])) || NewPart(files) == "" then 0 else 1
  }

  /** Every way of cutting the growth into polls reads one line more than the file has for each line it
      tears; so the lines read are those of the whole file, each once and in order, if and only if no
      poll ends inside a line that grows later. */
  lemma {:induction false} PollingReadsOnce(files: seq<string>)
    requires Growing(files)
    ensures |PolledLines(files)| == |Lines(Latest(files))| + Torn(files)
    ensures PolledLines(files) == Lines(Latest(files)) <==> Torn(files) == 0
  {
    if files != [] {
      var init := files[..|files| - 1];
      PollingReadsOnce(init);
      assert Latest(init) <= Latest(files) by {
        if init != [] {
          assert files[|files| - 2] <= files[|files| - 1];
        }
      }
      assert Latest(files) == Latest(init) + NewPart(files);
      LinesSplit(Latest(init), NewPart(files));
    }
  }

  lemma PolledTwice<T>(read: string -> seq<T>, a: string, b: string)
    ensures Polled(read, [a, b]) == read(a) + read(Behind(b, |a|))
  {
    assert [a, b][..1] == [a] && [a][..0] == [];
    assert Polled(read, [a]) == [] + read(a);
  }

  lemma RestBehind(part: string, rest: string)
    ensures Behind(part + rest + "\n", |part|) == rest + "\n"
  {
  }

  /** A line polled when part of it is written is read as two. */
  lemma PartLineTorn(part: string, rest: string)
    requires part != "" && rest != "" && '\n' !in part && '\n' !in rest
    ensures var line := part + rest;
      Lines(line + "\n") == [line] && PolledLines([part, line + "\n"]) == [part, rest]
  {
    PolledTwice(Lines, part, part + rest + "\n");
    OneLine(part);
    OneLine(rest);
    OneLine(part + rest);
    RestBehind(part, rest);
  }

  // ----- Reading a file from its start again -----

  /** The characters of some lines, a break for each included. */
  function Size(lines: seq<string>): nat {
    if lines == [] then 0 else |lines[0]| + 1 + Size(lines[1..])
  }

  lemma SizeMore(line: string, lines: seq<string>)
    ensures Size([line] + lines) == |line| + 1 + Size(lines)
  {
    assert ([line] + lines)[1..] == lines;
  }

  lemma {:induction false} SizeOfLines(s: string)
    ensures Size(Lines(s)) == |s| + if Whole(s) then 0 else 1
    decreases |s|
  {
    if '\n' in s {
      var line, rest := CutLine(s);
      SizeOfLines(rest);
      FirstLine(line, rest);
      SizeMore(line, Lines(rest));
      WholeRest(line, rest);
    } else if s != "" {
      OnlyLine(s);
      SizeMore(s, []);
      assert [s] + [] == [s];
    }
  }

  /** A poll reads a file as from its start exactly when it starts there, or there is nothing to read.  So
      a file written anew is read whole only if a poll has found it empty, or missing, in between: if
      not, it is skipped as far as the cursor, be it shorter by now or longer. */
  lemma ReadFromStart(file: string, cursor: nat)
    ensures Lines(Behind(file, cursor)) == Lines(file) <==> cursor == 0 || file == ""
  {
    SizeOfLines(file);
    SizeOfLines(Behind(file, cursor));
    if 0 < cursor < |file| {
      assert Whole(Behind(file, cursor)) == Whole(file);
    }
  }

  /** A file emptied and written anew by the next poll, but not beyond the cursor, is skipped to its
      end: what was written in between is never read. */
  lemma ShorterFileSkipped(before: string, lost: string, more: string)
    requires |lost| <= |before|
    ensures PolledLines([before, lost, lost + more]) == Lines(before) + Lines(more)
  {
    PolledShorter(Lines, before, lost, more);
    assert Lines(before) + [] == Lines(before);
  }

  lemma PolledShorter<T>(read: string -> seq<T>, before: string, lost: string, more: string)
    requires |lost| <= |before|
    ensures Polled(read, [before, lost, lost + more]) == read(before) + read("") + read(more)
  {
    var files := [before, lost, lost + more];
    PolledTwice(read, before, lost);
    assert Behind(lost, |before|) == "";
    assert files[..2] == [before, lost];
    assert Behind(lost + more, |lost|) == more;
  }

  /** A line alone, with its line break and without. */
  lemma OneLine(s: string)
    requires s != "" && '\n' !in s
    ensures Lines(s) == [s] == Lines(s + "\n")
  {
    OnlyLine(s);
    FirstLine(s, "");
    assert s + "\n" + "" == s + "\n";
  }

  lemma OneMorePoll(parse: LineParser, files: seq<string>, i: nat)
    requires i < |files|
    ensures Latest(files[..i + 1]) == files[i]
    ensures ParseAll(parse, PolledLines(files[..i + 1]))
            == ParseAll(parse, PolledLines(files[..i])) + ParseAll(parse, Lines(Behind(files[i], |Latest(files[..i])|)))
  {
    assert files[..i + 1][..i] == files[..i];
    ParseConcat(parse, PolledLines(files[..i]), Lines(NewPart(files[..i + 1])));
  }

  class FileParser {
    var lastAccessedByte: nat
    const parse: LineParser

    constructor (parse: LineParser)
      ensures lastAccessedByte == 0 && this.parse == parse
    {
      lastAccessedByte := 0;
      this.parse := parse;
    }

    /** One poll of the file; None is a file that cannot be opened, which makes the next poll start
        over.  `seekFails` says whether seeking behind the end of a file fails.  It does not matter: a
        stream that has failed ignores the second seek, so it is not read from the start either. */
    method Poll(file: Option<string>, seekFails: bool) returns (messages: seq<Message>)
      modifies this
      ensures if file.Some? then
          messages == ParseAll(parse, Lines(Behind(file.value, old(lastAccessedByte)))) && lastAccessedByte == |file.value|
        else messages == [] && lastAccessedByte == 0
    {
      var position := lastAccessedByte;
      var failed := file.None? || (position > |file.value| && seekFails);
      if failed {
        if lastAccessedByte == 0 {
          return [];
        }
        lastAccessedByte := 0;
      }
      messages := ReadLines(if failed then "" else Behind(file.value, position));
      if file.None? {
        return [];
      }
      lastAccessedByte := |file.value|;
    }

    /** The reading loop of `poll`. */
    method ReadLines(stream: string) returns (messages: seq<Message>)
      ensures messages == ParseAll(parse, Lines(stream))
      ensures exists places :: ParsedAt(parse, Lines(stream), places, messages)
    {
      messages := [];
      var rest := stream;
      ghost var lines := Lines(stream);
      ghost var done: seq<string> := [];
      while rest != ""
        invariant done + Lines(rest) == lines
        invariant messages == ParseAll(parse, done)
        decreases |rest|
      {
        ghost var before := rest;
        var line;
        line, rest := GetLine(rest);
        ParseLast(parse, done, line);
        TakeLine(done, line, Lines(rest), Lines(before));
        done := done + [line];
        var m := parse(line);
        if m.Some? {
          messages := messages + [m.value];
        }
      }
      assert done + [] == done;
      ghost var places := EachLineParsed(parse, lines);
    }

    /** `getline`: the next line, and what is left of the stream. */
    method GetLine(stream: string) returns (line: string, rest: string)
      requires stream != ""
      ensures Lines(stream) == [line] + Lines(rest) && |rest| < |stream|
    {
      var i := 0;
      while i < |stream| && stream[i] != '\n'
        invariant i <= |stream| && forall j :: 0 <= j < i ==> stream[j] != '\n'
      {
        i := i + 1;
      }
      line := stream[..i];
      if i < |stream| {
        rest := stream[i + 1..];
        assert stream == line + "\n" + rest;
        FirstLine(line, rest);
      } else {
        rest := "";
        assert line == stream;
        OnlyLine(line);
      }
    }

    /** Following a file from the start, in whatever versions the polls find it.  When it only grows and
        no poll tears a line, the messages of all polls together are the parse of the whole file. */
    method Follow(files: seq<string>, seekFails: bool) returns (all: seq<Message>)
      requires lastAccessedByte == 0
      modifies this
      ensures all == ParseAll(parse, PolledLines(files))
      ensures Growing(files) && Torn(files) == 0 ==> all == ParseAll(parse, Lines(Latest(files)))
      ensures lastAccessedByte == |Latest(files)|
    {
      all := [];
      for i := 0 to |files|
        invariant all == ParseAll(parse, PolledLines(files[..i]))
        invariant lastAccessedByte == |Latest(files[..i])|
      {
        OneMorePoll(parse, files, i);
        var messages := Poll(Some(files[i]), seekFails);
        all := all + messages;
      }
      assert files[..|files|] == files;
      if Growing(files) {
        PollingReadsOnce(files);
      }
    }
  }
}

/** A reader for simple text files such as configuration files: it hands
    out the stripped lines one at a time, skipping blank lines and, on
    request, comment lines (those whose first non-blank character is `#`).
    The file system is a parameter of `open`: a map from file names to
    their lines, each line as `readline` returns it (non-empty, with its
    line terminator). */
module TextFile {

  import opened Errors
  import opened Strings

  const Comment := "#"

  /** A line as the file object's `readline` returns it before end of
      file: never empty, since even a blank line keeps its terminator. */
  type RawLine = s: string | |s| > 0 witness "\n"

  /** An open file: its lines and how many have been read. */
  datatype Cursor = Cursor(lines: seq<RawLine>, pos: nat)

  /** A line `readline` hands back: non-blank once stripped and, when
      comments are ignored, not a comment. */
  predicate Qualifies(line: string, ignoreComments: bool)
  {
    var t := Strip(line);
    t != "" && !(ignoreComments && StartsWith(t, Comment))
  }

  /** The index of the first qualifying line at or after `pos`, or the
      number of lines when there is none. */
  function NextQualifying(lines: seq<RawLine>, pos: nat, ignoreComments: bool): (k: nat)
    requires pos <= |lines|
    ensures pos <= k <= |lines|
    decreases |lines| - pos
  {
    if pos == |lines| then pos
    else if Qualifies(lines[pos], ignoreComments) then pos
    else NextQualifying(lines, pos + 1, ignoreComments)
  }

  /** `NextQualifying` finds the first qualifying line: every line it skips
      fails to qualify, and the line it stops at qualifies. */
  lemma {:induction false} NextQualifyingSpec(lines: seq<RawLine>, pos: nat, ignoreComments: bool)
    requires pos <= |lines|
    ensures var k := NextQualifying(lines, pos, ignoreComments);
      (forall j :: pos <= j < k ==> !Qualifies(lines[j], ignoreComments))
      && (k < |lines| ==> Qualifies(lines[k], ignoreComments))
    decreases |lines| - pos
  {
    if pos < |lines| && !Qualifies(lines[pos], ignoreComments) {
      NextQualifyingSpec(lines, pos + 1, ignoreComments);
    }
  }

  /** The line `readline` returns before end of file is stripped and not
      blank, and with comments ignored it is not a comment. */
  lemma {:induction false} NextLineQualifies(lines: seq<RawLine>, pos: nat, ignoreComments: bool)
    requires pos <= |lines|
    ensures var k := NextQualifying(lines, pos, ignoreComments);
      k < |lines| ==>
        var l := Strip(lines[k]);
        l != "" && Strip(l) == l && !(ignoreComments && StartsWith(l, Comment))
  {
    NextQualifyingSpec(lines, pos, ignoreComments);
    var k := NextQualifying(lines, pos, ignoreComments);
    if k < |lines| {
      StripIdempotent(lines[k]);
    }
  }

  /** With comments not ignored only blank lines are skipped, so comment
      lines are returned like any other. */
  lemma {:induction false} OnlyBlankLinesSkipped(lines: seq<RawLine>, pos: nat)
    requires pos <= |lines|
    ensures forall j :: pos <= j < NextQualifying(lines, pos, false) ==> Strip(lines[j]) == ""
  {
    NextQualifyingSpec(lines, pos, false);
  }

  /** The stripped qualifying lines from `pos` on, in file order. */
  function Remaining(lines: seq<RawLine>, pos: nat, ignoreComments: bool): seq<string>
    requires pos <= |lines|
    decreases |lines| - pos
  {
    if pos == |lines| then []
    else if Qualifies(lines[pos], ignoreComments) then
      [Strip(lines[pos])] + Remaining(lines, pos + 1, ignoreComments)
    else Remaining(lines, pos + 1, ignoreComments)
  }

  /** Every line `readlines` returns is stripped and non-empty, and with
      comments ignored none is a comment. */
  lemma {:induction false} RemainingLinesQualify(lines: seq<RawLine>, pos: nat, ignoreComments: bool)
    requires pos <= |lines|
    ensures forall l :: l in Remaining(lines, pos, ignoreComments) ==>
      l != "" && Strip(l) == l && !(ignoreComments && StartsWith(l, Comment))
    decreases |lines| - pos
  {
    if pos < |lines| {
      RemainingLinesQualify(lines, pos + 1, ignoreComments);
      StripIdempotent(lines[pos]);
    }
  }

  /** Reading the next qualifying line leaves exactly the rest for
      `readlines`. */
  lemma {:induction false} RemainingAfterNext(lines: seq<RawLine>, pos: nat, ignoreComments: bool)
    requires pos <= |lines|
    ensures var k := NextQualifying(lines, pos, ignoreComments);
      Remaining(lines, pos, ignoreComments)
        == if k < |lines| then [Strip(lines[k])] + Remaining(lines, k + 1, ignoreComments) else []
    decreases |lines| - pos
  {
    if pos < |lines| && !Qualifies(lines[pos], ignoreComments) {
      RemainingAfterNext(lines, pos + 1, ignoreComments);
    }
  }

  /** The line `readline` returns from an open file: the next qualifying
      line, stripped, or the empty string at end of file. */
  function NextLine(c: Cursor, ignoreComments: bool): string
    requires c.pos <= |c.lines|
  {
    var k := NextQualifying(c.lines, c.pos, ignoreComments);
    if k < |c.lines| then Strip(c.lines[k]) else ""
  }

  /** The file after that `readline`: just past the line returned, or at
      its end, or closed when it reached the end with `close_on_eof` set. */
  function Advanced(c: Cursor, ignoreComments: bool, closeOnEof: bool): Option<Cursor>
    requires c.pos <= |c.lines|
  {
    var k := NextQualifying(c.lines, c.pos, ignoreComments);
    if k < |c.lines| then Some(Cursor(c.lines, k + 1))
    else if closeOnEof then None
    else Some(Cursor(c.lines, |c.lines|))
  }

  /** One `readline` as `readlines` sees it: a non-empty line is the first
      of the remaining lines, and the others remain after it; the empty
      line means that none remain and the file is at its end or closed. */
  lemma {:induction false} ReadStep(c: Cursor, ignoreComments: bool, closeOnEof: bool)
    requires c.pos <= |c.lines|
    ensures var line := NextLine(c, ignoreComments);
      var next := Advanced(c, ignoreComments, closeOnEof);
      line != "" ==> (next.Some? && next.value.lines == c.lines && c.pos < next.value.pos <= |c.lines|
        && Remaining(c.lines, c.pos, ignoreComments) == [line] + Remaining(c.lines, next.value.pos, ignoreComments))
    ensures var line := NextLine(c, ignoreComments);
      var next := Advanced(c, ignoreComments, closeOnEof);
      line == "" ==> (Remaining(c.lines, c.pos, ignoreComments) == []
        && next == (if closeOnEof then None else Some(Cursor(c.lines, |c.lines|))))
  {
    NextLineQualifies(c.lines, c.pos, ignoreComments);
    RemainingAfterNext(c.lines, c.pos, ignoreComments);
  }

  /** A `TextFile` object. */
  class TextFile {
    var filename: string
    var fd: Option<Cursor>
    var closeOnEof: bool

    /** An open file's read position lies within it. */
    predicate Valid()
      reads this
    {
      fd.Some? ==> fd.value.pos <= |fd.value.lines|
    }

    /** `TextFile(filename, open, close_on_eof)`: store the settings and, when
        a name is given and `open` is set, open the file with `open()`'s
        own default, so `close_on_eof` is then true whatever was asked. */
    constructor (name: string, openNow: bool, closeOnEofArg: bool, files: map<string, seq<RawLine>>)
      ensures Valid()
      ensures filename == name
      ensures |name| > 0 && openNow ==>
        closeOnEof && fd == (if name in files then Some(Cursor(files[name], 0)) else None)
      ensures !(|name| > 0 && openNow) ==> closeOnEof == closeOnEofArg && fd.None?
    {
      filename := name;
      fd := None;
      closeOnEof := closeOnEofArg;
      new;
      if |name| > 0 && openNow {
        var ok := Open("", true, files);
      }
    }

    /** `close()`: afterwards no file is open, however often it is called. */
    method Close()
      modifies this`fd
      ensures fd.None?
    {
      fd := None;
    }

    /** `open(name, close_on_eof)`: remember the flag and any new name, then
        close the current file and open the named one; a file that does not
        exist leaves no file open and gives `False`. With neither a new name
        nor a stored one `open` calls a method the class does not have
        (`print_msg`), which raises before anything is closed. */
    method Open(name: string, closeOnEofArg: bool, files: map<string, seq<RawLine>>)
      returns (r: Outcome<bool>)
      requires Valid()
      modifies this
      ensures Valid()
      ensures closeOnEof == closeOnEofArg
      ensures filename == if |name| > 0 then name else old(filename)
      ensures filename == "" ==> r == Raised(AttributeError("print_msg")) && fd == old(fd)
      ensures filename != "" ==> (r == Ok(filename in files)
        && fd == (if filename in files then Some(Cursor(files[filename], 0)) else None))
    {
      closeOnEof := closeOnEofArg;
      if |name| > 0 {
        filename := name;
      }
      if |filename| == 0 {
        return Raised(AttributeError("print_msg"));
      }
      Close();
      if filename in files {
        fd := Some(Cursor(files[filename], 0));
        return Ok(true);
      }
      return Ok(false);
    }

    /** `readline(ignore_comments)`: read on past blank lines (and comment
        lines when they are ignored) and return the first other line,
        stripped. At end of file return the empty string, closing the file
        when `close_on_eof` is set. A file that is not open gives the empty
        string and nothing changes. */
    method Readline(ignoreComments: bool) returns (line: string)
      requires Valid()
      modifies this`fd
      ensures Valid()
      ensures old(fd).None? ==> line == "" && fd == old(fd)
      ensures old(fd).Some? ==>
        line == NextLine(old(fd).value, ignoreComments) && fd == Advanced(old(fd).value, ignoreComments, closeOnEof)
    {
      line := "";
      if fd.None? {
        return;
      }
      var lines := fd.value.lines;
      var reading := true;
      while reading
        invariant fd.Some? && fd.value.lines == lines && fd.value.pos <= |lines|
        invariant reading ==>
          NextQualifying(lines, fd.value.pos, ignoreComments) == NextQualifying(lines, old(fd).value.pos, ignoreComments)
        invariant !reading ==> (fd.value.pos > 0 && fd.value.pos - 1 < |lines|
          && NextQualifying(lines, old(fd).value.pos, ignoreComments) == fd.value.pos - 1
          && line == Strip(lines[fd.value.pos - 1]))
        decreases if reading then |lines| - fd.value.pos + 1 else 0
      {
        var pos := fd.value.pos;
        if pos == |lines| {
          // End of file.
          line := "";
          if closeOnEof {
            Close();
          }
          return;
        }
        line := lines[pos];
        fd := Some(Cursor(lines, pos + 1));
        line := Strip(line);
        assert Qualifies(lines[pos], ignoreComments)
          <==> |line| > 0 && !(ignoreComments && StartsWith(line, Comment));
        if |line| > 0 {
          if ignoreComments {
            if !StartsWith(line, Comment) {
              reading := false;
            }
          } else {
            reading := false;
          }
        }
      }
    }

    /** The qualifying lines still to be read, or none when no file is
        open. */
    function Pending(ignoreComments: bool): seq<string>
      reads this
      requires Valid()
    {
      if fd.None? then [] else Remaining(fd.value.lines, fd.value.pos, ignoreComments)
    }

    /** `readlines(ignore_comments)`: every remaining qualifying line,
        stripped, in file order; the file is then at its end, and closed
        when `close_on_eof` is set. */
    method Readlines(ignoreComments: bool) returns (lineList: seq<string>)
      requires Valid()
      modifies this`fd
      ensures Valid()
      ensures lineList == old(Pending(ignoreComments))
      ensures old(fd).None? ==> fd == old(fd)
      ensures old(fd).Some? ==>
        fd == (if closeOnEof then None else Some(Cursor(old(fd).value.lines, |old(fd).value.lines|)))
    {
      // Each step is described by `ReadStep`; the bodies behind it are not needed.
      hide NextLine;
      hide Advanced;
      hide Remaining;
      hide NextQualifying;
      lineList := [];
      ghost var all := Pending(ignoreComments);
      if fd.Some? {
        ReadStep(fd.value, ignoreComments, closeOnEof);
      }
      var line := Readline(ignoreComments);
      while |line| > 0
        invariant Valid()
        invariant old(fd).None? ==> fd == old(fd) && line == "" && lineList == all
        invariant old(fd).Some? && line != "" ==> (fd.Some? && fd.value.lines == old(fd).value.lines
          && lineList + [line] + Pending(ignoreComments) == all)
        invariant old(fd).Some? && line == "" ==> (lineList == all
          && fd == (if closeOnEof then None else Some(Cursor(old(fd).value.lines, |old(fd).value.lines|))))
        decreases if line == "" || fd.None? then 0 else |fd.value.lines| - fd.value.pos + 2
      {
        lineList := lineList + [line];
        ReadStep(fd.value, ignoreComments, closeOnEof);
        line := Readline(ignoreComments);
      }
    }
  }
}

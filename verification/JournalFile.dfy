/** The journal as a file of lines, read back line by line: what an append that may be cut short does to it. */
module JournalFile {
  import opened WriteLog
  import opened CrashRecovery

  /** What reaches the file: the text of an entry, all of it or only a part, and newlines. */
  datatype Token = Text(e: Entry, whole: bool) | Newline

  /** Recording an entry writes its text and then a newline. */
  function Written(e: Entry, cut: Cut): seq<Token> {
    match cut
    case Whole => [Text(e, true), Newline]
    case NoNewline => [Text(e, true)]
    case Part => [Text(e, false)]
  }

  /** The line at the end of the file that no newline has ended yet. */
  function OpenLine(file: seq<Token>): seq<Token> {
    if file == [] || file[|file| - 1].Newline? then [] else OpenLine(file[..|file| - 1]) + [file[|file| - 1]]
  }

  /** A line can be read back if it is the whole text of one entry and nothing else; all others are passed over. */
  function Readable(line: seq<Token>): seq<Entry> {
    if |line| == 1 && line[0].Text? && line[0].whole then [line[0].e] else []
  }

  /** The entries of the lines that have been ended. */
  function EndedLines(file: seq<Token>): seq<Entry> {
    if file == [] then []
    else
      var front := file[..|file| - 1];
      if file[|file| - 1].Newline? then EndedLines(front) + Readable(OpenLine(front)) else EndedLines(front)
  }

  /** What a recovery reads: every line, and what stands after the last newline too. */
  function Entries(file: seq<Token>): seq<Entry> {
    EndedLines(file) + Readable(OpenLine(file))
  }

  function TailOf(file: seq<Token>): Tail {
    if OpenLine(file) == [] then Tail.Ended else if Readable(OpenLine(file)) != [] then Unended else Fragment
  }

  lemma OneToken(file: seq<Token>, t: Token)
    ensures (file + [t])[..|file|] == file && (file + [t])[|file|] == t
  {
  }

  lemma AppendText(file: seq<Token>, e: Entry, whole: bool)
    ensures var after := file + [Text(e, whole)];
            OpenLine(after) == OpenLine(file) + [Text(e, whole)] && EndedLines(after) == EndedLines(file)
  {
    OneToken(file, Text(e, whole));
  }

  lemma AppendNewline(file: seq<Token>)
    ensures var after := file + [Newline];
            OpenLine(after) == [] && EndedLines(after) == EndedLines(file) + Readable(OpenLine(file)) && Entries(after) == Entries(file)
  {
    OneToken(file, Newline);
  }

  lemma TextOnTail(file: seq<Token>, e: Entry, cut: Cut)
    requires !cut.Whole?
    ensures var (journal, tail) := Lined(Entries(file), TailOf(file), e, cut);
            Entries(file + Written(e, cut)) == journal && TailOf(file + Written(e, cut)) == tail
  {
    AppendText(file, e, cut.NoNewline?);
    var line := OpenLine(file) + [Text(e, cut.NoNewline?)];
    if OpenLine(file) == [] {
      assert line == [Text(e, cut.NoNewline?)] && EndedLines(file) + [] == EndedLines(file);
    } else {
      assert |line| > 1 && Readable(line) == [] && EndedLines(file) + [] == EndedLines(file);
      if Readable(OpenLine(file)) != [] { assert Entries(file)[..|Entries(file)| - 1] == EndedLines(file); }
    }
  }

  /** After any past, what can be read back once an entry was recorded, in full or in part, and how the file ends then. */
  lemma RecordedIsLined(file: seq<Token>, e: Entry, cut: Cut)
    ensures var (journal, tail) := Lined(Entries(file), TailOf(file), e, cut);
            Entries(file + Written(e, cut)) == journal && TailOf(file + Written(e, cut)) == tail
  {
    if cut.Whole? {
      TextOnTail(file, e, NoNewline);
      var texted := file + [Text(e, true)];
      AppendNewline(texted);
      assert file + Written(e, Whole) == texted + [Newline];
    } else {
      TextOnTail(file, e, cut);
    }
  }
}

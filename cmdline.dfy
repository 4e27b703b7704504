/*
 * getCommandName: the text shown in the "Command" panel. The contents of
 * /proc/<pid>/cmdline (arguments separated by NUL bytes) are split on NUL
 * and joined with a space; a failed read shows "unknown". Go strings are
 * byte strings: here each byte of the file is one `char`.
 */
module CommandLine {

  const NUL: char := '\0'

  /** The outcome of reading /proc/<pid>/cmdline: an error, or the file's bytes. */
  datatype FileRead = ReadFailed | ReadBytes(content: string)

  function Count(s: string, c: char): (n: nat)
    ensures n <= |s|
  {
    if s == [] then 0 else (if s[0] == c then 1 else 0) + Count(s[1..], c)
  }

  /**
   * strings.Split with a one-character separator: the pieces between
   * consecutive separators, so k separators give k + 1 pieces.
   */
  function Split(s: string, sep: char): (parts: seq<string>)
    ensures |parts| == Count(s, sep) + 1
    ensures forall i, j :: 0 <= i < |parts| && 0 <= j < |parts[i]| ==> parts[i][j] != sep
    decreases |s|
  {
    if s == [] then [[]]
    else
      var rest := Split(s[1..], sep);
      if s[0] == sep then [[]] + rest
      else [[s[0]] + rest[0]] + rest[1..]
  }

  /**
   * strings.Join with a one-character separator: the first piece, then a
   * separator before each further piece; no pieces give the empty string.
   */
  function Join(parts: seq<string>, sep: char): (s: string)
    ensures parts == [] ==> s == []
    ensures parts != [] ==> |parts[0]| <= |s| && s[..|parts[0]|] == parts[0]
    ensures |parts| >= 2 ==> |s| > |parts[0]| && s[|parts[0]|] == sep
    ensures |s| >= |parts| - 1
    decreases |parts|
  {
    if |parts| == 0 then []
    else if |parts| == 1 then parts[0]
    else parts[0] + [sep] + Join(parts[1..], sep)
  }

  /** Every occurrence of `from` in `s` replaced by `to`. */
  function Replace(s: string, from: char, to: char): (r: string)
    ensures |r| == |s|
    ensures forall i :: 0 <= i < |s| ==> r[i] == (if s[i] == from then to else s[i])
    decreases |s|
  {
    if s == [] then [] else [if s[0] == from then to else s[0]] + Replace(s[1..], from, to)
  }

  /** A leading empty piece contributes just one separator. */
  lemma JoinAfterEmpty(parts: seq<string>, glue: char)
    requires parts != []
    ensures Join([[]] + parts, glue) == [glue] + Join(parts, glue)
  {
    assert ([[]] + parts)[1..] == parts;
  }

  /** A character in front of the first piece stands in front of the joined text. */
  lemma JoinConsFirst(c: char, parts: seq<string>, glue: char)
    requires parts != []
    ensures Join([[c] + parts[0]] + parts[1..], glue) == [c] + Join(parts, glue)
  {
    var joined := [[c] + parts[0]] + parts[1..];
    if |parts| >= 2 {
      assert joined[1..] == parts[1..];
      assert Join(joined, glue) == [c] + (parts[0] + [glue] + Join(parts[1..], glue));
    }
  }

  /** Splitting on one character and joining with another is a character-wise replacement. */
  lemma {:induction false} JoinSplit(s: string, sep: char, glue: char)
    ensures Join(Split(s, sep), glue) == Replace(s, sep, glue)
    decreases |s|
  {
    if s != [] {
      JoinSplit(s[1..], sep, glue);
      var rest := Split(s[1..], sep);
      if s[0] == sep {
        JoinAfterEmpty(rest, glue);
      } else {
        JoinConsFirst(s[0], rest, glue);
      }
    }
  }

  /** Joining the pieces back with the same separator restores the original text. */
  lemma SplitRoundTrip(s: string, sep: char)
    ensures Join(Split(s, sep), sep) == s
  {
    JoinSplit(s, sep, sep);
    assert Replace(s, sep, sep) == s;
  }

  /** getCommandName, given the outcome of reading the cmdline file. */
  function CommandName(read: FileRead): (name: string)
    ensures read.ReadFailed? ==> name == "unknown"
    ensures read.ReadBytes? ==> |name| == |read.content|
    ensures read.ReadBytes? ==> forall i :: 0 <= i < |name| ==>
      name[i] == (if read.content[i] == NUL then ' ' else read.content[i])
  {
    match read
    case ReadFailed => "unknown"
    case ReadBytes(content) =>
      JoinSplit(content, NUL, ' ');
      Join(Split(content, NUL), ' ')
  }
}

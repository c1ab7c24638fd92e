/** The first token a line-splitting scanner (`bufio.Scanner` with its
    default split function, `bufio.ScanLines`) yields from a file's bytes:
    the bytes up to the first newline, without the newline and without one
    carriage return just before it. */
module LineScanner {
  import opened GoTypes

  const NEWLINE: byte := 10
  const CARRIAGE_RETURN: byte := 13

  /** The index of the first newline in `data`, or `|data|` when there is none. */
  function LineEnd(data: seq<byte>): (i: nat)
    ensures i <= |data|
    ensures NEWLINE !in data[..i]
    ensures i < |data| ==> data[i] == NEWLINE
  {
    if |data| == 0 then 0
    else if data[0] == NEWLINE then 0
    else
      var j := LineEnd(data[1..]);
      assert data[..1 + j] == [data[0]] + data[1..][..j];
      1 + j
  }

  /** A line without the one carriage return that may end it. */
  function DropCR(line: seq<byte>): (r: seq<byte>)
    ensures r <= line
    ensures line == r || line == r + [CARRIAGE_RETURN]
    ensures |line| > 0 && line[|line| - 1] == CARRIAGE_RETURN ==> |r| == |line| - 1
  {
    if |line| > 0 && line[|line| - 1] == CARRIAGE_RETURN then line[..|line| - 1] else line
  }

  /** The first `Scan()` of a file holding `data`, read through to its end:
      `None` when the scanner yields no token (the file is empty), otherwise
      the text of the first line. A file holding only a newline yields the
      empty line, not `None`. */
  function FirstLine(data: seq<byte>): (line: Option<seq<byte>>)
    ensures line.None? <==> |data| == 0
    ensures line.Some? ==> line.value <= data && NEWLINE !in line.value
  {
    if |data| == 0 then None else Some(DropCR(data[..LineEnd(data)]))
  }

  /** A first line that ends in a newline, followed by anything, scans back
      to that line; so does one that ends the file. */
  lemma {:induction false} FirstLineOfTerminated(line: seq<byte>, rest: seq<byte>)
    requires NEWLINE !in line
    requires |line| == 0 || line[|line| - 1] != CARRIAGE_RETURN
    ensures FirstLine(line + [NEWLINE] + rest) == Some(line)
    ensures |line| > 0 ==> FirstLine(line) == Some(line)
  {
    var data := line + [NEWLINE] + rest;
    LineEndAfter(line, [NEWLINE] + rest);
    assert data == line + ([NEWLINE] + rest);
    assert data[..|line|] == line;
    LineEndAfter(line, []);
    assert line + [] == line;
  }

  /** Windows line endings: exactly one carriage return before the newline
      is dropped, and so is one that ends the file; any carriage returns
      before it stay in the line. */
  lemma FirstLineOfCRLF(line: seq<byte>, rest: seq<byte>)
    requires NEWLINE !in line
    ensures FirstLine(line + [CARRIAGE_RETURN, NEWLINE] + rest) == Some(line)
    ensures FirstLine(line + [CARRIAGE_RETURN]) == Some(line)
  {
    LineEndAfter(line + [CARRIAGE_RETURN], []);
    assert line + [CARRIAGE_RETURN] + [] == line + [CARRIAGE_RETURN];
    var data := line + [CARRIAGE_RETURN, NEWLINE] + rest;
    LineEndAfter(line + [CARRIAGE_RETURN], [NEWLINE] + rest);
    assert data == (line + [CARRIAGE_RETURN]) + ([NEWLINE] + rest);
    assert data[..|line| + 1] == line + [CARRIAGE_RETURN];
  }

  /** The line end of `line + tail`, where `line` holds no newline and `tail`
      is empty or starts with one, is the end of `line`. */
  lemma {:induction false} LineEndAfter(line: seq<byte>, tail: seq<byte>)
    requires NEWLINE !in line
    requires |tail| == 0 || tail[0] == NEWLINE
    ensures LineEnd(line + tail) == |line|
  {
    if |line| > 0 {
      assert (line + tail)[1..] == line[1..] + tail;
      assert line == [line[0]] + line[1..];
      LineEndAfter(line[1..], tail);
    }
  }

  /** `12\r\r\n` scans to `12\r`: only the last carriage return goes. */
  lemma DoubleCarriageReturn()
    ensures FirstLine([49, 50, CARRIAGE_RETURN, CARRIAGE_RETURN, NEWLINE]) == Some([49, 50, CARRIAGE_RETURN])
  {
    FirstLineOfCRLF([49, 50, CARRIAGE_RETURN], []);
    assert [49, 50, CARRIAGE_RETURN] + [CARRIAGE_RETURN, NEWLINE] + []
        == [49, 50, CARRIAGE_RETURN, CARRIAGE_RETURN, NEWLINE];
  }
}

/**
 * The session's text file "faceData.txt": every record's `str` rendering, in
 * buffer order, joined by "\n" (FaceDataRecorder/ViewController.swift:159-161).
 */
module DataFile {
  import opened Geometry

  const Newline: char := '\n'

  predicate IsLine(s: string) { Newline !in s }

  /** `lines.joined(separator: "\n")`. */
  function Join(lines: seq<string>): (text: string)
    ensures lines == [] ==> text == []
  {
    if lines == [] then []
    else if |lines| == 1 then lines[0]
    else lines[0] + [Newline] + Join(lines[1..])
  }

  /** Position of the first newline in `s`. */
  function FirstNewline(s: string): (i: nat)
    requires Newline in s
    ensures i < |s| && s[i] == Newline && Newline !in s[..i]
  {
    if s[0] == Newline then 0
    else
      assert Newline in s[1..] by { var k :| 0 <= k < |s| && s[k] == Newline; assert s[1..][k - 1] == Newline; }
      var j := FirstNewline(s[1..]);
      assert s[..j + 1] == [s[0]] + s[1..][..j];
      j + 1
  }

  /** Cuts a text into its lines at every newline (the reader's view of the file). */
  function SplitLines(s: string): (lines: seq<string>)
    ensures |lines| >= 1
    ensures forall k :: 0 <= k < |lines| ==> IsLine(lines[k])
    decreases |s|
  {
    if Newline !in s then [s]
    else
      var i := FirstNewline(s);
      [s[..i]] + SplitLines(s[i + 1..])
  }

  /** Joining lines that hold no newline and cutting the result again gives the lines back. */
  lemma {:induction false} SplitJoin(lines: seq<string>)
    requires |lines| >= 1
    requires forall k :: 0 <= k < |lines| ==> IsLine(lines[k])
    ensures SplitLines(Join(lines)) == lines
  {
    if |lines| > 1 {
      var a := lines[0];
      var rest := Join(lines[1..]);
      var text := Join(lines);
      assert text == a + [Newline] + rest;
      assert text[|a|] == Newline;
      assert Newline in text;
      var i := FirstNewline(text);
      assert text[..i] == a;
      assert text[i + 1..] == rest;
      SplitJoin(lines[1..]);
    }
  }

  /** The whole file written at stop: one rendering per record, in buffer order. */
  function FaceDataText(render: CaptureData -> string, records: seq<CaptureData>): string
  {
    Join(Rendered(render, records))
  }

  function Rendered(render: CaptureData -> string, records: seq<CaptureData>): (lines: seq<string>)
    ensures |lines| == |records|
    ensures forall k :: 0 <= k < |records| ==> lines[k] == render(records[k])
  {
    if records == [] then [] else [render(records[0])] + Rendered(render, records[1..])
  }

  /**
   * n records give a file of exactly n lines, the k-th being the k-th record's
   * rendering, provided no rendering holds a newline; no records give an empty file.
   */
  lemma FaceDataLines(render: CaptureData -> string, records: seq<CaptureData>)
    requires forall k :: 0 <= k < |records| ==> IsLine(render(records[k]))
    ensures records == [] ==> FaceDataText(render, records) == []
    ensures records != [] ==>
      var lines := SplitLines(FaceDataText(render, records));
      |lines| == |records| && forall k :: 0 <= k < |records| ==> lines[k] == render(records[k])
  {
    if records != [] {
      SplitJoin(Rendered(render, records));
    }
  }
}

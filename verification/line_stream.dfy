/**
  Reading a captured stream with `while (std::getline(is, line)) os << line << std::endl;`.
  A stream is the whole captured text plus a read position; getline extracts
  characters up to the next '\n' (which it consumes but does not store) or to
  the end, and fails only when it reaches the end without extracting anything.
*/
module LineStream {

  /** True when `s` holds no line terminator. */
  predicate NoNewline(s: string) {
    forall k :: 0 <= k < |s| ==> s[k] != '\n'
  }

  /** Reference meaning of the reconstruction: the text itself when it is empty
      or already ends in '\n', otherwise the text with one '\n' appended. */
  function Terminate(s: string): string {
    if s == [] || s[|s| - 1] == '\n' then s else s + "\n"
  }

  /** Index of the first '\n' at or after `from`, or |s| when there is none. */
  function FindNewline(s: string, from: nat): (i: nat)
    requires from <= |s|
    ensures from <= i <= |s|
    ensures i < |s| ==> s[i] == '\n'
    ensures forall k :: from <= k < i ==> s[k] != '\n'
    decreases |s| - from
  {
    if from == |s| || s[from] == '\n' then from else FindNewline(s, from + 1)
  }

  /** One std::getline call: a line and the position after it, or end of stream. */
  datatype GetlineResult = Line(text: string, next: nat) | EndOfStream

  function Getline(s: string, pos: nat): (r: GetlineResult)
    requires pos <= |s|
    ensures r.EndOfStream? <==> pos == |s|
    ensures r.Line? ==>
      && pos < r.next <= |s|
      && NoNewline(r.text)
      && if s[r.next - 1] == '\n' then r.text == s[pos..r.next - 1]
         else r.next == |s| && r.text == s[pos..]
  {
    if pos == |s| then EndOfStream
    else
      var i := FindNewline(s, pos);
      if i < |s| then Line(s[pos..i], i + 1) else Line(s[pos..], |s|)
  }

  /** The lines successive getline calls return from position `pos` on. */
  function LinesFrom(s: string, pos: nat): (lines: seq<string>)
    requires pos <= |s|
    ensures forall j :: 0 <= j < |lines| ==> NoNewline(lines[j])
    decreases |s| - pos
  {
    match Getline(s, pos)
    case EndOfStream => []
    case Line(text, next) => [text] + LinesFrom(s, next)
  }

  function Lines(s: string): seq<string> {
    LinesFrom(s, 0)
  }

  /** The text the output stream holds after `os << line << std::endl` for each line. */
  function Rebuild(lines: seq<string>): string {
    if lines == [] then [] else lines[0] + "\n" + Rebuild(lines[1..])
  }

  /** The captured text as ExecuteTankCommand returns it. */
  function Reconstruct(s: string): (t: string)
    ensures t == Terminate(s)
  {
    RebuildLinesFrom(s, 0);
    assert s[0..] == s;
    Rebuild(Lines(s))
  }

  /** Terminating the rest of a stream is terminating the line getline reads
      there, followed by terminating what comes after it. */
  lemma TerminateAfterLine(s: string, pos: nat)
    requires pos < |s|
    ensures Terminate(s[pos..]) == Getline(s, pos).text + "\n" + Terminate(s[Getline(s, pos).next..])
  {
    var text, next := Getline(s, pos).text, Getline(s, pos).next;
    var t := s[pos..];
    if s[next - 1] == '\n' {
      assert text == s[pos..next - 1];
      assert t == (text + "\n") + s[next..] by {
        assert s[pos..next] == s[pos..next - 1] + [s[next - 1]];
        assert s[pos..] == s[pos..next] + s[next..];
      }
      if next < |s| {
        assert t[|t| - 1] == s[|s| - 1];
      }
    } else {
      assert next == |s| && text == t;
      assert t[|t| - 1] == s[next - 1];
    }
  }

  /** Rebuilding the lines read from `pos` terminates the rest of the stream. */
  lemma {:induction false} RebuildLinesFrom(s: string, pos: nat)
    requires pos <= |s|
    ensures Rebuild(LinesFrom(s, pos)) == Terminate(s[pos..])
    decreases |s| - pos
  {
    if pos < |s| {
      var text, next := Getline(s, pos).text, Getline(s, pos).next;
      var rest := LinesFrom(s, next);
      assert Rebuild(LinesFrom(s, pos)) == text + "\n" + Rebuild(rest) by {
        assert LinesFrom(s, pos) == [text] + rest;
        assert ([text] + rest)[1..] == rest;
      }
      RebuildLinesFrom(s, next);
      TerminateAfterLine(s, pos);
    }
  }

  /** Reconstruction leaves empty and already-terminated text alone and adds the
      missing final terminator otherwise; its output is always terminated. */
  lemma ReconstructTerminates(s: string)
    ensures s == [] || s[|s| - 1] == '\n' ==> Reconstruct(s) == s
    ensures s != [] && s[|s| - 1] != '\n' ==> Reconstruct(s) == s + "\n"
    ensures Reconstruct(s) == [] || Reconstruct(s)[|Reconstruct(s)| - 1] == '\n'
  {
  }

  /** Reconstructing a reconstructed stream changes nothing. */
  lemma ReconstructIdempotent(s: string)
    ensures Reconstruct(Reconstruct(s)) == Reconstruct(s)
  {
  }

  /** Shifting a search by a prefix shifts its answer by the prefix's length. */
  lemma {:induction false} FindNewlineShift(p: string, t: string, k: nat)
    requires k <= |t|
    ensures FindNewline(p + t, |p| + k) == |p| + FindNewline(t, k)
    decreases |t| - k
  {
    if k < |t| && t[k] != '\n' {
      assert (p + t)[|p| + k] == t[k];
      FindNewlineShift(p, t, k + 1);
    }
  }

  /** A getline call after a prefix reads the line the remaining text starts with. */
  lemma GetlineShift(p: string, t: string, k: nat)
    requires k < |t|
    ensures Getline(p + t, |p| + k).text == Getline(t, k).text
    ensures Getline(p + t, |p| + k).next == |p| + Getline(t, k).next
  {
    FindNewlineShift(p, t, k);
    var i := FindNewline(t, k);
    assert (p + t)[|p| + k..|p| + i] == t[k..i];
    assert (p + t)[|p| + k..] == t[k..];
  }

  /** Reading after a prefix yields the lines the remaining text yields alone. */
  lemma {:induction false} LinesFromShift(p: string, t: string, k: nat)
    requires k <= |t|
    ensures LinesFrom(p + t, |p| + k) == LinesFrom(t, k)
    decreases |t| - k
  {
    if k < |t| {
      GetlineShift(p, t, k);
      LinesFromShift(p, t, Getline(t, k).next);
    }
  }

  /** Writing lines free of '\n' and reading them back gives the same lines. */
  lemma {:induction false} LinesOfRebuild(lines: seq<string>)
    requires forall j :: 0 <= j < |lines| ==> NoNewline(lines[j])
    ensures Lines(Rebuild(lines)) == lines
  {
    if lines != [] {
      var head := lines[0] + "\n";
      var tail := Rebuild(lines[1..]);
      assert Rebuild(lines) == head + tail;
      assert NoNewline(lines[0]);
      FindNewlineShift([], head + tail, 0);
      assert FindNewline(head + tail, 0) == |lines[0]| by {
        assert (head + tail)[|lines[0]|] == '\n';
        assert forall k :: 0 <= k < |lines[0]| ==> (head + tail)[k] == lines[0][k];
      }
      assert (head + tail)[0..|lines[0]|] == lines[0];
      LinesFromShift(head, tail, 0);
      LinesOfRebuild(lines[1..]);
    }
  }

  /** Reconstruction loses no line: it reads back as the lines of the original. */
  lemma LinesOfReconstruct(s: string)
    ensures Lines(Reconstruct(s)) == Lines(s)
  {
    assert Reconstruct(s) == Rebuild(Lines(s)) by {
      RebuildLinesFrom(s, 0);
      assert s[0..] == s;
    }
    LinesOfRebuild(Lines(s));
  }

  /** Output that was written line by line comes back unchanged. */
  lemma {:induction false} ReconstructOfRebuild(lines: seq<string>)
    ensures Reconstruct(Rebuild(lines)) == Rebuild(lines)
  {
    if lines != [] {
      ReconstructOfRebuild(lines[1..]);
      var r := Rebuild(lines);
      assert r == (lines[0] + "\n") + Rebuild(lines[1..]);
      if Rebuild(lines[1..]) == [] {
        assert r[|r| - 1] == '\n';
      } else {
        assert r[|r| - 1] == Rebuild(lines[1..])[|Rebuild(lines[1..])| - 1];
      }
    }
  }

  /** The read loop itself, one getline call per iteration. */
  method ReadAll(s: string) returns (out: string)
    ensures out == Reconstruct(s)
    ensures out == Terminate(s)
  {
    out := "";
    var pos := 0;
    var r := Getline(s, pos);
    while r.Line?
      invariant pos <= |s|
      invariant r == Getline(s, pos)
      invariant out + Rebuild(LinesFrom(s, pos)) == Rebuild(Lines(s))
      decreases |s| - pos
    {
      var rest := LinesFrom(s, r.next);
      assert LinesFrom(s, pos) == [r.text] + rest;
      assert ([r.text] + rest)[1..] == rest;
      out := out + r.text + "\n";
      pos := r.next;
      r := Getline(s, pos);
    }
    RebuildLinesFrom(s, 0);
    assert s[0..] == s;
  }
}

/** Splitting a child's standard output into lines while it arrives in chunks. */
module StdoutReader {
  import opened Lines

  /** What the line callback is to see for a whole output: every terminated line
      with one trailing carriage return dropped, then a last fragment as it is. */
  function Emitted(output: string): seq<string> {
    var p := Of(output);
    DropCRs(p.lines) + if p.tail == "" then [] else [p.tail]
  }

  method EmitComplete(text: string) returns (emitted: seq<string>, carry: string)
    ensures emitted == DropCRs(Of(text).lines) && carry == Of(text).tail
  {
    hide Of;
    emitted, carry := [], text;
    var pos := Find(carry, '\n');
    while pos < |carry|
      invariant pos == Find(carry, '\n')
      invariant emitted + DropCRs(Of(carry).lines) == DropCRs(Of(text).lines)
      invariant Of(carry).tail == Of(text).tail
      decreases |carry|
    {
      var line := carry[..pos];
      OfFirstLine(line, carry[pos + 1..]);
      assert carry == line + "\n" + carry[pos + 1..];
      assert DropCRs([line] + Of(carry[pos + 1..]).lines) == [DropCR(line)] + DropCRs(Of(carry[pos + 1..]).lines);
      emitted := emitted + [DropCR(line)];
      carry := carry[pos + 1..];
      pos := Find(carry, '\n');
    }
    assert carry == carry[..pos];
    OfNewlineFree(carry);
  }

  /** Only the carried fragment matters for what a further chunk completes. */
  lemma CarryOn(got: string, chunk: string)
    ensures var carry := Of(got).tail;
      && DropCRs(Of(got + chunk).lines) == DropCRs(Of(got).lines) + DropCRs(Of(carry + chunk).lines)
      && Of(got + chunk).tail == Of(carry + chunk).tail
  {
    hide Of;
    OfConcat(got, chunk);
  }

  /** However the output is cut into chunks, the lines emitted are those of the whole output. */
  method StdoutReaderLoop(chunks: seq<string>) returns (emitted: seq<string>)
    ensures emitted == Emitted(Delivered(chunks))
  {
    emitted := [];
    var carry := "";
    ghost var got := "";
    var i := 0;
    assert Of(got) == Split([], "") && chunks[0..] == chunks;
    hide Of, DropCRs, Delivered;
    while i < |chunks| && chunks[i] != ""
      invariant i <= |chunks| && got + Delivered(chunks[i..]) == Delivered(chunks)
      invariant emitted == DropCRs(Of(got).lines) && carry == Of(got).tail
    {
      CarryOn(got, chunks[i]);
      DeliveredFrom(chunks, i);
      Associative(got, chunks[i], Delivered(chunks[i + 1..]));
      var lines, rest := EmitComplete(carry + chunks[i]);
      emitted, carry := emitted + lines, rest;
      got := got + chunks[i];
      i := i + 1;
    }
    DeliveredFrom(chunks, i);
    assert got + "" == got;
    if carry != "" {
      emitted := emitted + [carry];
    }
  }

  /** Line by line: each terminated line is emitted without the carriage return that
      may end it, and a last fragment, if there is one, as it is. */
  lemma EmittedLines(lines: seq<string>, tail: string)
    requires AllNewlineFree(lines) && NewlineFree(tail)
    ensures var out := Emitted(Join(lines) + tail);
      && |out| == |lines| + (if tail == "" then 0 else 1)
      && (tail != "" ==> out[|lines|] == tail)
      && forall k | 0 <= k < |lines| ::
           out[k] == if lines[k] != "" && lines[k][|lines[k]| - 1] == '\r' then lines[k][..|lines[k]| - 1] else lines[k]
  {
    SplitIs(lines, tail);
  }
}

/** Writers and reader end to end: what comes back from a tree that is written and parsed again. */
module JsonPipeline {
  import opened Basics
  import opened JsonValues
  import opened JsonGrammar
  import opened JsonLexer
  import opened JsonRoundTrip
  import JsonReader
  import JsonStyledWriter
  import JsonWriters

  /** What the reader makes of the compact text. */
  function Reparsed(scan: string -> Option<real>, show: real -> string, v: Value, root: Value): Parsed
    requires WF(v)
  {
    ParseText(scan, FastText(show, ":", v), root)
  }

  method ThroughFast(scan: string -> Option<real>, show: real -> string, v: Value, root: Value)
    returns (ok: bool, back: Value)
    requires ShowsNumbers(show) && Writable(v)
    ensures ok == Reparsed(scan, show, v, root).ok && back == Reparsed(scan, show, v, root).value
    ensures RealFree(v) ==> ((ok && back == v) <==> Canonical(v))
  {
    var writer := new JsonWriters.FastWriter(show);
    var text := writer.Write(v);
    var reader := new JsonReader.Reader(scan);
    ok, back := reader.Parse(text, root);
    if RealFree(v) {
      FastRoundTrip(scan, show, v, root);
    }
  }

  /** Both pretty-printers, whatever they decide about lines: the same as the compact writer. */
  method ThroughStyled(scan: string -> Option<real>, show: real -> string, v: Value, root: Value,
                       stream: bool, indentation: string)
    returns (ok: bool, back: Value)
    requires ShowsNumbers(show) && Writable(v) && AllSpaces(indentation)
    ensures ok == Reparsed(scan, show, v, root).ok && back == Reparsed(scan, show, v, root).value
    ensures RealFree(v) ==> ((ok && back == v) <==> Canonical(v))
  {
    var writer: JsonStyledWriter.StyledWriter;
    if stream {
      writer := new JsonStyledWriter.StyledWriter.Stream(show, indentation);
    } else {
      writer := new JsonStyledWriter.StyledWriter(show);
    }
    var text := writer.Write(v);
    var reader := new JsonReader.Reader(scan);
    ok, back := reader.Parse(text, root);
    LayoutIndependence(scan, show, v, text, root);
    if RealFree(v) {
      FastRoundTrip(scan, show, v, root);
    }
  }
}

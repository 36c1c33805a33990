/**
 * The report decoder of `runYarnAudit` (audit.js): every chunk the audit command writes
 * to standard output is split into lines, each line is decoded as JSON, and the lines
 * that are objects with a truthy `value` and truthy `children` become flat vulnerability
 * records, in the order the lines came. JSON decoding is the parameter `parse`: `None`
 * stands for a line `JSON.parse` rejects or one that is not an object.
 */
module AuditDecode {
  import opened Wrappers
  import opened Text

  /** The `children` object of a report line. An absent optional field is `None`;
      an absent or empty "Vulnerable Versions" is the empty string. */
  datatype Children = Children(
    id: string,
    issue: string,
    url: string,
    severity: Option<string>,
    vulnerableVersions: string,
    treeVersions: Option<seq<string>>,
    dependents: Option<seq<string>>)

  /** A decoded report line: `value` is "" when it is missing or falsy, `children` is
      `None` when it is missing or falsy. */
  datatype JsonLine = JsonLine(value: string, children: Option<Children>)

  /** The record `runYarnAudit` pushes for one report line. */
  datatype Vulnerability = Vulnerability(
    moduleName: string,
    id: string,
    issue: string,
    url: string,
    severity: Option<string>,
    vulnerableVersions: string,
    treeVersions: Option<seq<string>>,
    dependents: Option<seq<string>>)

  /** The body of the `forEach` callback for one decoded line. */
  function DecodeLine(parsed: Option<JsonLine>): (r: Option<Vulnerability>)
    ensures r.Some? <==> parsed.Some? && parsed.value.value != "" && parsed.value.children.Some?
    ensures r.Some? ==>
      var c := parsed.value.children.value;
      && r.value.moduleName == parsed.value.value
      && r.value.id == c.id && r.value.issue == c.issue && r.value.url == c.url
      && r.value.severity == c.severity && r.value.vulnerableVersions == c.vulnerableVersions
      && r.value.treeVersions == c.treeVersions && r.value.dependents == c.dependents
  {
    match parsed
    case None => None
    case Some(line) =>
      if line.value != "" && line.children.Some? then
        var c := line.children.value;
        Some(Vulnerability(line.value, c.id, c.issue, c.url, c.severity,
                           c.vulnerableVersions, c.treeVersions, c.dependents))
      else None
  }

  /** The records of a sequence of lines, one per line that decodes to a report line. */
  function DecodeLines(lines: seq<string>, parse: string -> Option<JsonLine>): (r: seq<Vulnerability>)
    ensures |r| <= |lines|
  {
    if lines == [] then []
    else
      var init := DecodeLines(lines[..|lines| - 1], parse);
      match DecodeLine(parse(lines[|lines| - 1]))
      case None => init
      case Some(v) => init + [v]
  }

  /** The indices of the lines that yield a record, in increasing order. */
  function KeptLines(lines: seq<string>, parse: string -> Option<JsonLine>): seq<nat>
  {
    if lines == [] then []
    else
      var init := KeptLines(lines[..|lines| - 1], parse);
      if DecodeLine(parse(lines[|lines| - 1])).Some? then init + [|lines| - 1] else init
  }

  /**
   * The records are exactly the decodings of the kept lines, in line order: record j
   * comes from line KeptLines[j], the kept indices increase, and a line is kept exactly
   * when it decodes to a report line. In particular there are never more records than lines.
   */
  lemma {:induction false} DecodeLinesOrigins(lines: seq<string>, parse: string -> Option<JsonLine>)
    ensures |KeptLines(lines, parse)| == |DecodeLines(lines, parse)| <= |lines|
    ensures forall j :: 0 <= j < |KeptLines(lines, parse)| ==> KeptLines(lines, parse)[j] < |lines|
    ensures forall j, k :: 0 <= j < k < |KeptLines(lines, parse)| ==>
      KeptLines(lines, parse)[j] < KeptLines(lines, parse)[k]
    ensures forall j :: 0 <= j < |KeptLines(lines, parse)| ==>
      DecodeLine(parse(lines[KeptLines(lines, parse)[j]])) == Some(DecodeLines(lines, parse)[j])
    ensures forall i :: 0 <= i < |lines| ==>
      (DecodeLine(parse(lines[i])).Some? <==> i in KeptLines(lines, parse))
  {
    if lines != [] {
      var init := lines[..|lines| - 1];
      DecodeLinesOrigins(init, parse);
      forall i | 0 <= i < |init| ensures lines[i] == init[i] { }
    }
  }

  /** Decoding is line by line: decoding two runs of lines one after the other gives
      the records of their concatenation. */
  lemma {:induction false} DecodeLinesAppend(a: seq<string>, b: seq<string>, parse: string -> Option<JsonLine>)
    ensures DecodeLines(a + b, parse) == DecodeLines(a, parse) + DecodeLines(b, parse)
    decreases |b|
  {
    if b == [] {
      assert a + b == a;
    } else {
      var b' := b[..|b| - 1];
      assert (a + b)[..|a + b| - 1] == a + b';
      assert (a + b)[|a + b| - 1] == b[|b| - 1];
      DecodeLinesAppend(a, b', parse);
    }
  }

  /** The lines of all chunks, each chunk split on "\n" on its own. */
  function StreamLines(chunks: seq<string>): seq<string>
  {
    if chunks == [] then [] else StreamLines(chunks[..|chunks| - 1]) + Split(chunks[|chunks| - 1], '\n')
  }

  lemma DecodeLinesSnoc(lines: seq<string>, line: string, parse: string -> Option<JsonLine>)
    ensures DecodeLines(lines + [line], parse) ==
      DecodeLines(lines, parse) + (if DecodeLine(parse(line)).Some? then [DecodeLine(parse(line)).value] else [])
  {
    var all := lines + [line];
    assert all[..|all| - 1] == lines;
  }

  lemma StreamLinesSnoc(chunks: seq<string>, c: nat)
    requires c < |chunks|
    ensures StreamLines(chunks[..c + 1]) == StreamLines(chunks[..c]) + Split(chunks[c], '\n')
  {
    assert chunks[..c + 1][..c] == chunks[..c];
  }

  /** One call of the `data` handler: the records of the lines of one chunk, in order. */
  method DecodeChunk(chunk: string, parse: string -> Option<JsonLine>)
    returns (found: seq<Vulnerability>)
    ensures found == DecodeLines(Split(chunk, '\n'), parse)
  {
    var lines := Split(chunk, '\n');
    found := [];
    var j := 0;
    while j < |lines|
      invariant 0 <= j <= |lines|
      invariant found == DecodeLines(lines[..j], parse)
    {
      assert lines[..j + 1] == lines[..j] + [lines[j]];
      DecodeLinesSnoc(lines[..j], lines[j], parse);
      match DecodeLine(parse(lines[j])) {
        case Some(v) => found := found + [v];
        case None =>
      }
      j := j + 1;
    }
    assert lines[..j] == lines;
  }

  /**
   * The `data` handler of `runYarnAudit` run over every chunk of standard output: it
   * pushes, in order, the record of each line of each chunk that decodes to a report line.
   */
  method CollectVulnerabilities(chunks: seq<string>, parse: string -> Option<JsonLine>)
    returns (vulnerabilities: seq<Vulnerability>)
    ensures vulnerabilities == DecodeLines(StreamLines(chunks), parse)
  {
    vulnerabilities := [];
    var c := 0;
    while c < |chunks|
      invariant 0 <= c <= |chunks|
      invariant vulnerabilities == DecodeLines(StreamLines(chunks[..c]), parse)
    {
      var found := DecodeChunk(chunks[c], parse);
      StreamLinesSnoc(chunks, c);
      DecodeLinesAppend(StreamLines(chunks[..c]), Split(chunks[c], '\n'), parse);
      vulnerabilities := vulnerabilities + found;
      c := c + 1;
    }
    assert chunks[..c] == chunks;
  }
}
